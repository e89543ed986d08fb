/**
 * The path translator of newlib's AmigaOS 4 port: Unix paths to AmigaDOS
 * paths and back, and the in-place normalisation of separators.
 * out is a buffer of len bytes and a result is the C string left in it;
 * None stands for a NULL return. semantics is the global
 * __unix_path_semantics.
 */
module PathConv {
  import opened CStrings

  /** size_t: 32 bits on AmigaOS 4. */
  type SizeT = n: nat | n < 0x1_0000_0000

  /** The test vol_len > 0 && vol_len < len - 2 as written: len - 2 is computed in size_t. */
  predicate VolumeFitsAsWritten(volLen: nat, len: SizeT)
  {
    volLen > 0 && volLen < (len - 2) % Two32
  }

  /** The intended test: a separator, the volume name, a colon or slash and the NUL fit in len bytes. */
  predicate VolumeFits(volLen: nat, len: SizeT)
  {
    volLen > 0 && volLen + 2 < len
  }

  /** For buffers of two bytes or more the test as written is the intended one. */
  lemma VolumeChecksAgree(volLen: nat, len: SizeT)
    requires len >= 2
    ensures VolumeFitsAsWritten(volLen, len) <==> VolumeFits(volLen, len)
  {
  }

  /**
   * For a one-byte buffer, len - 2 wraps to the largest size_t and the
   * test as written lets every volume through: for "V:" strncat then
   * writes "V" and its NUL, two bytes, into the one-byte buffer.
   */
  lemma VolumeCheckWraps(volLen: nat)
    requires 0 < volLen < Two32 - 1
    ensures VolumeFitsAsWritten(volLen, 1) && !VolumeFits(volLen, 1)
  {
  }

  /**
   * Strnicmp(s, P, |P|) == 0, where folded is P in lower case: the first
   * |P| characters of s are P, ignoring case.
   */
  predicate StartsFolded(s: string, folded: string)
  {
    |folded| <= |s| && Lower(s[..|folded|]) == folded
  }

  // ---------------------------------------------------------------- Unix to DOS

  /** The C string amigaos4_unix_to_dos leaves in out for a path that fits. */
  function UnixPath(u: CString, len: SizeT, semantics: bool): (r: string)
    requires |u| < len
    ensures |r| < len
  {
    if !semantics || At(u, 0) != '/' then Strlcpy(u, len)
    else if StartsFolded(u, "/progdir/") then Strlcat(Strlcpy("PROGDIR:", len), u[8..], len)
    else if StartsFolded(u, "/ram/") then Strlcat(Strlcpy("RAM:", len), u[4..], len)
    else if StartsFolded(u, "/sys/") then Strlcat(Strlcpy("SYS:", len), u[4..], len)
    else if StartsFolded(u, "/tmp/") then Strlcat(Strlcpy("T:", len), u[4..], len)
    else if At(u, 1) == '\0' then Strlcpy("SYS:", len)
    else match IndexOf(u[1..], '/')
      case Some(v) =>
        if VolumeFits(v, len) then Strlcat(u[1..v + 1] + ":", u[v + 2..], len)
        else Strlcat(Strlcpy("SYS:", len), u[1..], len)
      case None =>
        // |u| >= 2 here, so len >= 3 and len - 2 does not wrap
        if |u| - 1 < len - 2 then Strlcat(Strlcpy(u[1..], len - 1), ":", len)
        else Strlcpy("SYS:", len)
  }

  /** amigaos4_unix_to_dos; hasOut is out != NULL. */
  function UnixToDos(unix: Option<CString>, hasOut: bool, len: SizeT, semantics: bool): (r: Option<string>)
    ensures r.None? <==> unix.None? || !hasOut || len == 0 || |unix.value| >= len
    ensures r.Some? ==> |r.value| < len
    ensures r.Some? && (!semantics || At(unix.value, 0) != '/') ==> r.value == unix.value
  {
    if unix.None? || !hasOut || len == 0 then None
    else if |unix.value| >= len then None
    else Some(UnixPath(unix.value, len, semantics))
  }

  // ---------------------------------------------------------------- DOS to Unix

  /** Appends "/" and rest when rest is not empty. */
  function WithRest(base: string, rest: string, len: SizeT): string
  {
    if |rest| == 0 then base else Strlcat(Strlcat(base, "/", len), rest, len)
  }

  /**
   * The C string amigaos4_dos_to_unix leaves in out. The volume test is
   * the intended one: see VolumeCheckWraps for the test as written.
   */
  function DosPath(d: CString, len: SizeT, semantics: bool): (r: string)
    requires len > 0
    ensures |r| < len
  {
    if !semantics then Strlcpy(d, len)
    else if StartsFolded(d, "progdir:") then WithRest(Strlcpy("/progdir", len), d[8..], len)
    else if StartsFolded(d, "ram:") then WithRest(Strlcpy("/ram", len), d[4..], len)
    else if StartsFolded(d, "sys:") then WithRest(Strlcpy("/sys", len), d[4..], len)
    else if StartsFolded(d, "t:") then WithRest(Strlcpy("/tmp", len), d[2..], len)
    else match IndexOf(d, ':')
      case Some(v) =>
        if VolumeFits(v, len) then WithRest("/" + d[..v], d[v + 1..], len)
        else Strlcpy("/sys", len)
      case None => Strlcpy(d, len)
  }

  /** amigaos4_dos_to_unix; hasOut is out != NULL. */
  function DosToUnix(dos: Option<CString>, hasOut: bool, len: SizeT, semantics: bool): (r: Option<string>)
    ensures r.None? <==> dos.None? || !hasOut || len == 0
    ensures r.Some? ==> |r.value| < len
    ensures r.Some? && !semantics && |dos.value| < len ==> r.value == dos.value
  {
    if dos.None? || !hasOut || len == 0 then None
    else Some(DosPath(dos.value, len, semantics))
  }

  // ---------------------------------------------------------------- prefixes

  /** A folded prefix that ends in a separator, found in a text with that separator. */
  lemma {:induction false} SeparatorPrefix(w: string, sep: char, r: string, p: string, from: nat)
    requires !('A' <= sep <= 'Z') && !('a' <= sep <= 'z')
    requires from <= |w| && from < |p| && p[|p| - 1] == sep
    requires forall i :: from <= i < |w| ==> w[i] != sep
    requires forall i :: from <= i < |p| - 1 ==> p[i] != sep
    requires StartsFolded(w + [sep] + r, p)
    ensures Lower(w + [sep]) == p
  {
    var s := w + [sep] + r;
    var n := |p|;
    if |w| + 1 < n {
      assert s[..n][|w|] == sep;
      LowerAt(s[..n], |w|);
      assert false;
    } else if |w| + 1 > n {
      assert s[..n][n - 1] == w[n - 1];
      LowerAt(s[..n], n - 1);
      assert false;
    }
    assert s[..n] == w + [sep];
  }

  /** A text without the separator a folded prefix ends with does not start with that prefix. */
  lemma NoSeparatorNoPrefix(w: string, sep: char, p: string, from: nat)
    requires !('A' <= sep <= 'Z') && !('a' <= sep <= 'z')
    requires from < |p| && p[|p| - 1] == sep
    requires forall i :: from <= i < |w| ==> w[i] != sep
    ensures !StartsFolded(w, p)
  {
    if StartsFolded(w, p) {
      var n := |p|;
      assert w[..n][n - 1] == w[n - 1];
      LowerAt(w[..n], n - 1);
      assert false;
    }
  }

  /** Folded prefixes that differ at index i cannot both start a text. */
  lemma PrefixExcludes(s: string, p: string, q: string, i: nat)
    requires StartsFolded(s, p) && i < |p| && i < |q| && p[i] != q[i]
    ensures !StartsFolded(s, q)
  {
    LowerAt(s[..|p|], i);
    assert s[..|p|][i] == s[i];
    if StartsFolded(s, q) {
      assert s[..|q|][i] == s[i];
      LowerAt(s[..|q|], i);
      assert false;
    }
  }

  /** A separator in a folded prefix is in the text at the same place. */
  lemma SeparatorInPrefix(s: string, p: string, i: nat, sep: char)
    requires StartsFolded(s, p) && i < |p| && p[i] == sep
    requires !('A' <= sep <= 'Z') && !('a' <= sep <= 'z')
    ensures s[i] == sep
  {
    LowerAt(s[..|p|], i);
    assert s[..|p|][i] == s[i];
  }

  /** Copying a name and appending a rest that both fit in the buffer concatenates them. */
  lemma ShorterName(name: string, rest: string, len: SizeT)
    requires |name| + |rest| < len
    ensures Strlcat(Strlcpy(name, len), rest, len) == name + rest
  {
  }

  /** "/progdir/rest" becomes "PROGDIR:/rest": the rest keeps the prefix's final slash. */
  lemma ProgdirMapping(u: CString, len: SizeT)
    requires |u| < len && StartsFolded(u, "/progdir/")
    ensures u[8] == '/'
    ensures UnixToDos(Some(u), true, len, true) == Some("PROGDIR:" + u[8..])
  {
    SeparatorInPrefix(u, "/progdir/", 8, '/');
    SeparatorInPrefix(u, "/progdir/", 0, '/');
    ShorterName("PROGDIR:", u[8..], len);
  }

  /** "/ram/rest" becomes "RAM:/rest". */
  lemma RamMapping(u: CString, len: SizeT)
    requires |u| < len && StartsFolded(u, "/ram/")
    ensures u[4] == '/'
    ensures UnixToDos(Some(u), true, len, true) == Some("RAM:" + u[4..])
  {
    SeparatorInPrefix(u, "/ram/", 4, '/');
    SeparatorInPrefix(u, "/ram/", 0, '/');
    PrefixExcludes(u, "/ram/", "/progdir/", 1);
    ShorterName("RAM:", u[4..], len);
  }

  /** "/sys/rest" becomes "SYS:/rest". */
  lemma SysMapping(u: CString, len: SizeT)
    requires |u| < len && StartsFolded(u, "/sys/")
    ensures u[4] == '/'
    ensures UnixToDos(Some(u), true, len, true) == Some("SYS:" + u[4..])
  {
    SeparatorInPrefix(u, "/sys/", 4, '/');
    SeparatorInPrefix(u, "/sys/", 0, '/');
    PrefixExcludes(u, "/sys/", "/progdir/", 1);
    PrefixExcludes(u, "/sys/", "/ram/", 1);
    ShorterName("SYS:", u[4..], len);
  }

  /** "/tmp/rest" becomes "T:/rest". */
  lemma TmpMapping(u: CString, len: SizeT)
    requires |u| < len && StartsFolded(u, "/tmp/")
    ensures u[4] == '/'
    ensures UnixToDos(Some(u), true, len, true) == Some("T:" + u[4..])
  {
    SeparatorInPrefix(u, "/tmp/", 4, '/');
    SeparatorInPrefix(u, "/tmp/", 0, '/');
    PrefixExcludes(u, "/tmp/", "/progdir/", 1);
    PrefixExcludes(u, "/tmp/", "/ram/", 1);
    PrefixExcludes(u, "/tmp/", "/sys/", 1);
    ShorterName("T:", u[4..], len);
  }

  /** "/" becomes "SYS:" when the buffer holds it. */
  lemma RootIsSys(len: SizeT)
    requires len > 4
    ensures UnixToDos(Some("/"), true, len, true) == Some("SYS:")
  {
    NoSeparatorNoPrefix("/", '/', "/progdir/", 1);
    NoSeparatorNoPrefix("/", '/', "/ram/", 1);
    NoSeparatorNoPrefix("/", '/', "/sys/", 1);
    NoSeparatorNoPrefix("/", '/', "/tmp/", 1);
  }

  /** A character that folds to something else than a prefix's character at i rules the prefix out. */
  lemma CharExcludes(s: string, q: string, i: nat)
    requires i < |s| && i < |q| && ToLower(s[i]) != q[i]
    ensures !StartsFolded(s, q)
  {
    if StartsFolded(s, q) {
      assert s[..|q|][i] == s[i];
      LowerAt(s[..|q|], i);
      assert false;
    }
  }

  /** "//rest" names no volume and falls back to "SYS:" followed by "/rest". */
  lemma EmptyVolumeIsSys(rest: CString, len: SizeT)
    requires |rest| + 6 < len
    ensures UnixToDos(Some("//" + rest), true, len, true) == Some("SYS:/" + rest)
  {
    var u := "//" + rest;
    CharExcludes(u, "/progdir/", 1);
    CharExcludes(u, "/ram/", 1);
    CharExcludes(u, "/sys/", 1);
    CharExcludes(u, "/tmp/", 1);
    assert u[1..][0] == '/';
    IndexOfFirst(u[1..], '/', 0);
    assert "SYS:" + u[1..] == "SYS:/" + rest;
  }

  /** "/vol" whose name leaves no room for the colon falls back to "SYS:", cut to the buffer. */
  lemma LongVolumeIsSys(v: CString, len: SizeT)
    requires PlainVolume(v) && |v| + 2 == len
    ensures UnixToDos(Some("/" + v), true, len, true) == Some(Strlcpy("SYS:", len))
  {
    UnixVolumeNotSpecial(v, "");
    assert ("/" + v)[1..] == v;
  }

  /** A Unix path the buffer cannot hold gives NULL. */
  lemma TooLongIsNull(u: CString, len: SizeT, semantics: bool)
    requires |u| >= len
    ensures UnixToDos(Some(u), true, len, semantics).None?
  {
  }

  // ---------------------------------------------------------------- volumes

  /**
   * The volume names the translators map specially, ignoring case: v: is
   * one of the DOS names or /v/ one of the Unix top directories.
   */
  predicate Reserved(v: string)
  {
    var d := Lower(v + ":");
    var u := Lower("/" + v + "/");
    d == "progdir:" || d == "ram:" || d == "sys:" || d == "t:" ||
    u == "/progdir/" || u == "/ram/" || u == "/sys/" || u == "/tmp/"
  }

  /** A plain volume name: not empty, no separator, not reserved. */
  predicate PlainVolume(v: CString)
  {
    |v| > 0 && ':' !in v && '/' !in v && !Reserved(v)
  }

  /** The Unix form of "v:rest": "/v/rest", or "/v" for an empty rest. */
  function UnixForm(v: string, rest: string): string
  {
    if |rest| == 0 then "/" + v else "/" + v + "/" + rest
  }

  /** dos_to_unix does not take "v:rest" on a plain volume for one of its special names. */
  lemma DosVolumeNotSpecial(v: CString, rest: CString)
    requires PlainVolume(v)
    ensures var d := v + ":" + rest;
      !StartsFolded(d, "progdir:") && !StartsFolded(d, "ram:") &&
      !StartsFolded(d, "sys:") && !StartsFolded(d, "t:")
  {
    var d := v + ":" + rest;
    assert d == v + [':'] + rest;
    if StartsFolded(d, "progdir:") {
      SeparatorPrefix(v, ':', rest, "progdir:", 0);
    }
    if StartsFolded(d, "ram:") {
      SeparatorPrefix(v, ':', rest, "ram:", 0);
    }
    if StartsFolded(d, "sys:") {
      SeparatorPrefix(v, ':', rest, "sys:", 0);
    }
    if StartsFolded(d, "t:") {
      SeparatorPrefix(v, ':', rest, "t:", 0);
    }
  }

  /** unix_to_dos does not take the Unix form of a plain volume for one of its special directories. */
  lemma UnixVolumeNotSpecial(v: CString, rest: CString)
    requires PlainVolume(v)
    ensures var u := UnixForm(v, rest);
      !StartsFolded(u, "/progdir/") && !StartsFolded(u, "/ram/") &&
      !StartsFolded(u, "/sys/") && !StartsFolded(u, "/tmp/")
  {
    var w := "/" + v;
    assert forall i :: 1 <= i < |w| ==> w[i] == v[i - 1];
    if |rest| == 0 {
      NoSeparatorNoPrefix(w, '/', "/progdir/", 1);
      NoSeparatorNoPrefix(w, '/', "/ram/", 1);
      NoSeparatorNoPrefix(w, '/', "/sys/", 1);
      NoSeparatorNoPrefix(w, '/', "/tmp/", 1);
    } else {
      var u := UnixForm(v, rest);
      assert u == w + ['/'] + rest;
      if StartsFolded(u, "/progdir/") {
        SeparatorPrefix(w, '/', rest, "/progdir/", 1);
      }
      if StartsFolded(u, "/ram/") {
        SeparatorPrefix(w, '/', rest, "/ram/", 1);
      }
      if StartsFolded(u, "/sys/") {
        SeparatorPrefix(w, '/', rest, "/sys/", 1);
      }
      if StartsFolded(u, "/tmp/") {
        SeparatorPrefix(w, '/', rest, "/tmp/", 1);
      }
    }
  }

  /** dos_to_unix turns "v:rest" into "/v/rest", and "v:" into "/v". */
  lemma DosVolumeToUnix(v: CString, rest: CString, len: SizeT)
    requires PlainVolume(v) && |v| + |rest| + 2 < len
    ensures DosToUnix(Some(v + ":" + rest), true, len, true) == Some(UnixForm(v, rest))
  {
    var d := v + ":" + rest;
    DosVolumeNotSpecial(v, rest);
    assert d[..|v|] == v && d[|v|] == ':';
    IndexOfFirst(d, ':', |v|);
    assert d[|v| + 1..] == rest;
  }

  /** unix_to_dos turns "/v/rest" into "v:rest", and "/v" into "v:". */
  lemma UnixVolumeToDos(v: CString, rest: CString, len: SizeT)
    requires PlainVolume(v) && |v| + |rest| + 2 < len
    ensures UnixToDos(Some(UnixForm(v, rest)), true, len, true) == Some(v + ":" + rest)
  {
    var u := UnixForm(v, rest);
    UnixVolumeNotSpecial(v, rest);
    assert u[0] == '/' && u[1] == v[0];
    if |rest| == 0 {
      assert u[1..] == v;
      assert v + ":" + rest == v + ":";
    } else {
      assert u[1..] == v + "/" + rest;
      assert u[1..][..|v|] == v && u[1..][|v|] == '/';
      IndexOfFirst(u[1..], '/', |v|);
      assert u[1..|v| + 1] == v && u[|v| + 2..] == rest;
    }
  }

  /** A DOS path on a plain volume survives dos_to_unix followed by unix_to_dos. */
  lemma DosUnixDos(v: CString, rest: CString, len: SizeT)
    requires PlainVolume(v) && |v| + |rest| + 2 < len
    ensures var unix := DosToUnix(Some(v + ":" + rest), true, len, true);
      unix.Some? && '\0' !in unix.value &&
      UnixToDos(Some(unix.value), true, len, true) == Some(v + ":" + rest)
  {
    DosVolumeToUnix(v, rest, len);
    UnixVolumeToDos(v, rest, len);
  }

  /** A Unix path under a plain top directory survives unix_to_dos followed by dos_to_unix. */
  lemma UnixDosUnix(v: CString, rest: CString, len: SizeT)
    requires PlainVolume(v) && |v| + |rest| + 2 < len
    ensures var dos := UnixToDos(Some(UnixForm(v, rest)), true, len, true);
      dos.Some? && '\0' !in dos.value &&
      DosToUnix(Some(dos.value), true, len, true) == Some(UnixForm(v, rest))
  {
    UnixVolumeToDos(v, rest, len);
    DosVolumeToUnix(v, rest, len);
  }

  /** Appending "/" and a rest that fit in the buffer. */
  lemma WithRestFits(base: string, rest: string, len: SizeT)
    requires |base| + 1 + |rest| < len
    ensures WithRest(Strlcpy(base, len), rest, len) == base + (if |rest| == 0 then "" else "/" + rest)
  {
  }

  /** "PROGDIR:rest" becomes "/progdir/rest", and "PROGDIR:" becomes "/progdir". */
  lemma ProgdirToUnix(d: CString, len: SizeT)
    requires StartsFolded(d, "progdir:") && |d| + 1 < len
    ensures DosToUnix(Some(d), true, len, true) == Some("/progdir" + (if |d| == 8 then "" else "/" + d[8..]))
  {
    WithRestFits("/progdir", d[8..], len);
  }

  /** "RAM:rest" becomes "/ram/rest", and "RAM:" becomes "/ram". */
  lemma RamToUnix(d: CString, len: SizeT)
    requires StartsFolded(d, "ram:") && |d| + 1 < len
    ensures DosToUnix(Some(d), true, len, true) == Some("/ram" + (if |d| == 4 then "" else "/" + d[4..]))
  {
    PrefixExcludes(d, "ram:", "progdir:", 0);
    WithRestFits("/ram", d[4..], len);
  }

  /** "SYS:rest" becomes "/sys/rest", and "SYS:" becomes "/sys". */
  lemma SysToUnix(d: CString, len: SizeT)
    requires StartsFolded(d, "sys:") && |d| + 1 < len
    ensures DosToUnix(Some(d), true, len, true) == Some("/sys" + (if |d| == 4 then "" else "/" + d[4..]))
  {
    PrefixExcludes(d, "sys:", "progdir:", 0);
    PrefixExcludes(d, "sys:", "ram:", 0);
    WithRestFits("/sys", d[4..], len);
  }

  /** "T:rest" becomes "/tmp/rest", and "T:" becomes "/tmp". */
  lemma TmpToUnix(d: CString, len: SizeT)
    requires StartsFolded(d, "t:") && |d| + 3 < len
    ensures DosToUnix(Some(d), true, len, true) == Some("/tmp" + (if |d| == 2 then "" else "/" + d[2..]))
  {
    PrefixExcludes(d, "t:", "progdir:", 0);
    PrefixExcludes(d, "t:", "ram:", 0);
    PrefixExcludes(d, "t:", "sys:", 0);
    WithRestFits("/tmp", d[2..], len);
  }

  /** A path that starts with a colon names no volume and becomes "/sys", cut to the buffer. */
  lemma EmptyVolumeIsUnixSys(rest: CString, len: SizeT)
    requires len > 0
    ensures DosToUnix(Some(":" + rest), true, len, true) == Some(Strlcpy("/sys", len))
  {
    var d := ":" + rest;
    CharExcludes(d, "progdir:", 0);
    CharExcludes(d, "ram:", 0);
    CharExcludes(d, "sys:", 0);
    CharExcludes(d, "t:", 0);
    IndexOfFirst(d, ':', 0);
  }

  /** A path without a colon is relative and is copied, cut to the buffer. */
  lemma RelativeCopied(d: CString, len: SizeT)
    requires len > 0 && ':' !in d
    ensures DosToUnix(Some(d), true, len, true) == Some(Strlcpy(d, len))
  {
    NoSeparatorNoPrefix(d, ':', "progdir:", 0);
    NoSeparatorNoPrefix(d, ':', "ram:", 0);
    NoSeparatorNoPrefix(d, ':', "sys:", 0);
    NoSeparatorNoPrefix(d, ':', "t:", 0);
  }

  // ---------------------------------------------------------------- normalize_path

  /** A backslash becomes a slash; every other character stays. */
  function NormalChar(c: char): char
  {
    if c == '\\' then '/' else c
  }

  /** The index of the terminating NUL. */
  function CLength(s: seq<char>): (n: nat)
    requires '\0' in s
    ensures n < |s| && s[n] == '\0' && '\0' !in s[..n]
  {
    IndexOf(s, '\0').value
  }

  /** A NUL-terminated buffer after amigaos4_normalize_path: the string is normalised, the bytes after the NUL are kept. */
  function Normalize(s: seq<char>): (r: seq<char>)
    requires '\0' in s
    ensures |r| == |s|
  {
    var n := CLength(s);
    seq(|s|, i requires 0 <= i < |s| => if i < n then NormalChar(s[i]) else s[i])
  }

  /** Only backslashes of the string change, each to a slash, and none is left in the string. */
  lemma NormalizeChanges(s: seq<char>)
    requires '\0' in s
    ensures forall i :: 0 <= i < |s| && Normalize(s)[i] != s[i] ==> s[i] == '\\' && Normalize(s)[i] == '/'
    ensures '\\' !in Normalize(s)[..CLength(s)]
  {
  }

  /** Normalising twice is normalising once. */
  lemma NormalizeIdempotent(s: seq<char>)
    requires '\0' in s
    ensures '\0' in Normalize(s) && Normalize(Normalize(s)) == Normalize(s)
  {
    var n := CLength(s);
    var t := Normalize(s);
    assert t[n] == '\0';
    assert forall i :: 0 <= i < n ==> t[i] == NormalChar(s[i]) && t[i] != '\0';
    IndexOfFirst(t, '\0', n);
  }

  /** amigaos4_normalize_path: a NULL path is left alone. */
  method NormalizePath(path: array?<char>)
    requires path != null ==> '\0' in path[..]
    modifies path
    ensures path != null ==> path[..] == Normalize(old(path[..]))
  {
    if path == null {
      return;
    }
    ghost var s := path[..];
    ghost var n := CLength(s);
    assert forall k :: 0 <= k < n ==> s[..n][k] == s[k];
    var i := 0;
    while path[i] != '\0'
      invariant 0 <= i <= n
      invariant forall k :: 0 <= k < i ==> path[k] == NormalChar(s[k])
      invariant forall k :: i <= k < path.Length ==> path[k] == s[k]
      decreases n - i
    {
      if path[i] == '\\' {
        path[i] := '/';
      }
      i := i + 1;
    }
    assert path[..] == Normalize(s);
  }
}
