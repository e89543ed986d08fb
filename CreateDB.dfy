/**
 * CreateDB: the builder of the QuickUpdate checksum database. A table of at
 * most MaxEntries entries is loaded from the text database, extended by a
 * directory scan and written back. Files are identified by a rotating-XOR
 * checksum, and the writer's line format is read back by the loader's
 * sscanf conversions.
 */
module CreateDB {
  import opened CStrings
  import opened Shared
  import QuickUpdate

  const MaxEntries: nat := 1000

  /** The size of the read buffer of CalculateChecksum. */
  const ChunkSize: nat := 4096

  /**
   * struct Entry: checksum, filesize and date are ULONG, version and
   * revision UWORD. isNew marks entries found by the current scan.
   */
  datatype Entry = Entry(checksum: nat, filesize: nat, filename: string,
                         version: nat, revision: nat, date: nat,
                         isNew: bool, origin: string)

  /** A slot of the MEMF_CLEAR-allocated table. */
  const Blank: Entry := Entry(0, 0, "", 0, 0, 0, false, "")

  /** The field widths of struct Entry. */
  predicate Sized(e: Entry)
  {
    e.checksum < Two32 && e.filesize < Two32 && e.version < Two16 &&
    e.revision < Two16 && e.date < Two32
  }

  predicate AllSized(table: seq<Entry>)
  {
    forall k :: 0 <= k < |table| ==> Sized(table[k])
  }

  // ---------------------------------------------------------------- rotating XOR

  /** One byte of the checksum: rotate left by one bit, then XOR the byte in. */
  function RotateStep(sum: bv32, b: byte): bv32
  {
    ((sum << 1) | (sum >> 31)) ^ (b as bv32)
  }

  /** The running checksum after the bytes of data, from sum. */
  function Fold(sum: bv32, data: seq<byte>): bv32
  {
    if |data| == 0 then sum else RotateStep(Fold(sum, data[..|data| - 1]), data[|data| - 1])
  }

  /** The checksum of a whole file: the fold from 0. */
  function RotXor(data: seq<byte>): bv32
  {
    Fold(0, data)
  }

  /** Reading the bytes in two pieces gives the checksum of reading them at once. */
  lemma {:induction false} FoldAppend(sum: bv32, a: seq<byte>, b: seq<byte>)
    ensures Fold(sum, a + b) == Fold(Fold(sum, a), b)
    decreases |b|
  {
    if |b| == 0 {
      assert a + b == a;
    } else {
      var b' := b[..|b| - 1];
      assert (a + b)[..|a + b| - 1] == a + b';
      assert (a + b)[|a + b| - 1] == b[|b| - 1];
      FoldAppend(sum, a, b');
    }
  }

  /** An empty file checks to 0 and a one-byte file to that byte. */
  lemma RotXorSmall(b: byte)
    ensures RotXor([]) == 0
    ensures RotXor([b]) == b as bv32
  {
    assert [b][..0] == [];
  }

  /** A leading zero byte leaves the checksum unchanged: the checksum cannot tell such files apart. */
  lemma LeadingZeroInvisible(data: seq<byte>)
    ensures RotXor([0] + data) == RotXor(data)
  {
    RotXorSmall(0);
    FoldAppend(0, [0], data);
  }

  /** The inner loop of CalculateChecksum over one buffer. */
  method RotateBuffer(sum0: bv32, buffer: seq<byte>) returns (sum: bv32)
    ensures sum == Fold(sum0, buffer)
  {
    sum := sum0;
    var i := 0;
    while i < |buffer|
      invariant 0 <= i <= |buffer|
      invariant sum == Fold(sum0, buffer[..i])
    {
      assert buffer[..i + 1][..i] == buffer[..i];
      sum := RotateStep(sum, buffer[i]);
      i := i + 1;
    }
    assert buffer[..i] == buffer;
  }

  /**
   * CalculateChecksum: file is None when Open fails, and breakSignalled is
   * break_signal_received, tested after every read that returned bytes.
   */
  method CalculateChecksum(file: Option<seq<byte>>, breakSignalled: bool) returns (checksum: bv32)
    ensures file.None? ==> checksum == 0
    ensures file.Some? && breakSignalled ==> checksum == 0
    ensures file.Some? && !breakSignalled ==> checksum == RotXor(file.value)
  {
    checksum := 0;
    if file.None? {
      return;
    }
    var data := file.value;
    var pos := 0;
    while pos < |data|
      invariant 0 <= pos <= |data|
      invariant checksum == RotXor(data[..pos])
      invariant breakSignalled ==> pos == 0
    {
      var bytesRead := if |data| - pos < ChunkSize then |data| - pos else ChunkSize;
      if breakSignalled {
        return 0;
      }
      var buffer := data[pos..pos + bytesRead];
      FoldAppend(0, data[..pos], buffer);
      assert data[..pos] + buffer == data[..pos + bytesRead];
      checksum := RotateBuffer(checksum, buffer);
      pos := pos + bytesRead;
    }
    assert data[..pos] == data;
  }

  // ---------------------------------------------------------------- sscanf conversions

  /** The white space a numeric conversion skips. */
  function SpaceRun(s: string): (n: nat)
    ensures n <= |s|
    ensures n < |s| ==> !IsSpace(s[n])
  {
    if |s| > 0 && IsSpace(s[0]) then 1 + SpaceRun(s[1..]) else 0
  }

  /** The length of the optional '+' or '-' a numeric conversion reads after the white space. */
  function SignLength(t: string): (n: nat)
    ensures n <= |t|
  {
    if |t| > 0 && (t[0] == '+' || t[0] == '-') then 1 else 0
  }

  /**
   * The value strtoul gives a digit run of value v read after an optional
   * sign, reduced to the width of the field: a '-' negates it modulo the width.
   */
  function Negated(negative: bool, v: nat, width: nat): (r: nat)
    requires width > 0
    ensures r < width
    ensures negative ==> (r + v) % width == 0
    ensures !negative ==> r == v % width
  {
    NegatedSum(v, width);
    if negative then (width - v % width) % width else v % width
  }

  lemma NegatedSum(v: nat, width: nat)
    requires width > 0
    ensures ((width - v % width) % width + v) % width == 0
  {
    var m, q := v % width, v / width;
    assert q * width + m == v;
    if m == 0 {
      MultipleMod(1, width, width - m);
      MultipleMod(q, width, v);
    } else {
      SmallMod(width - m, width);
      assert (q + 1) * width == q * width + width;
      MultipleMod(q + 1, width, width - m + v);
    }
  }

  /** A positive multiple of width is at least width. */
  lemma {:induction false} MultipleAtLeast(d: nat, width: nat)
    ensures d == 0 || d * width >= width
    decreases d
  {
    if d > 1 {
      MultipleAtLeast(d - 1, width);
      assert d * width == (d - 1) * width + width;
    }
  }

  /** A nonzero multiple of width is at least width away from 0. */
  lemma NonzeroMultiple(d: int, width: nat)
    ensures d == 0 || d * width >= width || d * width + width <= 0
  {
    if d >= 0 {
      MultipleAtLeast(d, width);
    } else {
      MultipleAtLeast(-d, width);
      assert d * width == -((-d) * width);
    }
  }

  /** A multiple of the width leaves no remainder. */
  lemma MultipleMod(k: int, width: nat, x: int)
    requires width > 0 && x == k * width
    ensures x % width == 0
  {
    var q, m := x / width, x % width;
    assert (k - q) * width == m;
    NonzeroMultiple(k - q, width);
  }

  /** The length of the optional "0x" or "0X" that "%lx" reads before its digits. */
  function HexPrefixLength(t: string): (n: nat)
    ensures n <= |t|
  {
    if |t| >= 2 && t[0] == '0' && (t[1] == 'x' || t[1] == 'X') then 2 else 0
  }

  /**
   * "%lx" into a ULONG: optional white space, an optional sign, an optional
   * 0x or 0X, then one or more hex digits; the value and the text after them.
   * A prefix with no digit after it is a matching failure.
   */
  function ScanHex(s: string): (r: Option<(nat, string)>)
    ensures r.Some? ==> r.value.0 < Two32
  {
    var t := s[SpaceRun(s)..];
    var sign := SignLength(t);
    var u := t[sign..];
    var digits := u[HexPrefixLength(u)..];
    var n := HexRunLength(digits, 0);
    if n == 0 then None
    else Some((Negated(sign == 1 && t[0] == '-', HexValue(digits[..n]), Two32), digits[n..]))
  }

  /**
   * "%lu" (width Two32) or "%hu" (width Two16): optional white space, an
   * optional sign, then one or more decimal digits.
   */
  function ScanDecimal(s: string, width: nat): (r: Option<(nat, string)>)
    requires width > 0
    ensures r.Some? ==> r.value.0 < width
  {
    var t := s[SpaceRun(s)..];
    var sign := SignLength(t);
    var digits := t[sign..];
    var n := DigitRunLength(digits, 0);
    if n == 0 then None
    else Some((Negated(sign == 1 && t[0] == '-', DecimalValue(digits[..n]), width), digits[n..]))
  }

  /** The length of the run of characters other than stop at the start of s. */
  function RunUntil(s: string, stop: char): (n: nat)
    ensures n <= |s| && stop !in s[..n]
    ensures n < |s| ==> s[n] == stop
  {
    if |s| > 0 && s[0] != stop then 1 + RunUntil(s[1..], stop) else 0
  }

  /** "%[^stop]": one or more characters other than stop; the text read and the text after it. */
  function ScanSet(s: string, stop: char): (r: Option<(string, string)>)
    ensures r.Some? ==> |r.value.0| > 0 && stop !in r.value.0
  {
    var n := RunUntil(s, stop);
    if n == 0 then None else Some((s[..n], s[n..]))
  }

  /** A literal character of the format string. */
  function Expect(s: string, c: char): Option<string>
  {
    if |s| > 0 && s[0] == c then Some(s[1..]) else None
  }

  /** "%lx|%lu|": the checksum, the file size and the text after the second '|'. */
  function ScanSizes(s: string): (r: Option<(nat, nat, string)>)
    ensures r.Some? ==> r.value.0 < Two32 && r.value.1 < Two32
  {
    match ScanHex(s)
    case None => None
    case Some((checksum, s1)) =>
    match Expect(s1, '|')
    case None => None
    case Some(s2) =>
    match ScanDecimal(s2, Two32)
    case None => None
    case Some((filesize, s3)) =>
    match Expect(s3, '|')
    case None => None
    case Some(s4) => Some((checksum, filesize, s4))
  }

  /** "%[^|]|%hu.%hu|": the file name, version and revision, and the text after them. */
  function ScanNameVersion(s: string): (r: Option<(string, nat, nat, string)>)
    ensures r.Some? ==> |r.value.0| > 0 && '|' !in r.value.0
    ensures r.Some? ==> r.value.1 < Two16 && r.value.2 < Two16
  {
    match ScanSet(s, '|')
    case None => None
    case Some((filename, s5)) =>
    match Expect(s5, '|')
    case None => None
    case Some(s6) =>
    match ScanDecimal(s6, Two16)
    case None => None
    case Some((version, s7)) =>
    match Expect(s7, '.')
    case None => None
    case Some(s8) =>
    match ScanDecimal(s8, Two16)
    case None => None
    case Some((revision, s9)) =>
    match Expect(s9, '|')
    case None => None
    case Some(s10) => Some((filename, version, revision, s10))
  }

  /** "%lu|%[^\n]": the date and the origin. */
  function ScanDateOrigin(s: string): (r: Option<(nat, string)>)
    ensures r.Some? ==> r.value.0 < Two32 && |r.value.1| > 0 && '\n' !in r.value.1
  {
    match ScanDecimal(s, Two32)
    case None => None
    case Some((date, s11)) =>
    match Expect(s11, '|')
    case None => None
    case Some(s12) =>
    match ScanSet(s12, '\n')
    case None => None
    case Some((origin, _)) => Some((date, origin))
  }

  /**
   * sscanf(line, "%lx|%lu|%[^|]|%hu.%hu|%lu|%[^\n]") returning 7, as an
   * entry with isNew cleared; None when fewer conversions succeed.
   */
  function ParseLine(line: string): (r: Option<Entry>)
    ensures r.Some? ==> Sized(r.value) && !r.value.isNew
    ensures r.Some? ==> |r.value.filename| > 0 && '|' !in r.value.filename
    ensures r.Some? ==> |r.value.origin| > 0 && '\n' !in r.value.origin
  {
    match ScanSizes(line)
    case None => None
    case Some((checksum, filesize, s4)) =>
    match ScanNameVersion(s4)
    case None => None
    case Some((filename, version, revision, s10)) =>
    match ScanDateOrigin(s10)
    case None => None
    case Some((date, origin)) =>
    Some(Entry(checksum, filesize, filename, version, revision, date, false, origin))
  }

  // ---------------------------------------------------------------- writer

  /** One line as SaveDatabase writes it with "%08lx|%lu|%s|%d.%d|%lu|%s\n". */
  function FormatLine(e: Entry, origin: string): string
    requires Sized(e)
  {
    Hex8(e.checksum) + ("|" + (DecimalText(e.filesize) + ("|" + (e.filename + ("|" +
      (DecimalText(e.version) + ("." + (DecimalText(e.revision) + ("|" +
      (DecimalText(e.date) + ("|" + (origin + "\n"))))))))))))
  }

  /** The two header lines SaveDatabase writes first. */
  const HeaderTitle: string := "#" + " QuickUpdate Checksum Database\n"
  const HeaderFormat: string := "#" + " Format: CHECKSUM|FILESIZE|FILENAME|VERSION.REVISION|DATE|ORIGIN\n"
  const Header: seq<string> := [HeaderTitle, HeaderFormat]

  /** The origin written for an entry: the scan's origin for new entries, the stored one otherwise. */
  function WrittenOrigin(e: Entry, origin: string): string
  {
    if e.isNew then origin else e.origin
  }

  /** The entry lines SaveDatabase writes for a table, in table order. */
  function EntryLines(table: seq<Entry>, origin: string): (lines: seq<string>)
    requires AllSized(table)
    ensures |lines| == |table|
  {
    seq(|table|, k requires 0 <= k < |table| => FormatLine(table[k], WrittenOrigin(table[k], origin)))
  }

  // ---------------------------------------------------------------- round trip

  lemma {:induction false} HexRunExact(s: string, i: nat, j: nat)
    requires i <= j <= |s|
    requires forall k :: i <= k < j ==> IsHexDigit(s[k])
    requires j == |s| || !IsHexDigit(s[j])
    ensures HexRunLength(s, i) == j - i
    decreases j - i
  {
    if i < j {
      HexRunExact(s, i + 1, j);
    }
  }

  lemma ScanHexRun(h: string, rest: string)
    requires |h| > 0 && AllHexDigits(h)
    requires |rest| > 0 && !IsHexDigit(rest[0]) && rest[0] != 'x' && rest[0] != 'X'
    ensures ScanHex(h + rest) == Some((HexValue(h) % Two32, rest))
  {
    var s := h + rest;
    assert s[0] == h[0];
    assert SpaceRun(s) == 0 && SignLength(s) == 0;
    assert s[1] == if |h| > 1 then h[1] else rest[0];
    assert HexPrefixLength(s) == 0;
    assert s[0..] == s;
    assert forall k :: 0 <= k < |h| ==> s[k] == h[k];
    assert s[|h|] == rest[0];
    HexRunExact(s, 0, |h|);
    assert s[..|h|] == h && s[|h|..] == rest;
  }

  lemma ScanHexOf(n: nat, rest: string)
    requires n < Two32
    requires |rest| > 0 && !IsHexDigit(rest[0]) && rest[0] != 'x' && rest[0] != 'X'
    ensures ScanHex(Hex8(n) + rest) == Some((n, rest))
  {
    var h := Hex8(n);
    ScanHexRun(h, rest);
    Hex8RoundTrip(n);
    SmallMod(n, Two32);
  }

  /** A digit run followed by a non-digit is read exactly up to the non-digit. */
  lemma DigitsThenRest(d: string, rest: string)
    requires |d| > 0 && AllDigits(d)
    requires |rest| > 0 && !IsDigit(rest[0])
    ensures DigitRunLength(d + rest, 0) == |d|
    ensures (d + rest)[..|d|] == d && (d + rest)[|d|..] == rest
  {
    var digits := d + rest;
    assert forall k :: 0 <= k < |d| ==> digits[k] == d[k];
    assert digits[|d|] == rest[0];
    DigitRunExact(digits, 0, |d|);
  }

  /** "%lu" or "%hu" reads an optional sign and a digit run up to the first non-digit. */
  lemma ScanDecimalRun(sign: string, d: string, width: nat, rest: string)
    requires sign == "" || sign == "+" || sign == "-"
    requires width > 0 && |d| > 0 && AllDigits(d)
    requires |rest| > 0 && !IsDigit(rest[0])
    ensures ScanDecimal(sign + (d + rest), width) == Some((Negated(sign == "-", DecimalValue(d), width), rest))
  {
    var digits := d + rest;
    DigitsThenRest(d, rest);
    var s := sign + digits;
    assert s[0] == if sign == "" then d[0] else sign[0];
    assert SpaceRun(s) == 0 && s[0..] == s;
    assert SignLength(s) == |sign| && s[|sign|..] == digits;
    assert (SignLength(s) == 1 && s[0] == '-') == (sign == "-");
    assert DecimalValue(digits[..|d|]) == DecimalValue(d);
  }

  lemma ScanDecimalOf(n: nat, width: nat, rest: string)
    requires n < width
    requires |rest| > 0 && !IsDigit(rest[0])
    ensures ScanDecimal(DecimalText(n) + rest, width) == Some((n, rest))
  {
    var d := DecimalText(n);
    ScanDecimalRun("", d, width, rest);
    assert "" + (d + rest) == d + rest;
    DecimalRoundTrip(n);
    SmallMod(n, width);
  }

  lemma SmallMod(n: nat, width: nat)
    requires n < width
    ensures n % width == n
  {
  }

  lemma {:induction false} RunUntilOf(t: string, stop: char, rest: string)
    requires stop !in t && |rest| > 0 && rest[0] == stop
    ensures RunUntil(t + rest, stop) == |t|
    decreases |t|
  {
    if |t| > 0 {
      assert (t + rest)[0] == t[0];
      assert (t + rest)[1..] == t[1..] + rest;
      RunUntilOf(t[1..], stop, rest);
    } else {
      assert t + rest == rest;
    }
  }

  lemma ScanSetOf(t: string, stop: char, rest: string)
    requires |t| > 0 && stop !in t && |rest| > 0 && rest[0] == stop
    ensures ScanSet(t + rest, stop) == Some((t, rest))
  {
    RunUntilOf(t, stop, rest);
    assert (t + rest)[..|t|] == t && (t + rest)[|t|..] == rest;
  }

  lemma ExpectOf(c: char, rest: string)
    ensures Expect([c] + rest, c) == Some(rest)
  {
    assert ([c] + rest)[1..] == rest;
  }

  lemma ScanNameVersionOf(filename: string, version: nat, revision: nat, rest: string)
    requires |filename| > 0 && '|' !in filename
    requires version < Two16 && revision < Two16
    ensures ScanNameVersion(filename + ("|" + (DecimalText(version) + ("." +
      (DecimalText(revision) + ("|" + rest)))))) == Some((filename, version, revision, rest))
  {
    var s9 := "|" + rest;
    var s8 := DecimalText(revision) + s9;
    var s7 := "." + s8;
    var s6 := DecimalText(version) + s7;
    var s5 := "|" + s6;
    ExpectOf('|', rest);
    ScanDecimalOf(revision, Two16, s9);
    ExpectOf('.', s8);
    ScanDecimalOf(version, Two16, s7);
    ExpectOf('|', s6);
    ScanSetOf(filename, '|', s5);
    NameVersionSteps(filename + s5, filename, s5, s6, version, s7, s8, revision, s9, rest);
  }

  /** ScanNameVersion succeeds when each of its conversions and literals does in turn. */
  lemma NameVersionSteps(s: string, filename: string, s5: string, s6: string, version: nat, s7: string,
                         s8: string, revision: nat, s9: string, rest: string)
    requires ScanSet(s, '|') == Some((filename, s5)) && Expect(s5, '|') == Some(s6)
    requires ScanDecimal(s6, Two16) == Some((version, s7)) && Expect(s7, '.') == Some(s8)
    requires ScanDecimal(s8, Two16) == Some((revision, s9)) && Expect(s9, '|') == Some(rest)
    ensures ScanNameVersion(s) == Some((filename, version, revision, rest))
  {
  }

  lemma ScanDateOriginOf(date: nat, origin: string)
    requires date < Two32
    requires |origin| > 0 && '\n' !in origin
    ensures ScanDateOrigin(DecimalText(date) + ("|" + (origin + "\n"))) == Some((date, origin))
  {
    var s12 := origin + "\n";
    var s11 := "|" + s12;
    ScanSetOf(origin, '\n', "\n");
    ExpectOf('|', s12);
    ScanDecimalOf(date, Two32, s11);
  }

  /** The line the writer produces parses back to the same fields under the reader's format. */
  lemma FormatParseRoundTrip(e: Entry, origin: string)
    requires Sized(e)
    requires |e.filename| > 0 && '|' !in e.filename
    requires |origin| > 0 && '\n' !in origin
    ensures ParseLine(FormatLine(e, origin)) == Some(e.(isNew := false, origin := origin))
  {
    var fields := "|" + (DecimalText(e.filesize) + ("|" + (e.filename + ("|" + (DecimalText(e.version) +
      ("." + (DecimalText(e.revision) + ("|" + (DecimalText(e.date) + ("|" + (origin + "\n")))))))))));
    ScanHexOf(e.checksum, fields);
    FieldsAfterChecksum(Hex8(e.checksum), e, origin);
  }

  /** "%lx" reads a 0x prefix before the digits. */
  lemma HexPrefixRead(rest: string)
    requires |rest| > 0 && !IsHexDigit(rest[0])
    ensures ScanHex("0x1f" + rest) == Some((0x1f, rest))
  {
    var p := "0x1f" + rest;
    assert p[0] == '0' && p[1] == 'x';
    assert SpaceRun(p) == 0 && SignLength(p) == 0 && p[0..] == p;
    assert HexPrefixLength(p) == 2;
    var digits := p[2..];
    assert digits == "1f" + rest;
    HexRunExact(digits, 0, 2);
    assert digits[..2] == "1f" && digits[2..] == rest;
    assert HexValue("1f") == HexValue("1") * 16 + 15 by {
      assert "1f"[..1] == "1";
    }
    assert HexValue("1") == 1 by {
      assert "1"[..0] == "";
    }
  }

  /** Like strtoul, "%lx" negates a value after '-' modulo 2^32. */
  lemma HexSign(rest: string)
    requires |rest| > 0 && !IsHexDigit(rest[0]) && rest[0] != 'x' && rest[0] != 'X'
    ensures ScanHex("-1" + rest) == Some((0xFFFF_FFFF, rest))
  {
    var m := "-1" + rest;
    assert m[0] == '-' && m[1] == '1';
    assert SpaceRun(m) == 0 && m[0..] == m && SignLength(m) == 1;
    var digits := m[1..];
    assert digits == "1" + rest && HexPrefixLength(digits) == 0 && digits[0..] == digits;
    HexRunExact(digits, 0, 1);
    assert digits[..1] == "1" && digits[1..] == rest;
    assert HexValue("1") == 1 by {
      assert "1"[..0] == "";
    }
  }

  /** A 0x with no hex digit after it is a matching failure. */
  lemma HexPrefixAlone()
    ensures ScanHex("0x|") == None
  {
    var z := "0x|";
    assert SpaceRun(z) == 0 && SignLength(z) == 0 && z[0..] == z;
    assert HexPrefixLength(z) == 2 && z[2..] == "|";
  }

  /** ScanSizes succeeds when each of its conversions and literals does in turn. */
  lemma SizesSteps(s: string, checksum: nat, s1: string, s2: string, filesize: nat, s3: string, s4: string)
    requires ScanHex(s) == Some((checksum, s1)) && Expect(s1, '|') == Some(s2)
    requires ScanDecimal(s2, Two32) == Some((filesize, s3)) && Expect(s3, '|') == Some(s4)
    ensures ScanSizes(s) == Some((checksum, filesize, s4))
  {
  }

  /** ParseLine succeeds when its three parts do in turn. */
  lemma LineSteps(line: string, checksum: nat, filesize: nat, s4: string, filename: string, version: nat,
                  revision: nat, s10: string, date: nat, origin: string)
    requires ScanSizes(line) == Some((checksum, filesize, s4))
    requires ScanNameVersion(s4) == Some((filename, version, revision, s10))
    requires ScanDateOrigin(s10) == Some((date, origin))
    ensures ParseLine(line) == Some(Entry(checksum, filesize, filename, version, revision, date, false, origin))
  {
  }

  /** The fields after the checksum of a sample entry line. */
  const SampleFields: string := "|5|a.library|1.2|3|o\n"

  /** The sample fields are the written fields of the sample entry. */
  lemma SampleFieldsSplit()
    ensures SampleFields == "|" + ("5" + ("|" + ("a.library" + ("|" + ("1" + ("." + ("2" + ("|" +
      ("3" + ("|" + ("o" + "\n")))))))))))
  {
  }

  lemma SampleDigits()
    ensures DecimalText(1) == "1" && DecimalText(2) == "2" && DecimalText(3) == "3" && DecimalText(5) == "5"
  {
  }

  /** The fields FormatLine writes after the checksum read back after any checksum ScanHex accepts. */
  lemma FieldsAfterChecksum(head: string, e: Entry, origin: string)
    requires Sized(e)
    requires |e.filename| > 0 && '|' !in e.filename
    requires |origin| > 0 && '\n' !in origin
    requires var fields := "|" + (DecimalText(e.filesize) + ("|" + (e.filename + ("|" + (DecimalText(e.version) +
      ("." + (DecimalText(e.revision) + ("|" + (DecimalText(e.date) + ("|" + (origin + "\n")))))))))));
      ScanHex(head + fields) == Some((e.checksum, fields))
    ensures ParseLine(head + ("|" + (DecimalText(e.filesize) + ("|" + (e.filename + ("|" + (DecimalText(e.version) +
      ("." + (DecimalText(e.revision) + ("|" + (DecimalText(e.date) + ("|" + (origin + "\n")))))))))))))
      == Some(e.(isNew := false, origin := origin))
  {
    var s10 := DecimalText(e.date) + ("|" + (origin + "\n"));
    ScanDateOriginOf(e.date, origin);
    var s4 := e.filename + ("|" + (DecimalText(e.version) + ("." + (DecimalText(e.revision) + ("|" + s10)))));
    ScanNameVersionOf(e.filename, e.version, e.revision, s10);
    var s3 := "|" + s4;
    var s2 := DecimalText(e.filesize) + s3;
    var s1 := "|" + s2;
    ExpectOf('|', s4);
    ScanDecimalOf(e.filesize, Two32, s3);
    ExpectOf('|', s2);
    SizesSteps(head + s1, e.checksum, s1, s2, e.filesize, s3, s4);
    LineSteps(head + s1, e.checksum, e.filesize, s4, e.filename, e.version, e.revision, s10, e.date, origin);
  }

  /**
   * A line whose checksum is written with a 0x prefix or as -1 is loaded,
   * with the value strtoul gives it.
   */
  lemma PrefixedAndSignedLines()
    ensures ParseLine("0x1f" + SampleFields) == Some(Entry(0x1f, 5, "a.library", 1, 2, 3, false, "o"))
    ensures ParseLine("-1" + SampleFields) == Some(Entry(0xFFFF_FFFF, 5, "a.library", 1, 2, 3, false, "o"))
  {
    SampleDigits();
    SampleFieldsSplit();
    HexPrefixRead(SampleFields);
    FieldsAfterChecksum("0x1f", Entry(0x1f, 5, "a.library", 1, 2, 3, true, ""), "o");
    HexSign(SampleFields);
    FieldsAfterChecksum("-1", Entry(0xFFFF_FFFF, 5, "a.library", 1, 2, 3, true, ""), "o");
  }

  /** "%lu" reads an optional '+' before the digits. */
  lemma DecimalPlusSign()
    ensures ScanDecimal("+5|", Two32) == Some((5, "|"))
  {
    ScanDecimalRun("+", "5", Two32, "|");
    assert "+" + ("5" + "|") == "+5|";
    assert DecimalValue("5") == 5 by {
      assert "5"[..0] == "";
    }
  }

  /** Like strtoul, "%hu" negates a value after '-': "-1" gives the largest UWORD. */
  lemma DecimalMinusSign()
    ensures ScanDecimal("-1.", Two16) == Some((0xFFFF, "."))
  {
    ScanDecimalRun("-", "1", Two16, ".");
    assert "-" + ("1" + ".") == "-1.";
    assert DecimalValue("1") == 1 by {
      assert "1"[..0] == "";
    }
  }

  /** A sign with no digit after it is a matching failure. */
  lemma SignAlone()
    ensures ScanDecimal("-|", Two32) == None
  {
    assert "-|"[1..] == "|";
  }


  /** Writing back any entry the reader accepts and reading it again gives the same entry. */
  lemma ParseFormatParse(line: string)
    requires ParseLine(line).Some?
    ensures ParseLine(FormatLine(ParseLine(line).value, ParseLine(line).value.origin)) == ParseLine(line)
  {
    var e := ParseLine(line).value;
    FormatParseRoundTrip(e, e.origin);
  }

  lemma NoBarInDigits(s: string)
    requires AllDigits(s) || AllHexDigits(s)
    ensures multiset(s)['|'] == 0
  {
    assert '|' !in s;
  }

  /** Joining a bar-free field to the rest with sep adds the bars of sep. */
  lemma BarsJoined(field: string, sep: string, rest: string)
    requires multiset(field)['|'] == 0
    ensures multiset(field + (sep + rest))['|'] == multiset(sep)['|'] + multiset(rest)['|']
  {
    assert field + (sep + rest) == (field + sep) + rest;
  }

  /** Six bar-free fields joined as FormatLine joins them hold five bars. */
  lemma FieldsJoined(checksum: string, filesize: string, filename: string, version: string,
                     revision: string, date: string, origin: string)
    requires multiset(checksum)['|'] == 0 && multiset(filesize)['|'] == 0 && multiset(filename)['|'] == 0
    requires multiset(version)['|'] == 0 && multiset(revision)['|'] == 0 && multiset(date)['|'] == 0
    requires multiset(origin)['|'] == 0
    ensures multiset(checksum + ("|" + (filesize + ("|" + (filename + ("|" +
      (version + ("." + (revision + ("|" + (date + ("|" + (origin + "\n")))))))))))))['|'] == 5
  {
    var bar, dot := "|", ".";
    assert multiset(bar)['|'] == 1 && multiset(dot)['|'] == 0;
    var last := origin + "\n";
    assert multiset(last)['|'] == 0;
    BarsJoined(date, bar, last);
    BarsJoined(revision, bar, date + (bar + last));
    BarsJoined(version, dot, revision + (bar + (date + (bar + last))));
    BarsJoined(filename, bar, version + (dot + (revision + (bar + (date + (bar + last))))));
    BarsJoined(filesize, bar, filename + (bar + (version + (dot + (revision + (bar + (date + (bar + last))))))));
    BarsJoined(checksum, bar, filesize + (bar + (filename + (bar + (version + (dot + (revision + (bar + (date + (bar + last))))))))));
  }

  /**
   * A written line has exactly five '|' when neither the filename nor the
   * origin holds one, so LoadDatabaseEntry accepts it when it fits in 512
   * characters.
   */
  lemma WrittenLinePassesCheck(e: Entry, origin: string)
    requires Sized(e) && '|' !in e.filename && '|' !in origin
    ensures multiset(FormatLine(e, origin))['|'] == 5
  {
    NoBarInDigits(Hex8(e.checksum));
    NoBarInDigits(DecimalText(e.filesize));
    NoBarInDigits(DecimalText(e.version));
    NoBarInDigits(DecimalText(e.revision));
    NoBarInDigits(DecimalText(e.date));
    assert multiset(e.filename)['|'] == 0;
    assert multiset(origin)['|'] == 0;
    FieldsJoined(Hex8(e.checksum), DecimalText(e.filesize), e.filename, DecimalText(e.version),
                 DecimalText(e.revision), DecimalText(e.date), origin);
  }

  // ---------------------------------------------------------------- loading

  /** A line LoadExistingDB skips: a comment or an empty line. */
  predicate Skipped(line: string)
  {
    At(line, 0) == '#' || At(line, 0) == '\n'
  }

  /** The entry a line of the database file gives: None when it is skipped or does not parse. */
  function LineEntry(line: string): (r: Option<Entry>)
    ensures r.Some? ==> !r.value.isNew && Sized(r.value)
  {
    if Skipped(line) then None else ParseLine(line)
  }

  /**
   * The table after LoadExistingDB's loop reads lines onto acc, with parse
   * as the test of one line: lines it rejects add nothing, and reading
   * stops once the table holds MaxEntries entries.
   */
  function LoadWith(parse: string -> Option<Entry>, acc: seq<Entry>, lines: seq<string>): seq<Entry>
    decreases |lines|
  {
    if |lines| == 0 then acc
    else match parse(lines[0])
      case None => LoadWith(parse, acc, lines[1..])
      case Some(e) =>
        if |acc| + 1 >= MaxEntries then acc + [e] else LoadWith(parse, acc + [e], lines[1..])
  }

  /** The table after LoadExistingDB reads lines onto acc: skipped and unparsable lines add nothing. */
  function Loaded(acc: seq<Entry>, lines: seq<string>): seq<Entry>
  {
    LoadWith(LineEntry, acc, lines)
  }

  /** The entries from index n on were read from a database: old, with fields that fit. */
  predicate OldFrom(table: seq<Entry>, n: nat)
  {
    forall k :: n <= k < |table| ==> !table[k].isNew && Sized(table[k])
  }

  /** Loading never shrinks the table and never fills it beyond MaxEntries. */
  lemma {:induction false} LoadedLength(parse: string -> Option<Entry>, acc: seq<Entry>, lines: seq<string>)
    requires |acc| < MaxEntries
    ensures |acc| <= |LoadWith(parse, acc, lines)| <= MaxEntries
    decreases |lines|
  {
    if |lines| > 0 {
      var entry := parse(lines[0]);
      if entry.None? {
        LoadedLength(parse, acc, lines[1..]);
      } else if |acc| + 1 < MaxEntries {
        LoadedLength(parse, acc + [entry.value], lines[1..]);
      }
    }
  }

  /** Loading keeps the entries already in the table, in place. */
  lemma {:induction false} LoadedPrefix(parse: string -> Option<Entry>, acc: seq<Entry>, lines: seq<string>)
    ensures |acc| <= |LoadWith(parse, acc, lines)|
    ensures LoadWith(parse, acc, lines)[..|acc|] == acc
    decreases |lines|
  {
    if |lines| > 0 {
      var entry := parse(lines[0]);
      if entry.None? {
        LoadedPrefix(parse, acc, lines[1..]);
      } else {
        var longer := acc + [entry.value];
        assert longer[..|acc|] == acc;
        if |acc| + 1 < MaxEntries {
          var rest := LoadWith(parse, longer, lines[1..]);
          assert LoadWith(parse, acc, lines) == rest;
          LoadedPrefix(parse, longer, lines[1..]);
          assert rest[..|acc|] == rest[..|longer|][..|acc|];
        } else {
          assert LoadWith(parse, acc, lines) == longer;
        }
      }
    }
  }

  /** Loading the database only appends, and never beyond MaxEntries. */
  lemma LoadedAppends(acc: seq<Entry>, lines: seq<string>)
    requires |acc| < MaxEntries
    ensures |acc| <= |Loaded(acc, lines)| <= MaxEntries
    ensures Loaded(acc, lines)[..|acc|] == acc
  {
    LoadedLength(LineEntry, acc, lines);
    LoadedPrefix(LineEntry, acc, lines);
  }

  lemma OldFromSnoc(table: seq<Entry>, e: Entry, n: nat)
    requires n <= |table| && OldFrom(table, n) && !e.isNew && Sized(e)
    ensures OldFrom(table + [e], n)
  {
    assert forall k :: n <= k < |table| ==> (table + [e])[k] == table[k];
  }

  /** Every entry loading adds is old and fits its fields. */
  lemma {:induction false} LoadedOld(acc: seq<Entry>, lines: seq<string>, n: nat)
    requires n <= |acc| && OldFrom(acc, n)
    ensures OldFrom(Loaded(acc, lines), n)
    decreases |lines|
  {
    if |lines| > 0 {
      var entry := LineEntry(lines[0]);
      if entry.Some? {
        OldFromSnoc(acc, entry.value, n);
        LoadedOld(acc + [entry.value], lines[1..], n);
      } else {
        LoadedOld(acc, lines[1..], n);
      }
    }
  }

  /** A skipped line adds nothing. */
  lemma SkipLine(acc: seq<Entry>, line: string, lines: seq<string>)
    requires Skipped(line)
    ensures Loaded(acc, [line] + lines) == Loaded(acc, lines)
  {
    assert ([line] + lines)[0] == line;
    assert ([line] + lines)[1..] == lines;
  }

  /** The header lines are comments: a database read after them loads as if they were absent. */
  lemma HeaderSkipped(acc: seq<Entry>, lines: seq<string>)
    ensures Loaded(acc, Header + lines) == Loaded(acc, lines)
  {
    assert Header + lines == [HeaderTitle] + ([HeaderFormat] + lines);
    assert HeaderTitle[0] == '#';
    assert HeaderFormat[0] == '#';
    SkipLine(acc, HeaderTitle, [HeaderFormat] + lines);
    SkipLine(acc, HeaderFormat, lines);
  }

  /** An entry the writer can store so that the reader gets it back. */
  predicate Storable(e: Entry, origin: string)
  {
    Sized(e) && |e.filename| > 0 && '|' !in e.filename && '\n' !in e.filename &&
    |WrittenOrigin(e, origin)| > 0 && '\n' !in WrittenOrigin(e, origin)
  }

  /** An entry as it is read back after saving: old, with the origin it was written with. */
  function Reloaded(e: Entry, origin: string): Entry
  {
    e.(isNew := false, origin := WrittenOrigin(e, origin))
  }

  function Reloads(table: seq<Entry>, origin: string): (r: seq<Entry>)
    ensures |r| == |table|
  {
    seq(|table|, k requires 0 <= k < |table| => Reloaded(table[k], origin))
  }

  /** A written line begins with a hexadecimal digit, so the loader never skips it. */
  lemma EntryLineNotSkipped(e: Entry, origin: string)
    requires Sized(e)
    ensures !Skipped(FormatLine(e, origin))
  {
    var h := Hex8(e.checksum);
    assert FormatLine(e, origin)[0] == h[0];
    assert IsHexDigit(h[0]);
  }

  lemma EntryLineLoads(e: Entry, origin: string)
    requires Storable(e, origin)
    ensures LineEntry(FormatLine(e, WrittenOrigin(e, origin))) == Some(Reloaded(e, origin))
  {
    EntryLineNotSkipped(e, WrittenOrigin(e, origin));
    FormatParseRoundTrip(e, WrittenOrigin(e, origin));
  }

  /**
   * Lines that all parse load all their entries, in order, while the
   * table has room for them.
   */
  lemma {:induction false} LoadedParsed(parse: string -> Option<Entry>, acc: seq<Entry>, lines: seq<string>, entries: seq<Entry>)
    requires |lines| == |entries| && |acc| + |entries| <= MaxEntries
    requires forall k :: 0 <= k < |lines| ==> parse(lines[k]) == Some(entries[k])
    ensures LoadWith(parse, acc, lines) == acc + entries
    decreases |lines|
  {
    if |lines| > 0 {
      var e := entries[0];
      assert parse(lines[0]) == Some(e);
      if |acc| + 1 < MaxEntries {
        assert forall k :: 0 <= k < |lines| - 1 ==> lines[1..][k] == lines[k + 1] && entries[1..][k] == entries[k + 1];
        LoadedParsed(parse, acc + [e], lines[1..], entries[1..]);
      }
      AppendFirst(acc, entries);
    }
  }

  lemma AppendFirst(acc: seq<Entry>, entries: seq<Entry>)
    requires |entries| > 0
    ensures acc + entries == (acc + [entries[0]]) + entries[1..]
    ensures |entries| == 1 ==> acc + entries == acc + [entries[0]]
  {
    assert entries == [entries[0]] + entries[1..];
  }

  lemma LoadEntryLines(acc: seq<Entry>, table: seq<Entry>, origin: string)
    requires |acc| + |table| <= MaxEntries
    requires forall k :: 0 <= k < |table| ==> Storable(table[k], origin)
    ensures AllSized(table)
    ensures Loaded(acc, EntryLines(table, origin)) == acc + Reloads(table, origin)
  {
    var lines := EntryLines(table, origin);
    var entries := Reloads(table, origin);
    forall k | 0 <= k < |table|
      ensures LineEntry(lines[k]) == Some(entries[k])
    {
      EntryLineLoads(table[k], origin);
    }
    LoadedParsed(LineEntry, acc, lines, entries);
  }

  /**
   * Saving a table and loading the file back gives the same entries, in
   * order, marked old and with the origin each was written with.
   */
  lemma SaveLoadRoundTrip(table: seq<Entry>, origin: string)
    requires |table| <= MaxEntries
    requires forall k :: 0 <= k < |table| ==> Storable(table[k], origin)
    ensures AllSized(table)
    ensures Loaded([], Header + EntryLines(table, origin)) == Reloads(table, origin)
  {
    LoadEntryLines([], table, origin);
    HeaderSkipped([], EntryLines(table, origin));
    assert [] + Reloads(table, origin) == Reloads(table, origin);
  }

  // ---------------------------------------------------------------- scanning

  /** A file ScanDirectory meets: its name and size, its contents (None: cannot be opened) and what CheckFileVersion finds in it. */
  datatype ScannedFile = ScannedFile(name: CString, size: nat, content: Option<seq<byte>>, info: Option<VersionInfo>)

  /** EntryExists' test for one entry: the same file name ignoring case, checksum and size. */
  predicate Matches(e: Entry, filename: string, checksum: nat, filesize: nat)
  {
    EqualsIgnoreCase(FilePart(filename), e.filename) && checksum == e.checksum && filesize == e.filesize
  }

  predicate Known(table: seq<Entry>, filename: string, checksum: nat, filesize: nat)
  {
    exists k :: 0 <= k < |table| && Matches(table[k], filename, checksum, filesize)
  }

  /** The checksum CalculateChecksum gives for a scanned file. */
  function FileChecksum(f: ScannedFile, breakSignalled: bool): bv32
  {
    if f.content.None? || breakSignalled then 0 else RotXor(f.content.value)
  }

  /**
   * The entry ScanDirectory writes for a new file. Its origin is the
   * cleared slot's: a failed sscanf never reaches the origin conversion.
   */
  function NewEntry(f: ScannedFile, checksum: bv32): (e: Entry)
    requires f.info.Some?
    ensures Sized(e) && e.isNew
  {
    Entry(checksum as nat, f.size % Two32, f.name, f.info.value.version % Two16,
          f.info.value.revision % Two16, f.info.value.date % Two32, true, "")
  }

  /** Whether ScanDirectory adds an entry for f to table. */
  predicate Accepted(table: seq<Entry>, f: ScannedFile, breakSignalled: bool)
  {
    QuickUpdate.ValidFileType(f.name) &&
    !Known(table, f.name, FileChecksum(f, breakSignalled) as nat, f.size % Two32) &&
    f.info.Some?
  }

  /** The table after ScanDirectory meets files: it stops once the table holds MaxEntries entries. */
  function Scanned(table: seq<Entry>, files: seq<ScannedFile>, breakSignalled: bool): seq<Entry>
    decreases |files|
  {
    if |files| == 0 then table
    else if Accepted(table, files[0], breakSignalled) then
      var next := table + [NewEntry(files[0], FileChecksum(files[0], breakSignalled))];
      if |next| >= MaxEntries then next else Scanned(next, files[1..], breakSignalled)
    else Scanned(table, files[1..], breakSignalled)
  }

  /** Scanning only appends, and never beyond MaxEntries. */
  lemma {:induction false} ScannedAppends(table: seq<Entry>, files: seq<ScannedFile>, breakSignalled: bool)
    requires |table| < MaxEntries
    ensures |table| <= |Scanned(table, files, breakSignalled)| <= MaxEntries
    ensures Scanned(table, files, breakSignalled)[..|table|] == table
    decreases |files|
  {
    if |files| > 0 {
      if Accepted(table, files[0], breakSignalled) {
        var next := table + [NewEntry(files[0], FileChecksum(files[0], breakSignalled))];
        assert next[..|table|] == table;
        if |next| < MaxEntries {
          ScannedAppends(next, files[1..], breakSignalled);
          assert Scanned(next, files[1..], breakSignalled)[..|next|][..|table|] == Scanned(table, files, breakSignalled)[..|table|];
        }
      } else {
        ScannedAppends(table, files[1..], breakSignalled);
      }
    }
  }

  /** The entries from index n on were found by a scan: new, with fields that fit. */
  predicate NewFrom(table: seq<Entry>, n: nat)
  {
    forall k :: n <= k < |table| ==> table[k].isNew && Sized(table[k])
  }

  lemma NewFromSnoc(table: seq<Entry>, e: Entry, n: nat)
    requires n <= |table| && NewFrom(table, n) && e.isNew && Sized(e)
    ensures NewFrom(table + [e], n)
  {
    assert forall k :: n <= k < |table| ==> (table + [e])[k] == table[k];
  }

  /** Every entry scanning adds is new and fits its fields. */
  lemma {:induction false} ScannedNew(table: seq<Entry>, files: seq<ScannedFile>, breakSignalled: bool, n: nat)
    requires n <= |table| && NewFrom(table, n)
    ensures NewFrom(Scanned(table, files, breakSignalled), n)
    decreases |files|
  {
    if |files| > 0 {
      if Accepted(table, files[0], breakSignalled) {
        var e := NewEntry(files[0], FileChecksum(files[0], breakSignalled));
        NewFromSnoc(table, e, n);
        ScannedNew(table + [e], files[1..], breakSignalled, n);
      } else {
        ScannedNew(table, files[1..], breakSignalled, n);
      }
    }
  }

  /** A file just entered is found by EntryExists afterwards, so meeting it again adds nothing. */
  lemma NewEntryKnown(table: seq<Entry>, f: ScannedFile, checksum: bv32)
    requires f.info.Some? && '/' !in f.name && ':' !in f.name
    ensures Known(table + [NewEntry(f, checksum)], f.name, checksum as nat, f.size % Two32)
  {
    var t := table + [NewEntry(f, checksum)];
    assert t[|table|] == NewEntry(f, checksum);
    assert Matches(t[|table|], f.name, checksum as nat, f.size % Two32);
  }

  // ---------------------------------------------------------------- the table

  /** The global entries array and numEntries. */
  class Database {
    const entries: array<Entry>
    var numEntries: nat

    ghost predicate Valid()
      reads this, entries
    {
      entries.Length == MaxEntries && numEntries <= MaxEntries &&
      forall k :: 0 <= k < numEntries ==> Sized(entries[k])
    }

    /** The entries in use. */
    ghost function Contents(): (c: seq<Entry>)
      reads this, entries
      requires Valid()
      ensures AllSized(c)
    {
      entries[..numEntries]
    }

    /** AllocMem(MEMF_CLEAR) of MaxEntries entries; numEntries starts at 0. */
    constructor()
      ensures Valid() && Contents() == [] && fresh(entries)
    {
      entries := new Entry[MaxEntries](_ => Blank);
      numEntries := 0;
    }

    /** An accepted entry is written at index numEntries, which then grows by one. */
    method Append(e: Entry)
      requires Valid() && numEntries < MaxEntries && Sized(e)
      modifies this, entries
      ensures Valid() && Contents() == old(Contents()) + [e]
    {
      entries[numEntries] := e;
      numEntries := numEntries + 1;
      assert entries[..numEntries] == old(entries[..numEntries]) + [e];
    }

    /** EntryExists: some entry in use matches the file name, checksum and size. */
    method EntryExists(filename: string, checksum: nat, filesize: nat) returns (found: bool)
      requires Valid()
      ensures found <==> Known(Contents(), filename, checksum, filesize)
    {
      var i := 0;
      while i < numEntries
        invariant 0 <= i <= numEntries
        invariant forall k :: 0 <= k < i ==> !Matches(entries[k], filename, checksum, filesize)
      {
        if EqualsIgnoreCase(FilePart(filename), entries[i].filename) &&
           checksum == entries[i].checksum && filesize == entries[i].filesize {
          assert Contents()[i] == entries[i];
          return true;
        }
        i := i + 1;
      }
      return false;
    }

    /**
     * LoadExistingDB over the lines of the database file (None: no
     * database yet). It succeeds either way.
     */
    method LoadExistingDB(file: Option<seq<string>>) returns (success: bool)
      requires Valid() && numEntries < MaxEntries
      modifies this, entries
      ensures Valid() && success
      ensures Contents() == if file.None? then old(Contents()) else Loaded(old(Contents()), file.value)
    {
      success := true;
      if file.None? {
        return;
      }
      var lines := file.value;
      ghost var start := Contents();
      var i := 0;
      while i < |lines|
        invariant 0 <= i <= |lines|
        invariant Valid() && numEntries < MaxEntries
        invariant Loaded(start, lines) == Loaded(Contents(), lines[i..])
      {
        var line := lines[i];
        assert lines[i..][0] == line && lines[i..][1..] == lines[i + 1..];
        if Skipped(line) {
          i := i + 1;
          continue;
        }
        var parsed := ParseLine(line);
        assert parsed == LineEntry(line);
        if parsed.Some? {
          Append(parsed.value);
          if numEntries >= MaxEntries {
            return;
          }
        }
        i := i + 1;
      }
      assert lines[i..] == [];
    }

    /** The file branch of ScanDirectory's loop body, for one file. */
    method ScanFile(f: ScannedFile, breakSignalled: bool)
      requires Valid() && numEntries < MaxEntries
      modifies this, entries
      ensures Valid()
      ensures Contents() == if Accepted(old(Contents()), f, breakSignalled)
        then old(Contents()) + [NewEntry(f, FileChecksum(f, breakSignalled))]
        else old(Contents())
    {
      var valid := QuickUpdate.IsValidFileType(f.name);
      if valid {
        var checksum := CalculateChecksum(f.content, breakSignalled);
        assert checksum == FileChecksum(f, breakSignalled);
        var known := EntryExists(f.name, checksum as nat, f.size % Two32);
        if !known && f.info.Some? {
          Append(NewEntry(f, checksum));
        }
      }
    }

    /** ScanFile on files[i], stated as one step of Scanned. */
    method ScanAt(files: seq<ScannedFile>, i: nat, breakSignalled: bool)
      requires Valid() && numEntries < MaxEntries && i < |files|
      modifies this, entries
      ensures Valid()
      ensures Scanned(old(Contents()), files[i..], breakSignalled) ==
        if numEntries >= MaxEntries then Contents() else Scanned(Contents(), files[i + 1..], breakSignalled)
    {
      assert files[i..][0] == files[i] && files[i..][1..] == files[i + 1..];
      ScanFile(files[i], breakSignalled);
    }

    /**
     * ScanDirectory over the files of one directory, in the order ExNext
     * returns them; it stops once the table is full.
     */
    method ScanFiles(files: seq<ScannedFile>, breakSignalled: bool)
      requires Valid() && numEntries < MaxEntries
      modifies this, entries
      ensures Valid()
      ensures Contents() == Scanned(old(Contents()), files, breakSignalled)
    {
      ghost var start := Contents();
      var i := 0;
      while i < |files|
        invariant 0 <= i <= |files|
        invariant Valid() && numEntries < MaxEntries
        invariant Scanned(start, files, breakSignalled) == Scanned(Contents(), files[i..], breakSignalled)
      {
        ScanAt(files, i, breakSignalled);
        if numEntries >= MaxEntries {
          return;
        }
        i := i + 1;
      }
      assert files[i..] == [];
    }

    /** The lines SaveDatabase writes: the header, then one line per entry in use. */
    method SaveDatabase(origin: string) returns (lines: seq<string>)
      requires Valid()
      ensures lines == Header + EntryLines(Contents(), origin)
    {
      lines := Header;
      var i := 0;
      while i < numEntries
        invariant 0 <= i <= numEntries
        invariant lines == Header + EntryLines(entries[..i], origin)
      {
        assert entries[..i + 1] == entries[..i] + [entries[i]];
        lines := lines + [FormatLine(entries[i], if entries[i].isNew then origin else entries[i].origin)];
        i := i + 1;
      }
      assert entries[..i] == Contents();
    }
  }
}
