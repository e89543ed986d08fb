/**
 * The library-offset symbol table of the Natty scanner: the `.fd`
 * descriptor-line parser and the 257-bucket hash table of chains that maps
 * a (negative) library vector offset to a function name.
 */
module NattySymbols {
  import opened CStrings

  /** MAX_FUNC: a stored name holds at most MaxFunc - 1 characters. */
  const MaxFunc: nat := 32
  /** HASH_SIZE */
  const HashSize: nat := 257

  /** One stored FDEntry: a library offset and the (truncated) function name. */
  datatype FdEntry = FdEntry(offset: int, name: string)

  /** What a successful descriptor line declares: a name and the nonzero number K after it. */
  datatype FdDecl = FdDecl(name: string, k: nat)

  /** hash_long: the offset cast to an unsigned 16-bit word, modulo the table size. */
  function HashLong(off: int): (h: nat)
    ensures h < HashSize
  {
    (off % Two16) % HashSize
  }

  // ---------------------------------------------------------------- chains

  /** The chain of bucket h after inserting `history` in order: newest first, only offsets hashing to h. */
  function Chain(history: seq<FdEntry>, h: nat): seq<FdEntry>
  {
    if |history| == 0 then []
    else
      var last := history[|history| - 1];
      (if HashLong(last.offset) == h then [last] else []) + Chain(history[..|history| - 1], h)
  }

  /** The name most recently inserted under offset `off`, if any. */
  function Latest(history: seq<FdEntry>, off: int): Option<string>
  {
    if |history| == 0 then None
    else if history[|history| - 1].offset == off then Some(history[|history| - 1].name)
    else Latest(history[..|history| - 1], off)
  }

  /** The name of the first entry of a chain with offset `off` (the walk of lookup_fd). */
  function Find(chain: seq<FdEntry>, off: int): Option<string>
  {
    if |chain| == 0 then None
    else if chain[0].offset == off then Some(chain[0].name)
    else Find(chain[1..], off)
  }

  /** lookup_fd over a bucket array given as a value. */
  function Resolve(buckets: seq<seq<FdEntry>>, off: int): Option<string>
    requires |buckets| == HashSize
  {
    Find(buckets[HashLong(off)], off)
  }

  /** Walking the chain of off's bucket finds the most recent insertion under off. */
  lemma {:induction false} ChainFindIsLatest(history: seq<FdEntry>, off: int)
    ensures Find(Chain(history, HashLong(off)), off) == Latest(history, off)
  {
    if |history| > 0 {
      var last := history[|history| - 1];
      var prefix := history[..|history| - 1];
      ChainFindIsLatest(prefix, off);
      var h := HashLong(off);
      if HashLong(last.offset) == h {
        var chain := [last] + Chain(prefix, h);
        assert Chain(history, h) == chain;
        assert chain[0] == last && chain[1..] == Chain(prefix, h);
      } else {
        assert last.offset != off;
        assert Chain(history, h) == Chain(prefix, h);
      }
    }
  }

  /** Only keys that were inserted resolve. */
  lemma {:induction false} LatestIsInserted(history: seq<FdEntry>, off: int)
    ensures Latest(history, off).Some? <==> exists i :: 0 <= i < |history| && history[i].offset == off
  {
    if |history| > 0 {
      var prefix := history[..|history| - 1];
      LatestIsInserted(prefix, off);
      if Latest(history, off).None? {
        assert forall i :: 0 <= i < |prefix| ==> prefix[i] == history[i];
      } else if history[|history| - 1].offset != off {
        var i :| 0 <= i < |prefix| && prefix[i].offset == off;
        assert history[i].offset == off;
      }
    }
  }

  /** A table whose keys are all negative never resolves a non-negative displacement. */
  lemma NonNegativeNeverResolves(history: seq<FdEntry>, off: int)
    requires forall i :: 0 <= i < |history| ==> history[i].offset <= -1
    requires off >= 0
    ensures Latest(history, off).None?
  {
    LatestIsInserted(history, off);
  }

  /** The global `Hash` array of chains and, as a ghost, the insertions made so far. */
  class SymbolTable {
    const buckets: array<seq<FdEntry>>
    ghost var history: seq<FdEntry>

    ghost predicate Valid()
      reads this, buckets
    {
      buckets.Length == HashSize &&
      forall h :: 0 <= h < HashSize ==> buckets[h] == Chain(history, h)
    }

    /** The table as load_fd_dir clears it: every bucket empty. */
    constructor ()
      ensures Valid() && history == []
      ensures fresh(buckets)
    {
      buckets := new seq<FdEntry>[HashSize](_ => []);
      history := [];
    }

    /** insert_fd: prepends an entry with the name cut to MaxFunc - 1 characters. */
    method Insert(off: int, name: CString)
      requires Valid()
      modifies this, buckets
      ensures Valid()
      ensures history == old(history) + [FdEntry(off, Take(name, MaxFunc - 1))]
      ensures buckets[..] == old(buckets[..])[HashLong(off) := [FdEntry(off, Take(name, MaxFunc - 1))] + old(buckets[HashLong(off)])]
    {
      var e := FdEntry(off, Take(name, MaxFunc - 1));
      var h := HashLong(off);
      buckets[h] := [e] + buckets[h];
      history := history + [e];
      assert history[..|history| - 1] == old(history);
    }

    /** lookup_fd: the first entry of the bucket's chain with this offset. */
    method Lookup(off: int) returns (r: Option<string>)
      requires Valid()
      ensures r == Latest(history, off)
      ensures r == Resolve(buckets[..], off)
    {
      var chain := buckets[HashLong(off)];
      ChainFindIsLatest(history, off);
      var i := 0;
      while i < |chain|
        invariant 0 <= i <= |chain|
        invariant Find(chain, off) == Find(chain[i..], off)
      {
        if chain[i].offset == off {
          return Some(chain[i].name);
        }
        assert chain[i..][1..] == chain[i + 1..];
        i := i + 1;
      }
      return None;
    }

    /** One line of a descriptor file: parse_fd_line, then insert_fd(-K, name) on success. */
    method LoadFdLine(line: CString)
      requires Valid()
      modifies this, buckets
      ensures Valid()
      ensures history == old(history) + LineEntries(line)
    {
      var d := ParseFdLine(line);
      if d.Some? {
        FdLineName(line);
        Insert(-(d.value.k as int), d.value.name);
      }
    }

    /** Parses every line of one descriptor file and inserts each declaration under -K. */
    method LoadFdLines(lines: seq<CString>)
      requires Valid()
      modifies this, buckets
      ensures Valid()
      ensures history == old(history) + Declared(lines)
    {
      var i := 0;
      while i < |lines|
        invariant 0 <= i <= |lines|
        invariant Valid()
        invariant history == old(history) + Declared(lines[..i])
      {
        LoadFdLine(lines[i]);
        DeclaredSnoc(lines, i);
        i := i + 1;
      }
      assert lines[..i] == lines;
    }
  }

  // ---------------------------------------------------------------- descriptor lines

  /** The first index at or after i that is not whitespace. */
  function SkipSpaces(s: string, i: nat): (j: nat)
    requires i <= |s|
    ensures i <= j <= |s|
    ensures forall k :: i <= k < j ==> IsSpace(s[k])
    ensures j < |s| ==> !IsSpace(s[j])
    decreases |s| - i
  {
    if i < |s| && IsSpace(s[i]) then SkipSpaces(s, i + 1) else i
  }

  /** The end of a token starting at i: at most `budget` non-space characters. */
  function TokenEnd(s: string, i: nat, budget: nat): (j: nat)
    requires i <= |s|
    ensures i <= j <= |s| && j - i <= budget
    ensures forall k :: i <= k < j ==> !IsSpace(s[k])
    ensures j < |s| && j - i < budget ==> IsSpace(s[j])
    decreases budget
  {
    if i < |s| && !IsSpace(s[i]) && budget > 0 then TokenEnd(s, i + 1, budget - 1) else i
  }

  /** The end of the name token: parse_fd_line copies at most MaxFunc - 1 characters. */
  function NameEnd(s: string, i: nat): (j: nat)
    requires i <= |s|
  {
    TokenEnd(s, i, MaxFunc - 1)
  }

  /**
   * What parse_fd_line accepts: optional whitespace, a name token (cut at
   * MaxFunc - 1 characters, the rest of a longer token is not skipped),
   * whitespace, an optional '-', then a digit run whose value K is nonzero.
   * A line whose first non-space character is ';' is a comment.
   */
  function FdLineSpec(line: CString): Option<FdDecl>
  {
    var start := SkipSpaces(line, 0);
    if At(line, start) == ';' then None
    else
      var nameEnd := NameEnd(line, start);
      var j := SkipSpaces(line, nameEnd);
      var d := if At(line, j) == '-' then j + 1 else j;
      if !IsDigit(At(line, d)) then None
      else
        var k := DigitRunValue(line, d);
        if k == 0 then None else Some(FdDecl(line[start..nameEnd], k))
  }

  /** parse_fd_line, walking the line with a cursor as the source does. */
  method ParseFdLine(line: CString) returns (r: Option<FdDecl>)
    ensures r == FdLineSpec(line)
  {
    var start := SkipSpacesFrom(line, 0);
    if start < |line| && line[start] == ';' {
      return None;
    }
    var nameEnd := ScanName(line, start);
    var i := SkipSpacesFrom(line, nameEnd);
    if i < |line| && line[i] == '-' {
      i := i + 1;
    }
    if !(i < |line| && IsDigit(line[i])) {
      return None;
    }
    var k := Atoi(line, i);
    if k == 0 {
      return None;
    }
    return Some(FdDecl(line[start..nameEnd], k));
  }

  /** The while (isspace(*p)) p++ loops of parse_fd_line. */
  method SkipSpacesFrom(line: CString, i0: nat) returns (i: nat)
    requires i0 <= |line|
    ensures i == SkipSpaces(line, i0)
  {
    i := i0;
    while i < |line| && IsSpace(line[i])
      invariant i0 <= i <= |line|
      invariant SkipSpaces(line, i0) == SkipSpaces(line, i)
    {
      i := i + 1;
    }
  }

  /** The name-copying loop of parse_fd_line: at most MaxFunc - 1 non-space characters. */
  method ScanName(line: CString, start: nat) returns (i: nat)
    requires start <= |line|
    ensures i == NameEnd(line, start)
  {
    i := start;
    while i < |line| && !IsSpace(line[i]) && i - start < MaxFunc - 1
      invariant start <= i <= |line| && i - start <= MaxFunc - 1
      invariant NameEnd(line, start) == TokenEnd(line, i, MaxFunc - 1 - (i - start))
    {
      i := i + 1;
    }
  }

  /** atoi at a digit: the value of the digit run, accumulated digit by digit. */
  method Atoi(s: string, i: nat) returns (k: nat)
    requires i <= |s|
    ensures k == DigitRunValue(s, i)
  {
    k := 0;
    var j := i;
    while j < |s| && IsDigit(s[j])
      invariant i <= j <= |s|
      invariant AllDigits(s[i..j]) && k == DecimalValue(s[i..j])
      invariant DigitRunLength(s, i) == (j - i) + DigitRunLength(s, j)
    {
      assert s[i..j + 1][..j - i] == s[i..j];
      k := k * 10 + DigitValue(s[j]);
      j := j + 1;
    }
    assert DigitRunLength(s, i) == j - i;
  }

  /** The FdEntry record one descriptor line inserts, if any. */
  function LineEntries(line: CString): seq<FdEntry>
  {
    match FdLineSpec(line)
      case None => []
      case Some(d) => [FdEntry(-(d.k as int), d.name)]
  }

  /** The FdEntry records a run of descriptor lines inserts, in insertion order. */
  function Declared(lines: seq<CString>): seq<FdEntry>
  {
    if |lines| == 0 then [] else Declared(lines[..|lines| - 1]) + LineEntries(lines[|lines| - 1])
  }

  lemma DeclaredSnoc(lines: seq<CString>, i: nat)
    requires i < |lines|
    ensures Declared(lines[..i + 1]) == Declared(lines[..i]) + LineEntries(lines[i])
  {
    assert lines[..i + 1][..i] == lines[..i];
  }

  /** A declared name is a non-empty C string of at most MaxFunc - 1 characters, so insert_fd stores it whole. */
  lemma FdLineName(line: CString)
    ensures FdLineSpec(line).Some? ==>
      var name := FdLineSpec(line).value.name;
      '\0' !in name && Take(name, MaxFunc - 1) == name
  {
    if FdLineSpec(line).Some? {
      var start := SkipSpaces(line, 0);
      var name := line[start..NameEnd(line, start)];
      assert forall c :: c in name ==> c in line;
    }
  }

  /**
   * Every accepted line declares a name of 1 to MaxFunc - 1 non-space
   * characters and a K of at least 1, so the stored key -K is at most -1.
   */
  lemma FdLineShape(line: CString)
    ensures FdLineSpec(line).Some? ==>
      var d := FdLineSpec(line).value;
      1 <= |d.name| <= MaxFunc - 1 && d.k >= 1 &&
      (forall c :: c in d.name ==> !IsSpace(c))
  {
    if FdLineSpec(line).Some? {
      var start := SkipSpaces(line, 0);
      var nameEnd := NameEnd(line, start);
      assert start < |line|;
      assert nameEnd > start;
      var name := line[start..nameEnd];
      forall c | c in name ensures !IsSpace(c) {
        var k :| 0 <= k < |name| && name[k] == c;
        assert line[start + k] == c;
      }
    }
  }

  /** Comment lines declare nothing. */
  lemma CommentLineDeclaresNothing(spaces: string, rest: string)
    requires forall k :: 0 <= k < |spaces| ==> IsSpace(spaces[k])
    requires '\0' !in spaces + [';'] + rest
    ensures FdLineSpec(spaces + [';'] + rest) == None
  {
    var line := spaces + [';'] + rest;
    assert line[|spaces|] == ';';
    assert SkipSpaces(line, 0) == |spaces| by {
      SkipSpacesOver(line, 0, |spaces|);
    }
  }

  lemma {:induction false} SkipSpacesOver(s: string, i: nat, j: nat)
    requires i <= j < |s|
    requires forall k :: i <= k < j ==> IsSpace(s[k])
    requires !IsSpace(s[j])
    ensures SkipSpaces(s, i) == j
    decreases j - i
  {
    if i < j {
      SkipSpacesOver(s, i + 1, j);
    }
  }

  /** A line without any digit declares nothing. */
  lemma NoDigitDeclaresNothing(line: CString)
    requires forall k :: 0 <= k < |line| ==> !IsDigit(line[k])
    ensures FdLineSpec(line) == None
  {
  }

  /** Every key a run of descriptor lines inserts is at most -1, and every name fits the entry. */
  lemma {:induction false} DeclaredKeysNegative(lines: seq<CString>)
    ensures forall i :: 0 <= i < |Declared(lines)| ==> Declared(lines)[i].offset <= -1
    ensures forall i :: 0 <= i < |Declared(lines)| ==> 1 <= |Declared(lines)[i].name| <= MaxFunc - 1
  {
    if |lines| > 0 {
      DeclaredKeysNegative(lines[..|lines| - 1]);
      FdLineShape(lines[|lines| - 1]);
    }
  }

  /**
   * After loading descriptor lines into an empty table, a non-negative
   * displacement never resolves.
   */
  lemma LoadedTableIgnoresNonNegative(lines: seq<CString>, off: int)
    requires off >= 0
    ensures Latest(Declared(lines), off).None?
  {
    DeclaredKeysNegative(lines);
    NonNegativeNeverResolves(Declared(lines), off);
  }

  /** A well-formed descriptor line: indentation, a name, whitespace, an optional '-' and K. */
  function FdLine(indent: string, name: string, minus: bool, k: nat): CString
    requires '\0' !in indent && '\0' !in name
  {
    indent + name + " " + (if minus then "-" else "") + DecimalText(k)
  }

  /**
   * Round trip: a line written with a name of 1 to MaxFunc - 1 non-space
   * characters not starting with ';' and a K >= 1 parses back to that name
   * and K, with or without the minus sign.
   */
  lemma FdLineRoundTrip(indent: string, name: string, minus: bool, k: nat)
    requires '\0' !in indent && '\0' !in name
    requires forall i :: 0 <= i < |indent| ==> IsSpace(indent[i])
    requires 1 <= |name| <= MaxFunc - 1 && name[0] != ';'
    requires forall i :: 0 <= i < |name| ==> !IsSpace(name[i])
    requires k >= 1
    ensures FdLineSpec(FdLine(indent, name, minus, k)) == Some(FdDecl(name, k))
  {
    var line := FdLine(indent, name, minus, k);
    var digits := DecimalText(k);
    var a := |indent|;
    var b := a + |name|;
    var d := if minus then b + 2 else b + 1;
    assert line[a..b] == name;
    SkipSpacesOver(line, 0, a);
    TokenEndOver(line, a, b, MaxFunc - 1);
    assert line[b] == ' ';
    SkipSpacesOver(line, b, b + 1);
    assert line[d..] == digits;
    DigitRunWhole(line, d);
    DecimalRoundTrip(k);
    assert At(line, b + 1) == '-' <==> minus;
    FdLineSpecParts(line, a, b, b + 1, d, k);
  }

  /** FdLineSpec from the positions its scan stops at. */
  lemma FdLineSpecParts(line: CString, start: nat, nameEnd: nat, j: nat, d: nat, k: nat)
    requires SkipSpaces(line, 0) == start && At(line, start) != ';'
    requires NameEnd(line, start) == nameEnd && SkipSpaces(line, nameEnd) == j
    requires d == if At(line, j) == '-' then j + 1 else j
    requires IsDigit(At(line, d)) && DigitRunValue(line, d) == k && k > 0
    ensures FdLineSpec(line) == Some(FdDecl(line[start..nameEnd], k))
  {
  }

  lemma {:induction false} TokenEndOver(s: string, i: nat, j: nat, budget: nat)
    requires i <= j < |s| && j - i <= budget
    requires forall k :: i <= k < j ==> !IsSpace(s[k])
    requires IsSpace(s[j])
    ensures TokenEnd(s, i, budget) == j
    decreases j - i
  {
    if i < j {
      TokenEndOver(s, i + 1, j, budget - 1);
    }
  }

  /** A digit run that reaches the end of the string is read whole. */
  lemma DigitRunWhole(s: string, d: nat)
    requires d < |s| && AllDigits(s[d..])
    ensures DigitRunValue(s, d) == DecimalValue(s[d..])
  {
    DigitRunToEnd(s, d);
    assert s[d..d + (|s| - d)] == s[d..];
  }

  lemma {:induction false} DigitRunToEnd(s: string, d: nat)
    requires d <= |s| && AllDigits(s[d..])
    ensures DigitRunLength(s, d) == |s| - d
    decreases |s| - d
  {
    if d < |s| {
      assert IsDigit(s[d..][0]);
      assert s[d + 1..] == s[d..][1..];
      DigitRunToEnd(s, d + 1);
    }
  }

  /**
   * The name token is cut at MaxFunc - 1 characters and the rest of the
   * token is read on as the number: 31 'A's followed by "7" declares K = 7.
   */
  lemma LongTokenSpillsIntoNumber()
    ensures FdLineSpec(seq(31, _ => 'A') + "7") == Some(FdDecl(seq(31, _ => 'A'), 7))
  {
    var line := seq(31, _ => 'A') + "7";
    assert NameEnd(line, 0) == 31 by {
      TokenEndCap(line, 0, MaxFunc - 1);
    }
    assert line[31] == '7';
    assert line[31..] == "7";
    DigitRunWhole(line, 31);
    assert DecimalValue("7") == 7 by {
      assert "7"[..0] == "";
    }
  }

  lemma {:induction false} TokenEndCap(s: string, i: nat, budget: nat)
    requires i + budget <= |s|
    requires forall k :: i <= k < i + budget ==> !IsSpace(s[k])
    ensures TokenEnd(s, i, budget) == i + budget
    decreases budget
  {
    if budget > 0 {
      TokenEndCap(s, i + 1, budget - 1);
    }
  }

  /** The `.fd` suffix test of load_fd_dir: at least three characters ending in ".fd", any case. */
  predicate IsFdFileName(name: string)
  {
    |name| >= 3 && EqualsIgnoreCase(name[|name| - 3..], ".fd")
  }

  lemma FdFileNameExamples()
    ensures IsFdFileName("exec_lib.FD")
    ensures !IsFdFileName("fd")
    ensures !IsFdFileName("exec_lib.fdx")
  {
    assert "exec_lib.FD"[8..] == ".FD";
    assert Lower(".FD") == ".fd";
    assert "exec_lib.fdx"[9..] == "fdx";
    assert Lower("fdx")[0] != Lower(".fd")[0];
  }
}
