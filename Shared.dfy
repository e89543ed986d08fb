/**
 * Shared.c: the CRC-32 of IEEE 802.3 (clause 3.2.9, the frame check
 * sequence; reflected polynomial 0xEDB88320) with its lookup table, the
 * version-string parser and ordering, and the database-line check.
 */
module Shared {
  import opened CStrings

  // ---------------------------------------------------------------- CRC-32

  /** The reflected CRC-32 polynomial of IEEE 802.3. */
  const Polynomial: bv32 := 0xEDB8_8320

  /** One step of the reflected shift register: shift right, folding the polynomial in when bit 0 was set. */
  function ShiftStep(rem: bv32): bv32
  {
    if rem & 1 == 1 then (rem >> 1) ^ Polynomial else rem >> 1
  }

  /** n steps of the shift register. */
  function Rounds(rem: bv32, n: nat): bv32
  {
    if n == 0 then rem else ShiftStep(Rounds(rem, n - 1))
  }

  /** Entry i of crc32_table: the register after eight steps from i. */
  function TableEntry(i: bv32): bv32
    requires i < 256
  {
    Rounds(i, 8)
  }

  /** The table index of a byte: the low byte of the register XOR the data byte. */
  function TableIndex(crc: bv32, b: byte): (i: bv32)
    ensures i < 256
  {
    (crc ^ (b as bv32)) & 0xFF
  }

  /** One byte through the table-driven update of the CRC loop. */
  function ByteStep(crc: bv32, b: byte): bv32
  {
    (crc >> 8) ^ TableEntry(TableIndex(crc, b))
  }

  /** The register after the bytes of data, from crc. */
  function Update(crc: bv32, data: seq<byte>): bv32
  {
    if |data| == 0 then crc else ByteStep(Update(crc, data[..|data| - 1]), data[|data| - 1])
  }

  /** The checksum CalculateChecksum returns for a file it could open. */
  function Crc32(data: seq<byte>): bv32
  {
    Update(0xFFFF_FFFF, data) ^ 0xFFFF_FFFF
  }

  /** Feeding the bytes in two pieces gives the same register as feeding them at once. */
  lemma {:induction false} UpdateAppend(crc: bv32, a: seq<byte>, b: seq<byte>)
    ensures Update(crc, a + b) == Update(Update(crc, a), b)
    decreases |b|
  {
    if |b| == 0 {
      assert a + b == a;
    } else {
      var b' := b[..|b| - 1];
      var last := b[|b| - 1];
      assert (a + b)[..|a + b| - 1] == a + b';
      assert (a + b)[|a + b| - 1] == last;
      UpdateAppend(crc, a, b');
      calc {
        Update(crc, a + b);
        ByteStep(Update(crc, a + b'), last);
        ByteStep(Update(Update(crc, a), b'), last);
        Update(Update(crc, a), b);
      }
    }
  }

  /** The two table entries the polynomial is read from: entry 0 is 0 and entry 128 is the polynomial. */
  lemma TableCorners()
    ensures TableEntry(0) == 0 && TableEntry(128) == Polynomial
  {
  }

  /** An empty file has checksum 0, the value CalculateChecksum also returns for a file it cannot open. */
  lemma EmptyChecksum()
    ensures Crc32([]) == 0
  {
  }

  /** The ASCII text "123456789". */
  const CheckInput: seq<byte> := [0x31, 0x32, 0x33, 0x34, 0x35, 0x36, 0x37, 0x38, 0x39]

  /** Bytes 1 to 3 of the check input, from the register they find. */
  lemma CheckPart1()
    ensures Update(0xFFFF_FFFF, [0x31, 0x32, 0x33]) == 0x77B7_9C2D
  {
    var d: seq<byte> := [0x31, 0x32, 0x33];
    assert d[..1] == [0x31] && d[..2] == [0x31, 0x32] && d[..1][..0] == [] && d[..2][..1] == d[..1];
    assert Update(0xFFFF_FFFF, d[..1]) == 0x7C23_1048;
    assert Update(0xFFFF_FFFF, d[..2]) == 0xB0AC_BB32;
  }

  /** Bytes 4 to 6 of the check input, from the register they find. */
  lemma CheckPart2()
    ensures Update(0x77B7_9C2D, [0x34, 0x35, 0x36]) == 0xF68D_2C9E
  {
    var d: seq<byte> := [0x34, 0x35, 0x36];
    assert d[..1] == [0x34] && d[..2] == [0x34, 0x35] && d[..1][..0] == [] && d[..2][..1] == d[..1];
    assert Update(0x77B7_9C2D, d[..1]) == 0x641C_1F5C;
    assert Update(0x77B7_9C2D, d[..2]) == 0x340A_C5E3;
  }

  /** Bytes 7 to 9 of the check input, from the register they find. */
  lemma CheckPart3()
    ensures Update(0xF68D_2C9E, [0x37, 0x38, 0x39]) == 0x340B_C6D9
  {
    var d: seq<byte> := [0x37, 0x38, 0x39];
    assert d[..1] == [0x37] && d[..2] == [0x37, 0x38] && d[..1][..0] == [] && d[..2][..1] == d[..1];
    assert Update(0xF68D_2C9E, d[..1]) == 0xAFFC_9660;
    assert Update(0xF68D_2C9E, d[..2]) == 0x651F_2550;
  }

  /** The check value of the CRC-32 of IEEE 802.3 over "123456789". */
  lemma CheckValue()
    ensures Crc32(CheckInput) == 0xCBF4_3926
  {
    var a: seq<byte>, b: seq<byte>, c: seq<byte> := [0x31, 0x32, 0x33], [0x34, 0x35, 0x36], [0x37, 0x38, 0x39];
    CheckPart1();
    CheckPart2();
    CheckPart3();
    UpdateAppend(0xFFFF_FFFF, a, b);
    UpdateAppend(0xFFFF_FFFF, a + b, c);
    assert CheckInput == a + b + c;
  }

  /** Bytes read per Read() call. */
  const BufferSize: nat := 8192

  /** crc32_table and its initialisation flag, filled on first use. */
  class Crc32Table {
    const table: array<bv32>
    var initialized: bool

    predicate Valid()
      reads this, table
    {
      table.Length == 256 && (initialized ==> forall i :: 0 <= i < 256 ==> table[i] == TableEntry(i as bv32))
    }

    constructor()
      ensures Valid() && !initialized && fresh(table)
    {
      table := new bv32[256](_ => 0);
      initialized := false;
    }

    /** The inner loop of InitCRC32Table: eight shift/XOR steps of the register from an index. */
    static method ComputeEntry(index: bv32) returns (rem: bv32)
      requires index < 256
      ensures rem == TableEntry(index)
    {
      rem := index;
      var j := 0;
      while j < 8
        invariant 0 <= j <= 8
        invariant rem == Rounds(index, j)
      {
        if rem & 1 == 1 {
          rem := rem >> 1;
          rem := rem ^ Polynomial;
        } else {
          rem := rem >> 1;
        }
        j := j + 1;
      }
    }

    /** One pass of InitCRC32Table's outer loop: entry i is filled, earlier entries are kept. */
    method FillEntry(i: nat)
      requires table.Length == 256 && i < 256
      requires forall k :: 0 <= k < i ==> table[k] == TableEntry(k as bv32)
      modifies table
      ensures forall k :: 0 <= k <= i ==> table[k] == TableEntry(k as bv32)
    {
      var rem := ComputeEntry(i as bv32);
      table[i] := rem;
    }

    /** InitCRC32Table: each entry is eight steps of the shift register from its index. */
    method Init()
      requires table.Length == 256
      modifies this, table
      ensures Valid() && initialized
    {
      var i := 0;
      while i < 256
        invariant 0 <= i <= 256
        invariant forall k :: 0 <= k < i ==> table[k] == TableEntry(k as bv32)
      {
        FillEntry(i);
        i := i + 1;
      }
      initialized := true;
    }

    /** The inner loop of CalculateChecksum: the table-driven update over one buffer. */
    method UpdateBuffer(crc0: bv32, buffer: seq<byte>) returns (crc: bv32)
      requires Valid() && initialized
      ensures crc == Update(crc0, buffer)
    {
      crc := crc0;
      var i := 0;
      while i < |buffer|
        invariant 0 <= i <= |buffer|
        invariant crc == Update(crc0, buffer[..i])
      {
        assert buffer[..i + 1][..i] == buffer[..i];
        crc := (crc >> 8) ^ table[TableIndex(crc, buffer[i]) as int];
        i := i + 1;
      }
      assert buffer[..i] == buffer;
    }

    /**
     * CalculateChecksum over the contents of a file (None: the file cannot
     * be opened), read in BufferSize pieces.
     */
    method CalculateChecksum(file: Option<seq<byte>>) returns (crc: bv32)
      requires Valid()
      modifies this, table
      ensures Valid() && initialized
      ensures crc == if file.None? then 0 else Crc32(file.value)
    {
      if !initialized {
        Init();
      }
      crc := 0xFFFF_FFFF;
      if file.None? {
        return 0;
      }
      var data := file.value;
      var pos := 0;
      while pos < |data|
        invariant 0 <= pos <= |data| && Valid() && initialized
        invariant crc == Update(0xFFFF_FFFF, data[..pos])
      {
        var bytesRead := if |data| - pos < BufferSize then |data| - pos else BufferSize;
        var buffer := data[pos..pos + bytesRead];
        UpdateAppend(0xFFFF_FFFF, data[..pos], buffer);
        assert data[..pos] + buffer == data[..pos + bytesRead];
        crc := UpdateBuffer(crc, buffer);
        pos := pos + bytesRead;
      }
      assert data[..pos] == data;
      crc := crc ^ 0xFFFF_FFFF;
    }
  }

  // ---------------------------------------------------------------- versions

  /** struct VersionInfo: version and revision are UWORD, date is ULONG. */
  datatype VersionInfo = VersionInfo(version: nat, revision: nat, date: nat, origin: string)

  predicate WellFormed(v: VersionInfo)
  {
    v.version < Two16 && v.revision < Two16 && v.date < Two32
  }

  /** CompareVersions: 1 when candidate is newer, -1 when older, 0 when the same. */
  function CompareVersions(current: VersionInfo, candidate: VersionInfo): int
  {
    if candidate.version > current.version then 1
    else if candidate.version < current.version then -1
    else if candidate.revision > current.revision then 1
    else if candidate.revision < current.revision then -1
    else if candidate.date > current.date then 1
    else if candidate.date < current.date then -1
    else 0
  }

  /** The three fields read as one number, version most significant. */
  function Rank(v: VersionInfo): nat
  {
    (v.version * Two16 + v.revision) * Two32 + v.date
  }

  function Sign(x: int): int
  {
    if x > 0 then 1 else if x < 0 then -1 else 0
  }

  lemma RankBounds(v: VersionInfo)
    requires WellFormed(v)
    ensures v.version * Two16 * Two32 <= Rank(v) < (v.version + 1) * Two16 * Two32
    ensures (v.version * Two16 + v.revision) * Two32 <= Rank(v) < (v.version * Two16 + v.revision + 1) * Two32
  {
  }

  lemma RankLess(lo: VersionInfo, hi: VersionInfo)
    requires WellFormed(lo) && WellFormed(hi)
    requires lo.version < hi.version || (lo.version == hi.version && lo.revision < hi.revision) ||
      (lo.version == hi.version && lo.revision == hi.revision && lo.date < hi.date)
    ensures Rank(lo) < Rank(hi)
  {
    RankBounds(lo);
    RankBounds(hi);
    if lo.version < hi.version {
      assert (lo.version + 1) * Two16 * Two32 <= hi.version * Two16 * Two32;
    } else if lo.revision < hi.revision {
      assert (lo.version * Two16 + lo.revision + 1) * Two32 <= (hi.version * Two16 + hi.revision) * Two32;
    }
  }

  /** The ordering is the numeric order of the three fields read as one number. */
  lemma CompareIsRankOrder(current: VersionInfo, candidate: VersionInfo)
    requires WellFormed(current) && WellFormed(candidate)
    ensures CompareVersions(current, candidate) == Sign(Rank(candidate) - Rank(current))
  {
    if CompareVersions(current, candidate) == 1 {
      RankLess(current, candidate);
    } else if CompareVersions(current, candidate) == -1 {
      RankLess(candidate, current);
    }
  }

  /** Exactly one of 1, 0 and -1; 0 only for equal fields; swapping the arguments negates it. */
  lemma CompareProperties(a: VersionInfo, b: VersionInfo)
    ensures CompareVersions(a, b) in {-1, 0, 1}
    ensures CompareVersions(a, b) == 0 <==> (a.version, a.revision, a.date) == (b.version, b.revision, b.date)
    ensures CompareVersions(b, a) == -CompareVersions(a, b)
  {
  }

  // ---------------------------------------------------------------- ParseVersionString

  /** The index of the first decimal digit at or after p, or |s| when there is none. */
  function NextDigit(s: string, p: nat): (q: nat)
    requires p <= |s|
    ensures p <= q <= |s| && (q < |s| ==> IsDigit(s[q]))
    ensures forall k :: p <= k < q ==> !IsDigit(s[k])
    decreases |s| - p
  {
    if p == |s| || IsDigit(s[p]) then p else NextDigit(s, p + 1)
  }

  /** The index of the first '(' at or after p, or |s| when there is none. */
  function NextParen(s: string, p: nat): (q: nat)
    requires p <= |s|
    ensures p <= q <= |s| && (q < |s| ==> s[q] == '(')
    ensures forall k :: p <= k < q ==> s[k] != '('
    decreases |s| - p
  {
    if p == |s| || s[p] == '(' then p else NextParen(s, p + 1)
  }

  /** What the number loop has found: version, revision and where it stopped. */
  datatype Scan = Scan(version: nat, revision: nat, end: nat)

  /**
   * The number loop of ParseVersionString from p. State 0: the next digit
   * run is the version; state 1: a digit run followed by '.' moves to state
   * 2; state 2: the next digit run is the revision. A '(' outside a digit
   * run stops the loop.
   */
  function NumbersFrom(s: string, p: nat, state: nat, version: nat): (r: Scan)
    requires p <= |s|
    ensures p <= r.end <= |s| && r.revision < Two16
    ensures state != 0 ==> r.version == version
    decreases |s| - p
  {
    if p == |s| then Scan(version, 0, p)
    else if IsDigit(s[p]) then
      var e := p + DigitRunLength(s, p);
      var num := DigitRunValue(s, p) % Two16;
      if state == 0 then NumbersFrom(s, e, 1, num)
      else if state == 1 && At(s, e) == '.' then NumbersFrom(s, e + 1, 2, version)
      else if state == 2 then Scan(version, num, e)
      else NumbersFrom(s, e, state, version)
    else if s[p] == '(' then Scan(version, 0, p)
    else NumbersFrom(s, p + 1, state, version)
  }

  /** ClockData fields of the DateStamp StrToDate fills in, as LONG bit patterns. */
  datatype DateStamp = DateStamp(days: bv32, minute: bv32, tick: bv32)

  /**
   * StrToDate as the parser means to call it: the text after '(' read as a
   * date, when it reads as one. The call as written passes the text as a
   * second argument, which dos.library's StrToDate does not take.
   */
  type DateParser = string -> Option<DateStamp>

  /** The date as stored: days, minute and tick shifted into one ULONG. */
  function PackDate(d: DateStamp): bv32
  {
    (d.days << 16) | (d.minute << 8) | d.tick
  }

  /** The date of the version string: the text after the first '(' from p, through StrToDate. */
  function DateFrom(s: string, p: nat, strToDate: DateParser): (date: nat)
    requires p <= |s|
    ensures date < Two32
  {
    var q := NextParen(s, p);
    if q == |s| then 0
    else match strToDate(s[q + 1..])
      case Some(d) => PackDate(d) as nat
      case None => 0
  }

  /** ParseVersionString: None when neither a version nor a revision was found. */
  function ParseVersion(s: CString, origin: string, strToDate: DateParser): Option<VersionInfo>
  {
    var sc := NumbersFrom(s, NextDigit(s, 0), 0, 0);
    if sc.version == 0 && sc.revision == 0 then None
    else Some(VersionInfo(sc.version, sc.revision, DateFrom(s, sc.end, strToDate), origin))
  }

  lemma {:induction false} DigitRunExact(s: string, i: nat, j: nat)
    requires i <= j <= |s|
    requires forall k :: i <= k < j ==> IsDigit(s[k])
    requires j == |s| || !IsDigit(s[j])
    ensures DigitRunLength(s, i) == j - i
    decreases j - i
  {
    if i < j {
      DigitRunExact(s, i + 1, j);
    }
  }

  lemma DecimalSnoc(s: string, i: nat, j: nat)
    requires i <= j < |s| && AllDigits(s[i..j + 1])
    ensures AllDigits(s[i..j]) && DecimalValue(s[i..j + 1]) == DecimalValue(s[i..j]) * 10 + DigitValue(s[j])
  {
    assert s[i..j + 1][..j - i] == s[i..j];
  }

  /** The inner digit loop: the value of the digit run at p and the index just past it. */
  method ReadNumber(s: string, p0: nat) returns (num: nat, p: nat)
    requires p0 < |s| && IsDigit(s[p0])
    ensures p == p0 + DigitRunLength(s, p0) && num == DigitRunValue(s, p0)
  {
    p := p0;
    num := 0;
    while p < |s| && IsDigit(s[p])
      invariant p0 <= p <= |s|
      invariant forall k :: p0 <= k < p ==> IsDigit(s[k])
      invariant num == DecimalValue(s[p0..p])
    {
      DecimalSnoc(s, p0, p);
      num := num * 10 + DigitValue(s[p]);
      p := p + 1;
    }
    DigitRunExact(s, p0, p);
  }

  /** The date part: skip to the next '(' and hand the text after it to StrToDate. */
  method ReadDate(s: string, p0: nat, strToDate: DateParser) returns (date: nat)
    requires p0 <= |s|
    ensures date == DateFrom(s, p0, strToDate)
  {
    var p := p0;
    date := 0;
    while p < |s| && s[p] != '('
      invariant p0 <= p <= |s| && NextParen(s, p0) == NextParen(s, p)
    {
      p := p + 1;
    }
    if p < |s| {
      p := p + 1;
      match strToDate(s[p..]) {
        case Some(d) => date := PackDate(d) as nat;
        case None =>
      }
    }
  }

  /** One turn of ParseVersionString's number loop at p: it either stops with the result or moves on with the same result ahead. */
  method NumbersTurn(s: string, p0: nat, state0: nat, version0: nat)
    returns (p: nat, state: nat, version: nat, revision: nat, done: bool)
    requires p0 < |s|
    ensures p <= |s|
    ensures done ==> NumbersFrom(s, p0, state0, version0) == Scan(version, revision, p)
    ensures !done ==> p0 < p && revision == 0 && NumbersFrom(s, p, state, version) == NumbersFrom(s, p0, state0, version0)
  {
    p, state, version, revision, done := p0, state0, version0, 0, false;
    if IsDigit(s[p]) {
      var num;
      num, p := ReadNumber(s, p);
      if state == 0 {
        version := num % Two16;
        state := 1;
      } else if state == 1 && At(s, p) == '.' {
        p := p + 1;
        state := 2;
      } else if state == 2 {
        revision := num % Two16;
        done := true;
      }
    } else if s[p] == '(' {
      done := true;
    } else {
      p := p + 1;
    }
  }

  /**
   * ParseVersionString: walks the string with a state variable; on failure
   * the caller's info is left as it was.
   */
  method ParseVersionString(verStr: CString, info: VersionInfo, strToDate: DateParser) returns (ok: bool, result: VersionInfo)
    ensures ok == ParseVersion(verStr, info.origin, strToDate).Some?
    ensures result == if ok then ParseVersion(verStr, info.origin, strToDate).value else info
  {
    var s := verStr;
    var p := 0;
    var state: nat := 0;
    var version: nat := 0;
    var revision: nat := 0;
    var date: nat := 0;
    while p < |s| && !IsDigit(s[p])
      invariant p <= |s| && NextDigit(s, 0) == NextDigit(s, p)
    {
      p := p + 1;
    }
    ghost var target := NumbersFrom(s, p, 0, 0);
    while p < |s|
      invariant p <= |s| && revision == 0
      invariant NumbersFrom(s, p, state, version) == target
      decreases |s| - p
    {
      var done;
      p, state, version, revision, done := NumbersTurn(s, p, state, version);
      if done {
        break;
      }
    }
    assert target == Scan(version, revision, p);
    date := ReadDate(s, p, strToDate);
    if version == 0 && revision == 0 {
      return false, info;
    }
    return true, VersionInfo(version, revision, date, info.origin);
  }

  /** The version is the first digit run of the string, kept mod 2^16; a string without digits does not parse. */
  lemma VersionIsFirstRun(s: CString, origin: string, strToDate: DateParser)
    ensures var first := NextDigit(s, 0);
      (first == |s| ==> ParseVersion(s, origin, strToDate).None?) &&
      (ParseVersion(s, origin, strToDate).Some? ==>
         ParseVersion(s, origin, strToDate).value.version == DigitRunValue(s, first) % Two16)
  {
  }

  /** Every parsed field fits its UWORD or ULONG, and the origin is the caller's. */
  lemma ParsedFieldsFit(s: CString, origin: string, strToDate: DateParser)
    ensures ParseVersion(s, origin, strToDate).Some? ==>
      WellFormed(ParseVersion(s, origin, strToDate).value) && ParseVersion(s, origin, strToDate).value.origin == origin
  {
  }

  /** "1.2.3": the second run is followed by '.', so the third is the revision. */
  lemma DottedTriple(origin: string, strToDate: DateParser)
    ensures ParseVersion("1.2.3", origin, strToDate) == Some(VersionInfo(1, 3, 0, origin))
  {
    var s: CString := "1.2.3";
    assert DigitRunLength(s, 4) == 1 && DigitRunValue(s, 4) == 3;
    assert NumbersFrom(s, 4, 2, 1) == Scan(1, 3, 5);
    assert DigitRunLength(s, 2) == 1 && DigitRunValue(s, 2) == 2;
    assert NumbersFrom(s, 2, 1, 1) == Scan(1, 3, 5);
    assert NumbersFrom(s, 1, 1, 1) == Scan(1, 3, 5);
    assert DigitRunLength(s, 0) == 1 && DigitRunValue(s, 0) == 1;
    assert NumbersFrom(s, 0, 0, 0) == Scan(1, 3, 5);
  }

  /** "37.5 (...)": the run after the version is not followed by '.', so the revision stays 0. */
  lemma VersionDotRevision(origin: string, strToDate: DateParser)
    ensures var s := "37.5 (1.2.3)";
      ParseVersion(s, origin, strToDate) == Some(VersionInfo(37, 0, DateFrom(s, 5, strToDate), origin))
  {
    var s: CString := "37.5 (1.2.3)";
    assert NumbersFrom(s, 5, 1, 37) == Scan(37, 0, 5);
    assert NumbersFrom(s, 4, 1, 37) == Scan(37, 0, 5);
    assert DigitRunLength(s, 3) == 1;
    assert NumbersFrom(s, 3, 1, 37) == Scan(37, 0, 5);
    assert NumbersFrom(s, 2, 1, 37) == Scan(37, 0, 5);
    assert DigitRunLength(s, 0) == 2 && s[0..2] == "37";
    assert DecimalValue("37") == 37 by {
      assert "37"[..1] == "3" && "3"[..0] == "";
    }
    assert NumbersFrom(s, 0, 0, 0) == Scan(37, 0, 5);
  }

  /** The packed date does not order by day first: a late minute of day 0 packs above the start of day 1. */
  lemma PackedDateNotChronological()
    ensures PackDate(DateStamp(0, 1439, 0)) > PackDate(DateStamp(1, 0, 0))
  {
  }

  // ---------------------------------------------------------------- LoadDatabaseEntry

  /** LoadDatabaseEntry: a line of at most 512 characters with exactly five '|' separators. */
  method LoadDatabaseEntry(line: CString) returns (ok: bool)
    ensures ok <==> |line| <= 512 && multiset(line)['|'] == 5
  {
    if |line| > 512 {
      return false;
    }
    var separators := 0;
    var i := 0;
    while i < |line|
      invariant 0 <= i <= |line|
      invariant separators == multiset(line[..i])['|']
    {
      assert line[..i + 1] == line[..i] + [line[i]];
      if line[i] == '|' {
        separators := separators + 1;
      }
      i := i + 1;
    }
    assert line[..i] == line;
    ok := separators == 5;
  }
}
