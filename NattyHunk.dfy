/**
 * The HUNK load-file reader of the Natty scanner: big-endian LONGs read
 * from a file cursor, the header check, the block loop that hands every
 * code block to the pattern scanner at a running offset, the program's
 * score and the per-file summary verdict.
 */
module NattyHunk {
  import opened CStrings
  import opened NattySymbols
  import opened NattyScan

  const HunkHeader: int := 0x3F3
  const HunkCode: int := 0x3E9
  const HunkEnd: int := 0x3F2

  // ---------------------------------------------------------------- 32-bit arithmetic

  /** A value taken as a signed 32-bit LONG: two's complement wrap-around. */
  function Long(x: int): (v: int)
    ensures -0x8000_0000 <= v < 0x8000_0000
    ensures (x - v) % Two32 == 0
    ensures -0x8000_0000 <= x < 0x8000_0000 ==> v == x
  {
    var u := x % Two32;
    if u >= 0x8000_0000 then u - Two32 else u
  }

  /** The unsigned big-endian value of the four bytes at pos. */
  function BeU32(data: seq<byte>, pos: nat): (v: nat)
    requires pos + 4 <= |data|
    ensures v < Two32
  {
    ((data[pos] as int * 256 + data[pos + 1] as int) * 256 + data[pos + 2] as int) * 256 + data[pos + 3] as int
  }

  /** The four big-endian bytes of a 32-bit value. */
  function BeBytes(v: nat): (b: seq<byte>)
    requires v < Two32
    ensures |b| == 4
  {
    var q1 := v / 256;
    var q2 := q1 / 256;
    [(q2 / 256) as byte, (q2 % 256) as byte, (q1 % 256) as byte, (v % 256) as byte]
  }

  // ---------------------------------------------------------------- the file cursor

  /**
   * read_be_long at pos: the LONG read and the position after the read.
   * A short read gives -1 and leaves the cursor at the end of the data
   * (or where it was, past the end).
   */
  function ReadLongAt(data: seq<byte>, pos: nat): (r: (int, nat))
    ensures pos + 4 <= |data| ==> r == (Long(BeU32(data, pos)), pos + 4)
    ensures pos + 4 > |data| ==> r.0 == -1 && r.1 == (if pos < |data| then |data| else pos) && r.1 >= pos
  {
    if pos + 4 <= |data| then (Long(BeU32(data, pos)), pos + 4)
    else (-1, if pos < |data| then |data| else pos)
  }

  /** fseek(f, delta, SEEK_CUR): a target before the start of the file fails and leaves the cursor. */
  function SeekAt(pos: nat, delta: int): (p: nat)
    ensures pos + delta >= 0 ==> p == pos + delta
    ensures pos + delta < 0 ==> p == pos
  {
    if pos + delta < 0 then pos else pos + delta
  }

  /** Where fread of n bytes at pos leaves the cursor. */
  function ReadEnd(data: seq<byte>, pos: nat, n: nat): (p: nat)
    ensures pos <= p
    ensures pos < |data| ==> p == (if pos + n <= |data| then pos + n else |data|)
  {
    if pos < |data| then (if pos + n <= |data| then pos + n else |data|) else pos
  }

  /**
   * The buffer a code block is scanned in: the n bytes of the file at pos
   * as far as the file goes, zero beyond.
   */
  function CodeBytes(data: seq<byte>, pos: nat, n: nat): (b: seq<byte>)
    ensures |b| == n
    ensures forall k :: 0 <= k < n && pos + k < |data| ==> b[k] == data[pos + k]
    ensures forall k :: 0 <= k < n && pos + k >= |data| ==> b[k] == 0
  {
    seq(n, k requires 0 <= k < n => if pos + k < |data| then data[pos + k] else 0)
  }

  /** A HUNK file opened for reading: its bytes and the read cursor. */
  class HunkFile {
    const data: seq<byte>
    var pos: nat

    constructor (contents: seq<byte>)
      ensures data == contents && pos == 0
    {
      data := contents;
      pos := 0;
    }

    /** read_be_long. */
    method ReadBeLong() returns (v: int)
      modifies this
      ensures (v, pos) == ReadLongAt(data, old(pos))
    {
      if pos + 4 <= |data| {
        v := Long(BeU32(data, pos));
        pos := pos + 4;
      } else {
        v := -1;
        if pos < |data| {
          pos := |data|;
        }
      }
    }

    /** fseek(f, delta, SEEK_CUR). */
    method SeekCur(delta: int)
      modifies this
      ensures pos == SeekAt(old(pos), delta)
    {
      if pos + delta >= 0 {
        pos := pos + delta;
      }
    }

    /** malloc(n) followed by fread(buf, 1, n, f), the buffer zero where the file ends. */
    method ReadBlock(n: nat) returns (buf: array<byte>)
      modifies this
      ensures fresh(buf)
      ensures buf[..] == CodeBytes(data, old(pos), n)
      ensures pos == ReadEnd(data, old(pos), n)
    {
      buf := new byte[n](_ => 0);
      var at := pos;
      var k := 0;
      while k < n && at + k < |data|
        invariant 0 <= k <= n
        invariant at + k <= |data| || k == 0
        invariant forall j :: 0 <= j < k ==> at + j < |data| && buf[j] == data[at + j]
        invariant forall j :: k <= j < n ==> buf[j] == 0
      {
        buf[k] := data[at + k];
        k := k + 1;
      }
      assert buf[..] == CodeBytes(data, at, n);
      pos := at + k;
    }

    /**
     * One turn of score_program's block loop up to the scan: the block
     * type, the size, and the code block read into a fresh buffer or the
     * other block skipped.
     */
    method NextTurn() returns (blk: Block, buf: array<byte>)
      modifies this
      ensures blk == NextBlock(data, old(pos))
      ensures blk.Code? ==> fresh(buf) && buf[..] == blk.bytes
      ensures blk.Code? || blk.Skip? ==> pos == blk.next
    {
      buf := new byte[0];
      var htype := ReadBeLong();
      if htype == -1 || htype == HunkEnd {
        return End, buf;
      }
      var n := ReadBeLong();
      var sz := Long(n * 4);
      if htype == HunkCode {
        if sz < 0 {
          return Abort, buf;
        }
        buf := ReadBlock(sz);
        blk := Code(buf[..], pos);
      } else if sz < 0 {
        blk := End;
      } else {
        SeekCur(sz);
        blk := Skip(pos);
      }
    }
  }

  // ---------------------------------------------------------------- blocks

  /** What one turn of the block loop finds at the cursor. */
  datatype Block =
    | Code(bytes: seq<byte>, next: nat)   // a HUNK_CODE block to scan, and the cursor after it
    | Skip(next: nat)                     // another block type, skipped
    | End                                 // HUNK_END, a short read, or a block that cannot be skipped
    | Abort                               // a code block whose size malloc cannot allocate

  /**
   * One turn of score_program's block loop at pos. A block of another type
   * with a negative size ends the walk (the source seeks backwards there;
   * see NextBlockAsWritten).
   */
  function NextBlock(data: seq<byte>, pos: nat): (blk: Block)
    ensures blk.Code? || blk.Skip? ==> pos + 8 <= |data| && blk.next >= pos + 8
  {
    var (htype, p1) := ReadLongAt(data, pos);
    if htype == -1 || htype == HunkEnd then End
    else
      var (n, p2) := ReadLongAt(data, p1);
      var sz := Long(n * 4);
      if htype == HunkCode then
        if sz < 0 then Abort else Code(CodeBytes(data, p2, sz), ReadEnd(data, p2, sz))
      else if sz < 0 then End
      else Skip(p2 + sz)
  }

  /** The same turn as the source writes it: any block size is handed to fseek. */
  function NextBlockAsWritten(data: seq<byte>, pos: nat): Block
  {
    var (htype, p1) := ReadLongAt(data, pos);
    if htype == -1 || htype == HunkEnd then End
    else
      var (n, p2) := ReadLongAt(data, p1);
      var sz := Long(n * 4);
      if htype == HunkCode then
        if sz < 0 then Abort else Code(CodeBytes(data, p2, sz), ReadEnd(data, p2, sz))
      else Skip(SeekAt(p2, sz))
  }

  /** A code block scanned at a base offset. */
  datatype Segment = Segment(bytes: seq<byte>, base: nat)

  /** The code blocks a walk hands to the scanner, and whether it ended in an allocation failure. */
  datatype Walk = Walk(segments: seq<Segment>, aborted: bool)

  /** The cursor's distance to the end of the file. */
  function Remaining(data: seq<byte>, pos: nat): nat
  {
    if pos <= |data| then |data| - pos else 0
  }

  /** The block loop from pos, with current_offset at offset. */
  function WalkFrom(data: seq<byte>, pos: nat, offset: nat): Walk
    decreases Remaining(data, pos)
  {
    match NextBlock(data, pos)
      case End => Walk([], false)
      case Abort => Walk([], true)
      case Skip(next) => WalkFrom(data, next, offset)
      case Code(bytes, next) =>
        var rest := WalkFrom(data, next, (offset + |bytes|) % Two32);
        Walk([Segment(bytes, offset)] + rest.segments, rest.aborted)
  }

  /** Where the block loop starts: None when the first LONG is not HUNK_HEADER. */
  function HeaderEnd(data: seq<byte>): Option<nat>
  {
    var (id, p1) := ReadLongAt(data, 0);
    if id != HunkHeader then None
    else
      var (tabLen, p2) := ReadLongAt(data, p1);
      Some(SeekAt(p2, Long((tabLen + 1) * 4)))
  }

  // ---------------------------------------------------------------- the program's score

  /** Everything the scanner records over a list of segments, in the order recorded. */
  function AllFindings(segs: seq<Segment>, buckets: seq<seq<FdEntry>>, ws: seq<WeightEntry>, detect: Detector): seq<Finding>
    requires |buckets| == HashSize
  {
    if |segs| == 0 then []
    else
      var last := segs[|segs| - 1];
      AllFindings(segs[..|segs| - 1], buckets, ws, detect) + ScanFrom(last.bytes, 0, buckets, ws, last.base, detect)
  }

  /** What score_program yields for a file. */
  datatype Outcome =
    | NotHunk
    | Aborted
    | Scored(findings: seq<Finding>, score: int)   // findings newest first, as the report lists them

  function Score(data: seq<byte>, buckets: seq<seq<FdEntry>>, ws: seq<WeightEntry>, detect: Detector): Outcome
    requires |buckets| == HashSize
  {
    match HeaderEnd(data)
      case None => NotHunk
      case Some(start) =>
        var w := WalkFrom(data, start, 0);
        if w.aborted then Aborted
        else
          var all := AllFindings(w.segments, buckets, ws, detect);
          Scored(Reversed(all), Severities(all))
  }

  /** The verdict main prints on the file's summary line, if it prints one. */
  function SummaryFor(o: Outcome): Option<Verdict>
  {
    match o
      case Scored(_, s) => Some(VerdictOf(s))
      case _ => None
  }

  // ---------------------------------------------------------------- lemmas

  /** read_be_long reads back the four big-endian bytes of a LONG. */
  lemma ReadLongRoundTrip(v: nat, rest: seq<byte>)
    requires v < Two32
    ensures ReadLongAt(BeBytes(v) + rest, 0) == (Long(v), 4)
  {
    var data := BeBytes(v) + rest;
    var q1 := v / 256;
    var q2 := q1 / 256;
    assert data[0] as int == q2 / 256 && data[1] as int == q2 % 256;
    assert data[2] as int == q1 % 256 && data[3] as int == v % 256;
    assert q2 == q2 / 256 * 256 + q2 % 256;
    assert q1 == q2 * 256 + q1 % 256;
    assert v == q1 * 256 + v % 256;
  }

  /** A file whose first LONG is not HUNK_HEADER is rejected, and only such a file. */
  lemma NotHunkExactly(data: seq<byte>, buckets: seq<seq<FdEntry>>, ws: seq<WeightEntry>, detect: Detector)
    requires |buckets| == HashSize
    ensures Score(data, buckets, ws, detect) == NotHunk <==> ReadLongAt(data, 0).0 != HunkHeader
    ensures Score(data, buckets, ws, detect) == NotHunk ==> SummaryFor(Score(data, buckets, ws, detect)).None?
  {
  }

  /** After the header the cursor is at (tab_len + 1) * 4 bytes past the table length. */
  lemma HeaderSkip(data: seq<byte>)
    requires 8 <= |data| && BeU32(data, 0) == HunkHeader
    ensures var tabLen := Long(BeU32(data, 4));
      HeaderEnd(data) == Some(if 8 + Long((tabLen + 1) * 4) >= 0 then 8 + Long((tabLen + 1) * 4) else 8)
  {
  }

  /** A block of another type with a non-negative size is skipped whole. */
  lemma SkipBlock(data: seq<byte>, pos: nat)
    requires pos + 8 <= |data|
    requires var t := Long(BeU32(data, pos)); t != -1 && t != HunkEnd && t != HunkCode
    requires Long(Long(BeU32(data, pos + 4)) * 4) >= 0
    ensures NextBlock(data, pos) == Skip(pos + 8 + Long(Long(BeU32(data, pos + 4)) * 4))
  {
  }

  /**
   * A code block of size n LONGs, with n * 4 a non-negative LONG, hands
   * exactly n * 4 bytes to the scanner: the file's bytes after the size.
   */
  lemma CodeBlock(data: seq<byte>, pos: nat)
    requires pos + 8 <= |data| && Long(BeU32(data, pos)) == HunkCode
    requires Long(Long(BeU32(data, pos + 4)) * 4) >= 0
    ensures var sz := Long(Long(BeU32(data, pos + 4)) * 4);
      NextBlock(data, pos).Code? &&
      |NextBlock(data, pos).bytes| == sz &&
      (pos + 8 + sz <= |data| ==> NextBlock(data, pos) == Code(data[pos + 8..pos + 8 + sz], pos + 8 + sz))
  {
    var sz := Long(Long(BeU32(data, pos + 4)) * 4);
    if pos + 8 + sz <= |data| {
      assert CodeBytes(data, pos + 8, sz) == data[pos + 8..pos + 8 + sz];
    }
  }

  /**
   * current_offset: the first code block is scanned at the walk's offset
   * and each next one at the previous base plus the previous size, as a
   * ULONG.
   */
  lemma {:induction false} WalkOffsets(data: seq<byte>, pos: nat, offset: nat)
    ensures var segs := WalkFrom(data, pos, offset).segments;
      (|segs| > 0 ==> segs[0].base == offset) && Chained(segs)
    decreases Remaining(data, pos)
  {
    match NextBlock(data, pos)
      case End =>
      case Abort =>
      case Skip(next) =>
        WalkOffsets(data, next, offset);
      case Code(bytes, next) =>
        var off' := (offset + |bytes|) % Two32;
        WalkOffsets(data, next, off');
        ChainedCons(Segment(bytes, offset), WalkFrom(data, next, off').segments);
  }

  /** Each segment starts where the previous one ends, as a ULONG. */
  predicate Chained(segs: seq<Segment>)
  {
    forall k :: 0 <= k < |segs| - 1 ==> segs[k + 1].base == (segs[k].base + |segs[k].bytes|) % Two32
  }

  lemma ChainedCons(seg: Segment, rest: seq<Segment>)
    requires Chained(rest) && (|rest| > 0 ==> rest[0].base == (seg.base + |seg.bytes|) % Two32)
    ensures Chained([seg] + rest)
  {
    var segs := [seg] + rest;
    forall k | 0 <= k < |segs| - 1
      ensures segs[k + 1].base == (segs[k].base + |segs[k].bytes|) % Two32
    {
      if k > 0 {
        assert segs[k] == rest[k - 1] && segs[k + 1] == rest[k];
      }
    }
  }

  lemma {:induction false} SeveritiesReversed(fs: seq<Finding>)
    ensures Severities(Reversed(fs)) == Severities(fs)
    decreases |fs|
  {
    if |fs| > 0 {
      var head, tail := fs[0], fs[1..];
      var r := Reversed(tail);
      assert Reversed(fs) == r + [head];
      SeveritiesReversed(tail);
      SeveritiesAppend(r, [head]);
      SeveritiesAppend([head], tail);
      assert [head] + tail == fs;
      SeveritiesSingle(head);
    }
  }

  lemma SeveritiesSingle(f: Finding)
    ensures Severities([f]) == f.severity
  {
    assert [f][..0] == [];
  }

  lemma {:induction false} InReversed<T>(s: seq<T>, x: T)
    ensures x in Reversed(s) <==> x in s
    decreases |s|
  {
    if |s| > 0 {
      InReversed(s[1..], x);
      assert s == [s[0]] + s[1..];
    }
  }

  /** The score is the sum of the severities of the findings the report lists. */
  lemma ScoreIsSumOfFindings(data: seq<byte>, buckets: seq<seq<FdEntry>>, ws: seq<WeightEntry>, detect: Detector)
    requires |buckets| == HashSize
    ensures match Score(data, buckets, ws, detect)
      case Scored(fs, s) => s == Severities(fs)
      case _ => true
  {
    if Score(data, buckets, ws, detect).Scored? {
      var w := WalkFrom(data, HeaderEnd(data).value, 0);
      SeveritiesReversed(AllFindings(w.segments, buckets, ws, detect));
    }
  }

  /** Every recorded finding carries the base offset of the segment it was found in. */
  lemma {:induction false} FindingsAtSegmentBases(segs: seq<Segment>, buckets: seq<seq<FdEntry>>, ws: seq<WeightEntry>, detect: Detector)
    requires |buckets| == HashSize
    ensures forall f :: f in AllFindings(segs, buckets, ws, detect) ==>
      exists k :: 0 <= k < |segs| && f.offset == segs[k].base
    decreases |segs|
  {
    if |segs| > 0 {
      var init := segs[..|segs| - 1];
      var last := segs[|segs| - 1];
      FindingsAtSegmentBases(init, buckets, ws, detect);
      ScanOffsetsAreBase(last.bytes, 0, buckets, ws, last.base, detect);
      forall f | f in AllFindings(segs, buckets, ws, detect)
        ensures exists k :: 0 <= k < |segs| && f.offset == segs[k].base
      {
        if f in AllFindings(init, buckets, ws, detect) {
          var k :| 0 <= k < |init| && f.offset == init[k].base;
          assert segs[k] == init[k];
        } else {
          assert f.offset == segs[|segs| - 1].base;
        }
      }
    }
  }

  /** Only a scored file gets a summary line, with the report's verdict. */
  lemma SummaryOnlyWhenScored(o: Outcome)
    ensures SummaryFor(o).Some? <==> o.Scored?
    ensures o.Scored? ==>
      SummaryFor(o) == Some(VerdictOf(o.score)) && SummaryVerdict(o.score) == VerdictText(SummaryFor(o).value)
  {
    if o.Scored? {
      ReportAndSummaryAgree(o.score);
    }
  }

  // ---------------------------------------------------------------- the endless loop

  /**
   * A HUNK file cut off right after the type of a block that is not code:
   * header, an empty name table, one skipped LONG, then the type 0x3EA.
   */
  const TruncatedFile: seq<byte> := [0, 0, 3, 0xF3, 0, 0, 0, 0, 0, 0, 0, 0, 0, 0, 3, 0xEA]

  /**
   * As written, the size read fails (-1), the loop seeks back 4 bytes and
   * reads the same block type again: the cursor returns to 12 forever.
   * The corrected walk ends there.
   */
  lemma AsWrittenLoopsForever()
    ensures HeaderEnd(TruncatedFile) == Some(12)
    ensures NextBlockAsWritten(TruncatedFile, 12) == Skip(12)
    ensures NextBlock(TruncatedFile, 12) == End
  {
    assert BeU32(TruncatedFile, 0) == HunkHeader;
    assert BeU32(TruncatedFile, 4) == 0;
    assert BeU32(TruncatedFile, 12) == 0x3EA;
  }

  /** The corrected walk always makes progress: every skipped or scanned block moves the cursor forward by at least 8. */
  lemma WalkProgress(data: seq<byte>, pos: nat)
    ensures match NextBlock(data, pos)
      case Code(_, next) => next >= pos + 8 && Remaining(data, next) < Remaining(data, pos)
      case Skip(next) => next >= pos + 8 && Remaining(data, next) < Remaining(data, pos)
      case _ => true
  {
  }

  /** The two walks agree except on a block of another type with a negative size. */
  lemma AsWrittenAgreesOtherwise(data: seq<byte>, pos: nat)
    requires NextBlockAsWritten(data, pos) != NextBlock(data, pos)
    ensures pos + 4 <= |data|
    ensures var t := Long(BeU32(data, pos));
      t != -1 && t != HunkEnd && t != HunkCode && NextBlock(data, pos) == End
  {
  }

  // ---------------------------------------------------------------- score_program

  /** One turn of the block loop over a code block: the rest of the walk starts with its segment. */
  lemma WalkCodeStep(data: seq<byte>, pos: nat, offset: nat, bytes: seq<byte>, next: nat)
    requires NextBlock(data, pos) == Code(bytes, next)
    ensures var rest := WalkFrom(data, next, (offset + |bytes|) % Two32);
      WalkFrom(data, pos, offset) == Walk([Segment(bytes, offset)] + rest.segments, rest.aborted)
  {
  }

  /** One turn of the block loop over a skipped block. */
  lemma WalkSkipStep(data: seq<byte>, pos: nat, next: nat, offset: nat)
    requires NextBlock(data, pos) == Skip(next)
    ensures WalkFrom(data, pos, offset) == WalkFrom(data, next, offset)
  {
  }

  /** AllFindings over one more segment. */
  lemma AllFindingsSnoc(segs: seq<Segment>, s: Segment, buckets: seq<seq<FdEntry>>, ws: seq<WeightEntry>, detect: Detector)
    requires |buckets| == HashSize
    ensures AllFindings(segs + [s], buckets, ws, detect) ==
      AllFindings(segs, buckets, ws, detect) + ScanFrom(s.bytes, 0, buckets, ws, s.base, detect)
  {
    assert (segs + [s])[..|segs|] == segs;
  }

  /** The report's newest-first list and running totals after one more scanned segment. */
  lemma FindingsStep(done: seq<Segment>, seg: Segment, buckets: seq<seq<FdEntry>>, ws: seq<WeightEntry>, detect: Detector)
    requires |buckets| == HashSize
    ensures var found := ScanFrom(seg.bytes, 0, buckets, ws, seg.base, detect);
      var before := AllFindings(done, buckets, ws, detect);
      var after := AllFindings(done + [seg], buckets, ws, detect);
      Reversed(after) == Reversed(found) + Reversed(before) &&
      |after| == |before| + |found| &&
      Severities(after) == Severities(before) + Severities(found)
  {
    var found := ScanFrom(seg.bytes, 0, buckets, ws, seg.base, detect);
    var before := AllFindings(done, buckets, ws, detect);
    AllFindingsSnoc(done, seg, buckets, ws, detect);
    SeveritiesAppend(before, found);
    ReversedAppend(before, found);
  }

  /** The scan of one code block, stated as the report over one more segment of the walk. */
  method ScanCodeBlock(buf: array<byte>, base: nat, risk0: int, report: Report, table: SymbolTable,
                       ws: seq<WeightEntry>, detect: Detector, ghost done: seq<Segment>)
    returns (risk: int)
    requires table.Valid()
    requires report.findings == Reversed(AllFindings(done, table.buckets[..], ws, detect))
    requires report.findingCount == |AllFindings(done, table.buckets[..], ws, detect)|
    requires risk0 == Severities(AllFindings(done, table.buckets[..], ws, detect))
    modifies report
    ensures var after := AllFindings(done + [Segment(buf[..], base)], table.buckets[..], ws, detect);
      report.findings == Reversed(after) && report.findingCount == |after| && risk == Severities(after)
    ensures report.totalScore == old(report.totalScore)
  {
    FindingsStep(done, Segment(buf[..], base), table.buckets[..], ws, detect);
    risk := ScanSegment(buf, risk0, report, base, table, ws, detect);
  }

  /** One turn of the block loop over a code block: the block's segment moves from the walk ahead to the scanned ones. */
  method ScanCodeTurn(buf: array<byte>, offset: nat, risk0: int, report: Report, table: SymbolTable,
                      ws: seq<WeightEntry>, detect: Detector, ghost data: seq<byte>, ghost pos: nat,
                      ghost bytes: seq<byte>, ghost next: nat, ghost done: seq<Segment>, ghost whole: Walk)
    returns (risk: int, ghost done': seq<Segment>, ghost rest: Walk)
    requires table.Valid()
    requires NextBlock(data, pos) == Code(bytes, next) && buf[..] == bytes
    requires whole.segments == done + WalkFrom(data, pos, offset).segments
    requires whole.aborted == WalkFrom(data, pos, offset).aborted
    requires report.findings == Reversed(AllFindings(done, table.buckets[..], ws, detect))
    requires report.findingCount == |AllFindings(done, table.buckets[..], ws, detect)|
    requires risk0 == Severities(AllFindings(done, table.buckets[..], ws, detect))
    modifies report
    ensures done' == done + [Segment(bytes, offset)]
    ensures rest == WalkFrom(data, next, (offset + |bytes|) % Two32)
    ensures whole.segments == done' + rest.segments && whole.aborted == rest.aborted
    ensures report.findings == Reversed(AllFindings(done', table.buckets[..], ws, detect))
    ensures report.findingCount == |AllFindings(done', table.buckets[..], ws, detect)|
    ensures risk == Severities(AllFindings(done', table.buckets[..], ws, detect))
    ensures report.totalScore == old(report.totalScore)
  {
    var seg := Segment(bytes, offset);
    WalkCodeStep(data, pos, offset, bytes, next);
    rest := WalkFrom(data, next, (offset + |bytes|) % Two32);
    assert done + ([seg] + rest.segments) == (done + [seg]) + rest.segments;
    risk := ScanCodeBlock(buf, offset, risk0, report, table, ws, detect, done);
    done' := done + [seg];
  }

  /**
   * The block loop of score_program from the cursor on: every code block is
   * scanned into the report in turn; the loop stops at the end of the
   * blocks or when a code block cannot be allocated.
   */
  method ScanBlocks(file: HunkFile, report: Report, table: SymbolTable, ws: seq<WeightEntry>, detect: Detector)
    returns (aborted: bool, risk: int)
    requires table.Valid() && report.findings == [] && report.findingCount == 0
    modifies file, report
    ensures var w := WalkFrom(file.data, old(file.pos), 0);
      var all := AllFindings(w.segments, table.buckets[..], ws, detect);
      aborted == w.aborted &&
      (!aborted ==> report.findings == Reversed(all) && report.findingCount == |all| && risk == Severities(all))
    ensures report.totalScore == old(report.totalScore)
  {
    ghost var data := file.data;
    ghost var buckets := table.buckets[..];
    ghost var done: seq<Segment> := [];
    ghost var whole := WalkFrom(data, file.pos, 0);
    ghost var rest := whole;
    risk := 0;
    var offset: nat := 0;
    while true
      invariant file.data == data && table.buckets[..] == buckets && table.Valid()
      invariant offset < Two32
      invariant rest == WalkFrom(data, file.pos, offset)
      invariant whole.segments == done + rest.segments && whole.aborted == rest.aborted
      invariant report.findings == Reversed(AllFindings(done, buckets, ws, detect))
      invariant report.findingCount == |AllFindings(done, buckets, ws, detect)|
      invariant risk == Severities(AllFindings(done, buckets, ws, detect))
      invariant report.totalScore == old(report.totalScore)
      decreases Remaining(data, file.pos)
    {
      ghost var pos := file.pos;
      var blk, buf := file.NextTurn();
      WalkProgress(data, pos);
      match blk {
        case End =>
          break;
        case Abort =>
          return true, risk;
        case Skip(next) =>
          WalkSkipStep(data, pos, next, offset);
        case Code(bytes, next) =>
          risk, done, rest := ScanCodeTurn(buf, offset, risk, report, table, ws, detect, data, pos, bytes, next, done, whole);
          offset := (offset + |bytes|) % Two32;
      }
    }
    assert done + [] == done;
    aborted := false;
  }

  /**
   * score_program on an opened file: returns -1 for a file that is not
   * HUNK or whose code block cannot be allocated, else 0 with the score;
   * the report is the one print_report shows. The program itself passes
   * the fixed tables: ws is Weights and detect is Detect.
   */
  method ScoreProgram(file: HunkFile, name: string, table: SymbolTable, ws: seq<WeightEntry>, detect: Detector)
    returns (status: int, score: int, report: Report)
    requires table.Valid() && file.pos == 0
    modifies file
    ensures fresh(report)
    ensures match Score(file.data, table.buckets[..], ws, detect)
      case NotHunk => status == -1 && report.findings == [] && report.findingCount == 0
      case Aborted => status == -1 && report.findings == [] && report.findingCount == 0
      case Scored(fs, s) =>
        status == 0 && score == s && report.findings == fs && report.findingCount == |fs| && report.totalScore == s
  {
    report := new Report(name);
    score := 0;
    var id := file.ReadBeLong();
    if id != HunkHeader {
      assert HeaderEnd(file.data).None?;
      return -1, score, report;
    }
    var tabLen := file.ReadBeLong();
    file.SeekCur(Long((tabLen + 1) * 4));
    assert HeaderEnd(file.data) == Some(file.pos);
    var aborted, risk := ScanBlocks(file, report, table, ws, detect);
    if aborted {
      report.Clear();
      return -1, score, report;
    }
    report.totalScore := risk;
    score := risk;
    status := 0;
  }
}
