/**
 * The Natty pattern scanner: thirteen byte-pattern detectors tried in a
 * fixed priority order over a code segment, each with a fixed stride, the
 * diagnostic report they fill, and the verdict derived from the score.
 */
module NattyScan {
  import opened CStrings
  import opened NattySymbols

  // ---------------------------------------------------------------- risk weights

  datatype WeightEntry = WeightEntry(name: string, weight: nat)

  /** Weights[]: the library functions counted as risky and their weights. */
  const Weights: seq<WeightEntry> := [
    WeightEntry("SetFunction", 40),
    WeightEntry("Supervisor", 20),
    WeightEntry("Forbid", 20),
    WeightEntry("Permit", 20),
    WeightEntry("AddIntServer", 30),
    WeightEntry("SetIntVector", 35),
    WeightEntry("SuperState", 40),
    WeightEntry("ExecBase", 25),
    WeightEntry("ChipMem", 30),
    WeightEntry("ROMRef", 25),
    WeightEntry("VectorPatch", 35),
    WeightEntry("TCBAccess", 30),
    WeightEntry("ListManip", 25),
    WeightEntry("IntLevel", 35),
    WeightEntry("VBRManip", 40),
    WeightEntry("SelfMod", 45)
  ]

  /** No two entries of a weight table share a name. */
  predicate DistinctNames(ws: seq<WeightEntry>)
  {
    forall i, j :: 0 <= i < j < |ws| ==> ws[i].name != ws[j].name
  }

  /** No two Weights[] entries share a name. */
  lemma WeightNamesDistinct()
    ensures DistinctNames(Weights)
  {
    forall i, j | 0 <= i < j < |Weights| ensures Weights[i].name != Weights[j].name {
      assert Weights[i].name[..2] != Weights[j].name[..2] || |Weights[i].name| != |Weights[j].name| ||
             Weights[i].name[2..] != Weights[j].name[2..];
    }
  }

  // ---------------------------------------------------------------- findings

  /** The category of a finding. */
  datatype Kind =
    | LibraryCall | LibraryJump
    | ExecBaseAccess | ChipRamAccess | RomAccess | VectorPatching | TrapCall
    | TcbAccess | ListManipulation | InterruptManipulation | VbrManipulation
    | SelfModifyingCode | StackManipulation

  /** struct Finding, without its link: category, description, offset and severity. */
  datatype Finding = Finding(kind: Kind, desc: string, offset: nat, severity: nat)

  /** The type text add_finding records for each category. */
  function KindName(k: Kind): string
  {
    match k
      case LibraryCall => "Library Call"
      case LibraryJump => "Library Jump"
      case ExecBaseAccess => "ExecBase Access"
      case ChipRamAccess => "Chip RAM Access"
      case RomAccess => "ROM Access"
      case VectorPatching => "Vector Patching"
      case TrapCall => "Trap Call"
      case TcbAccess => "TCB Access"
      case ListManipulation => "List Manipulation"
      case InterruptManipulation => "Interrupt Manipulation"
      case VbrManipulation => "VBR Manipulation"
      case SelfModifyingCode => "Self-Modifying Code"
      case StackManipulation => "Stack Manipulation"
  }

  /** Severity of a pattern finding (library findings take their Weights[] weight). */
  function Severity(k: Kind): nat
  {
    match k
      case ExecBaseAccess => 25
      case ChipRamAccess => 30
      case RomAccess => 25
      case VectorPatching => 35
      case TrapCall => 20
      case TcbAccess => 30
      case ListManipulation => 25
      case InterruptManipulation => 35
      case VbrManipulation => 40
      case SelfModifyingCode => 45
      case StackManipulation => 20
      case _ => 0
  }

  /** How far the cursor moves after a finding of this category. */
  function Stride(k: Kind): nat
  {
    match k
      case LibraryCall => 4
      case LibraryJump => 4
      case TrapCall => 2
      case VbrManipulation => 2
      case StackManipulation => 2
      case _ => 6
  }

  /** The description of a pattern finding. */
  function Describe(k: Kind): string
  {
    match k
      case ExecBaseAccess => "Direct access to ExecBase (4.W)"
      case ChipRamAccess => "Direct access to Chip RAM region"
      case RomAccess => "Direct access to ROM region"
      case VectorPatching => "Attempt to patch system vector"
      case TrapCall => "Use of TRAP instruction"
      case TcbAccess => "Direct access to Task Control Block"
      case ListManipulation => "Direct manipulation of system lists"
      case InterruptManipulation => "Direct manipulation of interrupt levels"
      case VbrManipulation => "Attempt to modify Vector Base Register"
      case SelfModifyingCode => "Code attempts to modify itself"
      case StackManipulation => "Unusual stack manipulation detected"
      case _ => ""
  }

  // ---------------------------------------------------------------- operands

  /** The opcode word at i, big-endian. */
  function OpWord(b: seq<byte>, i: nat): (op: nat)
    requires i + 2 <= |b|
    ensures op < Two16
  {
    b[i] as int * 256 + b[i + 1] as int
  }

  /** The signed 16-bit displacement after the opcode word (WORD). */
  function Disp(b: seq<byte>, i: nat): (d: int)
    requires i + 4 <= |b|
    ensures -0x8000 <= d < 0x8000
  {
    var w := b[i + 2] as int * 256 + b[i + 3] as int;
    if w >= 0x8000 then w - 0x1_0000 else w
  }

  /** op & 0xFFF8 and op & 0x0007 of a non-negative word: the register field is the low three bits. */
  function HighBits(op: nat): nat { op - op % 8 }
  function RegField(op: nat): nat { op % 8 }

  /** "JSR (d16,A6)" as the source tests it: register field 6 of the 0x4E90 group. */
  predicate IsJsrA6(op: nat)
  {
    HighBits(op) == 0x4E90 && RegField(op) == 6
  }

  /** "JMP (d16,A6)" as the source tests it: register field 6 of the 0x4EB8 group. */
  predicate IsJmpA6(op: nat)
  {
    HighBits(op) == 0x4EB8 && RegField(op) == 6
  }

  /** The masked opcode tests select exactly the words 0x4E96 and 0x4EBE. */
  lemma LibraryOpcodes(op: nat)
    ensures IsJsrA6(op) <==> op == 0x4E96
    ensures IsJmpA6(op) <==> op == 0x4EBE
  {
  }

  /** The mask arithmetic agrees with the bitwise masks on 16-bit words. */
  lemma MaskArithmetic(op: bv16)
    ensures (op & 0xFFF8 == 0x4E90 && op & 0x0007 == 6) <==> op == 0x4E96
    ensures (op & 0xFFF8 == 0x4EB8 && op & 0x0007 == 6) <==> op == 0x4EBE
  {
  }

  /** "MOVE.L #imm," with a full 4-byte immediate inside the buffer. */
  predicate HasImm(b: seq<byte>, i: nat)
  {
    i + 6 <= |b| && b[i] == 0x20 && b[i + 1] == 0x3C
  }

  /** The 32-bit immediate of a "MOVE.L #imm," at i, unsigned (ULONG). */
  function Imm(b: seq<byte>, i: nat): (v: nat)
    requires i + 6 <= |b|
    ensures v < Two32
  {
    ((b[i + 2] as int * 256 + b[i + 3] as int) * 256 + b[i + 4] as int) * 256 + b[i + 5] as int
  }

  // ---------------------------------------------------------------- the detectors

  /** is_execbase_ref: MOVE.L #4. */
  predicate IsExecBaseRef(b: seq<byte>, i: nat)
  {
    HasImm(b, i) && b[i + 2] == 0 && b[i + 3] == 0 && b[i + 4] == 0 && b[i + 5] == 4
  }

  /** is_chipmem_ref: an immediate in $C00000-$DFFFFF. */
  predicate IsChipMemRef(b: seq<byte>, i: nat)
  {
    HasImm(b, i) && 0xC0_0000 <= Imm(b, i) <= 0xDF_FFFF
  }

  /** is_rom_ref: an immediate at or above $F80000. */
  predicate IsRomRef(b: seq<byte>, i: nat)
  {
    HasImm(b, i) && Imm(b, i) >= 0xF8_0000
  }

  /** is_vector_patch: an immediate equal to one of the vectors $68, $84, $4A. */
  predicate IsVectorPatch(b: seq<byte>, i: nat)
  {
    HasImm(b, i) && (Imm(b, i) == 0x68 || Imm(b, i) == 0x84 || Imm(b, i) == 0x4A)
  }

  /** is_trap_call: TRAP #0 or TRAP #1. */
  predicate IsTrapCall(b: seq<byte>, i: nat)
    requires i + 2 <= |b|
  {
    (b[i] == 0x4E && b[i + 1] == 0x40) || (b[i] == 0x4E && b[i + 1] == 0x41)
  }

  predicate IsTcbOffset(x: int)
  {
    x == 0x0C || x == 0x10 || x == 0x14 || x == 0x18 || x == 0x1C || x == 0x20
  }

  /** is_tcb_access: an immediate or a 0x2068 displacement equal to a task-structure offset. */
  predicate IsTcbAccess(b: seq<byte>, i: nat)
    requires i + 4 <= |b|
  {
    (HasImm(b, i) && IsTcbOffset(Imm(b, i))) ||
    (b[i] == 0x20 && b[i + 1] == 0x68 && IsTcbOffset(b[i + 2] as int))
  }

  predicate IsListOffset(x: int)
  {
    x == 0x00 || x == 0x04 || x == 0x08
  }

  /** The indexed loads 0x2068, 0x2069 and 0x206A. */
  predicate IsIndexedLoad(b: seq<byte>, i: nat)
    requires i + 2 <= |b|
  {
    b[i] == 0x20 && (b[i + 1] == 0x68 || b[i + 1] == 0x69 || b[i + 1] == 0x6A)
  }

  /** is_list_manipulation: an immediate or an indexed-load displacement equal to a list-header offset. */
  predicate IsListManipulation(b: seq<byte>, i: nat)
    requires i + 4 <= |b|
  {
    (HasImm(b, i) && IsListOffset(Imm(b, i))) ||
    (IsIndexedLoad(b, i) && IsListOffset(b[i + 2] as int))
  }

  /**
   * is_int_level_manip: an immediate naming INTENA or INTREQ, or an RTS
   * directly after an RTE. At the first position of a segment there is no
   * preceding word, which is taken as no match.
   */
  predicate IsIntLevelManip(b: seq<byte>, i: nat)
    requires i + 2 <= |b|
  {
    (HasImm(b, i) && (Imm(b, i) == 0xDF_F09A || Imm(b, i) == 0xDF_F09C)) ||
    (b[i] == 0x4E && b[i + 1] == 0x75 && i >= 2 && b[i - 2] == 0x4E && b[i - 1] == 0x73)
  }

  /** is_vbr_manipulation: the word 0x4E73, or an immediate in the vector table range 0..$100. */
  predicate IsVbrManipulation(b: seq<byte>, i: nat)
    requires i + 2 <= |b|
  {
    (b[i] == 0x4E && b[i + 1] == 0x73) ||
    (HasImm(b, i) && 0 <= Imm(b, i) <= 0x100)
  }

  /** is_self_modifying: an immediate below $2000000, or any indexed load. */
  predicate IsSelfModifying(b: seq<byte>, i: nat)
    requires i + 4 <= |b|
  {
    (HasImm(b, i) && ((0 <= Imm(b, i) <= 0xFF_FFFF) || (0x100_0000 <= Imm(b, i) <= 0x1FF_FFFF))) ||
    (IsIndexedLoad(b, i) && 0x00 <= b[i + 2] <= 0xFF)
  }

  /** is_stack_manipulation: RTS, RTR, RTE, NOP or STOP. */
  predicate IsStackManipulation(b: seq<byte>, i: nat)
    requires i + 2 <= |b|
  {
    (b[i] == 0x4E && b[i + 1] == 0x75) || (b[i] == 0x4E && b[i + 1] == 0x77) ||
    (b[i] == 0x4E && b[i + 1] == 0x73) ||
    (b[i] == 0x4E && b[i + 1] == 0x71) || (b[i] == 0x4E && b[i + 1] == 0x72)
  }

  /** The pattern detectors in the order scan_segment tries them. */
  const DetectorOrder: seq<Kind> := [
    ExecBaseAccess, ChipRamAccess, RomAccess, VectorPatching, TrapCall, TcbAccess,
    ListManipulation, InterruptManipulation, VbrManipulation, SelfModifyingCode, StackManipulation
  ]

  /** Whether the detector of category k matches at i. */
  predicate Matches(k: Kind, b: seq<byte>, i: nat)
    requires i + 4 <= |b|
  {
    match k
      case ExecBaseAccess => IsExecBaseRef(b, i)
      case ChipRamAccess => IsChipMemRef(b, i)
      case RomAccess => IsRomRef(b, i)
      case VectorPatching => IsVectorPatch(b, i)
      case TrapCall => IsTrapCall(b, i)
      case TcbAccess => IsTcbAccess(b, i)
      case ListManipulation => IsListManipulation(b, i)
      case InterruptManipulation => IsIntLevelManip(b, i)
      case VbrManipulation => IsVbrManipulation(b, i)
      case SelfModifyingCode => IsSelfModifying(b, i)
      case StackManipulation => IsStackManipulation(b, i)
      case _ => false
  }

  /** The first detector of `order` that matches at i: the chain of `if (is_...) ... continue;`. */
  function DetectIn(order: seq<Kind>, b: seq<byte>, i: nat): (r: Option<Kind>)
    requires i + 4 <= |b|
    ensures r.Some? ==> r.value in order && Matches(r.value, b, i)
  {
    if |order| == 0 then None
    else if Matches(order[0], b, i) then Some(order[0])
    else DetectIn(order[1..], b, i)
  }

  /**
   * The pattern found at i, if any, the first matching detector winning.
   * Positions with fewer than four bytes left are never examined.
   */
  function Detect(b: seq<byte>, i: nat): Option<Kind>
  {
    if i + 4 <= |b| then DetectIn(DetectorOrder, b, i) else None
  }

  /** A chain of detectors as a value; the scanner uses Detect. */
  type Detector = (seq<byte>, nat) -> Option<Kind>

  /** A detector is reported when it matches and none before it in the order does. */
  lemma {:induction false} DetectInFirst(order: seq<Kind>, b: seq<byte>, i: nat, j: nat)
    requires i + 4 <= |b| && j < |order|
    requires Matches(order[j], b, i)
    requires forall l :: 0 <= l < j ==> !Matches(order[l], b, i)
    ensures DetectIn(order, b, i) == Some(order[j])
  {
    if j > 0 {
      assert !Matches(order[0], b, i);
      forall l | 0 <= l < j - 1 ensures !Matches(order[1..][l], b, i) {
        assert order[1..][l] == order[l + 1];
      }
      DetectInFirst(order[1..], b, i, j - 1);
    }
  }

  /** Whatever is reported is the first matching detector of the order. */
  lemma {:induction false} DetectInIsFirst(order: seq<Kind>, b: seq<byte>, i: nat)
    requires i + 4 <= |b|
    ensures DetectIn(order, b, i).Some? ==>
      exists j :: 0 <= j < |order| && order[j] == DetectIn(order, b, i).value &&
        forall l :: 0 <= l < j ==> !Matches(order[l], b, i)
    ensures DetectIn(order, b, i).None? ==> forall l :: 0 <= l < |order| ==> !Matches(order[l], b, i)
  {
    if |order| > 0 && !Matches(order[0], b, i) {
      DetectInIsFirst(order[1..], b, i);
      if DetectIn(order, b, i).Some? {
        var j :| 0 <= j < |order| - 1 && order[1..][j] == DetectIn(order, b, i).value &&
          forall l :: 0 <= l < j ==> !Matches(order[1..][l], b, i);
        assert order[j + 1] == DetectIn(order, b, i).value;
        forall l | 0 <= l < j + 1 ensures !Matches(order[l], b, i) {
          if l > 0 {
            assert order[l] == order[1..][l - 1];
          }
        }
      } else {
        forall l | 0 <= l < |order| ensures !Matches(order[l], b, i) {
          if l > 0 {
            assert order[l] == order[1..][l - 1];
          }
        }
      }
    } else if |order| > 0 {
      assert order[0] == DetectIn(order, b, i).value;
    }
  }

  // ---------------------------------------------------------------- one scan position

  /** The findings the Weights[] loop adds for a resolved name, in table order. */
  function WeightHits(ws: seq<WeightEntry>, name: string, kind: Kind, offset: nat): seq<Finding>
  {
    if |ws| == 0 then []
    else
      WeightHits(ws[..|ws| - 1], name, kind, offset) +
      (if ws[|ws| - 1].name == name then [Finding(kind, name, offset, ws[|ws| - 1].weight)] else [])
  }

  /** The findings of a library call or jump whose displacement resolved (or not) to a name. */
  function LibraryHits(kind: Kind, name: Option<string>, ws: seq<WeightEntry>, offset: nat): seq<Finding>
  {
    match name
      case None => []
      case Some(n) => WeightHits(ws, n, kind, offset)
  }

  /** What one position of the scan yields: its findings, in the order added, and the stride. */
  datatype Step = Step(found: seq<Finding>, stride: nat)

  function StepAt(b: seq<byte>, i: nat, buckets: seq<seq<FdEntry>>, ws: seq<WeightEntry>, base: nat, detect: Detector): Step
    requires i + 4 <= |b| && |buckets| == HashSize
  {
    var op := OpWord(b, i);
    if IsJsrA6(op) then Step(LibraryHits(LibraryCall, Resolve(buckets, Disp(b, i)), ws, base), 4)
    else if IsJmpA6(op) then Step(LibraryHits(LibraryJump, Resolve(buckets, Disp(b, i)), ws, base), 4)
    else match detect(b, i)
      case Some(k) => Step([Finding(k, Describe(k), base, Severity(k))], Stride(k))
      case None => Step([], 2)
  }

  /**
   * Everything scan_segment adds from position i on, in the order it adds
   * it. Positions are visited while at least four bytes remain.
   */
  function ScanFrom(b: seq<byte>, i: nat, buckets: seq<seq<FdEntry>>, ws: seq<WeightEntry>, base: nat, detect: Detector): seq<Finding>
    requires |buckets| == HashSize
    decreases |b| - i
  {
    if i + 4 > |b| then []
    else
      var st := StepAt(b, i, buckets, ws, base, detect);
      if st.stride == 0 then [] else st.found + ScanFrom(b, i + st.stride, buckets, ws, base, detect)
  }

  /** One unfolding of the scan: the findings at i, then the scan from the next position. */
  lemma ScanFromStep(b: seq<byte>, i: nat, buckets: seq<seq<FdEntry>>, ws: seq<WeightEntry>, base: nat, detect: Detector)
    requires i + 4 <= |b| && |buckets| == HashSize
    ensures var st := StepAt(b, i, buckets, ws, base, detect);
      st.stride > 0 && ScanFrom(b, i, buckets, ws, base, detect) == st.found + ScanFrom(b, i + st.stride, buckets, ws, base, detect)
  {
    StepShape(b, i, buckets, ws, base, detect);
  }

  /** The scan loop's invariant carried over one position. */
  lemma ScanInvariantStep(b: seq<byte>, i: nat, buckets: seq<seq<FdEntry>>, ws: seq<WeightEntry>, base: nat, detect: Detector, emitted: seq<Finding>)
    requires i + 4 <= |b| && |buckets| == HashSize
    requires ScanFrom(b, 0, buckets, ws, base, detect) == emitted + ScanFrom(b, i, buckets, ws, base, detect)
    ensures var st := StepAt(b, i, buckets, ws, base, detect);
      st.stride > 0 &&
      ScanFrom(b, 0, buckets, ws, base, detect) == (emitted + st.found) + ScanFrom(b, i + st.stride, buckets, ws, base, detect)
  {
    var st := StepAt(b, i, buckets, ws, base, detect);
    ScanFromStep(b, i, buckets, ws, base, detect);
    var rest := ScanFrom(b, i + st.stride, buckets, ws, base, detect);
    assert emitted + (st.found + rest) == (emitted + st.found) + rest;
  }

  /** The sum of the severities of a list of findings. */
  function Severities(fs: seq<Finding>): int
  {
    if |fs| == 0 then 0 else Severities(fs[..|fs| - 1]) + fs[|fs| - 1].severity
  }

  function Reversed<T>(s: seq<T>): (r: seq<T>)
    ensures |r| == |s|
  {
    if |s| == 0 then [] else Reversed(s[1..]) + [s[0]]
  }

  // ---------------------------------------------------------------- properties of one position

  lemma WeightHitsShape(ws: seq<WeightEntry>, name: string, kind: Kind, offset: nat)
    ensures forall k :: 0 <= k < |WeightHits(ws, name, kind, offset)| ==>
      var f := WeightHits(ws, name, kind, offset)[k];
      f.kind == kind && f.desc == name && f.offset == offset &&
      exists j :: 0 <= j < |ws| && ws[j] == WeightEntry(name, f.severity)
  {
    if |ws| > 0 {
      WeightHitsShape(ws[..|ws| - 1], name, kind, offset);
      var hits := WeightHits(ws, name, kind, offset);
      forall k | 0 <= k < |hits|
        ensures exists j :: 0 <= j < |ws| && ws[j] == WeightEntry(name, hits[k].severity)
      {
        if k < |WeightHits(ws[..|ws| - 1], name, kind, offset)| {
          var j :| 0 <= j < |ws| - 1 && ws[..|ws| - 1][j] == WeightEntry(name, hits[k].severity);
          assert ws[j] == WeightEntry(name, hits[k].severity);
        } else {
          assert ws[|ws| - 1] == WeightEntry(name, hits[k].severity);
        }
      }
    }
  }

  /** With distinct names in the table, a name gets at most one weight finding. */
  lemma {:induction false} WeightHitsAtMostOne(ws: seq<WeightEntry>, name: string, kind: Kind, offset: nat)
    requires forall i, j :: 0 <= i < j < |ws| ==> ws[i].name != ws[j].name
    ensures |WeightHits(ws, name, kind, offset)| <= 1
    ensures |WeightHits(ws, name, kind, offset)| == 1 <==> exists j :: 0 <= j < |ws| && ws[j].name == name
  {
    if |ws| > 0 {
      var init := ws[..|ws| - 1];
      WeightHitsAtMostOne(init, name, kind, offset);
      if ws[|ws| - 1].name == name {
        assert forall j :: 0 <= j < |init| ==> init[j].name != name by {
          forall j | 0 <= j < |init| ensures init[j].name != name {
            assert init[j] == ws[j];
          }
        }
      }
      if exists j :: 0 <= j < |ws| && ws[j].name == name {
        var j :| 0 <= j < |ws| && ws[j].name == name;
        if j < |ws| - 1 {
          assert init[j].name == name;
        }
      } else {
        assert forall j :: 0 <= j < |init| ==> init[j] == ws[j];
      }
    }
  }

  /**
   * A library call or jump yields a finding exactly when its displacement
   * resolves to a name listed in the weight table, with that entry's weight,
   * at the segment's base offset; the cursor moves 4 either way.
   */
  lemma LibraryStep(b: seq<byte>, i: nat, buckets: seq<seq<FdEntry>>, ws: seq<WeightEntry>, base: nat, detect: Detector)
    requires i + 4 <= |b| && |buckets| == HashSize && DistinctNames(ws)
    requires OpWord(b, i) == 0x4E96 || OpWord(b, i) == 0x4EBE
    ensures StepAt(b, i, buckets, ws, base, detect).stride == 4
    ensures var found := StepAt(b, i, buckets, ws, base, detect).found;
      var name := Resolve(buckets, Disp(b, i));
      |found| <= 1 &&
      (|found| == 1 <==> name.Some? && exists j :: 0 <= j < |ws| && ws[j].name == name.value) &&
      (|found| == 1 ==>
        found[0].desc == name.value && found[0].offset == base &&
        found[0].kind == (if OpWord(b, i) == 0x4E96 then LibraryCall else LibraryJump) &&
        exists j :: 0 <= j < |ws| && ws[j] == WeightEntry(name.value, found[0].severity))
  {
    var op := OpWord(b, i);
    LibraryOpcodes(op);
    var name := Resolve(buckets, Disp(b, i));
    var kind := if op == 0x4E96 then LibraryCall else LibraryJump;
    if name.Some? {
      WeightHitsAtMostOne(ws, name.value, kind, base);
      WeightHitsShape(ws, name.value, kind, base);
    }
  }

  /** Every position moves the cursor forward by 2, 4 or 6, and its findings carry the base offset and match the stride. */
  lemma StepShape(b: seq<byte>, i: nat, buckets: seq<seq<FdEntry>>, ws: seq<WeightEntry>, base: nat, detect: Detector)
    requires i + 4 <= |b| && |buckets| == HashSize
    ensures var st := StepAt(b, i, buckets, ws, base, detect);
      (st.stride == 2 || st.stride == 4 || st.stride == 6) &&
      (forall f :: f in st.found ==> f.offset == base && st.stride == Stride(f.kind))
  {
    var op := OpWord(b, i);
    LibraryOpcodes(op);
    if IsJsrA6(op) || IsJmpA6(op) {
      var name := Resolve(buckets, Disp(b, i));
      var kind := if op == 0x4E96 then LibraryCall else LibraryJump;
      if name.Some? {
        WeightHitsShape(ws, name.value, kind, base);
      }
    }
  }

  /** With a table of distinct names, every position yields at most one finding. */
  lemma AtMostOneFindingPerPosition(b: seq<byte>, i: nat, buckets: seq<seq<FdEntry>>, ws: seq<WeightEntry>, base: nat, detect: Detector)
    requires i + 4 <= |b| && |buckets| == HashSize && DistinctNames(ws)
    ensures |StepAt(b, i, buckets, ws, base, detect).found| <= 1
  {
    var op := OpWord(b, i);
    LibraryOpcodes(op);
    if IsJsrA6(op) || IsJmpA6(op) {
      LibraryStep(b, i, buckets, ws, base, detect);
    }
  }

  /** The step stride reflects the detector: library 4; ExecBase, Chip, ROM, vector, TCB, list, interrupt, self-modifying 6; trap, VBR, stack and no match 2. */
  lemma PatternStride(b: seq<byte>, i: nat, buckets: seq<seq<FdEntry>>, ws: seq<WeightEntry>, base: nat)
    requires i + 4 <= |b| && |buckets| == HashSize
    requires OpWord(b, i) != 0x4E96 && OpWord(b, i) != 0x4EBE
    ensures var st := StepAt(b, i, buckets, ws, base, Detect);
      match Detect(b, i)
        case None => st == Step([], 2)
        case Some(k) => (st == Step([Finding(k, Describe(k), base, Severity(k))], Stride(k)) &&
          (k in {TrapCall, VbrManipulation, StackManipulation} <==> Stride(k) == 2))
  {
    LibraryOpcodes(OpWord(b, i));
    DetectorStep(b, i, buckets, ws, base, Detect);
    var d := Detect(b, i);
    if d.Some? {
      ShortStrides(d.value);
    }
  }

  lemma ShortStrides(k: Kind)
    ensures k in {TrapCall, VbrManipulation, StackManipulation} <==> Stride(k) == 2
  {
  }

  // ---------------------------------------------------------------- priority consequences

  /** Any MOVE.L #imm with its full immediate in the buffer yields exactly one finding. */
  lemma ImmediateAlwaysFinds(b: seq<byte>, i: nat, buckets: seq<seq<FdEntry>>, ws: seq<WeightEntry>, base: nat)
    requires HasImm(b, i) && |buckets| == HashSize
    ensures Detect(b, i).Some?
    ensures |StepAt(b, i, buckets, ws, base, Detect).found| == 1
  {
    LibraryOpcodes(OpWord(b, i));
    DetectInIsFirst(DetectorOrder, b, i);
    if Imm(b, i) >= 0xF8_0000 {
      assert Matches(DetectorOrder[2], b, i);
    } else {
      assert Matches(DetectorOrder[9], b, i);
    }
  }

  /** The indexed loads 0x2068-0x206A always yield a finding. */
  lemma IndexedLoadAlwaysFinds(b: seq<byte>, i: nat, buckets: seq<seq<FdEntry>>, ws: seq<WeightEntry>, base: nat)
    requires i + 4 <= |b| && IsIndexedLoad(b, i) && |buckets| == HashSize
    ensures Detect(b, i).Some?
    ensures |StepAt(b, i, buckets, ws, base, Detect).found| == 1
  {
    LibraryOpcodes(OpWord(b, i));
    DetectInIsFirst(DetectorOrder, b, i);
    assert Matches(DetectorOrder[9], b, i);
  }

  /** The interrupt detector only ever reports an RTS that follows an RTE. */
  lemma InterruptOnlyAfterRte(b: seq<byte>, i: nat)
    requires i + 4 <= |b|
    ensures Detect(b, i) == Some(InterruptManipulation) ==>
      i >= 2 && b[i - 2] == 0x4E && b[i - 1] == 0x73 && b[i] == 0x4E && b[i + 1] == 0x75
  {
    if HasImm(b, i) && (Imm(b, i) == 0xDF_F09A || Imm(b, i) == 0xDF_F09C) {
      InterruptRegistersAreChipRam(b, i);
    }
  }

  /**
   * INTENA ($DFF09A) and INTREQ ($DFF09C) fall in the Chip RAM range, so the
   * Chip RAM detector, tried first, reports them.
   */
  lemma InterruptRegistersAreChipRam(b: seq<byte>, i: nat)
    requires HasImm(b, i) && (Imm(b, i) == 0xDF_F09A || Imm(b, i) == 0xDF_F09C)
    ensures Detect(b, i) == Some(ChipRamAccess)
  {
    assert !Matches(DetectorOrder[0], b, i);
    DetectInFirst(DetectorOrder, b, i, 1);
  }

  /** 0x4E73 is always reported as VBR manipulation, never as stack manipulation. */
  lemma RteIsVbr(b: seq<byte>, i: nat)
    requires i + 4 <= |b| && b[i] == 0x4E && b[i + 1] == 0x73
    ensures Detect(b, i) == Some(VbrManipulation)
  {
    forall l | 0 <= l < 8 ensures !Matches(DetectorOrder[l], b, i) {
    }
    DetectInFirst(DetectorOrder, b, i, 8);
  }

  // ---------------------------------------------------------------- the whole segment

  lemma {:induction false} SeveritiesAppend(a: seq<Finding>, c: seq<Finding>)
    ensures Severities(a + c) == Severities(a) + Severities(c)
    decreases |c|
  {
    if |c| > 0 {
      var c' := c[..|c| - 1];
      assert (a + c)[..|a + c| - 1] == a + c';
      assert (a + c)[|a + c| - 1] == c[|c| - 1];
      SeveritiesAppend(a, c');
      assert Severities(a + c) == Severities(a + c') + c[|c| - 1].severity;
    } else {
      assert a + c == a;
    }
  }

  lemma {:induction false} ReversedAppend<T>(a: seq<T>, c: seq<T>)
    ensures Reversed(a + c) == Reversed(c) + Reversed(a)
    decreases |a|
  {
    if |a| == 0 {
      assert a + c == c;
    } else {
      assert (a + c)[1..] == a[1..] + c;
      ReversedAppend(a[1..], c);
    }
  }

  /** ReversedAppend in the shape the report's prepending list takes. */
  lemma ReversedPrepend<T>(a: seq<T>, c: seq<T>, tail: seq<T>)
    ensures Reversed(a + c) + tail == Reversed(c) + (Reversed(a) + tail)
  {
    ReversedAppend(a, c);
  }

  /** Every finding of a scan carries the segment's base offset. */
  lemma {:induction false} ScanOffsetsAreBase(b: seq<byte>, i: nat, buckets: seq<seq<FdEntry>>, ws: seq<WeightEntry>, base: nat, detect: Detector)
    requires |buckets| == HashSize
    ensures forall f :: f in ScanFrom(b, i, buckets, ws, base, detect) ==> f.offset == base
    decreases |b| - i
  {
    if i + 4 <= |b| {
      var st := StepAt(b, i, buckets, ws, base, detect);
      StepShape(b, i, buckets, ws, base, detect);
      ScanOffsetsAreBase(b, i + st.stride, buckets, ws, base, detect);
    }
  }

  /** A scan records at most one finding per two bytes of segment. */
  lemma {:induction false} ScanLength(b: seq<byte>, i: nat, buckets: seq<seq<FdEntry>>, ws: seq<WeightEntry>, base: nat, detect: Detector)
    requires |buckets| == HashSize && i <= |b| && DistinctNames(ws)
    ensures 2 * |ScanFrom(b, i, buckets, ws, base, detect)| <= |b| - i
    decreases |b| - i
  {
    if i + 4 <= |b| {
      var st := StepAt(b, i, buckets, ws, base, detect);
      ScanFromStep(b, i, buckets, ws, base, detect);
      StepShape(b, i, buckets, ws, base, detect);
      AtMostOneFindingPerPosition(b, i, buckets, ws, base, detect);
      var rest := ScanFrom(b, i + st.stride, buckets, ws, base, detect);
      assert |ScanFrom(b, i, buckets, ws, base, detect)| == |st.found| + |rest|;
      if i + st.stride <= |b| {
        ScanLength(b, i + st.stride, buckets, ws, base, detect);
      } else {
        assert rest == [];
      }
    }
  }

  /**
   * The example of a library call: 4E 96 FF E2 calls offset -30; with
   * SetFunction the newest name under -30 it yields one finding of weight 40.
   */
  lemma SetFunctionCallExample(buckets: seq<seq<FdEntry>>, base: nat)
    requires |buckets| == HashSize && Resolve(buckets, -30) == Some("SetFunction")
    ensures ScanFrom([0x4E, 0x96, 0xFF, 0xE2], 0, buckets, Weights, base, Detect) ==
      [Finding(LibraryCall, "SetFunction", base, 40)]
  {
    var b: seq<byte> := [0x4E, 0x96, 0xFF, 0xE2];
    assert OpWord(b, 0) == 0x4E96;
    LibraryOpcodes(OpWord(b, 0));
    assert Disp(b, 0) == -30;
    assert WeightHits(Weights, "SetFunction", LibraryCall, base) == [Finding(LibraryCall, "SetFunction", base, 40)] by {
      WeightHitsOnlyFirst(Weights, "SetFunction", LibraryCall, base);
    }
    assert ScanFrom(b, 4, buckets, Weights, base, Detect) == [];
  }

  lemma {:induction false} WeightHitsOnlyFirst(ws: seq<WeightEntry>, name: string, kind: Kind, offset: nat)
    requires |ws| >= 1 && ws[0].name == name
    requires forall j :: 1 <= j < |ws| ==> ws[j].name != name
    ensures WeightHits(ws, name, kind, offset) == [Finding(kind, name, offset, ws[0].weight)]
    decreases |ws|
  {
    if |ws| > 1 {
      WeightHitsOnlyFirst(ws[..|ws| - 1], name, kind, offset);
    } else {
      assert ws[..0] == [];
    }
  }

  // ---------------------------------------------------------------- the report

  /** struct DiagnosticReport: the findings list, newest first, and its counters. */
  class Report {
    const filename: string
    var totalScore: int
    var findings: seq<Finding>
    var findingCount: int

    predicate Valid()
      reads this
    {
      findingCount == |findings|
    }

    constructor (name: string)
      ensures filename == name && totalScore == 0 && findings == [] && findingCount == 0
      ensures Valid()
    {
      filename := name;
      totalScore := 0;
      findings := [];
      findingCount := 0;
    }

    /** add_finding: prepends the finding and counts it. */
    method AddFinding(f: Finding)
      modifies this
      ensures findings == [f] + old(findings)
      ensures findingCount == old(findingCount) + 1
      ensures totalScore == old(totalScore)
      ensures old(Valid()) ==> Valid()
    {
      findings := [f] + findings;
      findingCount := findingCount + 1;
    }

    /** free_report: drops every finding. */
    method Clear()
      modifies this
      ensures findings == [] && findingCount == 0 && totalScore == old(totalScore)
      ensures Valid()
    {
      findings := [];
      findingCount := 0;
    }
  }

  /**
   * The Weights[] loop for a resolved name: each entry with that name adds
   * its weight to the risk and a finding to the report.
   */
  method AddWeightHits(report: Report, ws: seq<WeightEntry>, name: string, kind: Kind, offset: nat, risk0: int)
    returns (risk: int)
    modifies report
    ensures report.findings == Reversed(WeightHits(ws, name, kind, offset)) + old(report.findings)
    ensures report.findingCount == old(report.findingCount) + |WeightHits(ws, name, kind, offset)|
    ensures report.totalScore == old(report.totalScore)
    ensures risk == risk0 + Severities(WeightHits(ws, name, kind, offset))
  {
    risk := risk0;
    var j := 0;
    while j < |ws|
      invariant 0 <= j <= |ws|
      invariant report.findings == Reversed(WeightHits(ws[..j], name, kind, offset)) + old(report.findings)
      invariant report.findingCount == old(report.findingCount) + |WeightHits(ws[..j], name, kind, offset)|
      invariant report.totalScore == old(report.totalScore)
      invariant risk == risk0 + Severities(WeightHits(ws[..j], name, kind, offset))
    {
      risk := AddWeightHit(report, ws, j, name, kind, offset, risk, old(report.findings), old(report.findingCount), risk0);
      j := j + 1;
    }
    assert ws[..j] == ws;
  }

  /** One turn of the Weights[] loop, stated as the loop's invariant carried from entry j to entry j + 1. */
  method AddWeightHit(report: Report, ws: seq<WeightEntry>, j: nat, name: string, kind: Kind, offset: nat, risk0: int,
                      ghost findings0: seq<Finding>, ghost count0: int, ghost riskStart: int)
    returns (risk: int)
    requires j < |ws|
    requires report.findings == Reversed(WeightHits(ws[..j], name, kind, offset)) + findings0
    requires report.findingCount == count0 + |WeightHits(ws[..j], name, kind, offset)|
    requires risk0 == riskStart + Severities(WeightHits(ws[..j], name, kind, offset))
    modifies report
    ensures report.findings == Reversed(WeightHits(ws[..j + 1], name, kind, offset)) + findings0
    ensures report.findingCount == count0 + |WeightHits(ws[..j + 1], name, kind, offset)|
    ensures risk == riskStart + Severities(WeightHits(ws[..j + 1], name, kind, offset))
    ensures report.totalScore == old(report.totalScore)
  {
    ghost var before := WeightHits(ws[..j], name, kind, offset);
    assert ws[..j + 1][..j] == ws[..j];
    if ws[j].name == name {
      var f := Finding(kind, name, offset, ws[j].weight);
      risk := risk0 + ws[j].weight;
      report.AddFinding(f);
      assert WeightHits(ws[..j + 1], name, kind, offset) == before + [f];
      ReversedPrepend(before, [f], findings0);
      SeveritiesAppend(before, [f]);
    } else {
      risk := risk0;
      assert WeightHits(ws[..j + 1], name, kind, offset) == before + [];
      assert before + [] == before;
    }
  }

  /** A library call or jump at one position: the Weights[] hits of the name its displacement resolves to. */
  method LibraryPosition(report: Report, table: SymbolTable, ws: seq<WeightEntry>, kind: Kind, disp: int, base: nat, risk0: int)
    returns (risk: int)
    requires table.Valid()
    modifies report
    ensures var found := LibraryHits(kind, Resolve(table.buckets[..], disp), ws, base);
      report.findings == Reversed(found) + old(report.findings) &&
      report.findingCount == old(report.findingCount) + |found| &&
      risk == risk0 + Severities(found)
    ensures report.totalScore == old(report.totalScore)
  {
    var name := table.Lookup(disp);
    if name.Some? {
      risk := AddWeightHits(report, ws, name.value, kind, base, risk0);
    } else {
      risk := risk0;
      assert Reversed<Finding>([]) + report.findings == report.findings;
    }
  }

  /** A position that is no library call or jump: the first detector that matches, if any. */
  method DetectorPosition(p: array<byte>, i: nat, risk0: int, report: Report, base: nat, detect: Detector)
    returns (risk: int, stride: nat)
    modifies report
    ensures match detect(p[..], i)
      case Some(k) =>
        report.findings == [Finding(k, Describe(k), base, Severity(k))] + old(report.findings) &&
        report.findingCount == old(report.findingCount) + 1 && risk == risk0 + Severity(k) && stride == Stride(k)
      case None =>
        report.findings == old(report.findings) && report.findingCount == old(report.findingCount) &&
        risk == risk0 && stride == 2
    ensures report.totalScore == old(report.totalScore)
  {
    var d := detect(p[..], i);
    if d.Some? {
      var k := d.value;
      var f := Finding(k, Describe(k), base, Severity(k));
      risk := risk0 + Severity(k);
      report.AddFinding(f);
      stride := Stride(k);
    } else {
      risk := risk0;
      stride := 2;
    }
  }

  /**
   * One pass of scan_segment's loop body at position i: the library call and
   * jump tests, then the detectors in priority order.
   */
  method ScanPosition(p: array<byte>, i: nat, risk0: int, report: Report, base: nat, table: SymbolTable, ws: seq<WeightEntry>, detect: Detector)
    returns (risk: int, stride: nat)
    requires i + 4 <= p.Length && table.Valid()
    modifies report
    ensures var st := StepAt(p[..], i, table.buckets[..], ws, base, detect);
      report.findings == Reversed(st.found) + old(report.findings) &&
      report.findingCount == old(report.findingCount) + |st.found| &&
      risk == risk0 + Severities(st.found) &&
      stride == st.stride
    ensures report.totalScore == old(report.totalScore)
  {
    var op := OpWord(p[..], i);
    if IsJsrA6(op) || IsJmpA6(op) {
      var kind := if IsJsrA6(op) then LibraryCall else LibraryJump;
      risk := LibraryPosition(report, table, ws, kind, Disp(p[..], i), base, risk0);
      stride := 4;
    } else {
      risk, stride := DetectorPosition(p, i, risk0, report, base, detect);
      DetectorStep(p[..], i, table.buckets[..], ws, base, detect);
    }
  }

  /** At a position that is no library call or jump the step holds at most the detector's finding. */
  lemma DetectorStep(b: seq<byte>, i: nat, buckets: seq<seq<FdEntry>>, ws: seq<WeightEntry>, base: nat, detect: Detector)
    requires i + 4 <= |b| && |buckets| == HashSize
    requires !IsJsrA6(OpWord(b, i)) && !IsJmpA6(OpWord(b, i))
    ensures var st := StepAt(b, i, buckets, ws, base, detect);
      Reversed(st.found) == st.found && Severities(st.found) == (if |st.found| == 1 then st.found[0].severity else 0) &&
      match detect(b, i)
        case Some(k) => st == Step([Finding(k, Describe(k), base, Severity(k))], Stride(k))
        case None => st == Step([], 2)
  {
    ShortFindings(StepAt(b, i, buckets, ws, base, detect).found);
  }

  lemma ShortFindings(found: seq<Finding>)
    requires |found| <= 1
    ensures Reversed(found) == found
    ensures Severities(found) == if |found| == 1 then found[0].severity else 0
  {
    if |found| == 1 {
      assert found[1..] == [] && found[..0] == [];
    }
  }


  /**
   * One turn of scan_segment's loop, stated as the loop's invariant carried
   * from position i to the next position.
   */
  method ScanTurn(p: array<byte>, i: nat, risk0: int, report: Report, base: nat, table: SymbolTable,
                  ws: seq<WeightEntry>, detect: Detector, ghost emitted: seq<Finding>, ghost findings0: seq<Finding>,
                  ghost count0: int, ghost riskStart: int)
    returns (risk: int, next: nat, ghost emitted': seq<Finding>)
    requires i + 4 <= p.Length && table.Valid()
    requires ScanFrom(p[..], 0, table.buckets[..], ws, base, detect) == emitted + ScanFrom(p[..], i, table.buckets[..], ws, base, detect)
    requires report.findings == Reversed(emitted) + findings0
    requires report.findingCount == count0 + |emitted|
    requires risk0 == riskStart + Severities(emitted)
    modifies report
    ensures i < next
    ensures ScanFrom(p[..], 0, table.buckets[..], ws, base, detect) == emitted' + ScanFrom(p[..], next, table.buckets[..], ws, base, detect)
    ensures report.findings == Reversed(emitted') + findings0
    ensures report.findingCount == count0 + |emitted'|
    ensures risk == riskStart + Severities(emitted')
    ensures report.totalScore == old(report.totalScore)
  {
    ghost var st := StepAt(p[..], i, table.buckets[..], ws, base, detect);
    ScanInvariantStep(p[..], i, table.buckets[..], ws, base, detect, emitted);
    var stride;
    risk, stride := ScanPosition(p, i, risk0, report, base, table, ws, detect);
    next := i + stride;
    ReversedPrepend(emitted, st.found, findings0);
    SeveritiesAppend(emitted, st.found);
    emitted' := emitted + st.found;
  }

  /**
   * scan_segment: walks the segment while four bytes remain, adding every
   * finding to the report (newest first) and its severity to the risk.
   */
  method ScanSegment(p: array<byte>, risk0: int, report: Report, base: nat, table: SymbolTable,
                     ws: seq<WeightEntry>, detect: Detector)
    returns (risk: int)
    requires table.Valid()
    modifies report
    ensures report.findings == Reversed(ScanFrom(p[..], 0, table.buckets[..], ws, base, detect)) + old(report.findings)
    ensures report.findingCount == old(report.findingCount) + |ScanFrom(p[..], 0, table.buckets[..], ws, base, detect)|
    ensures report.totalScore == old(report.totalScore)
    ensures risk == risk0 + Severities(ScanFrom(p[..], 0, table.buckets[..], ws, base, detect))
  {
    ghost var emitted: seq<Finding> := [];
    ghost var findings0 := report.findings;
    ghost var count0 := report.findingCount;
    risk := risk0;
    var i := 0;
    while i + 4 <= p.Length
      invariant ScanFrom(p[..], 0, table.buckets[..], ws, base, detect) == emitted + ScanFrom(p[..], i, table.buckets[..], ws, base, detect)
      invariant report.findings == Reversed(emitted) + findings0
      invariant report.findingCount == count0 + |emitted|
      invariant report.totalScore == old(report.totalScore)
      invariant risk == risk0 + Severities(emitted)
      decreases p.Length - i
    {
      risk, i, emitted := ScanTurn(p, i, risk, report, base, table, ws, detect, emitted, findings0, count0, risk0);
    }
    assert emitted + [] == emitted;
  }

  // ---------------------------------------------------------------- verdict

  datatype Verdict = LikelySafe | NeedsReview | ProbablyBreaks

  /** The thresholds shared by the report's status and the summary line. */
  function VerdictOf(score: int): (v: Verdict)
    ensures v == LikelySafe <==> score <= 20
    ensures v == NeedsReview <==> 20 < score <= 50
    ensures v == ProbablyBreaks <==> score > 50
  {
    if score <= 20 then LikelySafe else if score <= 50 then NeedsReview else ProbablyBreaks
  }

  /** The "Status:" text print_report writes for a total score. */
  function ReportStatus(score: int): string
  {
    if score <= 20 then "LIKELY SAFE" else if score <= 50 then "NEEDS REVIEW" else "PROBABLY BREAKS"
  }

  /** The verdict text main writes on the summary line. */
  function SummaryVerdict(score: int): string
  {
    if score <= 20 then "Likely Safe" else if score <= 50 then "Needs Review" else "Probably Breaks"
  }

  function VerdictText(v: Verdict): string
  {
    match v
      case LikelySafe => "Likely Safe"
      case NeedsReview => "Needs Review"
      case ProbablyBreaks => "Probably Breaks"
  }

  function ToUpper(c: char): char
  {
    if 'a' <= c <= 'z' then (c as int - 32) as char else c
  }

  function Upper(s: string): (r: string)
    ensures |r| == |s|
  {
    seq(|s|, i requires 0 <= i < |s| => ToUpper(s[i]))
  }

  /** The report's status and the summary line always give the same verdict for a score. */
  lemma ReportAndSummaryAgree(score: int)
    ensures SummaryVerdict(score) == VerdictText(VerdictOf(score))
    ensures ReportStatus(score) == Upper(SummaryVerdict(score))
  {
    var s := SummaryVerdict(score);
    assert Upper(s) == ReportStatus(score) by {
      if score <= 20 {
        assert Upper("Likely Safe") == "LIKELY SAFE";
      } else if score <= 50 {
        assert Upper("Needs Review") == "NEEDS REVIEW";
      } else {
        assert Upper("Probably Breaks") == "PROBABLY BREAKS";
      }
    }
  }
}
