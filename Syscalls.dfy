/**
 * The descriptor layer of the AmigaOS 4 newlib port (syscalls.c): a
 * first-fit table of 256 slots mapping file descriptors to AmigaDOS file
 * handles, the checks the reentrant system calls make on a descriptor
 * before they reach AmigaDOS, and the conversion of an AmigaDOS
 * DateStamp to seconds since the Epoch.
 *
 * Every AmigaDOS call (Open, Close, Read, Write, Seek, IoErr, DateStamp)
 * is a parameter holding its result. A result of -1 from Read, Write or
 * Seek, and a NULL handle from Open, are None.
 */
module Syscalls {
  import opened CStrings
  import opened AmigaErr
  import PathConv

  const MaxFds: nat := 256

  /** A BPTR to an open AmigaDOS file: never 0. */
  type Handle = h: int | h != 0 witness 1

  /** What a system call returns, and the errno it stores (None: errno is left alone). */
  datatype Outcome = Outcome(ret: int, errno: Option<Errno>)

  /** The convention every call keeps: it returns -1 exactly when it sets errno. */
  predicate Reported(r: Outcome)
  {
    r.ret == -1 <==> r.errno.Some?
  }

  /** The lowest index at or after from whose slot is free. */
  function FirstFree(used: seq<bool>, from: nat): (r: Option<nat>)
    requires from <= |used|
    ensures r.Some? ==> from <= r.value < |used| && !used[r.value]
    ensures r.Some? ==> forall j :: from <= j < r.value ==> used[j]
    ensures r.None? ==> forall j :: from <= j < |used| ==> used[j]
    decreases |used| - from
  {
    if from == |used| then None
    else if !used[from] then Some(from)
    else FirstFree(used, from + 1)
  }

  /** The slots in use after init_fd_table: stdin, stdout and stderr. */
  function ReservedSlots(): (s: seq<bool>)
    ensures |s| == MaxFds && forall i :: 0 <= i < MaxFds ==> (s[i] <==> i < 3)
  {
    seq(MaxFds, i => i < 3)
  }

  function NoHandles(): (s: seq<int>)
    ensures |s| == MaxFds && forall i :: 0 <= i < MaxFds ==> s[i] == 0
  {
    seq(MaxFds, i => 0)
  }

  /** The static fd_table and fd_allocated arrays and the initialized flag of init_fd_table. */
  class FdTable {
    const handles: array<int>
    const inUse: array<bool>
    var initialized: bool

    /** Both arrays (fd_table as handles, fd_allocated as inUse) have MaxFds slots, a free slot holds no handle, and nothing is in use before initialisation. */
    ghost predicate Valid()
      reads this, handles, inUse
    {
      handles.Length == MaxFds && inUse.Length == MaxFds &&
      (forall i :: 0 <= i < MaxFds && !inUse[i] ==> handles[i] == 0) &&
      (!initialized ==> forall i :: 0 <= i < MaxFds ==> !inUse[i])
    }

    /**
     * Descriptors 0, 1 and 2 hold no handle, and are in use once the
     * table is initialised: the system calls never give them out.
     */
    ghost predicate StandardReserved()
      reads this, handles, inUse
      requires Valid()
    {
      forall k :: 0 <= k < 3 ==> handles[k] == 0 && (initialized ==> inUse[k])
    }

    /** The zeroed static storage at program start. */
    constructor()
      ensures Valid() && StandardReserved() && !initialized
      ensures inUse[..] == seq(MaxFds, i => false) && handles[..] == NoHandles()
      ensures fresh(handles) && fresh(inUse)
    {
      handles := new int[MaxFds](i => 0);
      inUse := new bool[MaxFds](i => false);
      initialized := false;
    }

    /** init_fd_table: the first call clears the table and reserves 0, 1 and 2; later calls change nothing. */
    method InitFdTable()
      requires Valid()
      modifies this, handles, inUse
      ensures Valid() && initialized
      ensures old(initialized) ==> inUse[..] == old(inUse[..]) && handles[..] == old(handles[..])
      ensures !old(initialized) ==> inUse[..] == ReservedSlots() && handles[..] == NoHandles()
    {
      if !initialized {
        forall i | 0 <= i < MaxFds {
          handles[i] := 0;
        }
        forall i | 0 <= i < MaxFds {
          inUse[i] := i < 3;
        }
        initialized := true;
      }
    }

    /** The slots in use and the handles as alloc_fd sees them, once init_fd_table has run. */
    ghost function ReadyUsed(): seq<bool>
      reads this, inUse
    {
      if initialized then inUse[..] else ReservedSlots()
    }

    ghost function ReadyHandles(): seq<int>
      reads this, handles
    {
      if initialized then handles[..] else NoHandles()
    }

    /** alloc_fd: the lowest free slot takes the handle; -1 when all slots are in use. */
    method AllocFd(file: int) returns (fd: int)
      requires Valid()
      modifies this, handles, inUse
      ensures Valid() && initialized
      ensures var slot := FirstFree(old(ReadyUsed()), 0);
        if slot.None? then
          fd == -1 && inUse[..] == old(ReadyUsed()) && handles[..] == old(ReadyHandles())
        else
          fd == slot.value &&
          inUse[..] == old(ReadyUsed())[fd := true] && handles[..] == old(ReadyHandles())[fd := file]
    {
      ghost var used := ReadyUsed();
      ghost var hs := ReadyHandles();
      InitFdTable();
      var i := 0;
      while i < MaxFds
        invariant 0 <= i <= MaxFds
        invariant Valid() && initialized
        invariant inUse[..] == used && handles[..] == hs
        invariant FirstFree(used, 0) == FirstFree(used, i)
      {
        if !inUse[i] {
          handles[i] := file;
          inUse[i] := true;
          return i;
        }
        i := i + 1;
      }
      return -1;
    }

    /** free_fd: a descriptor in range and in use is released; any other is ignored. */
    method FreeFd(fd: int)
      requires Valid()
      modifies handles, inUse
      ensures Valid()
      ensures if 0 <= fd < MaxFds && old(inUse[fd]) then
          inUse[..] == old(inUse[..])[fd := false] && handles[..] == old(handles[..])[fd := 0]
        else
          inUse[..] == old(inUse[..]) && handles[..] == old(handles[..])
      ensures GetBptr(fd) == 0
    {
      if 0 <= fd < MaxFds && inUse[fd] {
        inUse[fd] := false;
        handles[fd] := 0;
      }
    }

    /** get_bptr: the handle of a descriptor in range and in use, and 0 for any other. */
    function GetBptr(fd: int): (h: int)
      requires Valid()
      reads this, handles, inUse
      ensures h != 0 ==> 0 <= fd < MaxFds && inUse[fd] && h == handles[fd]
      ensures 0 <= fd < MaxFds && inUse[fd] ==> h == handles[fd]
    {
      if 0 <= fd < MaxFds && inUse[fd] then handles[fd] else 0
    }

    /**
     * _open_r. path is None for NULL; handle is what Open() returns for
     * the translated name and the mode of amigaos4_oflags, None for
     * failure. request is the name and mode handed to Open(), NoRequest
     * when the call fails before; closes is the handle handed back to
     * Close() when no descriptor is free.
     */
    method Open(path: Option<CString>, flags: bv32, mode: int, semantics: bool, handle: Option<Handle>, ioerr: DosError)
      returns (r: Outcome, request: OpenRequest, closes: Option<Handle>)
      requires Valid()
      modifies this, handles, inUse
      ensures Valid() && Reported(r)
      ensures old(StandardReserved()) ==> StandardReserved()
      ensures path.None? ==> r == Outcome(-1, Some(EINVAL)) && request == NoRequest
      ensures closes.Some? <==> path.Some? && handle.Some? && FirstFree(old(ReadyUsed()), 0).None?
      ensures closes.Some? ==> closes == handle
      ensures path.Some? ==> request == Request(PathConv.UnixToDos(path, true, 512, semantics), OFlags(flags, mode))
      ensures path.Some? && handle.None? ==> r == Outcome(-1, Some(IoErrno(ioerr)))
      ensures path.None? || handle.None? ==>
        unchanged(this) && inUse[..] == old(inUse[..]) && handles[..] == old(handles[..])
      ensures path.Some? && handle.Some? ==>
        var slot := FirstFree(old(ReadyUsed()), 0);
        if slot.None? then
          r == Outcome(-1, Some(EMFILE)) && inUse[..] == old(ReadyUsed()) && handles[..] == old(ReadyHandles())
        else
          r == Outcome(slot.value, None) &&
          inUse[..] == old(ReadyUsed())[slot.value := true] &&
          handles[..] == old(ReadyHandles())[slot.value := handle.value]
    {
      if path.None? {
        return Outcome(-1, Some(EINVAL)), NoRequest, None;
      }
      request := Request(PathConv.UnixToDos(path, true, 512, semantics), OFlags(flags, mode));
      if handle.None? {
        return Outcome(-1, Some(IoErrno(ioerr))), request, None;
      }
      var fd := AllocFd(handle.value);
      if fd == -1 {
        return Outcome(-1, Some(EMFILE)), request, handle;
      }
      return Outcome(fd, None), request, None;
    }

    /** _close_r. closed is what Close() returns for the descriptor's handle. */
    method Close(fd: int, closed: bool, ioerr: DosError) returns (r: Outcome)
      requires Valid()
      modifies handles, inUse
      ensures Valid() && Reported(r)
      ensures old(StandardReserved()) ==> StandardReserved()
      ensures old(GetBptr(fd)) == 0 ==> r == Outcome(-1, Some(EBADF))
      ensures old(GetBptr(fd)) != 0 && !closed ==> r == Outcome(-1, Some(IoErrno(ioerr)))
      ensures old(GetBptr(fd)) != 0 && closed ==>
        r == Outcome(0, None) &&
        inUse[..] == old(inUse[..])[fd := false] && handles[..] == old(handles[..])[fd := 0]
      ensures !(old(GetBptr(fd)) != 0 && closed) ==>
        inUse[..] == old(inUse[..]) && handles[..] == old(handles[..])
    {
      var fh := GetBptr(fd);
      if fh == 0 {
        return Outcome(-1, Some(EBADF));
      }
      if closed {
        FreeFd(fd);
        return Outcome(0, None);
      }
      return Outcome(-1, Some(IoErrno(ioerr)));
    }

    /**
     * _read_r and _write_r, which make the same checks. hasBuf is buf !=
     * NULL; transferred is what Read() or Write() returns.
     */
    function Transfer(fd: int, hasBuf: bool, transferred: Option<nat>, ioerr: DosError): (r: Outcome)
      requires Valid()
      reads this, handles, inUse
      ensures Reported(r)
      ensures r.ret >= 0 ==> GetBptr(fd) != 0 && hasBuf && transferred == Some(r.ret)
      ensures hasBuf && StandardReserved() && 0 <= fd < 3 ==> r == Outcome(-1, Some(EBADF))
      ensures !hasBuf ==> r.errno == Some(EINVAL)
      ensures hasBuf && GetBptr(fd) == 0 ==> r == Outcome(-1, Some(EBADF))
      ensures hasBuf && GetBptr(fd) != 0 && transferred.Some? ==> r == Outcome(transferred.value, None)
      ensures hasBuf && GetBptr(fd) != 0 && transferred.None? ==> r == Outcome(-1, Some(IoErrno(ioerr)))
    {
      if !hasBuf then Outcome(-1, Some(EINVAL))
      else if GetBptr(fd) == 0 then Outcome(-1, Some(EBADF))
      else match transferred
        case None => Outcome(-1, Some(IoErrno(ioerr)))
        case Some(n) => Outcome(n, None)
    }

    /** _lseek_r. position is what Seek() returns. */
    function Lseek(fd: int, whence: int, position: Option<nat>, ioerr: DosError): (r: Outcome)
      requires Valid()
      reads this, handles, inUse
      ensures Reported(r)
      ensures r.ret >= 0 ==> GetBptr(fd) != 0 && SeekMode(whence).Some? && position == Some(r.ret)
      ensures GetBptr(fd) == 0 ==> r == Outcome(-1, Some(EBADF))
      ensures GetBptr(fd) != 0 && SeekMode(whence).None? ==> r == Outcome(-1, Some(EINVAL))
      ensures GetBptr(fd) != 0 && SeekMode(whence).Some? && position.Some? ==> r == Outcome(position.value, None)
      ensures GetBptr(fd) != 0 && SeekMode(whence).Some? && position.None? ==> r == Outcome(-1, Some(IoErrno(ioerr)))
    {
      if GetBptr(fd) == 0 then Outcome(-1, Some(EBADF))
      else match SeekMode(whence)
        case None => Outcome(-1, Some(EINVAL))
        case Some(_) =>
          match position
          case None => Outcome(-1, Some(IoErrno(ioerr)))
          case Some(p) => Outcome(p, None)
    }
  }

  /** The name (None: the buffer was left unset) and the mode _open_r hands to Open(). */
  datatype OpenRequest = NoRequest | Request(name: Option<string>, amigaMode: int)

  // ---------------------------------------------------------------- seeking

  const SEEK_SET: int := 0
  const SEEK_CUR: int := 1
  const SEEK_END: int := 2
  const OFFSET_BEGINNING: int := -1
  const OFFSET_CURRENT: int := 0
  const OFFSET_END: int := 1

  /** The Seek() mode of a whence argument; None for an unknown whence. */
  function SeekMode(whence: int): Option<int>
  {
    if whence == SEEK_SET then Some(OFFSET_BEGINNING)
    else if whence == SEEK_CUR then Some(OFFSET_CURRENT)
    else if whence == SEEK_END then Some(OFFSET_END)
    else None
  }

  /** The whence a Seek() mode comes from. */
  function WhenceOf(mode: int): Option<int>
  {
    if mode == OFFSET_BEGINNING then Some(SEEK_SET)
    else if mode == OFFSET_CURRENT then Some(SEEK_CUR)
    else if mode == OFFSET_END then Some(SEEK_END)
    else None
  }

  /** The whence mapping is a bijection between the three whence values and the three Seek() modes. */
  lemma SeekModeBijective(whence: int, mode: int)
    ensures SeekMode(whence) == Some(mode) <==> WhenceOf(mode) == Some(whence)
    ensures SeekMode(whence).Some? <==> whence in {SEEK_SET, SEEK_CUR, SEEK_END}
  {
  }

  // ---------------------------------------------------------------- unimplemented calls

  datatype Unimplemented =
    Fork | Execve | Wait | Kill | Gettimeofday | Times | Link | Symlink | Readlink | Dup2 | Isatty

  /** Every unimplemented call fails with ENOSYS. */
  function Stub(call: Unimplemented): (r: Outcome)
    ensures Reported(r) && r.errno == Some(ENOSYS)
  {
    Outcome(-1, Some(ENOSYS))
  }

  // ---------------------------------------------------------------- time

  /** An AmigaDOS DateStamp: days since 1978-01-01, minutes past midnight, ticks of 1/50 s. */
  datatype DateStamp = DateStamp(days: int, minute: int, tick: int)

  predicate ValidStamp(ds: DateStamp)
  {
    ds.days >= 0 && 0 <= ds.minute < 1440 && 0 <= ds.tick < 3000
  }

  /** C's integer division, which truncates toward zero. */
  function Quot(a: int, b: int): int
    requires b > 0
  {
    if a >= 0 then a / b else -((-a) / b)
  }

  /** _time_r as written. */
  function TimeAsWritten(ds: DateStamp): int
  {
    (ds.days - 2922) * 86400 + ds.minute * 60 + Quot(ds.tick, 50)
  }

  /** _fstat_r and _stat_r as written. */
  function FileTimeAsWritten(ds: DateStamp): int
  {
    ds.days * 86400 + ds.minute * 60 + Quot(ds.tick, 50)
  }

  /** Seconds since the Epoch of a DateStamp: 1978-01-01 is 2922 days after 1970-01-01. */
  function EpochTime(ds: DateStamp): int
  {
    (ds.days + 2922) * 86400 + ds.minute * 60 + Quot(ds.tick, 50)
  }

  /** Seconds since the Epoch of a broken-down UTC time, as section 4.16 of POSIX.1-2017 XBD defines them. */
  function PosixSeconds(year: int, yday: int, hour: int, min: int, sec: int): int
  {
    var y := year - 1900;
    sec + min * 60 + hour * 3600 + yday * 86400 + (y - 70) * 31536000 +
    Quot(y - 69, 4) * 86400 - Quot(y - 1, 100) * 86400 + Quot(y + 299, 400) * 86400
  }

  predicate Leap(year: int)
  {
    year % 4 == 0 && (year % 100 != 0 || year % 400 == 0)
  }

  function YearLength(year: int): int
  {
    if Leap(year) then 366 else 365
  }

  /** The year and day of the year days days after 1 January of year. */
  function Civil(days: nat, year: int): (int, nat)
    decreases days
  {
    if days < YearLength(year) then (year, days)
    else Civil(days - YearLength(year), year + 1)
  }

  lemma QuotStep(a: int, d: int)
    requires a >= 0 && d in {4, 100, 400}
    ensures Quot(a + 1, d) - Quot(a, d) == if (a + 1) % d == 0 then 1 else 0
  {
  }

  /** The leap-day terms of PosixSeconds grow from one year to the next by the year's leap day. */
  lemma LeapTerms(year: int)
    requires year >= 1970
    ensures Quot(year - 1968, 4) - Quot(year - 1969, 4) == if year % 4 == 0 then 1 else 0
    ensures Quot(year - 1900, 100) - Quot(year - 1901, 100) == if year % 100 == 0 then 1 else 0
    ensures Quot(year - 1600, 400) - Quot(year - 1601, 400) == if year % 400 == 0 then 1 else 0
  {
    QuotStep(year - 1969, 4);
    QuotStep(year - 1901, 100);
    QuotStep(year - 1601, 400);
    assert (year - 1968) % 4 == year % 4 by {
      assert year - 1968 == year + 4 * (-492);
    }
    assert (year - 1900) % 100 == year % 100 by {
      assert year - 1900 == year + 100 * (-19);
    }
    assert (year - 1600) % 400 == year % 400 by {
      assert year - 1600 == year + 400 * (-4);
    }
  }

  /** The Epoch seconds of 1 January of a year, with its leap-day terms. */
  lemma NewYearSeconds(year: int)
    ensures PosixSeconds(year, 0, 0, 0, 0) ==
      (year - 1970) * 31536000 + (Quot(year - 1969, 4) - Quot(year - 1901, 100) + Quot(year - 1601, 400)) * 86400
  {
  }

  /** The length of a year, as leap-day terms: one per fourth year, less the centuries, plus every fourth century. */
  lemma LengthTerms(year: int)
    ensures YearLength(year) ==
      365 + (if year % 4 == 0 then 1 else 0) - (if year % 100 == 0 then 1 else 0) + (if year % 400 == 0 then 1 else 0)
  {
    if year % 100 == 0 {
      assert year % 4 == 0 by {
        assert year == 100 * (year / 100);
      }
    }
    if year % 400 == 0 {
      assert year % 100 == 0 by {
        assert year == 400 * (year / 400);
      }
    }
  }

  /** From 1 January of one year to the next, the Epoch seconds grow by the length of the year. */
  lemma YearStep(year: int)
    requires year >= 1970
    ensures PosixSeconds(year + 1, 0, 0, 0, 0) == PosixSeconds(year, 0, 0, 0, 0) + YearLength(year) * 86400
  {
    LeapTerms(year);
    LengthTerms(year);
    NewYearSeconds(year);
    NewYearSeconds(year + 1);
  }

  /** Counting days from 1 January of a year and counting Epoch seconds agree. */
  lemma {:induction false} CivilSeconds(days: nat, year: int)
    requires year >= 1970
    ensures Civil(days, year).0 >= year
    ensures PosixSeconds(Civil(days, year).0, Civil(days, year).1, 0, 0, 0) ==
      PosixSeconds(year, 0, 0, 0, 0) + days * 86400
    decreases days
  {
    if days >= YearLength(year) {
      CivilSeconds(days - YearLength(year), year + 1);
      YearStep(year);
    }
  }

  /**
   * The corrected conversion is the Epoch seconds of the calendar date
   * the DateStamp names.
   */
  lemma EpochTimeIsPosix(ds: DateStamp)
    requires ValidStamp(ds)
    ensures var (year, yday) := Civil(ds.days, 1978);
      year >= 1978 && yday < 366 &&
      EpochTime(ds) == PosixSeconds(year, yday, ds.minute / 60, ds.minute % 60, ds.tick / 50)
  {
    CivilSeconds(ds.days, 1978);
    assert PosixSeconds(1978, 0, 0, 0, 0) == 2922 * 86400;
    CivilDayBound(ds.days, 1978);
  }

  lemma {:induction false} CivilDayBound(days: nat, year: int)
    ensures Civil(days, year).1 < YearLength(Civil(days, year).0) <= 366
    decreases days
  {
    if days >= YearLength(year) {
      CivilDayBound(days - YearLength(year), year + 1);
    }
  }

  /** _time_r as written is 2 * 2922 days, sixteen years, short of the Epoch seconds. */
  lemma TimeAsWrittenSixteenYearsEarly(ds: DateStamp)
    ensures TimeAsWritten(ds) == EpochTime(ds) - 2 * 2922 * 86400
    ensures TimeAsWritten(DateStamp(0, 0, 0)) == -EpochTime(DateStamp(0, 0, 0)) < 0
  {
  }

  /** _fstat_r and _stat_r as written are 2922 days, eight years, short of the Epoch seconds. */
  lemma FileTimeAsWrittenEightYearsEarly(ds: DateStamp)
    ensures FileTimeAsWritten(ds) == EpochTime(ds) - 2922 * 86400
    ensures FileTimeAsWritten(DateStamp(0, 0, 0)) == 0 < EpochTime(DateStamp(0, 0, 0))
  {
    assert (ds.days + 2922) * 86400 == ds.days * 86400 + 2922 * 86400;
  }
}
