/**
 * The two mappings of the AmigaOS 4 newlib port's amiga_err.h: from the
 * AmigaDOS error code IoErr() reports to errno, and from open()'s O_*
 * flags to the AmigaDOS access mode of Open(). IoErr() is a parameter.
 */
module AmigaErr {
  import opened CStrings

  /** The AmigaDOS error codes amigaos4_ioerr names, NoError for 0 and Unlisted for any other code. */
  datatype DosError =
    | NoError
    | NoFreeStore | TaskTableFull | BadTemplate | BadNumber | RequiredArgMissing
    | KeyNeedsArg | TooManyArgs | UnmatchedQuotes | LineTooLong | FileNotObject
    | InvalidResidentLibrary | NoDefaultDir | ObjectInUse | ObjectExists | DirNotFound
    | ObjectNotFound | BadStreamName | BadMessage | DosReadError | DosWriteError
    | UnknownDosError | DiskWriteProtected | DiskIsFull | DeleteProtected | WriteProtected
    | ReadProtected | NotADosDisk | NoDisk | NoMoreEntries | IsSoftLink
    | ObjectLinked | BadHunk | NotImplemented | RecordNotLocked | LockCollision
    | LockTimeout | UnlockError | BufferOverflow | Break | NotExecutable
    | InvalidSignal | BadQuickInit | InitFailed | DeviceNotMounted | PacketTooBig
    | DeviceInUse | NoSignalSemaphore | BadSignalSemaphore
    | Unlisted

  /** errno values; NoErrno is the 0 amigaos4_ioerr returns for no error. */
  datatype Errno =
    | NoErrno | ENOMEM | EAGAIN | EINVAL | E2BIG | ENOEXEC | ENOENT | EBUSY | EEXIST
    | EIO | EROFS | ENOSPC | EACCES | ENODEV | ELOOP | EMLINK | ENOSYS | ETIMEDOUT
    | EOVERFLOW | EINTR | EMSGSIZE | EBADF | EMFILE

  /** amigaos4_ioerr: the first case label that matches decides. */
  function IoErrno(error: DosError): Errno
  {
    match error
    case NoError => NoErrno
    case NoFreeStore => ENOMEM
    case TaskTableFull => EAGAIN
    case BadTemplate => EINVAL
    case BadNumber => EINVAL
    case RequiredArgMissing => EINVAL
    case KeyNeedsArg => EINVAL
    case TooManyArgs => E2BIG
    case UnmatchedQuotes => EINVAL
    case LineTooLong => E2BIG
    case FileNotObject => ENOEXEC
    case InvalidResidentLibrary => ENOEXEC
    case NoDefaultDir => ENOENT
    case ObjectInUse => EBUSY
    case ObjectExists => EEXIST
    case DirNotFound => ENOENT
    case ObjectNotFound => ENOENT
    case BadStreamName => EINVAL
    case BadMessage => EINVAL
    case DosReadError => EIO
    case DosWriteError => EIO
    case UnknownDosError => EIO
    case DiskWriteProtected => EROFS
    case DiskIsFull => ENOSPC
    case DeleteProtected => EACCES
    case WriteProtected => EACCES
    case ReadProtected => EACCES
    case NotADosDisk => EINVAL
    case NoDisk => ENODEV
    case NoMoreEntries => ENOENT
    case IsSoftLink => ELOOP
    case ObjectLinked => EMLINK
    case BadHunk => ENOEXEC
    case NotImplemented => ENOSYS
    case RecordNotLocked => EACCES
    case LockCollision => EACCES
    case LockTimeout => ETIMEDOUT
    case UnlockError => EACCES
    case BufferOverflow => EOVERFLOW
    case Break => EINTR
    case NotExecutable => ENOEXEC
    case InvalidSignal => EINVAL
    case BadQuickInit => EINVAL
    case InitFailed => EINVAL
    case DeviceNotMounted => ENODEV
    case PacketTooBig => EMSGSIZE
    case DeviceInUse => EBUSY
    case NoSignalSemaphore => EAGAIN
    case BadSignalSemaphore => EINVAL
    case Unlisted => EIO
  }

  /**
   * The case labels that appear a second time in the switch, with the
   * errno the second occurrence returns.
   */
  function RepeatedLabel(error: DosError): Option<Errno>
  {
    match error
    case InvalidResidentLibrary => Some(ENOEXEC)
    case NoSignalSemaphore => Some(EAGAIN)
    case BadSignalSemaphore => Some(EINVAL)
    case BadTemplate => Some(EINVAL)
    case BadNumber => Some(EINVAL)
    case RequiredArgMissing => Some(EINVAL)
    case KeyNeedsArg => Some(EINVAL)
    case TooManyArgs => Some(E2BIG)
    case UnmatchedQuotes => Some(EINVAL)
    case LineTooLong => Some(E2BIG)
    case FileNotObject => Some(ENOEXEC)
    case NoDefaultDir => Some(ENOENT)
    case ObjectInUse => Some(EBUSY)
    case ObjectExists => Some(EEXIST)
    case DirNotFound => Some(ENOENT)
    case ObjectNotFound => Some(ENOENT)
    case BadStreamName => Some(EINVAL)
    case BadMessage => Some(EINVAL)
    case DosReadError => Some(EIO)
    case DosWriteError => Some(EIO)
    case UnknownDosError => Some(EIO)
    case DiskWriteProtected => Some(EROFS)
    case DiskIsFull => Some(ENOSPC)
    case DeleteProtected => Some(EACCES)
    case WriteProtected => Some(EACCES)
    case ReadProtected => Some(EACCES)
    case NotADosDisk => Some(EINVAL)
    case NoDisk => Some(ENODEV)
    case NoMoreEntries => Some(ENOENT)
    case IsSoftLink => Some(ELOOP)
    case ObjectLinked => Some(EMLINK)
    case BadHunk => Some(ENOEXEC)
    case NotImplemented => Some(ENOSYS)
    case RecordNotLocked => Some(EACCES)
    case LockCollision => Some(EACCES)
    case LockTimeout => Some(ETIMEDOUT)
    case UnlockError => Some(EACCES)
    case BufferOverflow => Some(EOVERFLOW)
    case Break => Some(EINTR)
    case NotExecutable => Some(ENOEXEC)
    case InvalidSignal => Some(EINVAL)
    case BadQuickInit => Some(EINVAL)
    case InitFailed => Some(EINVAL)
    case DeviceNotMounted => Some(ENODEV)
    case PacketTooBig => Some(EMSGSIZE)
    case DeviceInUse => Some(EBUSY)
    case _ => None
  }

  /** Every repeated label returns what its first occurrence returns, so first match is well defined. */
  lemma RepeatedLabelsAgree(error: DosError)
    ensures RepeatedLabel(error).Some? ==> RepeatedLabel(error).value == IoErrno(error)
  {
  }

  /** The errno is 0 exactly when IoErr() reported no error, and an unlisted code is a generic I/O error. */
  lemma IoErrnoZero(error: DosError)
    ensures IoErrno(error) == NoErrno <==> error == NoError
    ensures error == Unlisted ==> IoErrno(error) == EIO
  {
  }

  // ---------------------------------------------------------------- open flags

  /** newlib's O_* bits. */
  const O_WRONLY: bv32 := 0x0001
  const O_RDWR: bv32 := 0x0002
  const O_CREAT: bv32 := 0x0200
  const O_TRUNC: bv32 := 0x0400
  const O_EXCL: bv32 := 0x0800

  /** The AmigaDOS access modes of Open(). */
  const MODE_OLDFILE: int := 1005
  const MODE_NEWFILE: int := 1006
  const MODE_READWRITE: int := 1004

  predicate Has(flags: bv32, bit: bv32)
  {
    flags & bit != 0
  }

  /** amigaos4_oflags: mode, the permission bits, plays no part. */
  function OFlags(flags: bv32, mode: int): int
  {
    var access :=
      if Has(flags, O_RDWR) then MODE_READWRITE
      else if Has(flags, O_WRONLY) then MODE_NEWFILE
      else MODE_OLDFILE;
    var created :=
      if Has(flags, O_CREAT) then (if Has(flags, O_EXCL) then MODE_NEWFILE else MODE_READWRITE)
      else access;
    if Has(flags, O_TRUNC) then MODE_NEWFILE else created
  }

  /**
   * The AmigaDOS mode open() asks for, stated rule by rule: truncation
   * first, then creation, then the access mode.
   */
  lemma OFlagsRules(flags: bv32, mode: int)
    ensures OFlags(flags, mode) in {MODE_OLDFILE, MODE_NEWFILE, MODE_READWRITE}
    ensures Has(flags, O_TRUNC) ==> OFlags(flags, mode) == MODE_NEWFILE
    ensures !Has(flags, O_TRUNC) && Has(flags, O_CREAT) ==>
      OFlags(flags, mode) == (if Has(flags, O_EXCL) then MODE_NEWFILE else MODE_READWRITE)
    ensures !Has(flags, O_TRUNC) && !Has(flags, O_CREAT) ==>
      OFlags(flags, mode) ==
        (if Has(flags, O_RDWR) then MODE_READWRITE
         else if Has(flags, O_WRONLY) then MODE_NEWFILE
         else MODE_OLDFILE)
  {
  }

  /** The permission bits do not change the mode. */
  lemma OFlagsIgnoresMode(flags: bv32, mode1: int, mode2: int)
    ensures OFlags(flags, mode1) == OFlags(flags, mode2)
  {
  }

  /** Common open() calls: read-only, create-or-truncate, create, exclusive create. */
  lemma OFlagsExamples()
    ensures OFlags(0, 0) == MODE_OLDFILE
    ensures OFlags(O_WRONLY | O_CREAT | O_TRUNC, 0x1a4) == MODE_NEWFILE
    ensures OFlags(O_RDWR | O_CREAT, 0) == MODE_READWRITE
    ensures OFlags(O_WRONLY | O_CREAT | O_EXCL, 0) == MODE_NEWFILE
  {
  }
}
