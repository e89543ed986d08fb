/**
 * QuickUpdate.c: the file classifiers (which files may be installed and
 * where they go), the yes/no prompt, the two update decisions (the
 * command-line one and the window one) and the boolean result of
 * CalculateChecksum. The version comparison and the version-string parser
 * are the same code as in Shared.c and are taken from module Shared.
 */
module QuickUpdate {
  import opened CStrings
  import opened Shared

  // ---------------------------------------------------------------- file types

  /** The extensions IsValidFileType accepts, compared ignoring case. */
  const Extensions: seq<string> := ["library", "device", "datatype"] + Homeless

  /** The accepted extensions that GetDestPath has no directory for. */
  const Homeless: seq<string> := ["class", "gadget", "resource", "mcc", "mcp"]

  /** stricmp(ext, e) == 0 for one of them; they are lower case, so folding ext suffices. */
  predicate KnownExtension(ext: string)
  {
    Lower(ext) in Extensions
  }

  /**
   * The text IsValidFileType compares: everything after the FIRST '.' of the
   * file part (the source's comment speaks of the last dot; the walk stops
   * at the first).
   */
  predicate ValidFileType(filename: string)
  {
    var name := FilePart(filename);
    match IndexOf(name, '.')
    case None => false
    case Some(k) => KnownExtension(name[k + 1..])
  }

  /** IsValidFileType: walks the file part up to its first '.' and compares the rest. */
  method IsValidFileType(filename: CString) returns (valid: bool)
    ensures valid <==> ValidFileType(filename)
  {
    var name := FilePart(filename);
    var i := 0;
    while i < |name| && name[i] != '.'
      invariant 0 <= i <= |name|
      invariant '.' !in name[..i]
    {
      i := i + 1;
    }
    if i < |name| {
      IndexOfFirst(name, '.', i);
      valid := KnownExtension(name[i + 1..]);
    } else {
      assert name[..i] == name;
      valid := false;
    }
  }

  /**
   * For a plain file name: the part after its first dot decides, so a second
   * dot leaves a text that is never one of the extensions.
   */
  lemma ValidFileTypeFirstDot(name: string, k: nat)
    requires k < |name| && name[k] == '.' && '.' !in name[..k]
    requires '/' !in name && ':' !in name
    ensures ValidFileType(name) <==> KnownExtension(name[k + 1..])
  {
    assert FilePart(name) == name;
    IndexOfFirst(name, '.', k);
    assert IndexOf(FilePart(name), '.') == Some(k);
    assert FilePart(name)[k + 1..] == name[k + 1..];
  }

  /** None of the accepted extensions holds a dot. */
  lemma KnownExtensionHasNoDot(ext: string)
    requires KnownExtension(ext)
    ensures '.' !in ext
  {
    assert forall e | e in Extensions :: '.' !in e;
    forall j | 0 <= j < |ext|
      ensures ext[j] != '.'
    {
      LowerAt(ext, j);
    }
  }

  /** A plain file name with two dots is refused: the first dot leaves a text holding the second. */
  lemma TwoDotsRefused(name: string, k: nat)
    requires k < |name| && name[k] == '.' && '.' !in name[..k] && '.' in name[k + 1..]
    requires '/' !in name && ':' !in name
    ensures !ValidFileType(name)
  {
    ValidFileTypeFirstDot(name, k);
    if KnownExtension(name[k + 1..]) {
      KnownExtensionHasNoDot(name[k + 1..]);
    }
  }

  // ---------------------------------------------------------------- destinations

  /**
   * dos.library AddPart(dir, file, size) for a file name holding no '/' or
   * ':': joins with a '/' unless dir is empty or ends in ':' or '/'; when the
   * result would not fit in size bytes the buffer keeps dir.
   */
  function AddPart(dir: string, file: string, size: nat): (r: string)
    ensures |r| < size || r == dir
    ensures |dir| > 0 && dir[|dir| - 1] in ":/" && |dir| + |file| < size ==> r == dir + file
  {
    var joined := if |dir| == 0 || dir[|dir| - 1] == ':' || dir[|dir| - 1] == '/' then dir + file else dir + "/" + file;
    if |joined| < size then joined else dir
  }

  /** The text from the last '.' of the file part equals ext, ignoring case. */
  predicate LastDotText(filename: string, ext: string)
  {
    var name := FilePart(filename);
    match LastIndexOf(name, '.')
    case None => false
    case Some(k) => EqualsIgnoreCase(name[k..], ext)
  }

  /** The file part's last extension is ".library", in any case. */
  predicate LibrarySuffix(filename: string)
  {
    LastDotText(filename, ".library")
  }

  /** For a plain file name: the text from its last dot decides. */
  lemma LastDotTextAt(name: string, k: nat, ext: string)
    requires k < |name| && name[k] == '.' && '.' !in name[k + 1..]
    requires '/' !in name && ':' !in name
    ensures LastDotText(name, ext) <==> EqualsIgnoreCase(name[k..], ext)
  {
    assert FilePart(name) == name;
    LastIndexOfLast(name, '.', k);
  }

  /** For a plain file name: the text from its last dot decides whether it is a library. */
  lemma LibrarySuffixLastDot(name: string, k: nat)
    requires k < |name| && name[k] == '.' && '.' !in name[k + 1..]
    requires '/' !in name && ':' !in name
    ensures LibrarySuffix(name) <==> EqualsIgnoreCase(name[k..], ".library")
  {
    LastDotTextAt(name, k, ".library");
  }

  /** The directory GetDestPath picks, or None when it returns NULL. */
  function DestDirectory(filename: string): (dir: Option<string>)
    ensures dir.Some? <==> LibrarySuffix(filename) || Contains(filename, ".device") || Contains(filename, ".datatype")
    ensures LibrarySuffix(filename) ==> dir == Some("LIBS:")
    ensures !LibrarySuffix(filename) && Contains(filename, ".device") ==> dir == Some("DEVS:")
  {
    if LibrarySuffix(filename) then Some("LIBS:")
    else if Contains(filename, ".device") then Some("DEVS:")
    else if Contains(filename, ".datatype") then Some("SYS:Classes/DataTypes/")
    else None
  }

  /** GetDestPath: the chosen directory with the file part added, in a 256-byte buffer. */
  function GetDestPath(filename: string): (dest: Option<string>)
    ensures dest.Some? <==> DestDirectory(filename).Some?
    ensures dest.Some? ==> |dest.value| < 256
    ensures dest.Some? && |DestDirectory(filename).value| + |FilePart(filename)| < 256 ==>
      dest.value == DestDirectory(filename).value + FilePart(filename)
  {
    match DestDirectory(filename)
    case None => None
    case Some(dir) =>
      var d := dir;
      assert d[|d| - 1] in ":/";
      Some(AddPart(d, FilePart(filename), 256))
  }

  /** IsLibrary: the file part names a library or a device, matched case-sensitively. */
  predicate IsLibrary(filename: string)
  {
    Contains(FilePart(filename), ".library") || Contains(FilePart(filename), ".device")
  }

  /** A file part whose last dot starts ".library", in any case, goes to LIBS:. */
  lemma LibraryGoesToLibs(filename: string)
    requires LastIndexOf(FilePart(filename), '.').Some?
    requires EqualsIgnoreCase(FilePart(filename)[LastIndexOf(FilePart(filename), '.').value..], ".library")
    requires |FilePart(filename)| < 251
    ensures GetDestPath(filename) == Some("LIBS:" + FilePart(filename))
  {
    assert LibrarySuffix(filename);
  }

  /** A file part ending in ".library", spelt in lower case, is a library for IsLibrary. */
  lemma LowerCaseLibraryIsLibrary(filename: string, k: nat)
    requires k <= |FilePart(filename)| && FilePart(filename)[k..] == ".library"
    ensures IsLibrary(filename)
  {
    ContainsSuffix(FilePart(filename), k);
  }

  /** A device named in the file part always has a destination. */
  lemma DeviceHasDestination(filename: string)
    requires Contains(FilePart(filename), ".device")
    ensures IsLibrary(filename) && GetDestPath(filename).Some?
  {
    ContainsInSuffix(filename, FilePartStart(filename), ".device");
  }

  /** ".device" is searched in the whole path, so a directory name is enough. */
  lemma DeviceDirectoryMatches(path: string)
    requires path == "d.device/x"
    ensures GetDestPath(path) == Some("DEVS:x")
    ensures !IsLibrary(path)
  {
    assert FilePart(path) == "x" by {
      assert path[..9] == "d.device/";
    }
    MissingCharacter("x", ".library", 0);
    MissingCharacter("x", ".device", 0);
    assert LastIndexOf("x", '.') == None;
    assert !LibrarySuffix(path);
    ContainsAt(path, ".device", 1);
    assert DestDirectory(path) == Some("DEVS:");
    assert "DEVS:" + "x" == "DEVS:x";
  }

  /**
   * IsLibrary matches case-sensitively: a file part with no lower-case 'l'
   * and no 'v' ("MUI.LIBRARY") is no library, though it goes to LIBS:.
   */
  lemma IsLibraryIsCaseSensitive(filename: string)
    requires 'l' !in FilePart(filename) && 'v' !in FilePart(filename)
    ensures !IsLibrary(filename)
  {
    var name := FilePart(filename);
    var library, device := ".library", ".device";
    assert library[1] == 'l' && device[3] == 'v';
    MissingCharacter(name, library, 1);
    MissingCharacter(name, device, 3);
  }

  /**
   * A plain file name with one dot and one of the extensions above is
   * accepted, yet GetDestPath gives NULL for it unless ".device" or
   * ".datatype" occurs in it.
   */
  lemma AcceptedWithoutDestination(name: string, k: nat)
    requires k < |name| && name[k] == '.' && '.' !in name[..k] && '.' !in name[k + 1..]
    requires '/' !in name && ':' !in name
    requires Lower(name[k + 1..]) in Homeless
    requires !Contains(name, ".device") && !Contains(name, ".datatype")
    ensures ValidFileType(name)
    ensures GetDestPath(name) == None
  {
    ValidFileTypeFirstDot(name, k);
    HomelessIsNoLibrary(name, k);
  }

  lemma HomelessIsNoLibrary(name: string, k: nat)
    requires k < |name| && name[k] == '.' && '.' !in name[k + 1..]
    requires '/' !in name && ':' !in name
    requires Lower(name[k + 1..]) in Homeless
    ensures !LibrarySuffix(name)
  {
    LibrarySuffixLastDot(name, k);
    assert name[k..][1..] == name[k + 1..];
    NotLibraryText(name[k..]);
  }

  lemma NotLibraryText(text: string)
    requires |text| > 0 && Lower(text[1..]) in Homeless
    ensures !EqualsIgnoreCase(text, ".library")
  {
    assert "library" !in Homeless;
    assert Lower(".library")[1..] == "library";
  }

  // ---------------------------------------------------------------- the prompt

  /** The console input of the program, as the characters not yet read. */
  class Console {
    var pending: string

    constructor(input: string)
      ensures pending == input
    {
      pending := input;
    }

    /**
     * GetUserResponse: reads one character and, when there was one, one more
     * (the newline); the answer is yes iff the first character is 'y' or 'Y'.
     */
    method GetUserResponse() returns (yes: bool)
      modifies this
      ensures yes <==> |old(pending)| >= 1 && old(pending)[0] in "yY"
      ensures pending == old(pending)[if |old(pending)| >= 2 then 2 else |old(pending)|..]
    {
      if |pending| >= 1 {
        var c := pending[0];
        pending := pending[1..];
        if |pending| >= 1 {
          pending := pending[1..];
        }
        yes := c == 'y' || c == 'Y';
      } else {
        yes := false;
      }
    }
  }

  // ---------------------------------------------------------------- decisions

  /** The command-line test for a newer file: version, then revision; the date is not looked at. */
  predicate CliOffersUpdate(current: VersionInfo, candidate: VersionInfo)
  {
    candidate.version > current.version ||
    (candidate.version == current.version && candidate.revision > current.revision)
  }

  /** The command-line offer is CompareVersions' "newer" with the date left out. */
  lemma CliOfferIsNewerIgnoringDate(current: VersionInfo, candidate: VersionInfo)
    ensures CliOffersUpdate(current, candidate) <==>
      CompareVersions(current, candidate) == 1 && (candidate.version, candidate.revision) != (current.version, current.revision)
  {
  }

  /** What HandleCLI does: whether it calls InstallFile and what it returns. */
  datatype CliResult = CliResult(installs: bool, success: bool)

  /**
   * HandleCLI once its arguments are read. newInfo is what CheckFileVersion
   * reads (None: it failed), current what GetInstalledVersion finds (None: not
   * found, which the source reports as a database error), answer what the
   * prompt reads and installed whether InstallFile succeeds.
   */
  function HandleCli(hasFile: bool, newInfo: Option<VersionInfo>, current: Option<VersionInfo>,
                     noninteractive: bool, answer: bool, installed: bool): (r: CliResult)
    ensures r.installs <==> (hasFile && newInfo.Some? && current.Some? &&
      CliOffersUpdate(current.value, newInfo.value) && !noninteractive && answer)
    ensures r.success ==> hasFile && newInfo.Some? && current.Some?
    ensures r.installs ==> (r.success <==> installed)
    ensures !r.installs && hasFile && newInfo.Some? && current.Some? ==>
      (r.success <==> noninteractive || !CliOffersUpdate(current.value, newInfo.value))
  {
    if !hasFile || newInfo.None? || current.None? then CliResult(false, false)
    else if CliOffersUpdate(current.value, newInfo.value) then
      if noninteractive then CliResult(false, true)
      else if answer then CliResult(true, installed)
      else CliResult(false, false)
    else CliResult(false, true)
  }

  /**
   * ProcessFile: whether it calls InstallFile. force is the FORCE switch,
   * answer the prompt's reply and requester the button chosen in the
   * "Install New File" requester (1 is Install).
   */
  function ProcessFileInstalls(newInfo: Option<VersionInfo>, current: Option<VersionInfo>,
                               force: bool, answer: bool, requester: int): (install: bool)
    ensures install ==> newInfo.Some?
    ensures newInfo.Some? && current.Some? && install ==>
      CompareVersions(current.value, newInfo.value) == 1 || force
    ensures newInfo.Some? && current.Some? && CompareVersions(current.value, newInfo.value) == 0 ==> !install
    ensures newInfo.Some? && current.Some? && CompareVersions(current.value, newInfo.value) == 1 ==>
      (install <==> force || answer)
    ensures newInfo.Some? && current.None? ==> (install <==> requester == 1)
  {
    if newInfo.None? then false
    else if current.Some? then
      var cmp := CompareVersions(current.value, newInfo.value);
      if cmp > 0 then force || answer
      else if cmp < 0 then force
      else false
    else requester == 1
  }

  /** The window path installs a file that differs only in its date; the command line does not. */
  lemma DecisionsDisagreeOnDate()
    ensures var installed := VersionInfo(40, 2, 100, "");
            var candidate := VersionInfo(40, 2, 200, "");
            ProcessFileInstalls(Some(candidate), Some(installed), false, true, 0) &&
            !HandleCli(true, Some(candidate), Some(installed), false, true, true).installs
  {
  }

  // ---------------------------------------------------------------- checksum

  /**
   * QuickUpdate's CalculateChecksum: it computes the CRC and throws it away,
   * answering only whether the file could be opened.
   */
  method CalculateChecksum(crc: Crc32Table, file: Option<seq<byte>>) returns (readable: bool)
    requires crc.Valid()
    modifies crc, crc.table
    ensures crc.Valid() && crc.initialized
    ensures readable <==> file.Some?
  {
    var discarded := crc.CalculateChecksum(file);
    readable := file.Some?;
  }

  /** VerifyChecksum and GetInstalledVersion as written: the stored checksum is compared with CalculateChecksum's BOOL. */
  predicate StoredChecksumMatchesAsWritten(stored: bv32, file: Option<seq<byte>>)
  {
    stored == if file.Some? then 1 else 0
  }

  /** A file whose entry holds its true CRC-32 is rejected by the comparison as written. */
  lemma TrueChecksumRejected()
    ensures !StoredChecksumMatchesAsWritten(Crc32(CheckInput), Some(CheckInput))
    ensures StoredChecksumMatchesAsWritten(1, Some(CheckInput))
  {
    CheckValue();
  }

  /** The comparison VerifyChecksum means: the stored value is the file's CRC-32. */
  predicate StoredChecksumMatches(stored: bv32, file: Option<seq<byte>>)
  {
    file.Some? && stored == Crc32(file.value)
  }

  /** The intended comparison accepts the true checksum and nothing else. */
  lemma TrueChecksumAccepted(data: seq<byte>, stored: bv32)
    ensures StoredChecksumMatches(stored, Some(data)) <==> stored == Crc32(data)
    ensures !StoredChecksumMatches(stored, None)
    ensures StoredChecksumMatches(0xCBF4_3926, Some(CheckInput))
  {
    CheckValue();
  }
}
