# Amiga update tools and the AmigaOS 4 newlib port, in Dafny

This project models the logic of a small set of AmigaOS tools and of the
system-call layer of the AmigaOS 4 newlib port. It then proves what the code
promises about each part.

- **natty.c**, a risk scanner for AmigaDOS HUNK executables. It has four parts:
  - a parser for `.fd` library descriptor lines and the hash table of library
    vector offsets it fills (`NattySymbols`);
  - thirteen pattern detectors and `scan_segment`, which walks a code block
    and adds findings to a report (`NattyScan`);
  - the big-endian HUNK container reader and `score_program`'s block loop
    (`NattyHunk`);
  - the verdict thresholds of the report and of the summary line.
- **Shared.c** (`Shared`):
  - the table-driven CRC-32 of IEEE 802.3 (section 3.2.9, frame check
    sequence, reflected polynomial 0xEDB88320);
  - the version-string state machine and the version ordering;
  - the database-line check.

  QuickUpdate.c repeats CompareVersions (QuickUpdate.c:758-773) and
  ParseVersionString (QuickUpdate.c:775-847), and CreateDB.c repeats
  LoadDatabaseEntry (CreateDB.c:325-346). The copies are the same code as
  Shared.c's, except that QuickUpdate.c's ParseVersionString does not
  initialise its DateTime before StrToDate. The members `Shared.CompareVersions`
  (with `Shared.CompareIsRankOrder`), `Shared.ParseVersionString` and
  `Shared.LoadDatabaseEntry` model both copies.
- **QuickUpdate.c** (`QuickUpdate`):
  - the file-type and destination classifiers;
  - the install decisions of the command line and of the window path;
  - the yes/no prompt;
  - the checksum routine that reports only whether the file opened.
- **CreateDB.c** (`CreateDB`):
  - the append-only entry table with its cap of 1000 entries;
  - the rotate-and-XOR checksum;
  - the reader and writer formats of the pipe-separated database, and a
    save/load round trip.
- **pathconv.c** (`PathConv`): the Unix to AmigaDOS path translation in both
  directions, and the in-place separator normalisation.
- **syscalls.c** (`Syscalls`):
  - the first-fit descriptor table, updated in place;
  - the descriptor checks of open, close, read, write and lseek;
  - the whence mapping;
  - the DateStamp to Epoch-seconds arithmetic, measured against the formula
    of POSIX.1-2017 XBD section 4.16;
  - the calls that fail with ENOSYS.
- **amiga_err.h** (`AmigaErr`): the mapping from IoErr codes to errno, and the
  mapping from POSIX `open()` flags to AmigaDOS access modes.

`CStrings` holds the character and string helpers that the sources take from
the C library and from dos.library: `Strlcpy`, `Strlcat`, `FilePart`,
case-insensitive comparison, and decimal and hexadecimal text.

Operating-system calls become parameters: file contents as byte or line
sequences, `IoErr()` as a `DosError`, and the results of `Open`, `Close`,
`Read` and `Seek` as `Option` values. State that the C code updates in place
becomes Dafny classes: the symbol table, the report, the HUNK file cursor, the
CRC table, the entry table, the descriptor table and the console input.

Where the code and its comments disagree, the model follows the code. Three
places where this matters:
- `IsValidFileType` takes the text after the first dot, although its comment
  speaks of the last one.
- The Unix prefixes keep their trailing slash: "/ram/x" becomes "RAM:/x".
- The revision is read only after a second `.` (see `Shared.VersionDotRevision`).

## Model

| member | source | states |
|---|---|---|
| NattySymbols.HashLong | natty.c:164 | the bucket of any offset, cast to UWORD, is below 257 |
| NattySymbols.ChainFindIsLatest | natty.c:166-185 | walking the chain of an offset's bucket finds the name most recently inserted under that offset |
| NattySymbols.LatestIsInserted | natty.c:177-185 | an offset resolves exactly when some insertion used it |
| NattySymbols.NonNegativeNeverResolves | natty.c:177-185 | when every key is at most -1, a non-negative displacement never resolves |
| NattySymbols.SymbolTable.constructor | natty.c:139 | the table starts with every bucket empty and no insertions |
| NattySymbols.SymbolTable.Insert | natty.c:166-175 | insert_fd prepends the entry, with its name cut to 31 characters, to the chain of its bucket; no other bucket changes |
| NattySymbols.SymbolTable.Lookup | natty.c:177-185 | lookup_fd returns the most recent name inserted under the offset, or none |
| NattySymbols.SymbolTable.LoadFdLine | natty.c:272-276 | one descriptor line adds the entry (-K, name) when it parses, and nothing otherwise |
| NattySymbols.SymbolTable.LoadFdLines | natty.c:272-276 | a descriptor file adds its declarations in line order |
| NattySymbols.SkipSpaces | natty.c:194-195 | the index returned is the first non-space character at or after i |
| NattySymbols.TokenEnd | natty.c:202-206 | the name token has at most 31 non-space characters and ends at white space unless it is cut |
| NattySymbols.ParseFdLine | natty.c:188-225 | the cursor walk of parse_fd_line yields exactly the declaration FdLineSpec describes |
| NattySymbols.SkipSpacesFrom | natty.c:194 | the whitespace loop stops at the first non-space character from the cursor, or at the end |
| NattySymbols.ScanName | natty.c:200-206 | the name loop stops at the first space or the end, after at most 31 characters |
| NattySymbols.Atoi | natty.c:221-223 | atoi at a digit gives the value of the digit run |
| NattySymbols.FdLineName | natty.c:202-206 | a declared name is a non-empty C string of at most 31 characters |
| NattySymbols.FdLineShape | natty.c:194-224 | every accepted line declares a name of non-space characters and a K of at least 1 |
| NattySymbols.CommentLineDeclaresNothing | natty.c:196-197 | a line whose first non-space character is `;` declares nothing |
| NattySymbols.SkipSpacesOver | natty.c:194-195 | the whitespace skip stops at the first non-space character |
| NattySymbols.NoDigitDeclaresNothing | natty.c:219-224 | a line without any digit declares nothing |
| NattySymbols.DeclaredKeysNegative | natty.c:272-276 | every key a run of descriptor lines inserts is at most -1, with a name of 1 to 31 characters |
| NattySymbols.DeclaredSnoc | natty.c:270-275 | reading one more descriptor line adds exactly that line's insertions after the earlier ones |
| NattySymbols.LoadedTableIgnoresNonNegative | natty.c:272-276 | after loading any descriptor lines, a non-negative displacement does not resolve |
| NattySymbols.FdLineRoundTrip | natty.c:188-225 | a line written as indentation, a name, white space, an optional `-` and K parses back to that name and K, with or without the minus |
| NattySymbols.TokenEndOver | natty.c:202-206 | a name token shorter than the cap ends at the white space after it |
| NattySymbols.DigitRunWhole | natty.c:221-223 | a digit run that reaches the end of the line is read whole |
| NattySymbols.DigitRunToEnd | natty.c:221-223 | the length of such a digit run is the rest of the line |
| NattySymbols.LongTokenSpillsIntoNumber | natty.c:202-206 | a 31-character name followed directly by "7" declares K = 7, because the rest of a long token is not skipped |
| NattySymbols.TokenEndCap | natty.c:202-206 | a token of at least 31 non-space characters is cut at 31 |
| NattySymbols.FdFileNameExamples | natty.c:259-260 | the `.fd` test accepts "exec_lib.FD" and rejects "fd" and "exec_lib.fdx" |
| NattyScan.WeightNamesDistinct | natty.c:142-161 | no two Weights[] entries share a name |
| NattyScan.OpWord | natty.c:553 | the opcode word is an unsigned 16-bit value |
| NattyScan.Disp | natty.c:559 | the displacement is a signed 16-bit value |
| NattyScan.LibraryOpcodes | natty.c:557-574 | the masked JSR/JMP tests accept exactly the words 0x4E96 and 0x4EBE |
| NattyScan.MaskArithmetic | natty.c:557-574 | the arithmetic register-field split agrees with the bitwise masks on 16-bit words |
| NattyScan.Imm | natty.c:312 | the immediate of a MOVE.L #imm is an unsigned 32-bit value |
| NattyScan.DetectIn | natty.c:591-676 | a detector reported for a position belongs to the chain and matches there |
| NattyScan.DetectInFirst | natty.c:591-676 | a detector is reported when it matches and no earlier detector of the chain does |
| NattyScan.DetectInIsFirst | natty.c:591-676 | whatever is reported is the first matching detector; when nothing is reported, no detector matches |
| NattyScan.ScanFromStep | natty.c:551-679 | the scan from i is the findings at i followed by the scan from i plus the stride |
| NattyScan.ScanInvariantStep | natty.c:551-679 | the scan loop's invariant holds again after one more position |
| NattyScan.Reversed | natty.c:485-486 | reversal keeps the length of the findings list |
| NattyScan.WeightHitsShape | natty.c:563-568 | every weight finding has the call's kind, name and offset and its entry's weight |
| NattyScan.WeightHitsAtMostOne | natty.c:563-568 | with distinct table names, a name yields at most one weight finding, and one exactly when the table lists it |
| NattyScan.LibraryStep | natty.c:557-588 | a library call or jump yields a finding exactly when the displacement resolves to a name in Weights[], with that weight and the segment's base offset; the cursor moves 4 either way |
| NattyScan.StepShape | natty.c:551-679 | every position moves the cursor forward by 2, 4 or 6, and its findings carry the base offset |
| NattyScan.AtMostOneFindingPerPosition | natty.c:551-679 | with a table of distinct names, every position yields at most one finding |
| NattyScan.PatternStride | natty.c:590-679 | the stride per detector: 6 for ExecBase, Chip RAM, ROM, vector, TCB, list, interrupt and self-modifying, and 2 for trap, VBR, stack and no match |
| NattyScan.ImmediateAlwaysFinds | natty.c:591-676 | any MOVE.L #imm with its full immediate in the buffer yields exactly one finding |
| NattyScan.IndexedLoadAlwaysFinds | natty.c:591-676 | the words 0x2068 to 0x206A always yield exactly one finding |
| NattyScan.InterruptOnlyAfterRte | natty.c:388-403 | the interrupt detector only ever reports an RTS directly after an RTE |
| NattyScan.InterruptRegistersAreChipRam | natty.c:308-316 | the immediates 0xDFF09A and 0xDFF09C are reported as Chip RAM access, so the INTENA/INTREQ branch never fires |
| NattyScan.RteIsVbr | natty.c:405-417 | the word 0x4E73 is always reported as VBR manipulation and never as stack manipulation |
| NattyScan.SeveritiesAppend | natty.c:565 | the severity sum of two lists of findings is the sum of their severity sums |
| NattyScan.ReversedAppend | natty.c:485-486 | reversing a concatenation reverses the order of its parts |
| NattyScan.ReversedPrepend | natty.c:485-486 | prepending the findings of one more position keeps the list newest first |
| NattyScan.ScanOffsetsAreBase | natty.c:554 | every finding of a segment carries the segment's base offset |
| NattyScan.ScanLength | natty.c:551-679 | a scan records at most one finding per two bytes of segment |
| NattyScan.SetFunctionCallExample | natty.c:557-571 | the bytes 4E 96 FF E2 call offset -30 and, with SetFunction under -30, yield one finding of weight 40 |
| NattyScan.WeightHitsOnlyFirst | natty.c:563-568 | a name listed once, in the first entry, yields that single weight finding |
| NattyScan.Report.constructor | natty.c:689-692 | a new report has the file name, no findings, a count of 0 and a score of 0 |
| NattyScan.Report.AddFinding | natty.c:474-489 | add_finding prepends the finding and increments the count, leaving the score alone |
| NattyScan.Report.Clear | natty.c:491-501 | free_report empties the list and zeroes the count |
| NattyScan.AddWeightHits | natty.c:563-568 | the Weights[] loop prepends the weight findings for a name, newest first, and adds their severities to the risk |
| NattyScan.AddWeightHit | natty.c:564-567 | one Weights[] entry adds its finding and weight exactly when its name matches, keeping the loop invariant |
| NattyScan.LibraryPosition | natty.c:559-569 | a JSR or JMP through A6 records the weight findings of the name the displacement resolves to, and nothing for an unknown offset |
| NattyScan.ScanPosition | natty.c:553-679 | one pass of the loop body records exactly StepAt's findings and severities and returns its stride |
| NattyScan.DetectorPosition | natty.c:589-679 | the first detector that matches records one finding with its severity and fixed stride; with none, nothing is recorded and the stride is 2 |
| NattyScan.ScanTurn | natty.c:553-679 | one pass of the loop moves the cursor forward and keeps the report equal to the findings ScanFrom lists before the cursor |
| NattyScan.ScanSegment | natty.c:542-681 | scan_segment prepends every finding ScanFrom lists, newest first, counts them and adds their severities to the risk |
| NattyScan.VerdictOf | natty.c:528-537 | the verdict is Likely Safe for scores up to 20, Needs Review up to 50 and Probably Breaks above 50 |
| NattyScan.Upper | natty.c:529 | upper-casing keeps the length of a text |
| NattyScan.ReportAndSummaryAgree | natty.c:766-772 | the report's status line and the summary line give the same verdict for every score |
| NattyHunk.Long | natty.c:296 | a value taken as a LONG is the 32-bit two's complement reading, unchanged inside the LONG range |
| NattyHunk.BeU32 | natty.c:296 | four big-endian bytes give an unsigned 32-bit value |
| NattyHunk.BeBytes | natty.c:296 | a 32-bit value has four big-endian bytes |
| NattyHunk.ReadLongAt | natty.c:292-297 | read_be_long gives the LONG of the next four bytes and moves past them; a short read gives -1 and leaves the cursor at the end of the file |
| NattyHunk.SeekAt | natty.c:703 | a relative seek moves by the delta, and a target before the start of the file leaves the cursor where it was |
| NattyHunk.ReadEnd | natty.c:721 | fread moves the cursor by n bytes, or to the end of the file |
| NattyHunk.CodeBytes | natty.c:715-721 | the scanned buffer holds the file's bytes after the cursor, and zero where the file ends |
| NattyHunk.HunkFile.constructor | natty.c:686 | a freshly opened file is read from position 0 |
| NattyHunk.HunkFile.ReadBeLong | natty.c:292-297 | the method returns ReadLongAt's value and moves the cursor to ReadLongAt's position |
| NattyHunk.HunkFile.SeekCur | natty.c:703 | the cursor moves as SeekAt says |
| NattyHunk.HunkFile.ReadBlock | natty.c:715-721 | a fresh buffer holds CodeBytes, and the cursor ends where fread leaves it |
| NattyHunk.HunkFile.NextTurn | natty.c:710-735 | one turn of the block loop reads the block NextBlock describes, fills the code buffer and moves to the next block |
| NattyHunk.NextBlock | natty.c:708-736 | every block that is scanned or skipped moves the cursor forward by at least 8 bytes |
| NattyHunk.ReadLongRoundTrip | natty.c:292-297 | read_be_long reads back the four big-endian bytes of a LONG |
| NattyHunk.NotHunkExactly | natty.c:694-699 | a file is rejected as not HUNK exactly when its first LONG is not 0x3F3, and then it gets no summary line |
| NattyHunk.HeaderSkip | natty.c:702-703 | after the header the cursor is (tab_len + 1) * 4 bytes past the table length |
| NattyHunk.SkipBlock | natty.c:730-735 | a block of another type with a non-negative size is skipped whole |
| NattyHunk.CodeBlock | natty.c:712-723 | a 0x3E9 block of n LONGs hands exactly its n * 4 following bytes to the scanner |
| NattyHunk.WalkOffsets | natty.c:706-723 | the first code block is scanned at offset 0 and each later one at the previous base plus the previous size, as a ULONG |
| NattyHunk.ChainedCons | natty.c:723 | a segment that ends where the next begins extends a chained walk |
| NattyHunk.SeveritiesReversed | natty.c:485-486 | the newest-first list has the same severity sum as the order found |
| NattyHunk.InReversed | natty.c:485-486 | the newest-first list holds the same findings |
| NattyHunk.ScoreIsSumOfFindings | natty.c:738 | the score is the sum of the severities of the findings the report lists |
| NattyHunk.FindingsAtSegmentBases | natty.c:554 | every recorded finding carries the base offset of its segment |
| NattyHunk.SummaryOnlyWhenScored | natty.c:764-774 | only a scored file gets a summary line, and its verdict is the report's |
| NattyHunk.AsWrittenLoopsForever | natty.c:730-735 | a truncated block size makes the loop as written seek back to the same block forever, while the corrected walk ends there |
| NattyHunk.WalkProgress | natty.c:708-736 | every turn of the corrected walk ends the walk or moves the cursor forward |
| NattyHunk.AsWrittenAgreesOtherwise | natty.c:730-735 | the walk as written and the corrected walk differ only on a block of another type whose size is negative |
| NattyHunk.WalkCodeStep | natty.c:712-724 | after a code block, the rest of the walk starts with that block's segment at the advanced offset |
| NattyHunk.WalkSkipStep | natty.c:730-735 | a skipped block adds no segment |
| NattyHunk.AllFindingsSnoc | natty.c:722 | the findings over one more segment are the earlier findings followed by that segment's |
| NattyHunk.FindingsStep | natty.c:722 | the report's list, count and risk after one more scanned segment |
| NattyHunk.ScanCodeBlock | natty.c:722-723 | scanning one code block extends the report and the risk to one more segment of the walk |
| NattyHunk.ScanBlocks | natty.c:708-736 | the block loop leaves in the report exactly the findings of the walk's segments, newest first, with their severity sum as the risk |
| NattyHunk.ScanCodeTurn | natty.c:712-725 | a code hunk adds its segment's findings and severities to the report and the walk continues after it at the advanced offset |
| NattyHunk.ScoreProgram | natty.c:684-745 | score_program returns -1 with an empty report for a file that is not HUNK or an aborted walk, otherwise 0, with the score and the report of Score |
| Shared.TableIndex | Shared.c:48 | the table index of a byte is below 256 |
| Shared.UpdateAppend | Shared.c:45-50 | feeding the bytes in two reads gives the same register as feeding them at once |
| Shared.TableCorners | Shared.c:16-28 | table[0] is 0 and table[128] is the polynomial 0xEDB88320 |
| Shared.EmptyChecksum | Shared.c:34-53 | an empty file has CRC 0 |
| Shared.CheckPart1 | Shared.c:45-50 | the register after "123" |
| Shared.CheckPart2 | Shared.c:45-50 | the register after "456", from the register after "123" |
| Shared.CheckPart3 | Shared.c:45-50 | the register after "789", from the register after "456" |
| Shared.CheckValue | Shared.c:34-53 | "123456789" gives the IEEE 802.3 check value 0xCBF43926 |
| Shared.Crc32Table.constructor | Shared.c:8-9 | the table starts uninitialised |
| Shared.Crc32Table.Init | Shared.c:11-29 | every entry i is eight reflected shift/XOR steps from i, and the flag is set |
| Shared.Crc32Table.ComputeEntry | Shared.c:17-25 | the inner loop leaves in the register exactly eight reflected shift/XOR steps from the index |
| Shared.Crc32Table.FillEntry | Shared.c:16-26 | one pass of the outer loop fills entry i with its table value and keeps the entries before it |
| Shared.Crc32Table.UpdateBuffer | Shared.c:47-49 | the table-driven loop over a buffer computes the byte-by-byte register update |
| Shared.Crc32Table.CalculateChecksum | Shared.c:31-61 | the result is the CRC-32 of the file, and 0 for a file that cannot be opened |
| Shared.RankBounds | Shared.c:150-165 | the three fields read as one number lie inside the bounds their leading fields set |
| Shared.RankLess | Shared.c:150-165 | a lexicographically smaller triple has the smaller number |
| Shared.CompareIsRankOrder | Shared.c:150-165 | CompareVersions is the sign of the difference of the two numbers, so 1 means the second is newer |
| Shared.CompareProperties | Shared.c:150-165 | the result is one of 1, 0 and -1; it is 0 only for equal triples; swapping the arguments negates it |
| Shared.NextDigit | Shared.c:75-92 | the first digit at or after p, with none skipped |
| Shared.NextParen | Shared.c:105-116 | the first `(` at or after p, with none skipped |
| Shared.NumbersFrom | Shared.c:75-113 | the number loop stays inside the string, keeps the revision below 2^16 and sets the version only in state 0 |
| Shared.DateFrom | Shared.c:115-136 | the stored date is a ULONG, for the date the StrToDate parameter gives |
| Shared.DigitRunExact | Shared.c:83-87 | a digit run ends at the first non-digit |
| Shared.DecimalSnoc | Shared.c:83-87 | one more digit multiplies the value by 10 and adds the digit |
| Shared.ReadNumber | Shared.c:82-87 | the digit loop returns the value of the run and the index just past it |
| Shared.ReadDate | Shared.c:115-136 | the date is the StrToDate parameter applied to the text after the next `(`, the call as intended |
| Shared.ParseVersionString | Shared.c:63-148 | the result is true exactly when ParseVersion finds a version, and info is left as it was otherwise |
| Shared.NumbersTurn | Shared.c:78-112 | one pass of the scanning loop either ends it with the version and revision NumbersFrom finds, or moves forward without changing what the rest of the scan finds |
| Shared.VersionIsFirstRun | Shared.c:75-92 | the version is the first digit run mod 2^16, and a string without digits does not parse |
| Shared.ParsedFieldsFit | Shared.c:139-147 | every parsed field fits its UWORD or ULONG, and the origin is the caller's |
| Shared.DottedTriple | Shared.c:94-103 | "1.2.3" gives version 1 and revision 3 |
| Shared.VersionDotRevision | Shared.c:94-103 | "37.5 (...)" gives revision 0, because the run after the version is not followed by `.` |
| Shared.PackedDateNotChronological | Shared.c:132-134 | the packed date does not order by day first: minute 1439 of day 0 packs above day 1 |
| Shared.LoadDatabaseEntry | Shared.c:217-238 | a line is accepted exactly when it has at most 512 characters and exactly five `\|` |
| QuickUpdate.IsValidFileType | QuickUpdate.c:688-710 | the result is true exactly when the text after the first dot of the file part is one of the known extensions, ignoring case |
| QuickUpdate.ValidFileTypeFirstDot | QuickUpdate.c:690-697 | for a plain name, the text after its first dot decides |
| QuickUpdate.KnownExtensionHasNoDot | QuickUpdate.c:697-704 | no accepted extension contains a dot |
| QuickUpdate.TwoDotsRefused | QuickUpdate.c:688-710 | a plain name with two dots is refused |
| QuickUpdate.AddPart | QuickUpdate.c:433 | the result fits the buffer or is the directory unchanged, and a directory ending in `:` or `/` is joined directly |
| QuickUpdate.LibrarySuffixLastDot | QuickUpdate.c:422-424 | for a plain name, the text from its last dot decides the LIBS: case |
| QuickUpdate.LastDotTextAt | QuickUpdate.c:422-424 | for a plain name, comparing the text from the last dot is the same as comparing from its known position |
| QuickUpdate.DestDirectory | QuickUpdate.c:422-431 | LIBS: for a ".library" suffix in any case, else DEVS: when ".device" occurs, else SYS:Classes/DataTypes/ when ".datatype" occurs, else none |
| QuickUpdate.GetDestPath | QuickUpdate.c:416-435 | NULL exactly when no directory applies, otherwise the directory plus the file part, fitting in 256 bytes |
| QuickUpdate.LibraryGoesToLibs | QuickUpdate.c:422-425 | a file part whose last dot starts ".library", in any case, goes to LIBS: |
| QuickUpdate.LowerCaseLibraryIsLibrary | QuickUpdate.c:937-947 | a file part ending in lower-case ".library" is a library |
| QuickUpdate.DeviceHasDestination | QuickUpdate.c:426-427 | a file part containing ".device" is a library and has a destination |
| QuickUpdate.DeviceDirectoryMatches | QuickUpdate.c:426-427 | ".device" is searched in the whole path, so "d.device/x" goes to DEVS: and is no library |
| QuickUpdate.IsLibraryIsCaseSensitive | QuickUpdate.c:937-947 | a file part without a lower-case `l` and `v` is no library |
| QuickUpdate.AcceptedWithoutDestination | QuickUpdate.c:688-710 | a name accepted by IsValidFileType with an extension such as ".class" gets no destination |
| QuickUpdate.HomelessIsNoLibrary | QuickUpdate.c:422-424 | such a name is not sent to LIBS: |
| QuickUpdate.NotLibraryText | QuickUpdate.c:424 | the text of such an extension is not ".library" in any case |
| QuickUpdate.Console.constructor | QuickUpdate.c:406 | the console holds the pending input |
| QuickUpdate.Console.GetUserResponse | QuickUpdate.c:401-414 | the answer is yes exactly when a character was read and it is `y` or `Y`; the newline after it is consumed |
| QuickUpdate.CliOfferIsNewerIgnoringDate | QuickUpdate.c:346-348 | the command-line offer is CompareVersions' "newer" with the dates taken as equal |
| QuickUpdate.HandleCli | QuickUpdate.c:314-395 | the command line installs exactly when a file was given, both versions were read, the file is newer by version and revision, the run is interactive and the answer is yes; success then follows InstallFile; otherwise it succeeds exactly when the run is non-interactive or nothing newer is offered |
| QuickUpdate.ProcessFileInstalls | QuickUpdate.c:546-631 | the window path installs only a file with version information; against a current version, only a newer one or under FORCE, a newer one exactly under FORCE or a yes, never an identical one; without a current version, exactly when the requester says Install |
| QuickUpdate.DecisionsDisagreeOnDate | QuickUpdate.c:570-603 | a file that differs only in its date is installed by the window path and not by the command line |
| QuickUpdate.CalculateChecksum | QuickUpdate.c:92-121 | the result is true exactly when the file could be opened, never the CRC |
| QuickUpdate.TrueChecksumRejected | QuickUpdate.c:130-138 | the comparison as written rejects a file whose entry holds its true CRC and accepts the stored value 1 |
| QuickUpdate.TrueChecksumAccepted | QuickUpdate.c:130-138 | the intended comparison accepts exactly the true CRC-32 and rejects a file that cannot be opened |
| CreateDB.FoldAppend | CreateDB.c:313-317 | reading the bytes in two pieces gives the checksum of reading them at once |
| CreateDB.RotXorSmall | CreateDB.c:298-317 | an empty file checks to 0 and a one-byte file to that byte |
| CreateDB.LeadingZeroInvisible | CreateDB.c:313-317 | a leading zero byte leaves the checksum unchanged |
| CreateDB.RotateBuffer | CreateDB.c:313-317 | the loop over a buffer computes the rotate-and-XOR fold |
| CreateDB.CalculateChecksum | CreateDB.c:295-323 | 0 when the file cannot be opened or a break is signalled after a read, otherwise the checksum of the whole file |
| CreateDB.SpaceRun | CreateDB.c:73 | the white space a conversion skips ends at a non-space |
| CreateDB.ScanHex | CreateDB.c:73 | `%lx` reads white space, an optional sign, an optional 0x or 0X and a hex run, as strtoul does; the value is a ULONG |
| CreateDB.ScanDecimal | CreateDB.c:73 | `%lu` and `%hu` read white space, an optional sign and a digit run, as strtoul does; the value fits its width |
| CreateDB.Negated | CreateDB.c:73 | a value read after '-' is the value's negation modulo the field's width, and a value read without it is the value reduced to the width |
| CreateDB.HexPrefixRead | CreateDB.c:73 | "0x1f" before a separator reads as 0x1F |
| CreateDB.HexSign | CreateDB.c:73 | "-1" before a separator reads as 0xFFFFFFFF under `%lx` |
| CreateDB.HexPrefixAlone | CreateDB.c:73 | "0x" with no hex digit after it is a matching failure |
| CreateDB.DecimalPlusSign | CreateDB.c:73 | "+5" reads as 5 under `%lu` |
| CreateDB.DecimalMinusSign | CreateDB.c:73 | "-1" reads as 0xFFFF under `%hu` |
| CreateDB.SignAlone | CreateDB.c:73 | a sign with no digit after it is a matching failure |
| CreateDB.RunUntil | CreateDB.c:73 | the run stops at the first stop character |
| CreateDB.ScanSet | CreateDB.c:73 | a `%[^c]` conversion reads a non-empty text without the stop character |
| CreateDB.ScanSizes | CreateDB.c:73-74 | the checksum and the size are ULONGs |
| CreateDB.ScanNameVersion | CreateDB.c:73-75 | the file name is non-empty without `\|`, and version and revision are UWORDs |
| CreateDB.ScanDateOrigin | CreateDB.c:73-76 | the date is a ULONG and the origin is non-empty without a newline |
| CreateDB.ParseLine | CreateDB.c:73-78 | an entry the reader accepts fits its fields, is marked old, and has a non-empty file name and origin |
| CreateDB.PrefixedAndSignedLines | CreateDB.c:73-78 | the lines "0x1f\|5\|a.library\|1.2\|3\|o" and "-1\|5\|a.library\|1.2\|3\|o" are read as entries with the checksums 0x1F and 0xFFFFFFFF |
| CreateDB.FieldsAfterChecksum | CreateDB.c:73-78 | whatever checksum text the reader accepts, the five fields the writer puts after it read back as the entry's fields, marked old |
| CreateDB.EntryLines | CreateDB.c:222-229 | the writer writes one line per entry |
| CreateDB.HexRunExact | CreateDB.c:73 | a hex digit run ends at the first non-hex digit |
| CreateDB.ScanHexRun | CreateDB.c:73 | `%lx` reads a hex run and stops before the next character |
| CreateDB.ScanDecimalRun | CreateDB.c:73 | `%lu` and `%hu` read an optional sign and a digit run and stop before the next character; a minus sign negates the value modulo the width |
| CreateDB.ScanHexOf | CreateDB.c:222-229 | `%lx` reads back the value `%08lx` wrote |
| CreateDB.ScanDecimalOf | CreateDB.c:222-229 | `%lu` and `%hu` read back the value `%lu` or `%d` wrote |
| CreateDB.RunUntilOf | CreateDB.c:73 | a text without the stop character is read up to the stop |
| CreateDB.ScanSetOf | CreateDB.c:222-229 | `%[^c]` reads back a written text without the stop character |
| CreateDB.ExpectOf | CreateDB.c:73 | a literal of the format matches that character |
| CreateDB.ScanNameVersionOf | CreateDB.c:222-229 | the file name, version and revision fields read back |
| CreateDB.ScanDateOriginOf | CreateDB.c:222-229 | the date and origin fields read back |
| CreateDB.FormatParseRoundTrip | CreateDB.c:222-229 | a written line parses back to the same fields, marked old, with the origin it was written with |
| CreateDB.ParseFormatParse | CreateDB.c:73-76 | writing back an entry the reader accepted and reading it again gives the same entry |
| CreateDB.NoBarInDigits | CreateDB.c:222-229 | number fields hold no `\|` |
| CreateDB.WrittenLinePassesCheck | CreateDB.c:222-229 | a written line has exactly five `\|` when the file name and origin hold none |
| CreateDB.LineEntry | CreateDB.c:64-78 | an entry read from a line is old and fits its fields |
| CreateDB.LoadedAppends | CreateDB.c:70-85 | loading only appends and never goes beyond 1000 entries |
| CreateDB.LoadedLength | CreateDB.c:70-85 | whatever the line parser, loading never shrinks the table and never goes beyond 1000 entries |
| CreateDB.LoadedPrefix | CreateDB.c:70-85 | whatever the line parser, loading keeps the entries already held, in order |
| CreateDB.LoadedParsed | CreateDB.c:70-85 | lines that each parse to an entry, within the 1000-entry bound, load as exactly those entries appended in order |
| CreateDB.OldFromSnoc | CreateDB.c:78-79 | appending an old entry keeps the loaded part old |
| CreateDB.LoadedOld | CreateDB.c:70-85 | every entry loading adds is old and fits its fields |
| CreateDB.SkipLine | CreateDB.c:64-68 | a comment or empty line adds nothing |
| CreateDB.HeaderSkipped | CreateDB.c:210-211 | the header lines SaveDatabase writes are skipped by the loader |
| CreateDB.Reloads | CreateDB.c:222-229 | reloading keeps the number of entries |
| CreateDB.EntryLineNotSkipped | CreateDB.c:222-229 | a written line begins with a hex digit, so the loader never skips it |
| CreateDB.EntryLineLoads | CreateDB.c:222-229 | a storable entry's line loads as the entry, old, with the origin written |
| CreateDB.LoadEntryLines | CreateDB.c:70-85 | loading the written lines of a storable table appends its reloaded entries |
| CreateDB.SaveLoadRoundTrip | CreateDB.c:193-293 | saving a table and loading the file back gives the same entries in order, marked old, each with the origin it was written with |
| CreateDB.NewEntry | CreateDB.c:159-167 | a scanned entry fits its fields and is marked new |
| CreateDB.ScannedAppends | CreateDB.c:159-178 | scanning only appends and never goes beyond 1000 entries |
| CreateDB.NewFromSnoc | CreateDB.c:166-167 | appending a new entry keeps the scanned part new |
| CreateDB.ScannedNew | CreateDB.c:159-178 | every entry scanning adds is new and fits its fields |
| CreateDB.NewEntryKnown | CreateDB.c:154-167 | a file just entered is found by EntryExists, so meeting it again adds nothing |
| CreateDB.Database.Contents | CreateDB.c:42-43 | every entry in use fits its fields |
| CreateDB.Database.constructor | CreateDB.c:42-43 | the table starts empty with room for 1000 entries |
| CreateDB.Database.Append | CreateDB.c:159-167 | an entry is written at index numEntries, which grows by one |
| CreateDB.Database.EntryExists | CreateDB.c:104-116 | the result is true exactly when an entry in use has the file part's name ignoring case, the checksum and the size |
| CreateDB.Database.LoadExistingDB | CreateDB.c:53-102 | the table is the old table extended by Loaded over the file's lines, or unchanged without a file; success either way |
| CreateDB.Database.ScanFile | CreateDB.c:144-180 | a valid, versioned, unknown file is appended as a new entry and nothing else changes |
| CreateDB.Database.ScanAt | CreateDB.c:144-180 | one file of the loop is one step of Scanned |
| CreateDB.Database.ScanFiles | CreateDB.c:118-191 | the table after one directory is Scanned over its files, stopping at 1000 entries |
| CreateDB.Database.SaveDatabase | CreateDB.c:193-293 | the lines written are the header followed by one line per entry in use |
| CStrings.DecimalRoundTrip | CreateDB.c:222-229 | the decimal text of a number reads back as that number |
| CStrings.Hex8RoundTrip | CreateDB.c:222-229 | the eight-digit hex text of a ULONG reads back as that value |
| CStrings.IndexOf | newlib/amigaos4-newlib/libc/sys/amigaos4/src/pathconv.c:147 | Strchr finds the first occurrence of a character, or reports that there is none |
| CStrings.FilePart | QuickUpdate.c:690 | the file part is the text after the last `/` or `:` |
| CStrings.Strlcpy | newlib/amigaos4-newlib/libc/sys/amigaos4/src/pathconv.c:21-30 | the copy always fits the buffer and is the source when the source fits |
| CStrings.Strlcat | newlib/amigaos4-newlib/libc/sys/amigaos4/src/pathconv.c:151-156 | the result fits the buffer and is the concatenation when both fit |
| PathConv.VolumeChecksAgree | newlib/amigaos4-newlib/libc/sys/amigaos4/src/pathconv.c:149-150 | for buffers of two bytes or more, the volume test as written is the intended one |
| PathConv.VolumeCheckWraps | newlib/amigaos4-newlib/libc/sys/amigaos4/src/pathconv.c:149-152 | for a one-byte buffer, len - 2 wraps and the test as written lets every volume through, although nothing fits |
| PathConv.UnixPath | newlib/amigaos4-newlib/libc/sys/amigaos4/src/pathconv.c:21-91 | the translated path always fits the buffer |
| PathConv.UnixToDos | newlib/amigaos4-newlib/libc/sys/amigaos4/src/pathconv.c:9-94 | NULL exactly for a null argument, len 0 or a path that does not fit; otherwise a fitting result, and the input itself without Unix semantics or a leading `/` |
| PathConv.DosPath | newlib/amigaos4-newlib/libc/sys/amigaos4/src/pathconv.c:103-163 | the translated path always fits the buffer |
| PathConv.DosToUnix | newlib/amigaos4-newlib/libc/sys/amigaos4/src/pathconv.c:97-166 | NULL exactly for a null argument or len 0; otherwise a fitting result, and the input itself without Unix semantics when it fits |
| PathConv.SeparatorPrefix | newlib/amigaos4-newlib/libc/sys/amigaos4/src/pathconv.c:33-58 | a case-insensitive prefix ending in a separator is the folded first word of the text |
| PathConv.NoSeparatorNoPrefix | newlib/amigaos4-newlib/libc/sys/amigaos4/src/pathconv.c:33-58 | a text without the prefix's separator does not start with the prefix |
| PathConv.PrefixExcludes | newlib/amigaos4-newlib/libc/sys/amigaos4/src/pathconv.c:33-58 | two prefixes that differ at one place cannot both start a text |
| PathConv.SeparatorInPrefix | newlib/amigaos4-newlib/libc/sys/amigaos4/src/pathconv.c:33-58 | a separator of the prefix is in the text at the same place |
| PathConv.ShorterName | newlib/amigaos4-newlib/libc/sys/amigaos4/src/pathconv.c:33-58 | a copy and an append that both fit give the concatenation |
| PathConv.ProgdirMapping | newlib/amigaos4-newlib/libc/sys/amigaos4/src/pathconv.c:33-38 | "/progdir/rest" becomes "PROGDIR:/rest" |
| PathConv.RamMapping | newlib/amigaos4-newlib/libc/sys/amigaos4/src/pathconv.c:40-44 | "/ram/rest" becomes "RAM:/rest" |
| PathConv.SysMapping | newlib/amigaos4-newlib/libc/sys/amigaos4/src/pathconv.c:46-51 | "/sys/rest" becomes "SYS:/rest" |
| PathConv.TmpMapping | newlib/amigaos4-newlib/libc/sys/amigaos4/src/pathconv.c:53-58 | "/tmp/rest" becomes "T:/rest" |
| PathConv.RootIsSys | newlib/amigaos4-newlib/libc/sys/amigaos4/src/pathconv.c:61-64 | "/" becomes "SYS:" |
| PathConv.CharExcludes | newlib/amigaos4-newlib/libc/sys/amigaos4/src/pathconv.c:33-58 | a character that folds to something else rules the prefix out |
| PathConv.EmptyVolumeIsSys | newlib/amigaos4-newlib/libc/sys/amigaos4/src/pathconv.c:67-81 | "//rest" names no volume and becomes "SYS:/rest" |
| PathConv.LongVolumeIsSys | newlib/amigaos4-newlib/libc/sys/amigaos4/src/pathconv.c:84-91 | "/vol" with no room for the colon becomes "SYS:", cut to the buffer |
| PathConv.TooLongIsNull | newlib/amigaos4-newlib/libc/sys/amigaos4/src/pathconv.c:11-18 | a Unix path the buffer cannot hold gives NULL |
| PathConv.DosVolumeNotSpecial | newlib/amigaos4-newlib/libc/sys/amigaos4/src/pathconv.c:110-144 | "v:rest" on a plain volume matches none of the special DOS names |
| PathConv.UnixVolumeNotSpecial | newlib/amigaos4-newlib/libc/sys/amigaos4/src/pathconv.c:33-64 | "/v/rest" on a plain volume matches none of the special Unix directories |
| PathConv.DosVolumeToUnix | newlib/amigaos4-newlib/libc/sys/amigaos4/src/pathconv.c:147-157 | "v:rest" becomes "/v/rest", and "v:" becomes "/v" |
| PathConv.UnixVolumeToDos | newlib/amigaos4-newlib/libc/sys/amigaos4/src/pathconv.c:67-91 | "/v/rest" becomes "v:rest", and "/v" becomes "v:" |
| PathConv.DosUnixDos | newlib/amigaos4-newlib/libc/sys/amigaos4/src/pathconv.c:67-157 | a DOS path on a plain volume survives dos_to_unix followed by unix_to_dos |
| PathConv.UnixDosUnix | newlib/amigaos4-newlib/libc/sys/amigaos4/src/pathconv.c:67-157 | a Unix path under a plain top directory survives unix_to_dos followed by dos_to_unix |
| PathConv.WithRestFits | newlib/amigaos4-newlib/libc/sys/amigaos4/src/pathconv.c:111-115 | "/" and the rest are appended only when the rest is non-empty |
| PathConv.ProgdirToUnix | newlib/amigaos4-newlib/libc/sys/amigaos4/src/pathconv.c:110-117 | "PROGDIR:rest" becomes "/progdir/rest", and "PROGDIR:" becomes "/progdir" |
| PathConv.RamToUnix | newlib/amigaos4-newlib/libc/sys/amigaos4/src/pathconv.c:119-126 | "RAM:rest" becomes "/ram/rest", and "RAM:" becomes "/ram" |
| PathConv.SysToUnix | newlib/amigaos4-newlib/libc/sys/amigaos4/src/pathconv.c:128-135 | "SYS:rest" becomes "/sys/rest", and "SYS:" becomes "/sys" |
| PathConv.TmpToUnix | newlib/amigaos4-newlib/libc/sys/amigaos4/src/pathconv.c:137-144 | "T:rest" becomes "/tmp/rest", and "T:" becomes "/tmp" |
| PathConv.EmptyVolumeIsUnixSys | newlib/amigaos4-newlib/libc/sys/amigaos4/src/pathconv.c:147-159 | a path starting with a colon becomes "/sys" |
| PathConv.RelativeCopied | newlib/amigaos4-newlib/libc/sys/amigaos4/src/pathconv.c:160-163 | a path without a colon is copied unchanged, cut to the buffer |
| PathConv.CLength | newlib/amigaos4-newlib/libc/sys/amigaos4/src/pathconv.c:174 | the index of the first NUL |
| PathConv.Normalize | newlib/amigaos4-newlib/libc/sys/amigaos4/src/pathconv.c:169-180 | normalising keeps the buffer's length |
| PathConv.NormalizeChanges | newlib/amigaos4-newlib/libc/sys/amigaos4/src/pathconv.c:173-179 | only backslashes change, each to a slash, and none is left in the string |
| PathConv.NormalizeIdempotent | newlib/amigaos4-newlib/libc/sys/amigaos4/src/pathconv.c:169-180 | normalising twice is normalising once |
| PathConv.NormalizePath | newlib/amigaos4-newlib/libc/sys/amigaos4/src/pathconv.c:169-180 | the buffer is rewritten in place to Normalize of its old contents; a NULL path is left alone |
| AmigaErr.RepeatedLabelsAgree | newlib/amigaos4-newlib/libc/sys/amigaos4/include/amiga_err.h:13-112 | every repeated case label returns what its first occurrence returns |
| AmigaErr.IoErrnoZero | newlib/amigaos4-newlib/libc/sys/amigaos4/include/amiga_err.h:13-112 | the errno is 0 exactly for the code 0, and an unlisted code gives EIO |
| AmigaErr.OFlagsRules | newlib/amigaos4-newlib/libc/sys/amigaos4/include/amiga_err.h:116-140 | the mode is one of the three; O_TRUNC gives NEWFILE; O_CREAT gives NEWFILE with O_EXCL and READWRITE without; otherwise O_RDWR, O_WRONLY or OLDFILE |
| AmigaErr.OFlagsIgnoresMode | newlib/amigaos4-newlib/libc/sys/amigaos4/include/amiga_err.h:116-140 | the permission argument does not change the mode |
| AmigaErr.OFlagsExamples | newlib/amigaos4-newlib/libc/sys/amigaos4/include/amiga_err.h:116-140 | read-only, create-or-truncate, create and exclusive create give OLDFILE, NEWFILE, READWRITE and NEWFILE |
| Syscalls.FirstFree | newlib/amigaos4-newlib/libc/sys/amigaos4/src/syscalls.c:41-48 | the lowest free slot at or after from, or none when all are in use |
| Syscalls.ReservedSlots | newlib/amigaos4-newlib/libc/sys/amigaos4/src/syscalls.c:21-35 | after initialisation exactly slots 0, 1 and 2 are in use |
| Syscalls.NoHandles | newlib/amigaos4-newlib/libc/sys/amigaos4/src/syscalls.c:21-35 | after initialisation no slot holds a handle |
| Syscalls.FdTable.constructor | newlib/amigaos4-newlib/libc/sys/amigaos4/src/syscalls.c:16-18 | the static tables start zeroed and uninitialised |
| Syscalls.FdTable.InitFdTable | newlib/amigaos4-newlib/libc/sys/amigaos4/src/syscalls.c:21-35 | the first call clears the table and reserves 0, 1 and 2; later calls change nothing |
| Syscalls.FdTable.AllocFd | newlib/amigaos4-newlib/libc/sys/amigaos4/src/syscalls.c:38-51 | the lowest free slot takes the handle and no other slot changes; -1 and no change when all 256 are in use |
| Syscalls.FdTable.FreeFd | newlib/amigaos4-newlib/libc/sys/amigaos4/src/syscalls.c:54-60 | a descriptor in range and in use is released; any other call changes nothing |
| Syscalls.FdTable.GetBptr | newlib/amigaos4-newlib/libc/sys/amigaos4/src/syscalls.c:63-69 | the handle of a descriptor in range and in use, and 0 for any other |
| Syscalls.FdTable.Open | newlib/amigaos4-newlib/libc/sys/amigaos4/src/syscalls.c:72-97 | EINVAL for NULL; the request carries the translated name and amigaos4_oflags' mode; IoErr's errno when Open fails; EMFILE when the table is full, and then, and only then, the handle is handed back to Close(); otherwise the new descriptor |
| Syscalls.FdTable.Close | newlib/amigaos4-newlib/libc/sys/amigaos4/src/syscalls.c:100-117 | EBADF for an unknown descriptor; IoErr's errno when Close fails; the slot is freed only when Close succeeds |
| Syscalls.FdTable.Transfer | newlib/amigaos4-newlib/libc/sys/amigaos4/src/syscalls.c:120-165 | EINVAL without a buffer; EBADF for any descriptor get_bptr does not know; for a known descriptor with a buffer, the count Read or Write returned, or IoErr's errno when it returned -1 |
| Syscalls.FdTable.Lseek | newlib/amigaos4-newlib/libc/sys/amigaos4/src/syscalls.c:168-195 | EBADF for any descriptor get_bptr does not know; EINVAL for another whence; for a known descriptor and whence, the position Seek returned, or IoErr's errno when it returned -1 |
| Syscalls.SeekModeBijective | newlib/amigaos4-newlib/libc/sys/amigaos4/src/syscalls.c:178-186 | SEEK_SET, SEEK_CUR and SEEK_END map one to one onto OFFSET_BEGINNING, OFFSET_CURRENT and OFFSET_END, and no other whence maps |
| Syscalls.Stub | newlib/amigaos4-newlib/libc/sys/amigaos4/src/syscalls.c:466-476 | every unimplemented call returns -1 with ENOSYS |
| Syscalls.QuotStep | newlib/amigaos4-newlib/libc/sys/amigaos4/src/syscalls.c:416-418 | truncating division by 4, 100 or 400 steps up by one exactly at a multiple |
| Syscalls.YearStep | newlib/amigaos4-newlib/libc/sys/amigaos4/src/syscalls.c:416-418 | from 1 January of a year to the next, the Epoch seconds grow by the length of the year |
| Syscalls.CivilSeconds | newlib/amigaos4-newlib/libc/sys/amigaos4/src/syscalls.c:416-418 | counting days from 1 January and counting Epoch seconds agree |
| Syscalls.EpochTimeIsPosix | newlib/amigaos4-newlib/libc/sys/amigaos4/src/syscalls.c:412-418 | the corrected conversion is the POSIX Epoch seconds of the calendar date and time the DateStamp names |
| Syscalls.CivilDayBound | newlib/amigaos4-newlib/libc/sys/amigaos4/src/syscalls.c:416-418 | the day of the year is below the length of its year |
| Syscalls.TimeAsWrittenSixteenYearsEarly | newlib/amigaos4-newlib/libc/sys/amigaos4/src/syscalls.c:416-418 | _time_r as written is 2 * 2922 days short of the Epoch seconds, negative at the AmigaDOS epoch |
| Syscalls.FileTimeAsWrittenEightYearsEarly | newlib/amigaos4-newlib/libc/sys/amigaos4/src/syscalls.c:231-233 | _fstat_r and _stat_r as written are 2922 days short of the Epoch seconds, 0 at the AmigaDOS epoch |

## Left out

- File and directory I/O (fopen, fread, Open, Read, FGets, Lock, Examine, ExNext, Rename, DeleteFile): file contents are byte sequences, database files are line sequences, and a directory is the sequence of its files. load_fd_dir's directory walk (natty.c:228-284) is left out, except for its `.fd` suffix test. That code does not compile as written (`i` is undeclared).
- Out-of-bounds reads of the scanner: the 6-byte detectors reading past the last 4 bytes, and is_int_level_manip reading `p[-2]` at the start of a segment. Both are taken as non-matching.
- malloc failure in add_finding and insert_fd: allocation is taken to succeed. A code block whose size is negative is taken to fail allocation, which aborts the walk.
- A truncated code block: the bytes past the end of the file are zero in the model, not uninitialised memory.
- NattySymbols.Atoi: does not model int overflow of atoi; K is unbounded.
- print_report's text layout, main's argument handling and the GUI, Workbench, AppIcon and requester code of QuickUpdate.c: output and user interface.
- StrToDate: it is a parameter of the version parser. As written, Shared.c:130 and QuickUpdate.c:830 call it with the DateTime and the text, but dos.library's StrToDate takes only the DateTime and reads its text from `dat_StrDate`. That field is NULL at Shared.c:127 and uninitialised in QuickUpdate.c, so the text after `(` never reaches it. Shared.ReadDate and Shared.DateFrom model the call as intended, on the text after `(`. dos.library's FilePart, AddPart, Strlcpy, Strlcat and stricmp are simple specified functions over ASCII.
- QuickUpdate's binary database reader (GetInstalledVersion, VerifyChecksum's loop): I/O over raw structs. It is a parameter of the install decisions.
- InstallFile, Copy and BackupFile: file operations; their result is a parameter.
- HandleCLI's "No existing version found" branch (QuickUpdate.c:374-394) cannot be reached, because hasCurrentVersion is always TRUE; the model has no such branch.
- CreateDB.Database.LoadExistingDB: requires a table below 1000 entries. The C code then writes entry 1000 after a full load followed by a new file, and ScanDirectory can exceed the cap when it recurses.
- CreateDB.Database.ScanFiles: models one directory; the recursion into subdirectories is left out.
- The overflow of CreateDB's filename[108] and origin[64] buffers by long names is not modelled: names are unbounded strings.
- Assignments to the array `line` at CreateDB.c:56 and CreateDB.c:61 do not compile: the model reads the lines of the file.
- CreateDB.FormatLine: SaveDatabase passes the nine values to `VFPrintf(fh, fmt, ...)` one by one (CreateDB.c:222-229), while dos.library's VFPrintf takes the values in one argument array; the call does not match its prototype as written. FormatLine, EntryLines and SaveDatabase format with C printf semantics, the evidently intended output.
- CreateDB.ParseLine: a value beyond the field's range is reduced modulo 2^32 (or 2^16 for `%hu`). In C that conversion is undefined, and strtoul itself saturates at ULONG_MAX. A "0x" followed by no hex digit fails, as the C standard's scanf rules say; some C libraries read it as 0 instead.
- The numeric values of the errno and AmigaDOS error codes are not part of this model (their headers are not available): both are symbolic.
- amiga_err.h's repeated case labels are a compile error in C. The model takes the first match, and AmigaErr.RepeatedLabelsAgree shows that every repeat agrees.
- Syscalls.FdTable.Open: _open_r does not check unix_to_dos's NULL for a path of 512 characters or more and passes an uninitialised buffer to Open. The model records that name as None.
- The 32-bit range of time_t and LONG in the time arithmetic is not modelled; the days are unbounded.
- The NULL `r` fallback to `__getreent()`: the reentrancy structure is not modelled, and the errno is part of the result.
- The remaining wrappers of syscalls.c (_fstat_r and _stat_r apart from their time fields, _mkdir_r, _rmdir_r, _unlink_r, _rename_r, _getcwd_r, _chdir_r, _clock_r, _sleep_r, _getpid_r, _exit_r): each forwards one dos.library call and maps IoErr, so they add nothing beyond IoErrno and the descriptor checks.
- newlib_library.c, reent_tls.c and fork.c: interface tables, thread-local storage and process creation are not part of this model.

## Findings

| source | as written | input that shows it | evidently intended | confidence | as-written member | corrected member |
|---|---|---|---|---|---|---|
| natty.c:730-735 | a block of another type has its size read with read_be_long and passed to fseek, so a failed size read (-1) seeks back 4 bytes | the 16-byte file 00 00 03 F3, 00 00 00 00, 00 00 00 00, 00 00 03 EA: the size read after the block type at offset 12 fails, and the loop returns to offset 12 forever | the walk ends when a block's size cannot be read or is negative | high, not executed | NattyHunk.AsWrittenLoopsForever | NattyHunk.WalkProgress |
| QuickUpdate.c:130-138 | VerifyChecksum compares the stored checksum with CalculateChecksum's BOOL, which is 1 for any file that opens; GetInstalledVersion makes the same comparison at QuickUpdate.c:735, so HandleCLI finds no installed version for an entry that holds a true CRC | an entry holding the true CRC-32 0xCBF43926 of "123456789" does not match; the stored value 1 does | the stored value is compared with the file's CRC-32 | high, not executed | QuickUpdate.TrueChecksumRejected | QuickUpdate.TrueChecksumAccepted |
| newlib/amigaos4-newlib/libc/sys/amigaos4/src/pathconv.c:149-152 | `vol_len < len - 2` is computed in size_t, so len = 1 wraps to the largest size_t | dos_to_unix("V:", out, 1): the test passes and strncat writes "V" and its NUL into a 1-byte buffer | a volume is copied only when it fits in the buffer | high, not executed | PathConv.VolumeCheckWraps | PathConv.DosToUnix |
| newlib/amigaos4-newlib/libc/sys/amigaos4/src/syscalls.c:416-418 | _time_r subtracts 2922 days, but 1978-01-01 is 2922 days after the Epoch | the DateStamp (0, 0, 0), midnight of 1978-01-01, gives -252460800 instead of 252460800 | the 2922 days are added | high, not executed | Syscalls.TimeAsWrittenSixteenYearsEarly | Syscalls.EpochTimeIsPosix |
| newlib/amigaos4-newlib/libc/sys/amigaos4/src/syscalls.c:231-233 | _fstat_r (and _stat_r at lines 275-277) leaves the 2922 days out | a file dated (0, 0, 0) gets the time 0, 1970-01-01, instead of 252460800 | the 2922 days are added | high, not executed | Syscalls.FileTimeAsWrittenEightYearsEarly | Syscalls.EpochTimeIsPosix |
