/**
 * Small C and AmigaDOS string helpers shared by the models: C strings,
 * bytes, ASCII case folding (stricmp/Strnicmp), FilePart, strstr, strchr,
 * Strlcpy/Strlcat and decimal/hexadecimal digit runs.
 * The foreign library routines are given here as simple specified functions.
 */
module CStrings {

  datatype Option<T> = None | Some(value: T)

  /** An unsigned 8-bit value (UBYTE). */
  newtype byte = x: int | 0 <= x < 256

  /** A C string: the characters before the terminating NUL. */
  type CString = s: string | '\0' !in s

  const Two16: int := 0x1_0000
  const Two32: int := 0x1_0000_0000

  /** The character at index i, or NUL past the end (the terminator). */
  function At(s: string, i: nat): char
  {
    if i < |s| then s[i] else '\0'
  }

  /** isspace() in the C locale. */
  predicate IsSpace(c: char)
  {
    c == ' ' || (9 <= c as int <= 13)
  }

  /** isdigit() in the C locale. */
  predicate IsDigit(c: char)
  {
    '0' <= c <= '9'
  }

  function DigitValue(c: char): (d: nat)
    requires IsDigit(c)
    ensures d < 10
  {
    c as int - '0' as int
  }

  function DigitChar(d: nat): (c: char)
    requires d < 10
    ensures IsDigit(c) && DigitValue(c) == d
  {
    ('0' as int + d) as char
  }

  predicate AllDigits(s: string)
  {
    forall i :: 0 <= i < |s| ==> IsDigit(s[i])
  }

  /** The value of a run of decimal digits, most significant first (no overflow). */
  function DecimalValue(s: string): nat
    requires AllDigits(s)
  {
    if |s| == 0 then 0 else DecimalValue(s[..|s| - 1]) * 10 + DigitValue(s[|s| - 1])
  }

  /** The decimal text of n, without leading zeros ("%lu", "%d" of a non-negative value). */
  function DecimalText(n: nat): (s: string)
    ensures |s| > 0 && AllDigits(s)
    decreases n
  {
    if n < 10 then [DigitChar(n)] else DecimalText(n / 10) + [DigitChar(n % 10)]
  }

  lemma {:induction false} DecimalRoundTrip(n: nat)
    ensures DecimalValue(DecimalText(n)) == n
    decreases n
  {
    var s := DecimalText(n);
    if n >= 10 {
      DecimalRoundTrip(n / 10);
      assert s[..|s| - 1] == DecimalText(n / 10);
    }
  }

  /** The length of the maximal run of decimal digits starting at index i. */
  function DigitRunLength(s: string, i: nat): (n: nat)
    ensures i + n <= |s| || (i >= |s| && n == 0)
    ensures forall k :: i <= k < i + n ==> IsDigit(s[k])
    ensures i + n < |s| ==> !IsDigit(s[i + n])
    decreases |s| - i
  {
    if i < |s| && IsDigit(s[i]) then 1 + DigitRunLength(s, i + 1) else 0
  }

  /** The value of the digit run starting at i (what atoi reads there, without overflow). */
  function DigitRunValue(s: string, i: nat): nat
  {
    var n := DigitRunLength(s, i);
    if n == 0 then 0 else DecimalValue(s[i..i + n])
  }

  // ---------------------------------------------------------------- hex

  predicate IsHexDigit(c: char)
  {
    ('0' <= c <= '9') || ('a' <= c <= 'f') || ('A' <= c <= 'F')
  }

  function HexDigitValue(c: char): (d: nat)
    requires IsHexDigit(c)
    ensures d < 16
  {
    if '0' <= c <= '9' then c as int - '0' as int
    else if 'a' <= c <= 'f' then c as int - 'a' as int + 10
    else c as int - 'A' as int + 10
  }

  /** Lower-case hexadecimal digit, as printf's %x writes it. */
  function HexDigitChar(d: nat): (c: char)
    requires d < 16
    ensures IsHexDigit(c) && HexDigitValue(c) == d
  {
    if d < 10 then ('0' as int + d) as char else ('a' as int + d - 10) as char
  }

  predicate AllHexDigits(s: string)
  {
    forall i :: 0 <= i < |s| ==> IsHexDigit(s[i])
  }

  function HexValue(s: string): nat
    requires AllHexDigits(s)
  {
    if |s| == 0 then 0 else HexValue(s[..|s| - 1]) * 16 + HexDigitValue(s[|s| - 1])
  }

  /** The last `width` hexadecimal digits of n, zero-padded. */
  function HexDigits(n: nat, width: nat): (s: string)
    ensures |s| == width && AllHexDigits(s)
  {
    if width == 0 then [] else HexDigits(n / 16, width - 1) + [HexDigitChar(n % 16)]
  }

  /** "%08lx" of a 32-bit value: exactly eight lower-case digits. */
  function Hex8(n: nat): (s: string)
    requires n < Two32
    ensures |s| == 8 && AllHexDigits(s)
  {
    HexDigits(n, 8)
  }

  function Pow16(k: nat): (p: nat)
    ensures p >= 1
  {
    if k == 0 then 1 else 16 * Pow16(k - 1)
  }

  lemma {:induction false} HexDigitsRoundTrip(n: nat, width: nat)
    requires n < Pow16(width)
    ensures HexValue(HexDigits(n, width)) == n
  {
    if width > 0 {
      var s := HexDigits(n, width);
      assert s[..|s| - 1] == HexDigits(n / 16, width - 1);
      HexDigitsRoundTrip(n / 16, width - 1);
    }
  }

  lemma Hex8RoundTrip(n: nat)
    requires n < Two32
    ensures HexValue(Hex8(n)) == n
  {
    assert Pow16(8) == Two32;
    HexDigitsRoundTrip(n, 8);
  }

  /** The length of the maximal run of hexadecimal digits starting at i. */
  function HexRunLength(s: string, i: nat): (n: nat)
    ensures i + n <= |s| || (i >= |s| && n == 0)
    ensures forall k :: i <= k < i + n ==> IsHexDigit(s[k])
    ensures i + n < |s| ==> !IsHexDigit(s[i + n])
    decreases |s| - i
  {
    if i < |s| && IsHexDigit(s[i]) then 1 + HexRunLength(s, i + 1) else 0
  }

  // ---------------------------------------------------------------- case folding

  /** tolower() on ASCII, as Stricmp/Strnicmp fold characters. */
  function ToLower(c: char): char
  {
    if 'A' <= c <= 'Z' then (c as int + 32) as char else c
  }

  function Lower(s: string): (r: string)
    ensures |r| == |s|
  {
    if |s| == 0 then [] else [ToLower(s[0])] + Lower(s[1..])
  }

  lemma {:induction false} LowerAt(s: string, i: nat)
    requires i < |s|
    ensures Lower(s)[i] == ToLower(s[i])
  {
    if i > 0 {
      LowerAt(s[1..], i - 1);
    }
  }

  lemma LowerEach(s: string)
    ensures forall i :: 0 <= i < |s| ==> Lower(s)[i] == ToLower(s[i])
  {
    forall i | 0 <= i < |s|
      ensures Lower(s)[i] == ToLower(s[i])
    {
      LowerAt(s, i);
    }
  }

  /** stricmp(a, b) == 0. */
  predicate EqualsIgnoreCase(a: string, b: string)
  {
    Lower(a) == Lower(b)
  }

  /** Strnicmp(s, prefix, |prefix|) == 0: s starts with prefix, ignoring case. */
  predicate HasPrefixIgnoreCase(s: string, prefix: string)
  {
    |prefix| <= |s| && EqualsIgnoreCase(s[..|prefix|], prefix)
  }

  // ---------------------------------------------------------------- searching

  /** t occurs in s starting at index i. */
  predicate OccursAt(s: string, t: string, i: int)
  {
    0 <= i && i + |t| <= |s| && s[i..i + |t|] == t
  }

  /** strstr(s, t) != NULL: t occurs at the start of s or further on. */
  predicate Contains(s: string, t: string)
    decreases |s|
  {
    OccursAt(s, t, 0) || (|s| > 0 && Contains(s[1..], t))
  }

  /** An occurrence anywhere is found by strstr. */
  lemma {:induction false} ContainsAt(s: string, t: string, i: nat)
    requires OccursAt(s, t, i)
    ensures Contains(s, t)
  {
    if i > 0 {
      assert s[1..][i - 1..i - 1 + |t|] == s[i..i + |t|];
      ContainsAt(s[1..], t, i - 1);
    }
  }

  /** strchr(s, c): the index of the first c, if any. */
  function IndexOf(s: string, c: char): (r: Option<nat>)
    ensures r.Some? ==> r.value < |s| && s[r.value] == c && c !in s[..r.value]
    ensures r.None? ==> c !in s
  {
    if |s| == 0 then None
    else if s[0] == c then Some(0)
    else match IndexOf(s[1..], c)
      case None => None
      case Some(k) => assert s[..k + 1] == [s[0]] + s[1..][..k]; Some(k + 1)
  }

  /** The first occurrence found by a left-to-right walk is the one strchr reports. */
  lemma IndexOfFirst(s: string, c: char, i: nat)
    requires i < |s| && s[i] == c && c !in s[..i]
    ensures IndexOf(s, c) == Some(i)
  {
    assert s[i] in s;
    var k := IndexOf(s, c).value;
    assert forall j :: 0 <= j < k ==> s[..k][j] == s[j];
    assert forall j :: 0 <= j < i ==> s[..i][j] == s[j];
  }

  /** The last occurrence found by a right-to-left walk is the one strrchr reports. */
  lemma LastIndexOfLast(s: string, c: char, i: nat)
    requires i < |s| && s[i] == c && c !in s[i + 1..]
    ensures LastIndexOf(s, c) == Some(i)
  {
    assert s[i] in s;
    var k := LastIndexOf(s, c).value;
    assert forall j :: k < j < |s| ==> s[k + 1..][j - k - 1] == s[j];
    assert forall j :: i < j < |s| ==> s[i + 1..][j - i - 1] == s[j];
  }

  /** A string contains its own suffixes. */
  lemma ContainsSuffix(s: string, k: nat)
    requires k <= |s|
    ensures Contains(s, s[k..])
  {
    ContainsAt(s, s[k..], k);
  }

  /** A text holding a character that s lacks does not occur in s. */
  lemma {:induction false} MissingCharacter(s: string, t: string, j: nat)
    requires j < |t| && t[j] !in s
    ensures !Contains(s, t)
  {
    if |t| <= |s| {
      assert s[..|t|][j] == s[j];
    }
    if |s| > 0 {
      MissingCharacter(s[1..], t, j);
    }
  }

  /** A substring of a suffix is a substring of the whole. */
  lemma {:induction false} ContainsInSuffix(s: string, k: nat, t: string)
    requires k <= |s| && Contains(s[k..], t)
    ensures Contains(s, t)
  {
    if k > 0 {
      assert s[k..] == s[1..][k - 1..];
      ContainsInSuffix(s[1..], k - 1, t);
    }
  }

  /** strrchr(s, c): the index of the last c, if any. */
  function LastIndexOf(s: string, c: char): (r: Option<nat>)
    ensures r.Some? ==> r.value < |s| && s[r.value] == c && c !in s[r.value + 1..]
    ensures r.None? ==> c !in s
  {
    if |s| == 0 then None
    else if s[|s| - 1] == c then Some(|s| - 1)
    else match LastIndexOf(s[..|s| - 1], c)
      case None => None
      case Some(k) => assert s[k + 1..] == s[..|s| - 1][k + 1..] + [s[|s| - 1]]; Some(k)
  }

  /** The index just past the last '/' or ':' of a path, or 0. */
  function FilePartStart(path: string): (k: nat)
    ensures k <= |path|
    ensures k > 0 ==> path[k - 1] == '/' || path[k - 1] == ':'
    ensures forall i :: k <= i < |path| ==> path[i] != '/' && path[i] != ':'
  {
    if |path| == 0 then 0
    else if path[|path| - 1] == '/' || path[|path| - 1] == ':' then |path|
    else FilePartStart(path[..|path| - 1])
  }

  /** dos.library FilePart(): the last component of a path. */
  function FilePart(path: string): (name: string)
    ensures '/' !in name && ':' !in name
    ensures ('/' !in path && ':' !in path) ==> name == path
  {
    path[FilePartStart(path)..]
  }

  // ---------------------------------------------------------------- bounded copies

  function Take(s: string, n: int): (r: string)
    ensures |r| == if n < 0 then 0 else if n < |s| then n else |s|
    ensures r == s[..|r|]
  {
    if n <= 0 then [] else if n < |s| then s[..n] else s
  }

  /** Strlcpy(dst, src, size) with size > 0: the first size-1 characters of src. */
  function Strlcpy(src: string, size: nat): (r: string)
    requires size > 0
    ensures |r| < size
    ensures |src| < size ==> r == src
  {
    Take(src, size - 1)
  }

  /**
   * Strlcat(dst, src, size): appends while the result stays below size;
   * a dst that already fills the buffer is left as it is.
   */
  function Strlcat(dst: string, src: string, size: nat): (r: string)
    ensures |dst| + |src| < size ==> r == dst + src
    ensures |dst| < size ==> |r| < size
  {
    if |dst| + 1 >= size then dst else Take(dst + src, size - 1)
  }
}
