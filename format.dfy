/**
 * Text rendering as java.util.Formatter and Integer.toString produce it for
 * the conversions the modelled code uses: %d, %x, %X, %06d, %-17s, %f, %.Nf.
 */
module Format {
  import opened Wrappers
  import JavaLang

  predicate IsDigit(c: char) {
    '0' <= c <= '9'
  }

  function DigitChar(d: nat, upper: bool): (c: char)
    requires d < 16
    ensures d < 10 ==> IsDigit(c)
  {
    if d < 10 then '0' + d as char
    else if upper then 'A' + (d - 10) as char
    else 'a' + (d - 10) as char
  }

  /** The digits of n in base 10 or 16, most significant first, without leading zeros. */
  function Digits(n: nat, base: nat, upper: bool): (s: string)
    requires base == 10 || base == 16
    ensures 1 <= |s|
    ensures base == 10 ==> forall i :: 0 <= i < |s| ==> IsDigit(s[i])
    decreases n
  {
    if n < base then [DigitChar(n, upper)]
    else Digits(n / base, base, upper) + [DigitChar(n % base, upper)]
  }

  /** s ends with tail. */
  predicate EndsWith(s: string, tail: string) {
    |tail| <= |s| && s[|s| - |tail|..] == tail
  }

  /** %d and Integer.toString. */
  function Dec(x: int): (s: string)
    ensures 1 <= |s|
    ensures (s[0] == '-') <==> x < 0
  {
    if x < 0 then "-" + Digits(-x, 10, false) else Digits(x, 10, false)
  }

  /** %x of a Java int: lower-case hex of its 32-bit pattern. */
  function HexLower(x: int): (s: string)
    requires JavaLang.IsInt(x)
    ensures 1 <= |s| <= 8
  {
    HexDigitsBound(JavaLang.Unsigned32(x), false);
    Digits(JavaLang.Unsigned32(x), 16, false)
  }

  /** %X of a Java int: upper-case hex of its 32-bit pattern. */
  function HexUpper(x: int): (s: string)
    requires JavaLang.IsInt(x)
    ensures 1 <= |s| <= 8
  {
    HexDigitsBound(JavaLang.Unsigned32(x), true);
    Digits(JavaLang.Unsigned32(x), 16, true)
  }

  /** %X of an int expression evaluated in Java int arithmetic. */
  function HexInt(x: int): (s: string)
    ensures 1 <= |s| <= 8
  {
    HexUpper(JavaLang.Wrap(x))
  }

  /** "0x%02X": the prefix and at least two upper-case hex digits. */
  function Hex02(x: int): (s: string)
    ensures 4 <= |s| && s[..2] == "0x"
  {
    var d := HexInt(x);
    "0x" + (if |d| < 2 then "0" + d else d)
  }

  /** "\"%s\"": the text between double quotes. */
  function Quote(s: string): string
  {
    "\"" + s + "\""
  }

  function Pow16(k: nat): (r: nat)
    ensures r >= 1
  {
    if k == 0 then 1 else 16 * Pow16(k - 1)
  }

  lemma {:induction false} HexDigitsLength(n: nat, k: nat, upper: bool)
    requires n < Pow16(k)
    ensures |Digits(n, 16, upper)| <= if k == 0 then 1 else k
  {
    if n >= 16 {
      HexDigitsLength(n / 16, k - 1, upper);
    }
  }

  lemma HexDigitsBound(n: nat, upper: bool)
    requires n < JavaLang.TwoTo32
    ensures |Digits(n, 16, upper)| <= 8
  {
    assert Pow16(4) == 0x1_0000;
    assert Pow16(8) == 16 * 16 * 16 * 16 * Pow16(4);
    HexDigitsLength(n, 8, upper);
  }

  function Repeat(c: char, n: nat): (s: string)
    ensures |s| == n
    ensures forall i :: 0 <= i < n ==> s[i] == c
  {
    if n == 0 then [] else [c] + Repeat(c, n - 1)
  }

  /** %0Nd of a non-negative number. */
  function ZeroPadded(x: nat, width: nat): (s: string)
    ensures |s| >= width
  {
    var d := Digits(x, 10, false);
    if |d| >= width then d else Repeat('0', width - |d|) + d
  }

  /** %-Ns: left-justified, padded with spaces on the right. */
  function PadRight(s: string, width: nat): (r: string)
    ensures |r| == if |s| >= width then |s| else width
    ensures r[..|s|] == s
  {
    if |s| >= width then s else s + Repeat(' ', width - |s|)
  }

  function Pow10(k: nat): (r: nat)
    ensures r >= 1
  {
    if k == 0 then 1 else 10 * Pow10(k - 1)
  }

  /**
   * %.Nf (and %f, which is %.6f): the value rounded half-up to N fraction
   * digits, a point only when N > 0, and a minus sign for every negative
   * value, even one that rounds to zero.
   */
  function Fixed(r: real, prec: nat): (s: string)
    ensures 1 <= |s|
    ensures (s[0] == '-') <==> r < 0.0
    ensures prec > 0 ==> '.' in s
  {
    var n := (Scaled(if r < 0.0 then -r else r, prec) + 0.5).Floor;
    var body := PointText(n, prec);
    if r < 0.0 then "-" + body else body
  }

  /** a * 10^k. */
  function Scaled(a: real, k: nat): (r: real)
    requires a >= 0.0
    ensures r >= 0.0
    decreases k
  {
    if k == 0 then a else Scaled(a * 10.0, k - 1)
  }

  /** The digits of n with a point k places from the right, zeros filling in to the left of the point. */
  function PointText(n: nat, k: nat): (s: string)
    ensures 1 <= |s| && IsDigit(s[0])
    ensures k > 0 ==> '.' in s
  {
    if k == 0 then Digits(n, 10, false)
    else PointText(n / 10, k - 1) + (if k == 1 then "." else "") + [DigitChar(n % 10, false)]
  }

  /** Strings.join: the parts with the separator between consecutive parts. */
  function Join(sep: string, parts: seq<string>): (s: string)
    ensures |parts| == 0 ==> s == ""
    ensures |parts| == 1 ==> s == parts[0]
  {
    if |parts| == 0 then ""
    else if |parts| == 1 then parts[0]
    else Join(sep, parts[..|parts| - 1]) + sep + parts[|parts| - 1]
  }

  /** Appending a part adds the separator and that part, unless it is the first. */
  lemma JoinAppend(sep: string, parts: seq<string>, last: string)
    ensures Join(sep, parts + [last]) == if |parts| == 0 then last else Join(sep, parts) + sep + last
  {
    assert (parts + [last])[..|parts|] == parts;
  }

  /** The characters of s before the first one in seps. */
  function Prefix(s: string, seps: set<char>): (p: string)
    ensures |p| <= |s| && p == s[..|p|]
    ensures forall i :: 0 <= i < |p| ==> p[i] !in seps
    ensures |p| < |s| ==> s[|p|] in seps
  {
    if |s| == 0 || s[0] in seps then "" else [s[0]] + Prefix(s[1..], seps)
  }

  /** The prefix of a stem, a separator and anything after it is the stem. */
  lemma {:induction false} PrefixOfStem(stem: string, c: char, rest: string, seps: set<char>)
    requires forall i :: 0 <= i < |stem| ==> stem[i] !in seps
    requires c in seps
    ensures Prefix(stem + [c] + rest, seps) == stem
    decreases |stem|
  {
    var s := stem + [c] + rest;
    if |stem| > 0 {
      assert s[1..] == stem[1..] + [c] + rest;
      PrefixOfStem(stem[1..], c, rest, seps);
      assert s[0] == stem[0] && s[0] !in seps;
    }
  }

  /**
   * s.split(r)[0] for a regular expression r that is one character class:
   * the text before the first separator, except that when s is not empty and
   * made only of separators split returns an empty array and [0] throws.
   */
  function SplitHead(s: string, seps: set<char>): (r: Result<string>)
    ensures r.Err? <==> |s| > 0 && forall i :: 0 <= i < |s| ==> s[i] in seps
    ensures r.Ok? ==> r.value == Prefix(s, seps)
  {
    if |s| > 0 && forall i :: 0 <= i < |s| ==> s[i] in seps then Err(ArrayIndexOutOfBounds)
    else Ok(Prefix(s, seps))
  }
}
