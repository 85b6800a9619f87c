/** C string helpers used by the option parser, the listing and the status
    messages.  A Dafny `char` stands for one byte of a C string; the strings
    handled here never contain NUL, so `strlen(s)` is `|s|`. */
module Text {

  datatype Option<+T> = None | Some(value: T)

  function Min(a: int, b: int): int { if a <= b then a else b }

  function Max(a: int, b: int): int { if a <= b then b else a }

  /** `isspace` in the C locale: space, and tab through carriage return. */
  predicate IsSpace(c: char) {
    c == ' ' || 9 <= c as int <= 13
  }

  predicate IsDigit(c: char) {
    '0' <= c <= '9'
  }

  predicate AllDigits(s: string) {
    forall i :: 0 <= i < |s| ==> IsDigit(s[i])
  }

  function DigitChar(d: nat): (c: char)
    requires d < 10
    ensures IsDigit(c) && c as int - '0' as int == d
  {
    ('0' as int + d) as char
  }

  function DigitValue(c: char): nat
    requires IsDigit(c)
  {
    c as int - '0' as int
  }

  function Pow10(k: nat): nat {
    if k == 0 then 1 else 10 * Pow10(k - 1)
  }

  // ---------------------------------------------------------------------
  // printf "%ld"
  // ---------------------------------------------------------------------

  /** The base-ten digits of `n`, without leading zeros. */
  function Digits(n: nat): (s: string)
    ensures |s| >= 1
    decreases n
  {
    if n < 10 then [DigitChar(n)] else Digits(n / 10) + [DigitChar(n % 10)]
  }

  /** What `Digits` prints consists of digits only. */
  lemma {:induction false} DigitsAreDigits(n: nat)
    ensures AllDigits(Digits(n))
    decreases n
  {
    if n >= 10 {
      DigitsAreDigits(n / 10);
    }
  }

  /** `printf("%ld", n)`: a minus sign for negative values, then the digits. */
  function Decimal(n: int): string {
    if n < 0 then "-" + Digits(-n) else Digits(n)
  }

  lemma {:induction false} DigitsShort(n: nat, k: nat)
    requires 1 <= k && n < Pow10(k)
    ensures |Digits(n)| <= k
    decreases k
  {
    if n >= 10 {
      assert k >= 2;
      DigitsShort(n / 10, k - 1);
    }
  }

  lemma {:induction false} DigitsLong(n: nat, k: nat)
    requires Pow10(k) <= n
    ensures |Digits(n)| > k
    decreases k
  {
    if k > 0 {
      DigitsLong(n / 10, k - 1);
    }
  }

  // ---------------------------------------------------------------------
  // sscanf(s, "%d", &n)
  // ---------------------------------------------------------------------

  /** Number of leading decimal digits. */
  function LeadingDigits(s: string): (k: nat)
    ensures k <= |s|
  {
    if |s| > 0 && IsDigit(s[0]) then 1 + LeadingDigits(s[1..]) else 0
  }

  /** The count covers a run of digits that the end of the text or a
      non-digit closes. */
  lemma {:induction false} LeadingDigitsRun(s: string)
    ensures AllDigits(s[..LeadingDigits(s)])
    ensures LeadingDigits(s) < |s| ==> !IsDigit(s[LeadingDigits(s)])
    decreases |s|
  {
    if |s| > 0 && IsDigit(s[0]) {
      LeadingDigitsRun(s[1..]);
      assert s[..LeadingDigits(s)] == [s[0]] + s[1..][..LeadingDigits(s[1..])];
    }
  }

  /** The value of a run of digits read left to right. */
  function DigitsValue(s: string): nat
    requires AllDigits(s)
  {
    if |s| == 0 then 0 else 10 * DigitsValue(s[..|s| - 1]) + DigitValue(s[|s| - 1])
  }

  /** `sscanf(s, "%d", &n)`: white space is skipped, then an optional sign,
      then at least one digit; the conversion stops at the first non-digit
      and the rest of the text is ignored.  `None` when no digit comes (the
      call returns 0). */
  function ScanInt(s: string): Option<int>
    decreases |s|
  {
    if |s| > 0 && IsSpace(s[0]) then ScanInt(s[1..])
    else if |s| > 0 && s[0] == '-' then ScanDigits(s[1..], true)
    else if |s| > 0 && s[0] == '+' then ScanDigits(s[1..], false)
    else ScanDigits(s, false)
  }

  /** The digit run that starts `u`, negated after a minus sign. */
  function ScanDigits(u: string, negative: bool): Option<int> {
    var k := LeadingDigits(u);
    if k == 0 then None
    else
      LeadingDigitsRun(u);
      var magnitude: int := DigitsValue(u[..k]);
      Some(if negative then -magnitude else magnitude)
  }

  /** Leading white space does not change what is read. */
  lemma {:induction false} ScanSkipsSpace(sp: string, s: string)
    requires forall i :: 0 <= i < |sp| ==> IsSpace(sp[i])
    ensures ScanInt(sp + s) == ScanInt(s)
    decreases |sp|
  {
    if |sp| > 0 {
      assert (sp + s)[1..] == sp[1..] + s;
      ScanSkipsSpace(sp[1..], s);
    } else {
      assert sp + s == s;
    }
  }

  lemma {:induction false} DigitsValueOfDigits(n: nat)
    ensures AllDigits(Digits(n)) && DigitsValue(Digits(n)) == n
    decreases n
  {
    DigitsAreDigits(n);
    if n >= 10 {
      DigitsValueOfDigits(n / 10);
      var s := Digits(n);
      assert s[..|s| - 1] == Digits(n / 10);
    }
  }

  lemma {:induction false} LeadingDigitsOfDigitRun(s: string, rest: string)
    requires AllDigits(s)
    requires rest == [] || !IsDigit(rest[0])
    ensures LeadingDigits(s + rest) == |s|
    decreases |s|
  {
    if |s| > 0 {
      assert (s + rest)[1..] == s[1..] + rest;
      LeadingDigitsOfDigitRun(s[1..], rest);
    } else {
      assert s + rest == rest;
    }
  }

  /** Scanning a digit run that starts the text reads exactly that run. */
  lemma ScanDigitRun(d: string, rest: string)
    requires |d| > 0 && AllDigits(d)
    requires rest == [] || !IsDigit(rest[0])
    ensures ScanInt(d + rest) == Some(DigitsValue(d) as int)
  {
    var s := d + rest;
    assert s[0] == d[0] && IsDigit(s[0]) && !IsSpace(s[0]);
    assert ScanInt(s) == ScanDigits(s, false);
    LeadingDigitsOfDigitRun(d, rest);
    assert s[..|d|] == d;
  }

  /** Scanning a minus sign and a digit run reads the negated run. */
  lemma ScanNegatedDigitRun(s: string, d: string, rest: string)
    requires |d| > 0 && AllDigits(d)
    requires rest == [] || !IsDigit(rest[0])
    requires s == ['-'] + (d + rest)
    ensures ScanInt(s) == Some(0 - DigitsValue(d))
  {
    var u := d + rest;
    assert s[0] == '-' && !IsSpace(s[0]) && s[1..] == u;
    assert ScanInt(s) == ScanDigits(u, true);
    LeadingDigitsOfDigitRun(d, rest);
    assert u[..|d|] == d;
  }

  /** `%ld` and `%d` are inverse: scanning a printed integer gives it back,
      whatever non-digit text follows it. */
  lemma {:induction false} ScanDecimal(n: int, rest: string)
    requires rest == [] || !IsDigit(rest[0])
    ensures ScanInt(Decimal(n) + rest) == Some(n)
  {
    if n < 0 {
      DigitsValueOfDigits(-n);
      assert Decimal(n) + rest == ['-'] + (Digits(-n) + rest);
      ScanNegatedDigitRun(Decimal(n) + rest, Digits(-n), rest);
    } else {
      DigitsValueOfDigits(n);
      ScanDigitRun(Digits(n), rest);
    }
  }

  // ---------------------------------------------------------------------
  // Fixed-width integers
  // ---------------------------------------------------------------------

  /** `strtoimax`, which the C library's `%d` conversion uses, saturates at
      the bounds of a 64-bit `intmax_t`. */
  function Clamp64(n: int): (r: int)
    ensures -0x8000_0000_0000_0000 <= r < 0x8000_0000_0000_0000
    ensures -0x8000_0000_0000_0000 <= n < 0x8000_0000_0000_0000 ==> r == n
  {
    if n < -0x8000_0000_0000_0000 then -0x8000_0000_0000_0000
    else if n >= 0x8000_0000_0000_0000 then 0x7FFF_FFFF_FFFF_FFFF
    else n
  }

  /** Converting a wider integer to a 32-bit `int`: the low 32 bits, read as
      two's complement. */
  function Int32(n: int): (r: int)
    ensures -0x8000_0000 <= r < 0x8000_0000
    ensures -0x8000_0000 <= n < 0x8000_0000 ==> r == n
  {
    var u := n % 0x1_0000_0000;
    if u < 0x8000_0000 then u else u - 0x1_0000_0000
  }

  /** A number printed in decimal reads back through the 64-bit clamp and
      the 32-bit conversion. */
  lemma {:induction false} ScanInt32Decimal(n: int)
    ensures ScanInt32(Decimal(n)) == Some(Int32(Clamp64(n)))
  {
    ScanDecimal(n, "");
    assert Decimal(n) + "" == Decimal(n);
  }

  /** The conversion changes a value by a multiple of 2^32 only. */
  lemma Int32Wraps(n: int)
    ensures (n - Int32(n)) % 0x1_0000_0000 == 0
  {
  }

  /** `sscanf(s, "%d", &n)` with a 32-bit `n`: the value read, saturated by
      `strtoimax` and cut to 32 bits as the C library stores it (the C
      standard leaves a value outside `int` undefined). */
  function ScanInt32(s: string): (r: Option<int>)
    ensures r.Some? <==> ScanInt(s).Some?
    ensures r.Some? && -0x8000_0000 <= ScanInt(s).value < 0x8000_0000 ==> r.value == ScanInt(s).value
  {
    match ScanInt(s)
    case None => None
    case Some(n) => Some(Int32(Clamp64(n)))
  }

  // ---------------------------------------------------------------------
  // printf field widths
  // ---------------------------------------------------------------------

  function Spaces(n: nat): (s: string)
    ensures |s| == n
  {
    seq(n, _ => ' ')
  }

  /** `%-w.ws`: the first `w` characters of `s`, left-justified and padded
      with spaces to exactly `w` columns. */
  function LeftField(s: string, w: nat): (r: string)
    ensures |r| == w
  {
    var k := Min(|s|, w);
    s[..k] + Spaces(w - k)
  }

  /** The field holds the text cut to `w` characters, then spaces. */
  lemma LeftFieldShape(s: string, w: nat)
    ensures var r := LeftField(s, w);
      && r[..Min(|s|, w)] == s[..Min(|s|, w)]
      && forall i :: Min(|s|, w) <= i < w ==> r[i] == ' '
  {
  }

  /** `%wld` and friends: right-justified in at least `w` columns. */
  function RightJustify(s: string, w: nat): (r: string)
    ensures |r| == Max(|s|, w)
  {
    if |s| >= w then s else Spaces(w - |s|) + s
  }

  /** The text ends the field, after the padding. */
  lemma RightJustifyShape(s: string, w: nat)
    ensures var r := RightJustify(s, w);
      && r[|r| - |s|..] == s
      && forall i :: 0 <= i < |r| - |s| ==> r[i] == ' '
  {
  }

  // ---------------------------------------------------------------------
  // Case-insensitive comparison
  // ---------------------------------------------------------------------

  /** ASCII case folding, standing in for CoreFoundation's
      `kCFCompareCaseInsensitive`. */
  function Lower(c: char): char {
    if 'A' <= c <= 'Z' then (c as int + 32) as char else c
  }

  function FoldCase(s: string): string
    decreases |s|
  {
    if |s| == 0 then [] else FoldCase(s[..|s| - 1]) + [Lower(s[|s| - 1])]
  }

  predicate SameIgnoringCase(a: string, b: string) {
    FoldCase(a) == FoldCase(b)
  }
}
