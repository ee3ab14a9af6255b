/** Decimal text: `%d` and `%f` of the printf family (section 7.21.6.1 of ISO/IEC 9899:2011) and `atoi` (section
    7.22.1.2), on unbounded integers. */
module Decimal {
  import opened Base

  predicate IsDigit(c: char) {
    '0' <= c <= '9'
  }

  function DigitChar(d: nat): char
    requires d < 10
  {
    '0' + d as char
  }

  function DigitValue(c: char): nat
    requires IsDigit(c)
  {
    (c - '0') as nat
  }

  // The decimal digits of n, without leading zeros.
  function Digits(n: nat): (text: string)
    ensures |text| > 0 && forall i | 0 <= i < |text| :: IsDigit(text[i])
  {
    if n < 10 then [DigitChar(n)] else Digits(n / 10) + [DigitChar(n % 10)]
  }

  // The last `count` digits of n, with leading zeros.
  function Padded(n: nat, count: nat): (text: string)
    ensures |text| == count
  {
    if count == 0 then "" else Padded(n / 10, count - 1) + [DigitChar(n % 10)]
  }

  // "%d"
  function PrintInt(v: int): string {
    if v < 0 then "-" + Digits(-v) else Digits(v)
  }

  // A finite float as "%f" shows it: a sign, which zero has too, and a whole number of millionths.
  datatype Float = Float(negative: bool, millionths: nat)

  // "%f", six decimals
  function PrintFloat(f: Float): string {
    (if f.negative then "-" else "") + Digits(f.millionths / 1000000) + "." + Padded(f.millionths, 6)
  }

  predicate IsSpace(c: char) {
    c == ' ' || '\t' <= c <= '\r'
  }

  function SkipSpaces(s: string): string {
    if |s| > 0 && IsSpace(s[0]) then SkipSpaces(s[1..]) else s
  }

  // The value of the longest run of digits that s starts with, added to what was read so far.
  function ReadDigits(s: string, value: nat): nat {
    if |s| > 0 && IsDigit(s[0]) then ReadDigits(s[1..], 10 * value + DigitValue(s[0])) else value
  }

  // The number that atoi reads, before it is made to fit an int: spaces, a sign, digits, and anything after them.
  function Atoi(s: string): int {
    var t := SkipSpaces(s);
    if |t| > 0 && t[0] == '-' then 0 - ReadDigits(t[1..], 0)
    else if |t| > 0 && t[0] == '+' then ReadDigits(t[1..], 0)
    else ReadDigits(t, 0)
  }

  function Pow10(k: nat): nat {
    if k == 0 then 1 else 10 * Pow10(k - 1)
  }

  lemma {:induction false} DigitsLength(n: nat, k: nat)
    requires k > 0 && n < Pow10(k)
    ensures |Digits(n)| <= k
  {
    if n >= 10 {
      DigitsLength(n / 10, k - 1);
    }
  }

  // ---------------------------------------------------------------- what atoi reads

  predicate AllDigits(s: string) {
    forall i | 0 <= i < |s| :: IsDigit(s[i])
  }

  predicate AllSpaces(s: string) {
    forall i | 0 <= i < |s| :: IsSpace(s[i])
  }

  predicate StartsWithDigit(s: string) {
    |s| > 0 && IsDigit(s[0])
  }

  predicate StartsWithSign(s: string) {
    |s| > 0 && (s[0] == '-' || s[0] == '+')
  }

  // Positional value of a run of digits, put after a number that is already there.
  function ValueFrom(start: nat, digits: string): nat
    requires AllDigits(digits)
  {
    if |digits| == 0 then start else 10 * ValueFrom(start, Init(digits)) + DigitValue(Last(digits))
  }

  // The parts of a text as the C standard describes them: white space, an optional sign, digits, and the rest.
  datatype Parts = Parts(spaces: string, sign: string, digits: string, rest: string) {
    predicate Proper() {
      && AllSpaces(spaces) && AllDigits(digits) && !StartsWithDigit(rest)
      && (sign == "" || sign == "-" || sign == "+")
      && (sign == "" && digits == "" ==> !StartsWithSign(rest) && (|rest| == 0 || !IsSpace(rest[0])))
    }

    function Text(): string {
      spaces + (sign + (digits + rest))
    }

    function Value(): int
      requires Proper()
    {
      if sign == "-" then 0 - ValueFrom(0, digits) else ValueFrom(0, digits)
    }
  }

  lemma {:induction false} ValueShift(start: nat, d: char, digits: string)
    requires IsDigit(d) && AllDigits(digits)
    ensures ValueFrom(start, [d] + digits) == ValueFrom(10 * start + DigitValue(d), digits)
  {
    if |digits| == 0 {
      assert Init([d] + digits) == "";
    } else {
      ValueShift(start, d, Init(digits));
      assert Init([d] + digits) == [d] + Init(digits);
    }
  }

  lemma {:induction false} ReadRun(start: nat, digits: string, rest: string)
    requires AllDigits(digits) && !StartsWithDigit(rest)
    ensures ReadDigits(digits + rest, start) == ValueFrom(start, digits)
    decreases |digits|
  {
    if |digits| == 0 {
      assert digits + rest == rest;
    } else {
      var tail := digits[1..];
      assert (digits + rest)[1..] == tail + rest && digits == [digits[0]] + tail;
      ReadRun(10 * start + DigitValue(digits[0]), tail, rest);
      ValueShift(start, digits[0], tail);
    }
  }

  lemma {:induction false} SkipRun(spaces: string, rest: string)
    requires AllSpaces(spaces) && (|rest| == 0 || !IsSpace(rest[0]))
    ensures SkipSpaces(spaces + rest) == rest
  {
    if |spaces| == 0 {
      assert spaces + rest == rest;
    } else {
      assert (spaces + rest)[1..] == spaces[1..] + rest;
      SkipRun(spaces[1..], rest);
    }
  }

  /** atoi reads the number that the standard describes: sign and positional value of the digits, with leading white
      space and everything after the digits ignored, and 0 if there are no digits. */
  lemma {:induction false} AtoiReads(p: Parts)
    requires p.Proper()
    ensures Atoi(p.Text()) == p.Value()
  {
    var body := p.digits + p.rest;
    var t := p.sign + body;
    assert |t| > 0 ==> t[0] == if p.sign != "" then p.sign[0] else if p.digits != "" then p.digits[0] else p.rest[0];
    SkipRun(p.spaces, t);
    ReadRun(0, p.digits, p.rest);
    if p.sign == "" {
      assert t == body;
    } else {
      assert t[1..] == body;
    }
  }

  lemma {:induction false} SplitSpaces(s: string) returns (spaces: string, rest: string)
    ensures s == spaces + rest && AllSpaces(spaces) && (|rest| == 0 || !IsSpace(rest[0]))
  {
    if |s| > 0 && IsSpace(s[0]) {
      spaces, rest := SplitSpaces(s[1..]);
      spaces := [s[0]] + spaces;
    } else {
      spaces, rest := "", s;
    }
  }

  lemma {:induction false} SplitDigits(s: string) returns (digits: string, rest: string)
    ensures s == digits + rest && AllDigits(digits) && !StartsWithDigit(rest)
  {
    if StartsWithDigit(s) {
      digits, rest := SplitDigits(s[1..]);
      digits := [s[0]] + digits;
    } else {
      digits, rest := "", s;
    }
  }

  /** Every text has such parts, so `AtoiReads` says what atoi returns for every text. */
  lemma {:induction false} EveryTextHasParts(s: string) returns (p: Parts)
    ensures p.Proper() && p.Text() == s
  {
    var spaces, t := SplitSpaces(s);
    var sign := if StartsWithSign(t) then t[..1] else "";
    var digits, rest := SplitDigits(t[|sign|..]);
    p := Parts(spaces, sign, digits, rest);
    assert t == sign + t[|sign|..];
  }

  /** The characters behind these parts: white space is space, tab, line feed, vertical tab, form feed and carriage
      return; the digits stand for their own values; and a digit is printed as it is read. */
  lemma {:induction false} Characters(c: char)
    ensures IsSpace(c) <==> c as int == 32 || 9 <= c as int <= 13
    ensures IsDigit(c) <==> c in "0123456789"
    ensures IsDigit(c) ==> DigitValue(c) < 10 && "0123456789"[DigitValue(c)] == c && DigitChar(DigitValue(c)) == c
  {
    var digits := "0123456789";
    assert digits[0] == '0' && digits[1] == '1' && digits[2] == '2' && digits[3] == '3' && digits[4] == '4';
    assert digits[5] == '5' && digits[6] == '6' && digits[7] == '7' && digits[8] == '8' && digits[9] == '9';
    if IsDigit(c) {
      assert digits[c as int - '0' as int] == c;
    }
  }

  // ---------------------------------------------------------------- printing and reading back

  lemma {:induction false} ValueOfDigits(n: nat)
    ensures ValueFrom(0, Digits(n)) == n
  {
    if n < 10 {
      assert Init(Digits(n)) == "";
    } else {
      ValueOfDigits(n / 10);
      assert Init(Digits(n)) == Digits(n / 10);
    }
  }

  // The padded digits are the number without what is above them.
  lemma {:induction false} ValueOfPadded(n: nat, count: nat) returns (above: nat)
    ensures AllDigits(Padded(n, count)) && ValueFrom(0, Padded(n, count)) < Pow10(count)
    ensures n == above * Pow10(count) + ValueFrom(0, Padded(n, count))
  {
    if count == 0 {
      above := n;
    } else {
      above := ValueOfPadded(n / 10, count - 1);
      assert Init(Padded(n, count)) == Padded(n / 10, count - 1);
      assert above * Pow10(count) == 10 * (above * Pow10(count - 1));
    }
  }

  // No digit is there in vain: the only number that starts with a zero is zero itself.
  lemma {:induction false} NoLeadingZero(n: nat)
    ensures Digits(n)[0] == '0' <==> n == 0
    ensures n == 0 ==> Digits(n) == "0"
  {
    if n >= 10 {
      NoLeadingZero(n / 10);
      assert Digits(n)[0] == Digits(n / 10)[0];
    }
  }

  // A number as it is written: digits without superfluous zeros.
  predicate Numeral(digits: string, n: nat) {
    && |digits| > 0 && AllDigits(digits) && ValueFrom(0, digits) == n
    && (digits[0] == '0' ==> digits == "0")
  }

  /** What "%d" writes: the numeral of the number, after a minus sign exactly if it is negative, and nothing else. */
  lemma {:induction false} IntText(v: int)
    ensures v >= 0 ==> Numeral(PrintInt(v), v)
    ensures v < 0 ==> |PrintInt(v)| > 0 && PrintInt(v)[0] == '-' && Numeral(PrintInt(v)[1..], -v)
  {
    var n := if v < 0 then -v else v;
    ValueOfDigits(n);
    NoLeadingZero(n);
    if v < 0 {
      assert PrintInt(v)[1..] == Digits(n);
    }
  }

  /** What "%f" writes: a minus sign exactly if the float is negative, the numeral of the whole part, a point, and six
      digits that are the millionths. */
  lemma {:induction false} FloatText(f: Float) returns (whole: string, frac: string)
    ensures PrintFloat(f) == (if f.negative then "-" else "") + whole + "." + frac
    ensures Numeral(whole, f.millionths / 1000000)
    ensures |frac| == 6 && AllDigits(frac) && ValueFrom(0, frac) == f.millionths % 1000000
  {
    whole, frac := Digits(f.millionths / 1000000), Padded(f.millionths, 6);
    ValueOfDigits(f.millionths / 1000000);
    NoLeadingZero(f.millionths / 1000000);
    var above := ValueOfPadded(f.millionths, 6);
    assert Pow10(3) == 1000 && Pow10(6) == 1000000;
  }

  // A sign and a number, followed by anything that does not continue the number.
  lemma {:induction false} AtoiOfNumber(negative: bool, n: nat, rest: string)
    requires !StartsWithDigit(rest)
    ensures Atoi((if negative then "-" else "") + Digits(n) + rest) == if negative then 0 - n else n
  {
    var p := Parts("", if negative then "-" else "", Digits(n), rest);
    assert p.Text() == p.sign + Digits(n) + rest;
    AtoiReads(p);
    ValueOfDigits(n);
  }

  /** atoi undoes "%d", for every integer. */
  lemma {:induction false} AtoiOfPrintInt(v: int)
    ensures Atoi(PrintInt(v)) == v
  {
    var n := if v < 0 then -v else v;
    AtoiOfNumber(v < 0, n, "");
    assert PrintInt(v) == (if v < 0 then "-" else "") + Digits(n) + "";
  }

  /** atoi of a printed float is the float truncated toward zero, also for texts such as "-0.500000". */
  lemma {:induction false} AtoiOfPrintFloat(f: Float)
    ensures Atoi(PrintFloat(f)) == if f.negative then 0 - f.millionths / 1000000 else f.millionths / 1000000
  {
    AtoiOfNumber(f.negative, f.millionths / 1000000, "." + Padded(f.millionths, 6));
    assert PrintFloat(f) ==
           (if f.negative then "-" else "") + Digits(f.millionths / 1000000) + ("." + Padded(f.millionths, 6));
  }
}
