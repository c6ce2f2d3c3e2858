// Decimal strings as Go's fmt and strconv write and read them: %d, %020d,
// TrimLeft(s, "0"), ParseInt(s, 10, 64), and the byte order of strings.
module Decimal {
  import opened Base

  const MAX_INT64: int := 0x7fff_ffff_ffff_ffff
  const MIN_INT64: int := -0x8000_0000_0000_0000

  predicate IsDigit(c: char) {
    '0' <= c <= '9'
  }

  function DigitOf(c: char): nat
    requires IsDigit(c)
  {
    (c as int) - ('0' as int)
  }

  function CharOf(d: nat): (c: char)
    requires d < 10
    ensures IsDigit(c) && DigitOf(c) == d
  {
    (('0' as int) + d) as char
  }

  predicate AllDigits(s: string) {
    forall i :: 0 <= i < |s| ==> IsDigit(s[i])
  }

  function Pow10(k: nat): (r: nat)
    ensures r >= 1
  {
    if k == 0 then 1 else 10 * Pow10(k - 1)
  }

  function Value(s: string): nat
    requires AllDigits(s)
  {
    if s == [] then 0 else DigitOf(s[0]) * Pow10(|s| - 1) + Value(s[1..])
  }

  // %d of a number that is not negative.
  function Digits(n: nat): string {
    if n < 10 then [CharOf(n)] else Digits(n / 10) + [CharOf(n % 10)]
  }

  function Zeros(k: nat): string {
    if k == 0 then [] else ['0'] + Zeros(k - 1)
  }

  // %0<width>d
  function Padded(n: nat, width: nat): string {
    var s := Digits(n);
    Zeros(if |s| < width then width - |s| else 0) + s
  }

  function TrimZeros(s: string): string {
    if s != [] && s[0] == '0' then TrimZeros(s[1..]) else s
  }

  function ParseInt(s: string): Option<int> {
    var (negative, body) :=
      if s != [] && s[0] == '-' then (true, s[1..])
      else if s != [] && s[0] == '+' then (false, s[1..])
      else (false, s);
    if body == [] || !AllDigits(body) then None
    else
      var n: int := if negative then -(Value(body) as int) else Value(body);
      if MIN_INT64 <= n <= MAX_INT64 then Some(n) else None
  }

  // Bytewise order of strings.
  predicate Less(a: string, b: string) {
    if b == [] then false
    else if a == [] then true
    else a[0] < b[0] || (a[0] == b[0] && Less(a[1..], b[1..]))
  }

  lemma {:induction false} ValueSnoc(s: string, c: char)
    requires AllDigits(s) && IsDigit(c)
    ensures AllDigits(s + [c]) && Value(s + [c]) == 10 * Value(s) + DigitOf(c)
    decreases |s|
  {
    if s == [] {
      assert [] + [c] == [c] && [c][1..] == [];
    } else {
      ValueSnoc(s[1..], c);
      var t := s + [c];
      assert t[0] == s[0] && t[1..] == s[1..] + [c];
      assert Value(t) == DigitOf(s[0]) * Pow10(|s|) + Value(t[1..]);
      Shift(DigitOf(s[0]), Pow10(|s| - 1), Pow10(|s|));
    }
  }

  lemma Shift(d: int, p: int, q: int)
    requires q == 10 * p
    ensures d * q == 10 * (d * p)
  {
  }

  lemma {:induction false} ValueOfDigits(n: nat)
    ensures AllDigits(Digits(n)) && Value(Digits(n)) == n
    ensures |Digits(n)| > 0 && (n > 0 ==> Digits(n)[0] != '0')
  {
    if n < 10 {
      assert [CharOf(n)][1..] == [];
      assert n > 0 ==> DigitOf(CharOf(n)) != DigitOf('0');
    } else {
      ValueOfDigits(n / 10);
      ValueSnoc(Digits(n / 10), CharOf(n % 10));
    }
  }

  lemma {:induction false} ValueBound(s: string)
    requires AllDigits(s)
    ensures Value(s) < Pow10(|s|)
    decreases |s|
  {
    if s != [] {
      ValueBound(s[1..]);
      LeadingDigit(DigitOf(s[0]), 10, Pow10(|s| - 1), Value(s[1..]), 0);
    }
  }

  lemma Mul(d: int, e: int, p: int)
    requires d <= e && p >= 0
    ensures d * p <= e * p
  {
  }

  // The leading digit decides.
  lemma LeadingDigit(d: int, e: int, p: int, x: int, y: int)
    requires d < e && 0 <= x < p && y >= 0
    ensures d * p + x < e * p + y
  {
    Mul(d + 1, e, p);
    assert (d + 1) * p == d * p + p;
  }

  lemma {:induction false} PaddingKeepsValue(k: nat, s: string)
    requires AllDigits(s)
    ensures AllDigits(Zeros(k) + s) && Value(Zeros(k) + s) == Value(s) && |Zeros(k)| == k
    ensures s == [] || s[0] != '0' ==> TrimZeros(Zeros(k) + s) == s
    decreases k
  {
    if k == 0 {
      assert [] + s == s;
    } else {
      PaddingKeepsValue(k - 1, s);
      assert Zeros(k) + s == ['0'] + (Zeros(k - 1) + s);
      assert (Zeros(k) + s)[1..] == Zeros(k - 1) + s;
    }
  }

  lemma {:induction false} DigitsFit(n: nat, width: nat)
    requires width > 0 && n < Pow10(width)
    ensures |Digits(n)| <= width
    decreases width
  {
    if n >= 10 {
      assert Pow10(1) == 10;
      assert Pow10(width) == 10 * Pow10(width - 1);
      DigitsFit(n / 10, width - 1);
    }
  }

  // A number that fits has as many digits as the width; its value survives.
  lemma PaddedFits(n: nat, width: nat)
    requires width > 0 && n < Pow10(width)
    ensures |Padded(n, width)| == width && AllDigits(Padded(n, width)) && Value(Padded(n, width)) == n
    ensures n > 0 ==> TrimZeros(Padded(n, width)) == Digits(n)
  {
    DigitsFit(n, width);
    ValueOfDigits(n);
    PaddingKeepsValue(width - |Digits(n)|, Digits(n));
  }

  // Between digit strings of one length the byte order is the order of the values.
  lemma {:induction false} LessIsNumeric(a: string, b: string)
    requires AllDigits(a) && AllDigits(b) && |a| == |b|
    ensures Less(a, b) <==> Value(a) < Value(b)
    decreases |a|
  {
    if a != [] {
      LessIsNumeric(a[1..], b[1..]);
      ValueBound(a[1..]);
      ValueBound(b[1..]);
      var p := Pow10(|a| - 1);
      if a[0] < b[0] {
        LeadingDigit(DigitOf(a[0]), DigitOf(b[0]), p, Value(a[1..]), Value(b[1..]));
      } else if b[0] < a[0] {
        LeadingDigit(DigitOf(b[0]), DigitOf(a[0]), p, Value(b[1..]), Value(a[1..]));
      }
    }
  }
}
