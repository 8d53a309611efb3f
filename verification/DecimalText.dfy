/** Decimal numbers as Rust's `format!` writes them. */
module DecimalText {
  function Digit(d: nat): char
    requires d < 10
  {
    '0' + d as char
  }

  function Digits(n: nat): (s: string)
    ensures |s| > 0
  {
    if n < 10 then [Digit(n)] else Digits(n / 10) + [Digit(n % 10)]
  }

  function Repeat(c: char, n: nat): (s: string)
    ensures |s| == n
  {
    seq(n, _ => c)
  }

  /** `{n}` */
  function Decimal(n: int): string {
    if n < 0 then "-" + Digits(-n) else Digits(n)
  }

  /** `{n:0width}`: zeros between the sign and the digits, the sign counting towards the width. */
  function ZeroPadded(n: int, width: nat): string {
    var sign := if n < 0 then "-" else "";
    var digits := Digits(if n < 0 then -n else n);
    sign + Repeat('0', if |sign| + |digits| < width then width - |sign| - |digits| else 0) + digits
  }

  /** `{n:width}`: spaces in front. */
  function SpacePadded(n: int, width: nat): string {
    var digits := Decimal(n);
    Repeat(' ', if |digits| < width then width - |digits| else 0) + digits
  }

  // ---- Reading the text back ----

  /** The number a digit string denotes, leading zeros allowed. */
  function Value(s: string): int {
    if s == [] then 0 else 10 * Value(s[..|s| - 1]) + (s[|s| - 1] as int - '0' as int)
  }

  /** The number an optional minus sign and digits denote. */
  function SignedValue(s: string): int {
    if s != [] && s[0] == '-' then -Value(s[1..]) else Value(s)
  }

  lemma {:induction false} ValueOfDigits(n: nat)
    ensures Value(Digits(n)) == n
    ensures forall c :: c in Digits(n) ==> '0' <= c <= '9'
  {
    if n < 10 {
      assert Value([]) == 0;
      assert [Digit(n)][..0] == [];
    } else {
      ValueOfDigits(n / 10);
      assert Digits(n)[..|Digits(n)| - 1] == Digits(n / 10);
    }
  }

  lemma {:induction false} ValueOfZeros(k: nat, s: string)
    ensures Value(Repeat('0', k) + s) == Value(s)
    decreases |s|, k
  {
    var t := Repeat('0', k) + s;
    if s != [] {
      ValueOfZeros(k, s[..|s| - 1]);
      assert t[..|t| - 1] == Repeat('0', k) + s[..|s| - 1];
    } else if k > 0 {
      ValueOfZeros(k - 1, s);
      assert t[..|t| - 1] == Repeat('0', k - 1) + s;
    }
  }

  /** `format!` loses nothing. */
  lemma DecimalReadsBack(n: int)
    ensures SignedValue(Decimal(n)) == n
  {
    ValueOfDigits(if n < 0 then -n else n);
    if n < 0 {
      assert Decimal(n)[1..] == Digits(-n);
    } else {
      assert Digits(n)[0] in Digits(n);
    }
  }

  lemma ZeroPaddedReadsBack(n: nat, width: nat)
    ensures Value(ZeroPadded(n, width)) == n
  {
    ValueOfDigits(n);
    var k := if |Digits(n)| < width then width - |Digits(n)| else 0;
    ValueOfZeros(k, Digits(n));
    assert ZeroPadded(n, width) == Repeat('0', k) + Digits(n);
  }

  /** Padding keeps negative numbers too, whatever the width. */
  lemma SignedPaddedReadsBack(n: int, width: nat)
    ensures SignedValue(ZeroPadded(n, width)) == n
  {
    if 0 <= n {
      ZeroPaddedReadsBack(n, width);
      ValueOfDigits(n);
      assert Digits(n)[0] in Digits(n);
    } else {
      ValueOfDigits(-n);
      var k := if 1 + |Digits(-n)| < width then width - 1 - |Digits(-n)| else 0;
      ValueOfZeros(k, Digits(-n));
      assert ZeroPadded(n, width) == "-" + (Repeat('0', k) + Digits(-n));
      assert ZeroPadded(n, width)[1..] == Repeat('0', k) + Digits(-n);
    }
  }

  lemma TwoDigitsWide(n: nat)
    requires n < 100
    ensures |ZeroPadded(n, 2)| == 2
  {
    assert n >= 10 ==> Digits(n) == Digits(n / 10) + [Digit(n % 10)] && Digits(n / 10) == [Digit(n / 10)];
  }

  lemma FourDigitsWide(n: nat)
    requires n < 10_000
    ensures |ZeroPadded(n, 4)| == 4
  {
    assert n >= 10 ==> |Digits(n)| == |Digits(n / 10)| + 1;
    assert n >= 100 ==> |Digits(n / 10)| == |Digits(n / 10 / 10)| + 1;
    assert n >= 1000 ==> |Digits(n / 10 / 10)| == |Digits(n / 10 / 10 / 10)| + 1;
  }
}
