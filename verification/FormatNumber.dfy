/** The text of a number as print_num and print_unum send it: digits, sign and padding. */
module FormatNumber {

  const DIGITS: string := "0123456789abcdef"

  function Digit(d: nat): (c: char)
    requires d < 16
    ensures c != '*' && c != '\0' && c != '-'
  {
    DIGITS[d]
  }

  function Quotient(n: nat, base: nat): (q: nat)
    requires base >= 2
    ensures n >= base ==> 0 < q < n
  {
    DividedIsLess(n, base);
    n / base
  }

  function Remainder(n: nat, base: nat): (r: nat)
    requires base >= 2
    ensures r < base
  {
    n % base
  }

  lemma DividedIsLess(n: nat, base: nat)
    requires base >= 2
    ensures n / base >= 0 && (n >= base ==> 0 < n / base < n)
  {
    DivMod(n, base);
    assert base * (n / base) >= 2 * (n / base);
  }

  lemma DivMod(n: nat, base: nat)
    requires base >= 2
    ensures n == base * (n / base) + n % base && n / base >= 0
  {
  }

  lemma Division(n: nat, base: nat)
    requires base >= 2
    ensures n == Quotient(n, base) * base + Remainder(n, base)
  {
  }

  // Most significant digit first
  function Digits(n: nat, base: nat): (t: string)
    requires 2 <= base <= 16
    ensures t != ""
  {
    if n < base then [Digit(n)] else Digits(Quotient(n, base), base) + [Digit(Remainder(n, base))]
  }

  function Signed(n: int, base: nat): (t: string)
    requires 2 <= base <= 16
    ensures t != ""
  {
    if n < 0 then "-" + Digits(-n, base) else Digits(n, base)
  }

  function Fill(c: char, n: int): (t: string)
    ensures |t| == if n > 0 then n else 0
    ensures forall i :: 0 <= i < |t| ==> t[i] == c
  {
    if n > 0 then seq(n, _ => c) else ""
  }

  function Padded(t: string, width: int, c: char, right: bool): string {
    if right then t + Fill(c, width - |t|) else Fill(c, width - |t|) + t
  }

  function NumText(n: int, base: nat, width: int, zero: bool, right: bool): string
    requires 2 <= base <= 16
  {
    Padded(Signed(n, base), width, if zero then '0' else ' ', right)
  }

  // ------------------------------------------------------------------------------------------
  // What the text means
  // ------------------------------------------------------------------------------------------

  function DigitValue(c: char): nat {
    if '0' <= c <= '9' then c as int - '0' as int else if 'a' <= c <= 'f' then c as int - 'a' as int + 10 else 0
  }

  function Value(t: string, base: nat): nat {
    if t == "" then 0 else Value(t[..|t| - 1], base) * base + DigitValue(t[|t| - 1])
  }

  function SignedValue(t: string, base: nat): int {
    if t != "" && t[0] == '-' then (var v: int := Value(t[1..], base); -v) else Value(t, base)
  }

  function Pow(base: nat, k: nat): nat {
    if k == 0 then 1 else base * Pow(base, k - 1)
  }

  lemma DigitMeans(d: nat)
    requires d < 16
    ensures DigitValue(Digit(d)) == d && (Digit(d) == '0' <==> d == 0)
  {
  }

  lemma LastDigit(n: nat, base: nat)
    requires 2 <= base <= 16 && n >= base
    ensures var t := Digits(n, base);
            && t[..|t| - 1] == Digits(Quotient(n, base), base)
            && t[|t| - 1] == Digit(Remainder(n, base))
            && |t| == |Digits(Quotient(n, base), base)| + 1
            && t[0] == Digits(Quotient(n, base), base)[0]
  {
    hide Quotient, Remainder, Digit;
  }

  lemma {:induction false} DigitsMean(n: nat, base: nat)
    requires 2 <= base <= 16
    ensures Value(Digits(n, base), base) == n
    decreases n
  {
    hide Quotient, Remainder, Digit, DigitValue;
    if n >= base {
      LastDigit(n, base);
      DigitMeans(Remainder(n, base));
      DigitsMean(Quotient(n, base), base);
      Division(n, base);
    } else {
      DigitMeans(n);
      OneDigit([Digit(n)], base);
    }
  }

  lemma OneDigit(t: string, base: nat)
    requires |t| == 1
    ensures Value(t, base) == DigitValue(t[0])
  {
    hide DigitValue;
    assert t[..0] == "";
    assert Value("", base) == 0;
  }

  lemma {:induction false} NoLeadingZero(n: nat, base: nat)
    requires 2 <= base <= 16
    ensures Digits(n, base)[0] == '0' <==> n == 0
    ensures Digits(n, base)[0] != '-'
    decreases n
  {
    hide Quotient, Remainder, Digit;
    if n >= base {
      NoLeadingZero(Quotient(n, base), base);
      LastDigit(n, base);
    } else {
      DigitMeans(n);
    }
  }

  // As few digits as there can be.
  lemma {:induction false} DigitsAreMinimal(n: nat, base: nat)
    requires 2 <= base <= 16 && n > 0
    ensures Pow(base, |Digits(n, base)| - 1) <= n < Pow(base, |Digits(n, base)|)
    decreases n
  {
    hide Quotient, Remainder, Digit;
    if n >= base {
      var q := Quotient(n, base);
      DigitsAreMinimal(q, base);
      LastDigit(n, base);
      Division(n, base);
      Scale(n, base, q, Remainder(n, base), Pow(base, |Digits(q, base)| - 1), Pow(base, |Digits(q, base)|));
    }
  }

  lemma Scale(n: nat, base: nat, q: nat, r: nat, low: nat, high: nat)
    requires n == q * base + r && r < base && low <= q < high
    ensures base * low <= n < base * high
  {
    assert base * low <= base * q;
    assert base * (q + 1) <= base * high;
  }

  lemma {:induction false} DigitsAtMost(n: nat, base: nat, k: nat)
    requires 8 <= base <= 16 && k > 0 && n < Pow(8, k)
    ensures |Digits(n, base)| <= k
    decreases k
  {
    hide Quotient, Remainder, Digit;
    if n >= base {
      LastDigit(n, base);
      Division(n, base);
      Divided(n, base, Quotient(n, base), Remainder(n, base), Pow(8, k - 1));
      DigitsAtMost(Quotient(n, base), base, k - 1);
    }
  }

  lemma Divided(n: nat, base: nat, q: nat, r: nat, m: nat)
    requires base >= 8 && n < 8 * m && n == q * base + r
    ensures q < m
  {
    assert q * base >= q * 8;
  }

  // Any 64-bit number fits the 32 bytes of str, sign and all.
  lemma DigitsFit(n: nat, base: nat)
    requires 8 <= base <= 16 && n < 0x1_0000_0000_0000_0000
    ensures |Digits(n, base)| <= 22
  {
    assert Pow(8, 4) == 0x1000;
    PowAdds(8, 4, 4);
    PowAdds(8, 8, 8);
    PowAdds(8, 16, 4);
    PowAdds(8, 20, 2);
    DigitsAtMost(n, base, 22);
  }

  lemma {:induction false} PowAdds(base: nat, a: nat, b: nat)
    ensures Pow(base, a + b) == Pow(base, a) * Pow(base, b)
    decreases a
  {
    if a > 0 {
      PowAdds(base, a - 1, b);
      Associates(base, Pow(base, a - 1), Pow(base, b));
    }
  }

  lemma Associates(x: nat, y: nat, z: nat)
    ensures x * (y * z) == (x * y) * z
  {
  }

  lemma SignedMeans(n: int, base: nat)
    requires 2 <= base <= 16
    ensures SignedValue(Signed(n, base), base) == n
    ensures Signed(n, base)[0] == '0' <==> n == 0
    ensures n < 0 ==> Signed(n, base)[0] == '-' && Signed(n, base)[1] != '0'
  {
    if n < 0 {
      DigitsMean(-n, base);
      NoLeadingZero(-n, base);
      assert Signed(n, base)[1..] == Digits(-n, base);
    } else {
      DigitsMean(n, base);
      NoLeadingZero(n, base);
    }
  }

  // A printed number reads back as itself, has no needless digit, and is as wide as asked or as long as it is.
  lemma PrintedNumber(n: int, base: nat, width: int, zero: bool, right: bool)
    requires 2 <= base <= 16
    ensures var t, d := NumText(n, base, width, zero, right), Signed(n, base);
            && |t| == (if width > |d| then width else |d|)
            && SignedValue(if right then t[..|d|] else t[|t| - |d|..], base) == n
            && (d[0] == '0' <==> n == 0)
            && (forall i :: (if right then |d| <= i < |t| else 0 <= i < |t| - |d|) ==>
                  t[i] == if zero then '0' else ' ')
  {
    var t, d := NumText(n, base, width, zero, right), Signed(n, base);
    SignedMeans(n, base);
    assert (if right then t[..|d|] else t[|t| - |d|..]) == d;
  }
}
