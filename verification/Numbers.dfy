// Numbers as they are written, and what strtol makes of them.
module Numbers {
  import opened CStrings

  predicate AllDigits(ds: string, base: nat) {
    forall i :: 0 <= i < |ds| ==> IsDigit(ds[i], base)
  }

  // What a string of digits stands for: the last digit counts once, and every other one base
  // times what it would count without it.
  function Value(ds: string, base: nat): nat
    requires AllDigits(ds, base)
  {
    if |ds| == 0 then 0 else Value(ds[..|ds| - 1], base) * base + DigitValue(ds[|ds| - 1])
  }

  function DigitChar(d: nat, upper: bool): char
    requires d < 16
  {
    if upper then "0123456789ABCDEF"[d] else "0123456789abcdef"[d]
  }

  lemma DigitCharIsDigit(d: nat, base: nat, upper: bool)
    requires d < base <= 16
    ensures IsDigit(DigitChar(d, upper), base) && DigitValue(DigitChar(d, upper)) == d
  {
  }

  // n as it is printed.
  function Numeral(n: nat, base: nat, upper: bool): (s: string)
    requires 2 <= base <= 16
    ensures |s| > 0
  {
    if n < base then [DigitChar(n, upper)] else Numeral(n / base, base, upper) + [DigitChar(n % base, upper)]
  }

  lemma OneMoreDigit(ds: string, c: char, base: nat)
    requires AllDigits(ds, base) && IsDigit(c, base)
    ensures AllDigits(ds + [c], base) && Value(ds + [c], base) == Value(ds, base) * base + DigitValue(c)
  {
    assert (ds + [c])[..|ds|] == ds;
  }

  lemma Quotient(n: nat, base: nat)
    requires 2 <= base <= n
    ensures 0 < n / base < n && n % base < base && n == n / base * base + n % base
  {
  }

  // Printing and reading a number.
  lemma {:induction false} NumeralIsRead(n: nat, base: nat, upper: bool)
    requires 2 <= base <= 16
    ensures AllDigits(Numeral(n, base, upper), base) && Value(Numeral(n, base, upper), base) == n
    decreases n
  {
    if n < base {
      DigitCharIsDigit(n, base, upper);
      assert "" + [DigitChar(n, upper)] == [DigitChar(n, upper)];
      OneMoreDigit("", DigitChar(n, upper), base);
    } else {
      Quotient(n, base);
      DigitCharIsDigit(n % base, base, upper);
      NumeralIsRead(n / base, base, upper);
      OneMoreDigit(Numeral(n / base, base, upper), DigitChar(n % base, upper), base);
    }
  }

  lemma {:induction false} DigitsAreRead(ds: string, t: string, base: nat)
    requires AllDigits(ds, base)
    ensures Digits(ds + t, base, 0) == Digits(t, base, Value(ds, base))
    decreases |ds|
  {
    if |ds| == 0 {
      assert ds + t == t;
    } else {
      var most, c := ds[..|ds| - 1], ds[|ds| - 1];
      assert ds + t == most + ([c] + t);
      DigitsAreRead(most, [c] + t, base);
      assert ([c] + t)[1..] == t;
    }
  }

  // ----- strtol -----

  // ' ', \t, \n, \v, \f and \r.
  predicate White(c: char) {
    c as int == 32 || 9 <= c as int <= 13
  }

  lemma {:induction false} WhiteIsSkipped(ws: string, t: string)
    requires forall i :: 0 <= i < |ws| ==> White(ws[i])
    ensures SkipSpace(ws + t) == SkipSpace(t)
  {
    if |ws| == 0 {
      assert ws + t == t;
    } else {
      assert (ws + t)[1..] == ws[1..] + t;
      WhiteIsSkipped(ws[1..], t);
    }
  }

  // Where the digits of a number of that base end.
  predicate NoDigitNext(t: string, base: nat) {
    t == "" || !IsDigit(t[0], base)
  }

  predicate Sign(sign: string) {
    sign == "" || sign == "+" || sign == "-"
  }

  function Signed(sign: string, value: nat): int {
    if sign == "-" then -(value as int) else value
  }

  // The digits ds, after which others or the x of a 0x might follow.
  predicate WholeNumber(ds: string, t: string, base: nat) {
    && AllDigits(ds, base) && NoDigitNext(t, base)
    && (base == 16 && ds == "0" && t != "" ==> t[0] != 'x' && t[0] != 'X')
  }

  lemma NumberIsRead(ds: string, t: string, base: nat)
    requires WholeNumber(ds, t, base) && (base == 10 || base == 16)
    ensures (if base == 16 then HexDigits(ds + t) else Digits(ds + t, base, 0)) == Value(ds, base)
  {
    DigitsAreRead(ds, t, base);
  }

  lemma PrefixedIsRead(x: char, ds: string, t: string)
    requires (x == 'x' || x == 'X') && ds != "" && AllDigits(ds, 16) && NoDigitNext(t, 16)
    ensures HexDigits(['0', x] + ds + t) == Value(ds, 16)
  {
    DigitsAreRead(ds, t, 16);
    var s := ['0', x] + ds + t;
    assert s[2..] == ds + t;
    assert s[2] == ds[0];
  }

  lemma SignIsTaken(ws: string, sign: string, u: string, base: nat)
    requires (forall i :: 0 <= i < |ws| ==> White(ws[i])) && Sign(sign)
    requires sign == "" && u != "" ==> !White(u[0]) && u[0] != '+' && u[0] != '-'
    ensures Strtol(ws + sign + u, base) == Clamp(Signed(sign, if base == 16 then HexDigits(u) else Digits(u, base, 0)))
  {
    assert ws + sign + u == ws + (sign + u);
    WhiteIsSkipped(ws, sign + u);
    if sign == "" {
      assert sign + u == u;
    } else {
      assert (sign + u)[0] == sign[0] && (sign + u)[1..] == u;
    }
  }

  // White space, a sign, digits, and something that is no digit: strtol returns the number the
  // digits stand for, or the end of the range of long that it is beyond; with no digits, 0.
  lemma StrtolReads(ws: string, sign: string, ds: string, t: string, base: nat)
    requires base == 10 || base == 16
    requires (forall i :: 0 <= i < |ws| ==> White(ws[i])) && Sign(sign) && WholeNumber(ds, t, base)
    requires sign == "" && ds == "" && t != "" ==> !White(t[0]) && t[0] != '+' && t[0] != '-'
    ensures Strtol(ws + sign + ds + t, base) == Clamp(Signed(sign, Value(ds, base)))
  {
    assert ws + sign + ds + t == ws + sign + (ds + t);
    assert ds != "" ==> (ds + t)[0] == ds[0];
    assert ds == "" ==> ds + t == t;
    NumberIsRead(ds, t, base);
    SignIsTaken(ws, sign, ds + t, base);
  }

  // Likewise behind a 0x.
  lemma StrtolReadsPrefixed(ws: string, sign: string, x: char, ds: string, t: string)
    requires (forall i :: 0 <= i < |ws| ==> White(ws[i])) && Sign(sign)
    requires (x == 'x' || x == 'X') && ds != "" && AllDigits(ds, 16) && NoDigitNext(t, 16)
    ensures Strtol(ws + sign + (['0', x] + ds + t), 16) == Clamp(Signed(sign, Value(ds, 16)))
  {
    PrefixedIsRead(x, ds, t);
    SignIsTaken(ws, sign, ['0', x] + ds + t, 16);
  }

  // Clamp gives the value itself, or the end of the range it is beyond.
  lemma ClampIs(v: int)
    ensures -0x8000_0000_0000_0000 <= Clamp(v) <= 0x7FFF_FFFF_FFFF_FFFF
    ensures -0x8000_0000_0000_0000 <= v <= 0x7FFF_FFFF_FFFF_FFFF ==> Clamp(v) == v
    ensures v > 0x7FFF_FFFF_FFFF_FFFF ==> Clamp(v) == 0x7FFF_FFFF_FFFF_FFFF
    ensures v < -0x8000_0000_0000_0000 ==> Clamp(v) == -0x8000_0000_0000_0000
  {
  }

  // A printed number is read as itself, whatever other than a digit follows.
  lemma PrintedIsRead(n: nat, base: nat, upper: bool, t: string)
    requires (base == 10 || base == 16) && n <= LONG_MAX && NoDigitNext(t, base)
    requires base == 16 && t != "" ==> t[0] != 'x' && t[0] != 'X'
    ensures Strtol(Numeral(n, base, upper) + t, base) == n
  {
    var ds := Numeral(n, base, upper);
    NumeralIsRead(n, base, upper);
    StrtolReads("", "", ds, t, base);
    assert "" + "" + ds + t == ds + t;
  }
}
