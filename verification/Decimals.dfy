/** Whole numbers written in decimal and read back within 64 bits. */
module Decimals {
  import opened Text

  const MAX_INT := 0x7fff_ffff_ffff_ffff

  predicate Digits(text: string) {
    text != "" && forall i :: 0 <= i < |text| ==> IsDigit(text[i])
  }

  function DecimalValue(text: string): nat
    requires text == "" || Digits(text)
  {
    if text == "" then 0
    else
      var last := text[|text| - 1];
      10 * DecimalValue(text[..|text| - 1]) + (last as int - '0' as int)
  }

  datatype Parsed = Number(n: int) | Malformed

  /** A decimal number with an optional sign, in the range of a 64-bit integer. */
  function Atoi(text: string): Parsed {
    var signed := text != "" && (text[0] == '-' || text[0] == '+');
    var digits := if signed then text[1..] else text;
    if !Digits(digits) then Malformed
    else
      var n: int := DecimalValue(digits);
      if text[0] == '-' then if n > MAX_INT + 1 then Malformed else Number(-n)
      else if n > MAX_INT then Malformed else Number(n)
  }

  /** A number with its sign. */
  function IntText(n: int): (text: string)
    ensures forall c :: c in text ==> IsDigit(c) || c == '-'
  {
    if n < 0 then "-" + Itoa(-n) else Itoa(n)
  }

  lemma {:induction false} ValueOfItoa(n: nat)
    ensures Digits(Itoa(n)) && DecimalValue(Itoa(n)) == n
  {
    if n >= 10 {
      ValueOfItoa(n / 10);
      var text := Itoa(n);
      assert text[..|text| - 1] == Itoa(n / 10);
    } else {
      assert Itoa(n)[..0] == "";
    }
  }

  lemma AtoiOfItoa(n: nat)
    requires n <= MAX_INT
    ensures Atoi(Itoa(n)) == Number(n)
  {
    ValueOfItoa(n);
    assert Itoa(n)[0] in Itoa(n);
  }

  lemma AtoiOfIntText(n: int)
    requires -MAX_INT <= n <= MAX_INT
    ensures Atoi(IntText(n)) == Number(n)
  {
    if n < 0 {
      ValueOfItoa(-n);
      assert ("-" + Itoa(-n))[1..] == Itoa(-n);
    } else {
      AtoiOfItoa(n);
    }
  }

  // ---- numbers of a fixed width ----

  function Zeros(n: nat): (zeros: string)
    ensures |zeros| == n && forall i :: 0 <= i < n ==> zeros[i] == '0'
  {
    seq(n, i => '0')
  }

  /** A number with zeros before it, if it is shorter than the width. */
  function Padded(n: nat, width: nat): (text: string)
    ensures Digits(text) && |text| >= width
  {
    var digits := Itoa(n);
    if |digits| >= width then digits else Zeros(width - |digits|) + digits
  }

  lemma {:induction false} ZerosAddNothing(k: nat, text: string)
    requires Digits(text)
    ensures DecimalValue(Zeros(k) + text) == DecimalValue(text)
    decreases |text|
  {
    var all := Zeros(k) + text;
    assert all[..|all| - 1] == Zeros(k) + text[..|text| - 1] && all[|all| - 1] == text[|text| - 1];
    if |text| == 1 {
      ZerosAreNothing(k);
      assert all[..|all| - 1] == Zeros(k) && text[..0] == "";
    } else {
      ZerosAddNothing(k, text[..|text| - 1]);
    }
  }

  lemma {:induction false} ZerosAreNothing(k: nat)
    ensures DecimalValue(Zeros(k)) == 0
  {
    if k > 0 {
      assert Zeros(k)[..k - 1] == Zeros(k - 1);
      ZerosAreNothing(k - 1);
    }
  }

  lemma ValueOfPadded(n: nat, width: nat)
    ensures DecimalValue(Padded(n, width)) == n
  {
    hide DecimalValue;
    ValueOfItoa(n);
    if |Itoa(n)| < width { ZerosAddNothing(width - |Itoa(n)|, Itoa(n)); }
  }

  /** Digits of one length are told apart by their value. */
  lemma {:induction false} SameValue(a: string, b: string)
    requires Digits(a) && Digits(b) && |a| == |b| && DecimalValue(a) == DecimalValue(b)
    ensures a == b
    decreases |a|
  {
    var n := |a| - 1;
    var x, y := a[n] as int - '0' as int, b[n] as int - '0' as int;
    assert IsDigit(a[n]) && IsDigit(b[n]);
    assert 10 * DecimalValue(a[..n]) + x == 10 * DecimalValue(b[..n]) + y;
    assert x == y && DecimalValue(a[..n]) == DecimalValue(b[..n]);
    if n > 0 { SameValue(a[..n], b[..n]); }
    assert a == a[..n] + [a[n]] && b == b[..n] + [b[n]];
  }

  /** A number is written no longer than any digits of its value. */
  lemma {:induction false} ItoaIsShort(text: string)
    requires Digits(text)
    ensures |Itoa(DecimalValue(text))| <= |text|
    decreases |text|
  {
    var n := |text| - 1;
    assert IsDigit(text[n]);
    if n > 0 {
      ItoaIsShort(text[..n]);
      assert DecimalValue(text) / 10 == DecimalValue(text[..n]);
    } else {
      assert text[..0] == "" && DecimalValue(text) < 10;
    }
  }

  lemma PaddedOfValue(text: string)
    requires Digits(text)
    ensures Padded(DecimalValue(text), |text|) == text
  {
    ItoaIsShort(text);
    ValueOfPadded(DecimalValue(text), |text|);
    SameValue(Padded(DecimalValue(text), |text|), text);
  }

  lemma ItoaWidth(n: nat)
    ensures n < 100 ==> |Itoa(n)| <= 2
    ensures n < 10000 <==> |Itoa(n)| <= 4
  {
    assert n >= 10 ==> |Itoa(n)| == |Itoa(n / 10)| + 1;
    assert n >= 100 ==> |Itoa(n / 10)| == |Itoa(n / 10 / 10)| + 1;
    assert n >= 1000 ==> |Itoa(n / 10 / 10)| == |Itoa(n / 10 / 10 / 10)| + 1;
    assert n >= 10000 ==> |Itoa(n / 10 / 10 / 10)| == |Itoa(n / 10 / 10 / 10 / 10)| + 1;
  }

  lemma PaddedWidth(n: nat)
    ensures n < 100 ==> |Padded(n, 2)| == 2
    ensures n < 10000 <==> |Padded(n, 4)| == 4
  {
    hide Itoa;
    ItoaWidth(n);
  }
}
