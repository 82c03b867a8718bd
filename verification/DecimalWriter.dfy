/** The allocation-free decimal writer used for user-namespace maps. */
module DecimalWriter {
  import Bytes

  type Digit = d: nat | d < 10 witness 0

  /** The canonical digits of `n`, most significant first. */
  function Digits(n: nat): (ds: seq<Digit>)
    ensures ds != []
  {
    if n < 10 then [n] else Digits(n / 10) + [n % 10]
  }

  /** The number a digit string denotes. */
  function Number(ds: seq<Digit>): nat {
    if ds == [] then 0 else Number(ds[..|ds| - 1]) * 10 + ds[|ds| - 1]
  }

  /** No leading zero, other than zero itself. */
  predicate Canonical(ds: seq<Digit>) {
    |ds| == 1 || (|ds| > 1 && ds[0] != 0)
  }

  lemma {:induction false} DigitsDenote(n: nat)
    ensures Number(Digits(n)) == n && Canonical(Digits(n))
  {
    if n >= 10 {
      DigitsDenote(n / 10);
      assert Digits(n)[..|Digits(n)| - 1] == Digits(n / 10);
    } else {
      assert [n][..0] == [];
    }
  }

  lemma {:induction false} CanonicalPositive(ds: seq<Digit>)
    requires ds != [] && ds[0] != 0
    ensures Number(ds) > 0
  {
    if |ds| == 1 { assert ds[..0] == []; } else { CanonicalPositive(ds[..|ds| - 1]); }
  }

  /** Only the canonical digits denote a number without leading zeros. */
  lemma {:induction false} CanonicalUnique(ds: seq<Digit>)
    requires Canonical(ds)
    ensures Digits(Number(ds)) == ds
  {
    if |ds| == 1 {
      assert ds[..0] == [];
    } else {
      var init := ds[..|ds| - 1];
      CanonicalPositive(init);
      CanonicalUnique(init);
      assert ds == init + [ds[|ds| - 1]];
    }
  }

  function Pow10(k: nat): nat {
    if k == 0 then 1 else 10 * Pow10(k - 1)
  }

  lemma {:induction false} DigitCount(n: nat, k: nat)
    requires k > 0 && n < Pow10(k)
    ensures |Digits(n)| <= k
  {
    if n >= 10 { DigitCount(n / 10, k - 1); }
  }

  lemma AtMostTwenty(n: nat)
    requires n < Bytes.TWO_64
    ensures |Digits(n)| <= 20
  {
    assert Pow10(10) == 10_000_000_000;
    assert Pow10(20) == 100_000_000_000_000_000_000;
    DigitCount(n, 20);
  }

  function Ascii(d: Digit): (b: nat) {
    0x30 + d
  }

  /** `append_decimal`: the digits come out backwards and are reversed into `output`. */
  method AppendDecimal(output: array<nat>, value: nat) returns (length: nat)
    requires value < Bytes.TWO_64 && output.Length >= |Digits(value)|
    modifies output
    ensures length == |Digits(value)|
    ensures forall i :: 0 <= i < length ==> output[i] == Ascii(Digits(value)[i])
    ensures forall i :: length <= i < output.Length ==> output[i] == old(output[i])
  {
    var reversed := new Digit[20](_ => 0);
    ghost var all := Digits(value);
    AtMostTwenty(value);
    length := 0;
    var rest := value;
    while true
      invariant length < |all| && all[..|all| - length] == Digits(rest)
      invariant forall i :: 0 <= i < length ==> reversed[i] == all[|all| - 1 - i]
      modifies reversed
      decreases rest
    {
      assert all[..|all| - length][|all| - length - 1] == rest % 10;
      reversed[length] := rest % 10;
      length := length + 1;
      if rest < 10 { break; }
      assert all[..|all| - length] == Digits(rest / 10);
      rest := rest / 10;
    }
    assert length == |all|;
    for index := 0 to length
      modifies output
      invariant forall i :: 0 <= i < index ==> output[i] == Ascii(all[i])
      invariant forall i :: index <= i < output.Length ==> output[i] == old(output[i])
    {
      output[index] := Ascii(reversed[length - index - 1]);
    }
  }
}
