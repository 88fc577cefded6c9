/** Big-endian positional notation. */
module Positional {

  function Pow(b: nat, e: nat): nat {
    if e == 0 then 1 else Pow(b, e - 1) * b
  }

  predicate AreDigits(ds: seq<int>, b: int) {
    forall i :: 0 <= i < |ds| ==> 0 <= ds[i] < b
  }

  function Num(ds: seq<int>, b: int): int {
    if ds == [] then 0 else Num(ds[..|ds| - 1], b) * b + ds[|ds| - 1]
  }

  lemma {:induction false} AtLeastOnce(x: int, b: int)
    requires x >= 1 && b >= 1
    ensures x * b >= b
  {
    if x > 1 {
      AtLeastOnce(x - 1, b);
      assert x * b == (x - 1) * b + b;
    }
  }

  lemma MulMonotone(x: int, y: int, b: int)
    requires x <= y && b >= 1
    ensures x * b <= y * b
  {
    if x < y {
      AtLeastOnce(y - x, b);
      assert (y - x) * b == y * b - x * b;
    }
  }

  /** Quotient and remainder are determined. */
  lemma DivModUnique(n: int, b: int, q: int, d: int)
    requires b >= 1 && 0 <= d < b && n == q * b + d
    ensures n / b == q && n % b == d
  {
    var p, r := n / b, n % b;
    assert n == p * b + r && 0 <= r < b;
    assert p * b - q * b == d - r;
    assert (q + 1) * b == q * b + b && (p + 1) * b == p * b + b;
    if p > q { MulMonotone(q + 1, p, b); }
    if q > p { MulMonotone(p + 1, q, b); }
  }

  lemma DivBelow(n: nat, b: int, bound: int)
    requires b >= 1 && n < bound * b
    ensures 0 <= n / b < bound && 0 <= n % b < b
  {
    var p, r := n / b, n % b;
    assert n == p * b + r && 0 <= r < b;
    if p >= bound { MulMonotone(bound, p, b); }
    if p < 0 { MulMonotone(p, -1, b); }
  }

  /** The `len` lowest digits of n. */
  function Digits(n: nat, b: nat, len: nat): (ds: seq<int>)
    requires b >= 1
    ensures |ds| == len && AreDigits(ds, b)
  {
    if len == 0 then [] else
      DivBelow(n, b, n + 1);
      Digits(n / b, b, len - 1) + [n % b]
  }

  lemma NumSnoc(ds: seq<int>, d: int, b: int)
    ensures Num(ds + [d], b) == Num(ds, b) * b + d
  {
    assert (ds + [d])[..|ds|] == ds;
  }

  lemma {:induction false} NumOfDigits(n: nat, b: nat, len: nat)
    requires b >= 1 && n < Pow(b, len)
    ensures Num(Digits(n, b, len), b) == n
  {
    if len > 0 {
      DivBelow(n, b, Pow(b, len - 1));
      var q, d := n / b, n % b;
      NumOfDigits(q, b, len - 1);
      NumOfLastDigit(n, b, len, q, d);
    }
  }

  lemma NumOfLastDigit(n: nat, b: nat, len: nat, q: nat, d: nat)
    requires b >= 1 && len > 0 && q == n / b && d == n % b
    requires Num(Digits(q, b, len - 1), b) == q
    ensures Num(Digits(n, b, len), b) == n
  {
    NumSnoc(Digits(q, b, len - 1), d, b);
    assert Digits(n, b, len) == Digits(q, b, len - 1) + [d];
    hide Num, Digits;
    assert n == q * b + d;
  }

  lemma {:induction false} NumBounds(ds: seq<int>, b: nat)
    requires b >= 1 && AreDigits(ds, b)
    ensures 0 <= Num(ds, b) < Pow(b, |ds|)
  {
    if ds != [] {
      var front := ds[..|ds| - 1];
      NumBounds(front, b);
      var v := Num(front, b);
      MulMonotone(v + 1, Pow(b, |front|), b);
      MulMonotone(0, v, b);
      assert (v + 1) * b == v * b + b;
    }
  }

  /** Digits are determined by their number and value. */
  lemma {:induction false} DigitsUnique(ds: seq<int>, es: seq<int>, b: nat)
    requires b >= 1 && AreDigits(ds, b) && AreDigits(es, b)
    requires |ds| == |es| && Num(ds, b) == Num(es, b)
    ensures ds == es
  {
    if ds != [] {
      var n := |ds| - 1;
      var v, w := Num(ds[..n], b), Num(es[..n], b);
      var sum := v * b + ds[n];
      DivModUnique(sum, b, v, ds[n]);
      DivModUnique(sum, b, w, es[n]);
      DigitsUnique(ds[..n], es[..n], b);
      assert ds == ds[..n] + [ds[n]] && es == es[..n] + [es[n]];
    }
  }
}
