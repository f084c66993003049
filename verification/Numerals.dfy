/** Big-endian positional numerals in any base: the arithmetic shared by the decimal,
    base58, bech32 regrouping and invoice codecs. */
module Numerals {

  function Pow(b: nat, n: nat): nat {
    if n == 0 then 1 else b * Pow(b, n - 1)
  }

  lemma {:induction false} PowPositive(b: nat, n: nat)
    requires b > 0
    ensures Pow(b, n) > 0
  {
    if n > 0 {
      PowPositive(b, n - 1);
      assert b * Pow(b, n - 1) > 0;
    }
  }

  lemma {:induction false} PowAdds(b: nat, m: nat, n: nat)
    ensures Pow(b, m + n) == Pow(b, m) * Pow(b, n)
  {
    if m > 0 {
      PowAdds(b, m - 1, n);
      assert b * (Pow(b, m - 1) * Pow(b, n)) == (b * Pow(b, m - 1)) * Pow(b, n);
    }
  }

  lemma {:induction false} PowOfPow(b: nat, m: nat, n: nat)
    ensures Pow(Pow(b, m), n) == Pow(b, m * n)
  {
    if n > 0 {
      PowOfPow(b, m, n - 1);
      PowAdds(b, m, m * (n - 1));
      assert m + m * (n - 1) == m * n;
    }
  }

  lemma Associate(x: nat, y: nat, z: nat)
    ensures x * y * z == x * (y * z)
  {
  }

  lemma MulAtMost(x: int, y: int, b: nat)
    requires x <= y
    ensures x * b <= y * b
  {
    assert (y - x) * b >= 0;
  }

  lemma DivMod(v: nat, b: nat)
    requires b > 0
    ensures v == (v / b) * b + v % b && 0 <= v % b < b && 0 <= v / b <= v
    ensures v > 0 && b > 1 ==> v / b < v
  {
    var q := v / b;
    if q >= 1 {
      MulAtMost(1, q, b);
    }
    if b > 1 && q >= 1 {
      assert q * b >= q * 2 by {
        MulAtMost(2, b, q);
      }
    } else if q >= 1 {
      assert q * 1 == q;
    }
  }

  /** Quotient and remainder are determined by the equation that defines them. */
  lemma DivModUnique(b: nat, v: int, d: nat, w: nat)
    requires d < b && w == v * b + d
    ensures v >= 0 && w / b == v && w % b == d
  {
    DivMod(w, b);
    var q := w / b;
    if v < 0 {
      MulAtMost(v, -1, b);
    }
    if q < v {
      MulAtMost(q + 1, v, b);
    } else if q > v {
      MulAtMost(v + 1, q, b);
    }
  }

  predicate AreDigits(b: nat, ds: seq<nat>) {
    forall i :: 0 <= i < |ds| ==> ds[i] < b
  }

  function Val(b: nat, ds: seq<nat>): nat {
    if ds == [] then 0 else Val(b, ds[..|ds| - 1]) * b + ds[|ds| - 1]
  }

  lemma ValAppend(b: nat, ds: seq<nat>, d: nat)
    ensures Val(b, ds + [d]) == Val(b, ds) * b + d
  {
    assert (ds + [d])[..|ds|] == ds;
  }

  lemma {:induction false} ValConcat(b: nat, x: seq<nat>, y: seq<nat>)
    ensures Val(b, x + y) == Val(b, x) * Pow(b, |y|) + Val(b, y)
  {
    if y == [] {
      assert x + y == x;
    } else {
      var n := |y| - 1;
      assert (x + y)[..|x + y| - 1] == x + y[..n];
      ValConcat(b, x, y[..n]);
      calc {
        Val(b, x + y);
        (Val(b, x) * Pow(b, n) + Val(b, y[..n])) * b + y[n];
        Val(b, x) * Pow(b, n) * b + Val(b, y);
        { assert Val(b, x) * Pow(b, n) * b == Val(b, x) * (b * Pow(b, n)); }
        Val(b, x) * Pow(b, |y|) + Val(b, y);
      }
    }
  }

  lemma BoundStep(v: nat, p: nat, b: nat, d: nat)
    requires v < p && d < b
    ensures v * b + d < b * p
  {
    MulAtMost(v + 1, p, b);
    assert (v + 1) * b == v * b + b;
  }

  lemma {:induction false} ValBound(b: nat, ds: seq<nat>)
    requires AreDigits(b, ds)
    ensures Val(b, ds) < Pow(b, |ds|)
  {
    if ds != [] {
      var n := |ds| - 1;
      ValBound(b, ds[..n]);
      var v, p := Val(b, ds[..n]), Pow(b, n);
      BoundStep(v, p, b, ds[n]);
    }
  }

  /** A value has at most one numeral of a given length. */
  lemma {:induction false} ValUnique(b: nat, x: seq<nat>, y: seq<nat>)
    requires |x| == |y| && AreDigits(b, x) && AreDigits(b, y) && Val(b, x) == Val(b, y)
    ensures x == y
  {
    if x != [] {
      var n := |x| - 1;
      DivModUnique(b, Val(b, x[..n]), x[n], Val(b, x));
      DivModUnique(b, Val(b, y[..n]), y[n], Val(b, y));
      ValUnique(b, x[..n], y[..n]);
      assert x == x[..n] + [x[n]] && y == y[..n] + [y[n]];
    }
  }

  /** The `n` low-order digits of `v`. */
  function Fixed(b: nat, n: nat, v: nat): (ds: seq<nat>)
    requires b > 0
    ensures |ds| == n && AreDigits(b, ds)
  {
    if n == 0 then [] else Fixed(b, n - 1, v / b) + [v % b]
  }

  lemma {:induction false} FixedVal(b: nat, n: nat, v: nat)
    requires b > 0 && v < Pow(b, n)
    ensures Val(b, Fixed(b, n, v)) == v
  {
    if n > 0 {
      DivMod(v, b);
      if v / b >= Pow(b, n - 1) {
        MulAtMost(Pow(b, n - 1), v / b, b);
      }
      FixedVal(b, n - 1, v / b);
      ValAppend(b, Fixed(b, n - 1, v / b), v % b);
    }
  }

  /** The numeral of `v` without leading zeros; zero is the empty numeral. */
  function Minimal(b: nat, v: nat): (ds: seq<nat>)
    requires b > 1
    ensures AreDigits(b, ds) && (ds != [] ==> ds[0] != 0) && (ds == [] <==> v == 0)
  {
    if v == 0 then []
    else
      DivMod(v, b);
      Minimal(b, v / b) + [v % b]
  }

  lemma {:induction false} MinimalVal(b: nat, v: nat)
    requires b > 1
    ensures Val(b, Minimal(b, v)) == v
  {
    if v > 0 {
      DivMod(v, b);
      MinimalVal(b, v / b);
      ValAppend(b, Minimal(b, v / b), v % b);
    }
  }

  lemma {:induction false} MinimalOfVal(b: nat, ds: seq<nat>)
    requires b > 1 && AreDigits(b, ds) && (ds != [] ==> ds[0] != 0)
    ensures Minimal(b, Val(b, ds)) == ds
  {
    if ds != [] {
      var n := |ds| - 1;
      MinimalOfVal(b, ds[..n]);
      DivModUnique(b, Val(b, ds[..n]), ds[n], Val(b, ds));
      assert ds == ds[..n] + [ds[n]];
      if n > 0 {
        assert Minimal(b, Val(b, ds[..n])) != [];
      }
      assert Val(b, ds) > 0 by {
        if n > 0 && Val(b, ds[..n]) > 0 {
          assert Val(b, ds[..n]) * b >= 1;
        }
      }
    }
  }

  function Zeros(n: nat): (ds: seq<nat>)
    ensures |ds| == n && forall i :: 0 <= i < n ==> ds[i] == 0
  {
    seq(n, _ => 0)
  }

  lemma {:induction false} ZerosVal(b: nat, n: nat)
    ensures Val(b, Zeros(n)) == 0
  {
    if n > 0 {
      ZerosVal(b, n - 1);
      assert Zeros(n)[..n - 1] == Zeros(n - 1);
    }
  }

  /** Leading zeros do not change a value. */
  lemma LeadingZeros(b: nat, n: nat, ds: seq<nat>)
    ensures Val(b, Zeros(n) + ds) == Val(b, ds)
  {
    ValConcat(b, Zeros(n), ds);
    ZerosVal(b, n);
    assert 0 * Pow(b, |ds|) == 0;
  }

  function Leading(ds: seq<nat>): (n: nat)
    ensures n <= |ds| && ds[..n] == Zeros(n) && (n < |ds| ==> ds[n] != 0)
  {
    if ds == [] || ds[0] != 0 then 0
    else
      var n := Leading(ds[1..]);
      assert forall i :: 0 < i < n + 1 ==> ds[i] == ds[1..][..n][i - 1];
      n + 1
  }

  lemma {:induction false} LeadingOf(n: nat, ds: seq<nat>)
    requires ds != [] ==> ds[0] != 0
    ensures Leading(Zeros(n) + ds) == n
  {
    if n > 0 {
      LeadingOf(n - 1, ds);
      assert (Zeros(n) + ds)[1..] == Zeros(n - 1) + ds;
    } else {
      assert Zeros(0) + ds == ds;
    }
  }

  /** Every numeral is its leading zeros followed by the minimal numeral of its value. */
  lemma ZerosAndMinimal(b: nat, ds: seq<nat>)
    requires b > 1 && AreDigits(b, ds)
    ensures ds == Zeros(Leading(ds)) + Minimal(b, Val(b, ds))
  {
    var n := Leading(ds);
    assert ds == Zeros(n) + ds[n..];
    LeadingZeros(b, n, ds[n..]);
    MinimalOfVal(b, ds[n..]);
  }
}
