/** Conversion between decimal strings and the ledger's integer smallest units. */
module Amounts {
  import opened Wrappers
  import opened Numerals
  import opened Texts

  /** 21e6 BTC in satoshis. */
  const MAX_UNITS: nat := 2_100_000_000_000_000

  /** Significant digits a `Decimal` operation keeps. */
  const PRECISION: nat := 28

  datatype AmountError = AmountError(reason: string)

  /** A finite decimal number: sign, coefficient and power of ten. */
  datatype Dec = Dec(negative: bool, coefficient: nat, exponent: int)

  // -- decimal text ---------------------------------------------------------------

  /** An optionally signed run of digits, as in an exponent. */
  function ReadInt(s: string): Option<int> {
    var negative := s != [] && s[0] == '-';
    var digits := if s != [] && (s[0] == '-' || s[0] == '+') then s[1..] else s;
    if digits == [] || !AllDigits(digits) then None
    else
      var magnitude: int := ReadNat(digits);
      Some(if negative then -magnitude else magnitude)
  }

  /** `[+-] digits [. digits] [e [+-] digits]`, with a digit on at least one side of the point. */
  function ReadDecimal(text: string): Option<Dec> {
    var negative := text != [] && text[0] == '-';
    var body := if text != [] && (text[0] == '-' || text[0] == '+') then text[1..] else text;
    var e := if IndexOf(body, 'e') < |body| then IndexOf(body, 'e') else IndexOf(body, 'E');
    var mantissa := body[..e];
    var point := IndexOf(mantissa, '.');
    var whole := mantissa[..point];
    var fraction := if point < |mantissa| then mantissa[point + 1..] else [];
    var exponent := if e < |body| then ReadInt(body[e + 1..]) else Some(0);
    if whole + fraction == [] || !AllDigits(whole + fraction) || exponent.None? then None
    else Some(Dec(negative, ReadNat(whole + fraction), exponent.value - |fraction|))
  }

  // -- rounding -------------------------------------------------------------------

  /** How many low-order digits do not fit the precision. */
  function Excess(coefficient: nat): nat {
    var digits := |Minimal(10, coefficient)|;
    if digits > PRECISION then digits - PRECISION else 0
  }

  /** The digits a rounding operation drops from a coefficient. */
  function Dropped(coefficient: nat): nat {
    PowPositive(10, Excess(coefficient));
    coefficient % Pow(10, Excess(coefficient))
  }

  function HalfEven(kept: nat, dropped: nat, unit: nat): nat {
    if 2 * dropped > unit || (2 * dropped == unit && kept % 2 == 1) then kept + 1 else kept
  }

  /** Round half to even at the precision. */
  function Rounded(d: Dec): Dec {
    var p := Pow(10, Excess(d.coefficient));
    PowPositive(10, Excess(d.coefficient));
    DivMod(d.coefficient, p);
    Dec(d.negative, HalfEven(d.coefficient / p, Dropped(d.coefficient), p), d.exponent + Excess(d.coefficient))
  }

  /** Is the number exactly `units` whole units? */
  ghost predicate IsExactly(d: Dec, units: nat) {
    if d.exponent >= 0 then d.coefficient * Pow(10, d.exponent) == units
    else d.coefficient == units * Pow(10, -d.exponent)
  }

  /** The whole units a number denotes, or None when it has a fraction. */
  function Whole(d: Dec): Option<nat> {
    if d.exponent >= 0 then Some(d.coefficient * Pow(10, d.exponent))
    else
      var p := Pow(10, -d.exponent);
      PowPositive(10, -d.exponent);
      DivMod(d.coefficient, p);
      if d.coefficient % p == 0 then Some(d.coefficient / p) else None
  }

  lemma WholeIsExact(d: Dec, units: nat)
    ensures Whole(d) == Some(units) <==> IsExactly(d, units)
  {
    if d.exponent < 0 {
      var p := Pow(10, -d.exponent);
      PowPositive(10, -d.exponent);
      DivMod(d.coefficient, p);
      if d.coefficient == units * p {
        DivModUnique(p, units, 0, d.coefficient);
      }
    }
  }

  // -- the conversions ----------------------------------------------------------------

  function ToUnits(text: string, decimals: nat): Result<nat, AmountError> {
    var trimmed := Strip(text);
    if trimmed == [] then Failure(AmountError("empty amount"))
    else
      match ReadDecimal(trimmed)
      case None => Failure(AmountError("not a finite decimal number"))
      case Some(d) =>
        if d.negative && d.coefficient > 0 then Failure(AmountError("negative"))
        else
          match Whole(Rounded(Dec(d.negative, d.coefficient, d.exponent + decimals)))
          case None => Failure(AmountError("more precision than the asset holds"))
          case Some(units) =>
            if units > MAX_UNITS then Failure(AmountError("exceeds the maximum"))
            else Success(units)
  }

  /** The digits of `w`, then the point and the digits of `f` when there are any. */
  function Pointed(w: string, f: string): string {
    w + if f == [] then "" else "." + f
  }

  function Split(n: nat, p: nat): (r: (nat, nat))
    requires p > 0
    ensures n == r.0 * p + r.1 && r.1 < p
  {
    DivMod(n, p);
    (n / p, n % p)
  }

  /** `n` units laid out with `decimals` digits after the point. */
  function Layout(n: nat, decimals: nat): string {
    PowPositive(10, decimals);
    var (whole, part) := Split(n, Pow(10, decimals));
    Pointed(ShowNat(whole), ShowDigits(Fixed(10, decimals, part)))
  }

  function FromUnits(units: int, decimals: nat): (r: Result<string, AmountError>)
    ensures r.Success? <==> units >= 0
  {
    if units < 0 then Failure(AmountError("negative"))
    else
      var d := Rounded(Dec(false, units, 0));
      Success(Layout(d.coefficient * Pow(10, d.exponent), decimals))
  }

  /** Lightning fees are rounded up to whole satoshis. */
  function MsatToSatRoundUp(msat: int): Result<nat, AmountError> {
    if msat < 0 then Failure(AmountError("negative")) else Success((msat + 999) / 1000)
  }

  // -- what the conversions promise ------------------------------------------------------

  lemma {:induction false} MinimalLength(v: nat, n: nat)
    requires v < Pow(10, n)
    ensures |Minimal(10, v)| <= n
  {
    if v > 0 {
      if n > 0 {
        DivMod(v, 10);
        MinimalLength(v / 10, n - 1);
      }
    }
  }

  lemma FitsPrecision(v: nat)
    requires v < Pow(10, PRECISION)
    ensures Excess(v) == 0 && Dropped(v) == 0
    ensures forall d: Dec :: d.coefficient == v ==> Rounded(d) == d
  {
    MinimalLength(v, PRECISION);
    assert Pow(10, 0) == 1;
    DivModUnique(1, v, 0, v);
  }

  lemma PowTen28()
    ensures Pow(10, PRECISION) == 10_000_000_000_000_000_000_000_000_000
  {
    assert Pow(10, 7) == 10_000_000 by {
      assert Pow(10, 4) == 10_000;
    }
    PowAdds(10, 7, 7);
    PowAdds(10, 14, 14);
  }

  lemma {:induction false} IndexOfAfter(s: string, c: char, t: string)
    requires forall i :: 0 <= i < |s| ==> s[i] != c
    ensures IndexOf(s + t, c) == |s| + IndexOf(t, c)
  {
    if s != [] {
      IndexOfAfter(s[1..], c, t);
      assert (s + t)[1..] == s[1..] + t;
    } else {
      assert s + t == t;
    }
  }

  lemma PointedShape(w: string, f: string)
    requires w != [] && AllDigits(w) && AllDigits(f)
    ensures var text := Pointed(w, f);
      && text != [] && IsDigit(text[0]) && IsDigit(text[|text| - 1])
      && IndexOf(text, 'e') == IndexOf(text, 'E') == |text|
      && IndexOf(text, '.') == |w|
      && text[..|w|] == w && (if |w| < |text| then text[|w| + 1..] else []) == f
  {
    var text := Pointed(w, f);
    assert forall i :: 0 <= i < |text| ==> text[i] != 'e' && text[i] != 'E';
    IndexOfAfter(text, 'e', []);
    IndexOfAfter(text, 'E', []);
    assert text + [] == text;
    IndexOfAfter(w, '.', text[|w|..]);
    assert text == w + text[|w|..];
  }

  /** The text `w.f` reads as the digits `wf` with |f| of them after the point. */
  lemma ReadPointed(w: string, f: string)
    requires w != [] && AllDigits(w) && AllDigits(f)
    ensures Strip(Pointed(w, f)) == Pointed(w, f) && Pointed(w, f) != []
    ensures ReadDecimal(Pointed(w, f)) == Some(Dec(false, ReadNat(w + f), -|f|))
  {
    var text := Pointed(w, f);
    hide Strip, ReadNat;
    PointedShape(w, f);
    StripsToItself(text);
    assert text[..|text|] == text;
  }

  lemma JoinedDigits(whole: nat, part: nat, decimals: nat)
    requires part < Pow(10, decimals)
    ensures ReadNat(ShowNat(whole) + ShowDigits(Fixed(10, decimals, part))) == whole * Pow(10, decimals) + part
  {
    var w, f := ShowNat(whole), ShowDigits(Fixed(10, decimals, part));
    assert DigitValues(w + f) == DigitValues(w) + DigitValues(f);
    ValConcat(10, DigitValues(w), DigitValues(f));
    FixedVal(10, decimals, part);
  }

  lemma PointedReads(n: nat, whole: nat, part: nat, decimals: nat)
    requires part < Pow(10, decimals) && n == whole * Pow(10, decimals) + part
    ensures var text := Pointed(ShowNat(whole), ShowDigits(Fixed(10, decimals, part)));
      && Strip(text) == text && text != []
      && ReadDecimal(text) == Some(Dec(false, n, 0 - decimals))
  {
    hide Pow, ReadDecimal, Strip, ReadNat, Pointed;
    JoinedDigits(whole, part, decimals);
    ReadPointed(ShowNat(whole), ShowDigits(Fixed(10, decimals, part)));
  }

  /** A laid out amount reads as its units. */
  lemma LayoutReads(n: nat, decimals: nat)
    ensures Strip(Layout(n, decimals)) == Layout(n, decimals) && Layout(n, decimals) != []
    ensures ReadDecimal(Layout(n, decimals)) == Some(Dec(false, n, 0 - decimals))
  {
    PowPositive(10, decimals);
    var parts := Split(n, Pow(10, decimals));
    PointedReads(n, parts.0, parts.1, decimals);
    assert Layout(n, decimals) == Pointed(ShowNat(parts.0), ShowDigits(Fixed(10, decimals, parts.1)));
  }

  lemma ExactlyRounded(n: nat)
    requires n < Pow(10, PRECISION)
    ensures Rounded(Dec(false, n, 0)) == Dec(false, n, 0) && n * Pow(10, 0) == n
    ensures Whole(Dec(false, n, 0)) == Some(n)
  {
    FitsPrecision(n);
    assert Pow(10, 0) == 1;
  }

  /** Writing an amount and reading it back gives the amount, up to the ceiling above which
      reading refuses. */
  lemma UnitsRoundTrip(n: nat, decimals: nat)
    requires n < Pow(10, PRECISION)
    ensures ToUnits(FromUnits(n, decimals).value, decimals)
         == if n <= MAX_UNITS then Success(n) else Failure(AmountError("exceeds the maximum"))
  {
    hide Pow, ReadDecimal, Strip, Layout, Rounded, Whole;
    ExactlyRounded(n);
    LayoutReads(n, decimals);
  }

  lemma WrittenNotEmpty(n: nat, decimals: nat)
    requires n < Pow(10, PRECISION)
    ensures FromUnits(n, decimals).value != ""
  {
    ExactlyRounded(n);
    LayoutReads(n, decimals);
  }

  /** Reading accepts exactly the whole amounts in range, for every text whose significant
      digits fit the precision. */
  lemma ReadsExactAmounts(text: string, decimals: nat, d: Dec, units: nat)
    requires Strip(text) != [] && ReadDecimal(Strip(text)) == Some(d)
    requires d.coefficient < Pow(10, PRECISION)
    ensures ToUnits(text, decimals) == Success(units)
        <==> !(d.negative && d.coefficient > 0)
             && IsExactly(d.(exponent := d.exponent + decimals), units) && units <= MAX_UNITS
  {
    hide Pow, Excess, Dropped, Rounded, Whole, ReadDecimal, Strip, IsExactly;
    FitsPrecision(d.coefficient);
    var scaled := Dec(d.negative, d.coefficient, d.exponent + decimals);
    assert Rounded(scaled) == scaled;
    WholeIsExact(scaled, units);
  }

  lemma Regroup(x: nat, q: nat, p: nat)
    ensures x * (q * p) == (x * p) * q
  {
  }

  lemma CancelFactor(x: nat, y: nat, q: nat)
    requires q > 0 && x * q == y * q
    ensures x == y
  {
    DivModUnique(q, x, 0, x * q);
    DivModUnique(q, y, 0, x * q);
  }

  lemma ScaledUp(x: nat, k: nat, y: nat, e: int, units: nat)
    requires IsExactly(Dec(false, x, e + k), units)
    ensures IsExactly(Dec(false, y, e), units) <==> y == x * Pow(10, k)
  {
    var p := Pow(10, k);
    if e >= 0 {
      var q := Pow(10, e);
      PowAdds(10, e, k);
      PowPositive(10, e);
      Regroup(x, q, p);
      if y * q == (x * p) * q {
        CancelFactor(y, x * p, q);
      }
    } else if e + k >= 0 {
      PowAdds(10, e + k, -e);
      Associate(x, Pow(10, e + k), Pow(10, -e));
    } else {
      PowAdds(10, -(e + k), k);
      Associate(units, Pow(10, -(e + k)), p);
    }
  }

  /** Beyond the precision, an accepted text denotes exactly the units it was read as if and
      only if every digit that rounding dropped was zero. */
  lemma AcceptedIsExact(text: string, decimals: nat, d: Dec, units: nat)
    requires Strip(text) != [] && ReadDecimal(Strip(text)) == Some(d)
    requires ToUnits(text, decimals) == Success(units)
    ensures IsExactly(d.(exponent := d.exponent + decimals), units) <==> Dropped(d.coefficient) == 0
  {
    hide ReadDecimal, Strip, Pow;
    var e, k := d.exponent + decimals, Excess(d.coefficient);
    var p := Pow(10, k);
    PowPositive(10, k);
    DivMod(d.coefficient, p);
    var r := Rounded(Dec(d.negative, d.coefficient, e));
    WholeIsExact(r, units);
    assert IsExactly(Dec(false, r.coefficient, e + k), units);
    ScaledUp(r.coefficient, k, d.coefficient, e, units);
    if Dropped(d.coefficient) != 0 && d.coefficient == r.coefficient * p {
      DivModUnique(p, r.coefficient, 0, d.coefficient);
      assert false;
    }
  }

  /** A text with more precision than any asset holds is nevertheless read as one whole coin
      once it has more significant digits than the precision. */
  lemma ExcessPrecisionIsAccepted()
    ensures ToUnits("1." + "0000000000000000000000000001", 8) == Success(100_000_000)
    ensures ReadDecimal("1." + "0000000000000000000000000001")
         == Some(Dec(false, 10_000_000_000_000_000_000_000_000_001, -28))
  {
    var f := "0000000000000000000000000001";
    var ones: seq<nat> := [1] + Zeros(27) + [1];
    assert Pointed("1", f) == "1." + "0000000000000000000000000001";
    assert DigitValues("1" + f) == ones;
    ReadPointed("1", f);
    OneAndOne();
    RoundsToOneCoin(Val(10, ones));
  }

  lemma ZeroAndOneCoin()
    ensures ToUnits("0", 8) == Success(0) && ToUnits("1", 8) == Success(100_000_000)
  {
    hide ToUnits, IsExactly, ReadDecimal, Strip;
    OneDigit("0", 0);
    OneDigit("1", 1);
    PowTen28();
    assert IsExactly(Dec(false, 0, 8), 0) && IsExactly(Dec(false, 1, 8), 100_000_000) by {
      assert Pow(10, 4) == 10_000;
      PowAdds(10, 4, 4);
      CoinsAreExact();
    }
    ReadsExactAmounts("0", 8, Dec(false, 0, 0), 0);
    ReadsExactAmounts("1", 8, Dec(false, 1, 0), 100_000_000);
  }

  lemma CoinsAreExact()
    requires Pow(10, 8) == 100_000_000
    ensures IsExactly(Dec(false, 0, 8), 0) && IsExactly(Dec(false, 1, 8), 100_000_000)
  {
  }

  lemma OneDigit(text: string, n: nat)
    requires |text| == 1 && IsDigit(text[0]) && ReadNat(text) == n
    ensures Strip(text) == text && ReadDecimal(text) == Some(Dec(false, n, 0))
  {
    assert Pointed(text, []) == text && text + [] == text;
    ReadPointed(text, []);
  }

  lemma RoundsToOneCoin(c: nat)
    requires c == 10_000_000_000_000_000_000_000_000_001
    requires Excess(c) == 1 && Pow(10, 1) == 10 && Dropped(c) == 1
    ensures Rounded(Dec(false, c, -20)) == Dec(false, 1_000_000_000_000_000_000_000_000_000, -19)
    ensures Whole(Rounded(Dec(false, c, -20))) == Some(100_000_000)
  {
    assert c / 10 == 1_000_000_000_000_000_000_000_000_000;
    assert Pow(10, 19) == 10_000_000_000_000_000_000 by {
      assert Pow(10, 6) == 1_000_000;
      PowAdds(10, 6, 7);
      PowAdds(10, 13, 6);
    }
  }

  lemma OneAndOne()
    ensures Val(10, [1] + Zeros(27) + [1]) == 10_000_000_000_000_000_000_000_000_001
    ensures Excess(10_000_000_000_000_000_000_000_000_001) == 1 && Pow(10, 1) == 10
    ensures Dropped(10_000_000_000_000_000_000_000_000_001) == 1
  {
    var ones: seq<nat> := [1] + Zeros(27) + [1];
    ValAppend(10, [1] + Zeros(27), 1);
    ValConcat(10, [1], Zeros(27));
    ZerosVal(10, 27);
    PowTen28();
    assert Pow(10, 28) == 10 * Pow(10, 27);
    assert Val(10, [1]) == 1 by {
      assert [1][..0] == [];
    }
    MinimalOfVal(10, ones);
  }

  /** Rounding a fee up never understates it, and overstates it by less than one satoshi. */
  lemma RoundUpCovers(msat: nat)
    ensures var sat := MsatToSatRoundUp(msat).value; msat <= sat * 1000 < msat + 1000
  {
  }
}
