/** The bech32 checksum (BIP 173, section "Bech32"; BIP 350 for the second constant): the
    polymod over five-bit symbols, and which corruptions it cannot miss. */
module Bech32 {
  import opened Wrappers
  import opened Numerals
  import opened Texts

  const CHARSET := "qpzry9x8gf2tvdw0s3jn54khce6mua7l"

  const BECH32_CONST: bv30 := 1
  const BECH32M_CONST: bv30 := 0x2BC830A3

  // -- the polymod ---------------------------------------------------------------------------

  function Xor(a: bv30, b: bv30): bv30 {
    a ^ b
  }

  function Generator(index: nat): bv30 {
    if index == 0 then 0x3B6A57B2
    else if index == 1 then 0x26508E6D
    else if index == 2 then 0x1EA119FA
    else if index == 3 then 0x3D4233DD
    else 0x2A1462B3
  }

  function Top(checksum: bv30): bv30 {
    checksum >> 25
  }

  function Shifted(checksum: bv30): bv30 {
    (checksum & 0x1FFFFFF) << 5
  }

  /** `(top >> index) & 1`, for the five bits that were shifted out. */
  predicate BitSet(top: bv30, index: nat) {
    if index == 0 then top & 1 == 1
    else if index == 1 then (top >> 1) & 1 == 1
    else if index == 2 then (top >> 2) & 1 == 1
    else if index == 3 then (top >> 3) & 1 == 1
    else (top >> 4) & 1 == 1
  }

  function Tap(top: bv30, index: nat): bv30 {
    if BitSet(top, index) then Generator(index) else 0
  }

  /** The checksum after the first `n` of those bits fed back into it. */
  function FedBack(start: bv30, top: bv30, n: nat): bv30 {
    if n == 0 then start else Xor(FedBack(start, top, n - 1), Tap(top, n - 1))
  }

  function Step(checksum: bv30, value: bv30): bv30 {
    FedBack(Xor(Shifted(checksum), value), Top(checksum), 5)
  }

  function Poly(checksum: bv30, values: seq<bv30>): bv30 {
    if values == [] then checksum else Step(Poly(checksum, values[..|values| - 1]), values[|values| - 1])
  }

  /** A five-bit symbol as a checksum term. */
  function Term(n: nat): bv30
    requires n < 32
  {
    n as bv30
  }

  function Terms(symbols: seq<nat>): (r: seq<bv30>)
    requires AreDigits(32, symbols)
    ensures |r| == |symbols| && forall i :: 0 <= i < |r| ==> r[i] == Term(symbols[i])
  {
    seq(|symbols|, i requires 0 <= i < |symbols| => Term(symbols[i]))
  }

  function Polymod(symbols: seq<nat>): bv30
    requires AreDigits(32, symbols)
  {
    Poly(1, Terms(symbols))
  }

  /** `_bech32_polymod`. */
  method ComputePolymod(symbols: seq<nat>) returns (checksum: bv30)
    requires AreDigits(32, symbols)
    ensures checksum == Polymod(symbols)
  {
    hide Xor, BitSet, Generator, Shifted, Top, Term;
    checksum := 1;
    for n := 0 to |symbols|
      invariant checksum == Poly(1, Terms(symbols)[..n])
    {
      var top := Top(checksum);
      checksum := Xor(Shifted(checksum), Term(symbols[n]));
      ghost var start := checksum;
      for index := 0 to 5
        invariant checksum == FedBack(start, top, index)
      {
        checksum := Xor(checksum, if BitSet(top, index) then Generator(index) else 0);
      }
      assert Terms(symbols)[..n + 1][..n] == Terms(symbols)[..n];
    }
    assert Terms(symbols)[..|symbols|] == Terms(symbols);
  }

  // -- linearity -------------------------------------------------------------------------------

  lemma XorAssociates(a: bv30, b: bv30, c: bv30)
    ensures Xor(Xor(a, b), c) == Xor(a, Xor(b, c))
  {
  }

  lemma XorCommutes(a: bv30, b: bv30)
    ensures Xor(a, b) == Xor(b, a)
  {
  }

  lemma XorLaws(a: bv30, b: bv30, c: bv30, d: bv30)
    ensures Xor(Xor(a, b), Xor(c, d)) == Xor(Xor(a, c), Xor(b, d))
  {
    hide Xor;
    XorAssociates(a, b, Xor(c, d));
    XorAssociates(b, c, d);
    XorCommutes(b, c);
    XorAssociates(c, b, d);
    XorAssociates(a, c, Xor(b, d));
  }

  lemma ShiftedLinear(a: bv30, b: bv30)
    ensures Shifted(Xor(a, b)) == Xor(Shifted(a), Shifted(b))
  {
  }

  lemma TopLinear(a: bv30, b: bv30)
    ensures Top(Xor(a, b)) == Xor(Top(a), Top(b))
  {
  }

  lemma BitsLinear(a: bv30, b: bv30, index: nat)
    ensures BitSet(Xor(a, b), index) <==> BitSet(a, index) != BitSet(b, index)
  {
  }

  lemma XorZero(a: bv30)
    ensures Xor(a, 0) == a && Xor(0, a) == a && Xor(a, a) == 0
  {
  }

  lemma TapLinear(a: bv30, b: bv30, index: nat)
    ensures Tap(Xor(a, b), index) == Xor(Tap(a, index), Tap(b, index))
  {
    hide Xor, BitSet, Generator;
    BitsLinear(a, b, index);
    XorZero(Generator(index));
    XorZero(0);
  }

  lemma {:induction false} FedBackLinear(a: bv30, b: bv30, s: bv30, t: bv30, n: nat)
    ensures FedBack(Xor(a, b), Xor(s, t), n) == Xor(FedBack(a, s, n), FedBack(b, t, n))
  {
    hide Xor, Tap;
    if n > 0 {
      FedBackLinear(a, b, s, t, n - 1);
      TapLinear(s, t, n - 1);
      XorLaws(FedBack(a, s, n - 1), FedBack(b, t, n - 1), Tap(s, n - 1), Tap(t, n - 1));
    }
  }

  lemma StepLinear(a: bv30, b: bv30, u: bv30, v: bv30)
    ensures Step(Xor(a, b), Xor(u, v)) == Xor(Step(a, u), Step(b, v))
  {
    hide Xor, Shifted, Top, FedBack;
    ShiftedLinear(a, b);
    TopLinear(a, b);
    XorLaws(Shifted(a), Shifted(b), u, v);
    FedBackLinear(Xor(Shifted(a), u), Xor(Shifted(b), v), Top(a), Top(b), 5);
  }

  function XorAll(x: seq<bv30>, y: seq<bv30>): (r: seq<bv30>)
    requires |x| == |y|
    ensures |r| == |x| && forall i :: 0 <= i < |r| ==> r[i] == Xor(x[i], y[i])
  {
    seq(|x|, i requires 0 <= i < |x| => Xor(x[i], y[i]))
  }

  /** The checksum is linear: differences travel through it on their own. */
  lemma {:induction false} PolyLinear(a: bv30, b: bv30, x: seq<bv30>, y: seq<bv30>)
    requires |x| == |y|
    ensures Poly(Xor(a, b), XorAll(x, y)) == Xor(Poly(a, x), Poly(b, y))
  {
    hide Xor, Step;
    if x != [] {
      var n := |x| - 1;
      PolyLinear(a, b, x[..n], y[..n]);
      assert XorAll(x, y)[..n] == XorAll(x[..n], y[..n]);
      StepLinear(Poly(a, x[..n]), Poly(b, y[..n]), x[n], y[n]);
    }
  }

  lemma {:induction false} PolyConcat(c: bv30, x: seq<bv30>, y: seq<bv30>)
    ensures Poly(c, x + y) == Poly(Poly(c, x), y)
  {
    hide Step;
    if y == [] {
      assert x + y == x;
    } else {
      var n := |y| - 1;
      assert (x + y)[..|x + y| - 1] == x + y[..n];
      PolyConcat(c, x, y[..n]);
    }
  }

  // -- nothing vanishes ------------------------------------------------------------------------------

  lemma FedBackFive(start: bv30, top: bv30)
    ensures FedBack(start, top, 5)
         == Xor(Xor(Xor(Xor(Xor(start, Tap(top, 0)), Tap(top, 1)), Tap(top, 2)), Tap(top, 3)), Tap(top, 4))
  {
    hide Xor, Tap;
    assert FedBack(start, top, 1) == Xor(start, Tap(top, 0));
    assert FedBack(start, top, 2) == Xor(FedBack(start, top, 1), Tap(top, 1));
    assert FedBack(start, top, 3) == Xor(FedBack(start, top, 2), Tap(top, 2));
    assert FedBack(start, top, 4) == Xor(FedBack(start, top, 3), Tap(top, 3));
  }

  /** Feeding zeros forward forgets nothing. */
  lemma KernelIsZero(c: bv30)
    requires Step(c, 0) == 0
    ensures c == 0
  {
    FedBackFive(Xor(Shifted(c), 0), Top(c));
    KernelBits(c);
  }

  lemma KernelBits(c: bv30)
    requires Xor(Xor(Xor(Xor(Xor(Xor(Shifted(c), 0), Tap(Top(c), 0)), Tap(Top(c), 1)), Tap(Top(c), 2)), Tap(Top(c), 3)), Tap(Top(c), 4)) == 0
    ensures c == 0
  {
  }

  lemma StepZero()
    ensures Step(0, 0) == 0
  {
    FedBackFive(Xor(Shifted(0), 0), Top(0));
  }

  /** Room for `n` symbols: below the top five bits nothing feeds back. */
  predicate Below(c: bv30, n: nat) {
    if n == 0 then c == 0
    else if n == 1 then c < 0x20
    else if n == 2 then c < 0x400
    else if n == 3 then c < 0x8000
    else if n == 4 then c < 0x100000
    else if n == 5 then c < 0x2000000
    else true
  }

  lemma BelowTop(c: bv30, n: nat)
    requires n <= 5 && Below(c, n)
    ensures Top(c) == 0
  {
  }

  lemma NothingFeedsBack(start: bv30)
    ensures FedBack(start, 0, 5) == start
  {
    FedBackFive(start, 0);
    XorZero(start);
    assert Tap(0, 0) == 0 && Tap(0, 1) == 0 && Tap(0, 2) == 0 && Tap(0, 3) == 0 && Tap(0, 4) == 0;
  }

  lemma SmallStep(c: bv30, v: bv30, n: nat)
    requires n <= 5 && Below(c, n) && v < 32
    ensures Step(c, v) == Xor(Shifted(c), v)
    ensures Below(Step(c, v), n + 1) && (Step(c, v) == 0 <==> c == 0 && v == 0)
  {
    hide Below, Xor, Shifted, Top, FedBack;
    BelowTop(c, n);
    NothingFeedsBack(Xor(Shifted(c), v));
    SmallBits(c, v, n);
  }

  lemma SmallBits(c: bv30, v: bv30, n: nat)
    requires n <= 5 && Below(c, n) && v < 32
    ensures Below(Xor(Shifted(c), v), n + 1) && (Xor(Shifted(c), v) == 0 <==> c == 0 && v == 0)
  {
  }

  predicate FiveBits(values: seq<bv30>) {
    forall i :: 0 <= i < |values| ==> values[i] < 32
  }

  predicate AllZero(values: seq<bv30>) {
    forall i :: 0 <= i < |values| ==> values[i] == 0
  }

  lemma {:induction false} ShortIsFaithful(e: seq<bv30>)
    requires |e| <= 6 && FiveBits(e)
    ensures Below(Poly(0, e), |e|) && (Poly(0, e) == 0 <==> AllZero(e))
  {
    hide Below, Step;
    if e == [] {
      BelowZero();
    } else {
      var n := |e| - 1;
      ShortIsFaithful(e[..n]);
      SmallStep(Poly(0, e[..n]), e[n], n);
    }
  }

  lemma BelowZero()
    ensures Below(0, 0)
  {
  }

  lemma {:induction false} ZerosFrom(c: bv30, values: seq<bv30>)
    requires AllZero(values)
    ensures Poly(c, values) == 0 <==> c == 0
  {
    hide Step;
    if values != [] {
      var n := |values| - 1;
      ZerosFrom(c, values[..n]);
      StepZero();
      if Poly(c, values) == 0 {
        KernelIsZero(Poly(c, values[..n]));
      }
    }
  }

  lemma XorSelf(x: bv30, y: bv30)
    ensures Xor(x, y) == 0 <==> x == y
  {
  }

  lemma XorFiveBits(x: bv30, y: bv30)
    requires x < 32 && y < 32
    ensures Xor(x, y) < 32
  {
  }

  lemma {:induction false} XorAllSelf(c: bv30, x: seq<bv30>)
    ensures AllZero(XorAll(x, x))
  {
    forall i | 0 <= i < |x| ensures XorAll(x, x)[i] == 0 {
      XorSelf(x[i], x[i]);
    }
  }

  /** A change confined to at most six consecutive symbols changes the checksum, however long
      the string is. */
  lemma BurstChangesPoly(a: seq<bv30>, x: seq<bv30>, y: seq<bv30>, b: seq<bv30>)
    requires |x| == |y| <= 6 && FiveBits(x) && FiveBits(y) && x != y
    ensures Poly(1, a + x + b) != Poly(1, a + y + b)
  {
    hide Xor, Step, Poly;
    var e := XorAll(x, y);
    var start := Poly(1, a);
    PolyConcat(1, a + x, b);
    PolyConcat(1, a, x);
    PolyConcat(1, a + y, b);
    PolyConcat(1, a, y);
    XorSelf(start, start);
    PolyLinear(start, start, x, y);
    var p, q := Poly(start, x), Poly(start, y);
    forall i | 0 <= i < |e| ensures e[i] < 32 {
      XorFiveBits(x[i], y[i]);
    }
    ShortIsFaithful(e);
    if AllZero(e) {
      forall i | 0 <= i < |x| ensures x[i] == y[i] {
        XorSelf(x[i], y[i]);
      }
      assert false;
    }
    PolyLinear(p, q, b, b);
    XorAllSelf(1, b);
    ZerosFrom(Xor(p, q), XorAll(b, b));
    XorSelf(Poly(p, b), Poly(q, b));
  }

  lemma TermIsSmall(n: nat)
    requires n < 32
    ensures Term(n) < 32
  {
  }

  lemma TermValue(n: nat)
    requires n < 32
    ensures Term(n) as nat == n
  {
    var x: bv30 := n as bv30;
    assert x as nat == n;
  }

  lemma TermInjective(m: nat, n: nat)
    requires m < 32 && n < 32 && Term(m) == Term(n)
    ensures m == n
  {
    hide Term;
    TermValue(m);
    TermValue(n);
  }

  lemma TermsConcat(x: seq<nat>, y: seq<nat>)
    requires AreDigits(32, x) && AreDigits(32, y)
    ensures AreDigits(32, x + y) && Terms(x + y) == Terms(x) + Terms(y)
  {
    hide Term;
  }

  /** Two data parts under one prefix that differ in at most six consecutive symbols never have
      the same checksum: no such typo, adjacent swaps included, can meet the same constant. */
  lemma BurstIsDetected(a: seq<nat>, x: seq<nat>, y: seq<nat>, b: seq<nat>)
    requires AreDigits(32, a) && AreDigits(32, x) && AreDigits(32, y) && AreDigits(32, b)
    requires |x| == |y| <= 6 && x != y
    ensures Polymod(a + x + b) != Polymod(a + y + b)
  {
    hide Term, Poly;
    TermsConcat(a, x);
    TermsConcat(a + x, b);
    TermsConcat(a, y);
    TermsConcat(a + y, b);
    forall i | 0 <= i < |x| ensures Terms(x)[i] < 32 && Terms(y)[i] < 32 {
      TermIsSmall(x[i]);
      TermIsSmall(y[i]);
    }
    if Terms(x) == Terms(y) {
      forall i | 0 <= i < |x| ensures x[i] == y[i] {
        assert Terms(x)[i] == Terms(y)[i];
        TermInjective(x[i], y[i]);
      }
      assert false;
    }
    BurstChangesPoly(Terms(a), Terms(x), Terms(y), Terms(b));
  }

  // -- making a checksum ----------------------------------------------------------------------------

  /** The six symbols of a thirty-bit value, most significant first. */
  function Six(m: bv30): (r: seq<bv30>)
    ensures |r| == 6
  {
    [(m >> 25) & 31, (m >> 20) & 31, (m >> 15) & 31, (m >> 10) & 31, (m >> 5) & 31, m & 31]
  }

  lemma SixAreFiveBits(m: bv30)
    ensures FiveBits(Six(m))
  {
    assert (m >> 25) & 31 < 32 && (m >> 20) & 31 < 32 && (m >> 15) & 31 < 32;
    assert (m >> 10) & 31 < 32 && (m >> 5) & 31 < 32 && m & 31 < 32;
  }

  lemma JoinSix(m: bv30)
    ensures Xor(Shifted(Xor(Shifted(Xor(Shifted(Xor(Shifted(Xor(Shifted(Xor(Shifted(0), (m >> 25) & 31)), (m >> 20) & 31)),
            (m >> 15) & 31)), (m >> 10) & 31)), (m >> 5) & 31)), m & 31) == m
  {
  }

  lemma PolyPrefix(c: bv30, s: seq<bv30>, k: nat)
    requires k < |s|
    ensures Poly(c, s[..k + 1]) == Step(Poly(c, s[..k]), s[k])
  {
    hide Step;
    assert s[..k + 1][..k] == s[..k];
  }

  lemma PolyWhole(c: bv30, s: seq<bv30>)
    ensures Poly(c, s[..0]) == c && Poly(c, s[..|s|]) == Poly(c, s)
  {
    hide Step;
    assert s[..|s|] == s;
  }

  /** Six symbols fed into an empty checksum are the value they spell. */
  lemma SixSpell(m: bv30)
    ensures Poly(0, Six(m)) == m
  {
    hide Xor, Shifted, Step, Below, Poly;
    SixAreFiveBits(m);
    BelowZero();
    var s := Six(m);
    PolyWhole(0, s);
    PolyPrefix(0, s, 0);
    SmallStep(0, s[0], 0);
    PolyPrefix(0, s, 1);
    SmallStep(Poly(0, s[..1]), s[1], 1);
    PolyPrefix(0, s, 2);
    SmallStep(Poly(0, s[..2]), s[2], 2);
    PolyPrefix(0, s, 3);
    SmallStep(Poly(0, s[..3]), s[3], 3);
    PolyPrefix(0, s, 4);
    SmallStep(Poly(0, s[..4]), s[4], 4);
    PolyPrefix(0, s, 5);
    SmallStep(Poly(0, s[..5]), s[5], 5);
    JoinSix(m);
  }

  function Untermed(x: bv30): nat {
    x as nat
  }

  lemma UntermedTerm(x: bv30)
    requires x < 32
    ensures Untermed(x) < 32 && Term(Untermed(x)) == x
  {
  }

  /** Terms as symbols again. */
  function Symbols(xs: seq<bv30>): (r: seq<nat>)
    requires FiveBits(xs)
    ensures |r| == |xs| && AreDigits(32, r) && Terms(r) == xs
  {
    SymbolsAreTerms(xs);
    seq(|xs|, i requires 0 <= i < |xs| => Untermed(xs[i]))
  }

  lemma SymbolsAreTerms(xs: seq<bv30>)
    requires FiveBits(xs)
    ensures var r := seq(|xs|, i requires 0 <= i < |xs| => Untermed(xs[i])); AreDigits(32, r) && Terms(r) == xs
  {
    hide Term, Untermed;
    var r := seq(|xs|, i requires 0 <= i < |xs| => Untermed(xs[i]));
    forall i | 0 <= i < |xs| ensures r[i] < 32 && Term(r[i]) == xs[i] {
      UntermedTerm(xs[i]);
    }
    assert Terms(r) == xs;
  }

  /** The six symbols that bring a data part to the constant. */
  function Checksum(symbols: seq<nat>, constant: bv30): (r: seq<nat>)
    requires AreDigits(32, symbols)
    ensures |r| == 6 && AreDigits(32, r) && Terms(r) == Six(Xor(Poly(Polymod(symbols), [0, 0, 0, 0, 0, 0]), constant))
  {
    SixAreFiveBits(Xor(Poly(Polymod(symbols), [0, 0, 0, 0, 0, 0]), constant));
    Symbols(Six(Xor(Poly(Polymod(symbols), [0, 0, 0, 0, 0, 0]), constant)))
  }

  lemma XorCancels(p: bv30, constant: bv30)
    ensures Xor(p, Xor(p, constant)) == constant && Xor(p, 0) == p && Xor(0, p) == p
  {
  }

  /** A data part followed by its checksum meets the constant. */
  lemma ChecksumMeets(symbols: seq<nat>, constant: bv30)
    requires AreDigits(32, symbols)
    ensures AreDigits(32, symbols + Checksum(symbols, constant))
    ensures Polymod(symbols + Checksum(symbols, constant)) == constant
  {
    hide Term, Poly, Xor, Six, Checksum, Terms;
    var six := Checksum(symbols, constant);
    TermsConcat(symbols, six);
    PolyConcat(1, Terms(symbols), Terms(six));
    var p := Polymod(symbols);
    var zeros: seq<bv30> := [0, 0, 0, 0, 0, 0];
    var m := Poly(p, zeros);
    XorCancels(p, constant);
    XorCancels(m, constant);
    var t := Terms(six);
    forall i | 0 <= i < 6 ensures XorAll(zeros, t)[i] == t[i] {
      XorCancels(t[i], constant);
    }
    assert XorAll(zeros, t) == t;
    PolyLinear(p, 0, zeros, t);
    SixSpell(Xor(m, constant));
  }

  // -- text ------------------------------------------------------------------------------------------

  /** Printable ASCII, the only characters a bech32 string may hold. */
  predicate Printable(s: string) {
    forall i :: 0 <= i < |s| ==> 33 <= s[i] as int <= 126
  }

  /** Printable and in one case. */
  predicate OneCase(s: string) {
    Printable(s) && (Lower(s) == s || Upper(s) == s)
  }

  function HighBits(hrp: string): (r: seq<nat>)
    requires Printable(hrp)
    ensures |r| == |hrp| && AreDigits(32, r)
  {
    seq(|hrp|, i requires 0 <= i < |hrp| => (hrp[i] as int) / 32)
  }

  function LowBits(hrp: string): (r: seq<nat>)
    requires Printable(hrp)
    ensures |r| == |hrp| && AreDigits(32, r)
  {
    seq(|hrp|, i requires 0 <= i < |hrp| => (hrp[i] as int) % 32)
  }

  function HrpExpand(hrp: string): (r: seq<nat>)
    requires Printable(hrp)
    ensures AreDigits(32, r)
  {
    HighBits(hrp) + [0] + LowBits(hrp)
  }

  /** Where the last `c` is, as `rfind`. */
  function LastIndexOf(s: string, c: char): (r: Option<nat>)
    ensures r.Some? ==> r.value < |s| && s[r.value] == c && forall k :: r.value < k < |s| ==> s[k] != c
    ensures r.None? ==> c !in s
  {
    if s == [] then None
    else if s[|s| - 1] == c then Some(|s| - 1)
    else LastIndexOf(s[..|s| - 1], c)
  }

  function SymbolsOf(text: string): (r: Option<seq<nat>>)
    ensures r.Some? ==> |r.value| == |text| && AreDigits(32, r.value) && forall i :: 0 <= i < |text| ==> r.value[i] == IndexOf(CHARSET, text[i])
    ensures r.None? ==> exists i :: 0 <= i < |text| && IndexOf(CHARSET, text[i]) >= 32
  {
    if text == [] then Some([])
    else
      var n := |text| - 1;
      var before := SymbolsOf(text[..n]);
      if before.None? || IndexOf(CHARSET, text[n]) >= 32 then None else Some(before.value + [IndexOf(CHARSET, text[n])])
  }

  datatype Checked = Checked(hrp: string, data: seq<nat>, checksum: bv30)

  datatype TextError = NotPrintable | MixedCase | Malformed | BadCharacter

  /** Splits at the last `1`, reads the symbols and computes the checksum; the six checksum
      symbols are dropped from the data. `cap` is the longest string allowed. */
  function Split(text: string, cap: Option<nat>): (r: Result<Checked, TextError>)
    ensures r.Success? ==> AreDigits(32, r.value.data) && r.value.hrp != ""
  {
    if !Printable(text) then Failure(NotPrintable)
    else if !OneCase(text) then Failure(MixedCase)
    else
      LowerIsPrintable(text);
      SplitLowered(Lower(text), cap)
  }

  lemma LowerIsPrintable(text: string)
    requires Printable(text)
    ensures Printable(Lower(text))
  {
  }

  function SplitLowered(lowered: string, cap: Option<nat>): (r: Result<Checked, TextError>)
    requires Printable(lowered)
    ensures r.Success? ==> AreDigits(32, r.value.data) && r.value.hrp != ""
  {
    match LastIndexOf(lowered, '1')
    case None => Failure(Malformed)
    case Some(at) =>
      if at < 1 || at + 7 > |lowered| || (cap.Some? && |lowered| > cap.value) then Failure(Malformed)
      else match SymbolsOf(lowered[at + 1..])
        case None => Failure(BadCharacter)
        case Some(symbols) => Success(Sealed(lowered[..at], symbols))
  }

  /** The six checksum symbols are dropped from the data. */
  function Sealed(hrp: string, symbols: seq<nat>): (r: Checked)
    requires Printable(hrp) && AreDigits(32, symbols) && |symbols| >= 6
    ensures AreDigits(32, r.data) && r.hrp == hrp
  {
    Checked(hrp, symbols[..|symbols| - 6], Polymod(HrpExpand(hrp) + symbols))
  }

  /** The charset read backwards. */
  function SymbolOf(c: char): nat {
    match c
    case 'q' => 0 case 'p' => 1 case 'z' => 2 case 'r' => 3 case 'y' => 4 case '9' => 5 case 'x' => 6 case '8' => 7
    case 'g' => 8 case 'f' => 9 case '2' => 10 case 't' => 11 case 'v' => 12 case 'd' => 13 case 'w' => 14 case '0' => 15
    case 's' => 16 case '3' => 17 case 'j' => 18 case 'n' => 19 case '5' => 20 case '4' => 21 case 'k' => 22 case 'h' => 23
    case 'c' => 24 case 'e' => 25 case '6' => 26 case 'm' => 27 case 'u' => 28 case 'a' => 29 case '7' => 30 case 'l' => 31
    case _ => 32
  }

  lemma CharsetSize()
    ensures |CHARSET| == 32
  {
  }

  lemma PositionOfCharset(n: nat)
    requires n < 32 && |CHARSET| == 32
    ensures SymbolOf(CHARSET[n]) == n
  {
  }

  lemma PositionIsPlain(c: char)
    requires SymbolOf(c) < 32
    ensures c != '1' && LowerChar(c) == c && 33 <= c as int <= 126
  {
  }

  /** Each symbol has its own character, and none of them is the separator. */
  lemma CharsetIsDistinct(n: nat)
    requires n < 32
    ensures |CHARSET| == 32 && IndexOf(CHARSET, CHARSET[n]) == n
    ensures CHARSET[n] != '1' && LowerChar(CHARSET[n]) == CHARSET[n] && 33 <= CHARSET[n] as int <= 126
  {
    hide SymbolOf, LowerChar, CHARSET;
    CharsetSize();
    var i := IndexOf(CHARSET, CHARSET[n]);
    PositionOfCharset(n);
    PositionIsPlain(CHARSET[n]);
    if i < 32 {
      PositionOfCharset(i);
    }
  }

  /** The text of a data part. */
  function CharsOf(symbols: seq<nat>): (s: string)
    requires AreDigits(32, symbols)
    ensures |s| == |symbols| && forall i :: 0 <= i < |s| ==> |CHARSET| == 32 && s[i] == CHARSET[symbols[i]]
  {
    CharsetSize();
    seq(|symbols|, i requires 0 <= i < |symbols| => CHARSET[symbols[i]])
  }

  function Address(hrp: string, symbols: seq<nat>): string
    requires AreDigits(32, symbols)
  {
    hrp + "1" + CharsOf(symbols)
  }

  /** A human-readable part as an encoder writes it. */
  predicate LowerHrp(hrp: string) {
    hrp != "" && Printable(hrp) && Lower(hrp) == hrp
  }

  lemma {:induction false} SymbolsOfChars(symbols: seq<nat>)
    requires AreDigits(32, symbols)
    ensures SymbolsOf(CharsOf(symbols)) == Some(symbols)
  {
    hide CHARSET;
    var s := CharsOf(symbols);
    forall i | 0 <= i < |s| ensures IndexOf(CHARSET, s[i]) == symbols[i] {
      CharsetIsDistinct(symbols[i]);
    }
    assert SymbolsOf(s).Some?;
    assert SymbolsOf(s).value == symbols;
  }

  lemma {:induction false} LastIndexAt(s: string, at: nat, c: char)
    requires at < |s| && s[at] == c && forall k :: at < k < |s| ==> s[k] != c
    ensures LastIndexOf(s, c) == Some(at)
  {
  }

  /** The text of an address is printable, in lower case, and its last `1` is the separator. */
  lemma AddressShape(hrp: string, symbols: seq<nat>)
    requires LowerHrp(hrp) && AreDigits(32, symbols)
    ensures var text := Address(hrp, symbols);
      && Printable(text) && Lower(text) == text && LastIndexOf(text, '1') == Some(|hrp|)
      && text[..|hrp|] == hrp && text[|hrp| + 1..] == CharsOf(symbols)
  {
    hide CHARSET, LowerChar;
    var text := Address(hrp, symbols);
    forall i | 0 <= i < |text|
      ensures 33 <= text[i] as int <= 126 && LowerChar(text[i]) == text[i] && (i > |hrp| ==> text[i] != '1')
    {
      if i < |hrp| {
        assert text[i] == hrp[i] && Lower(hrp)[i] == LowerChar(hrp[i]);
      } else if i > |hrp| {
        CharsetIsDistinct(symbols[i - |hrp| - 1]);
        assert text[i] == CharsOf(symbols)[i - |hrp| - 1];
      } else {
        OneIsPlain();
      }
    }
    LastIndexAt(text, |hrp|, '1');
  }

  lemma OneIsPlain()
    ensures LowerChar('1') == '1' && 33 <= '1' as int <= 126
  {
  }

  /** Splitting undoes writing out. */
  lemma SplitUndoesAddress(hrp: string, symbols: seq<nat>, cap: Option<nat>)
    requires LowerHrp(hrp) && AreDigits(32, symbols) && |symbols| >= 6
    requires cap.Some? ==> |hrp| + 1 + |symbols| <= cap.value
    ensures Split(Address(hrp, symbols), cap)
         == Success(Checked(hrp, symbols[..|symbols| - 6], Polymod(HrpExpand(hrp) + symbols)))
  {
    hide CHARSET, Polymod, HrpExpand, LastIndexOf, SymbolsOf, Lower, Upper;
    AddressShape(hrp, symbols);
    SymbolsOfChars(symbols);
  }
}
