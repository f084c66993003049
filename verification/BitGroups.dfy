/** Regrouping a bit string from groups of one width into groups of another (BIP 173, section
    "Segwit address format"). */
module BitGroups {
  import opened Wrappers
  import opened Numerals

  /** `v >> bits` and `v & ((1 << bits) - 1)`. */
  function Drop(v: nat, bits: nat): nat {
    PowPositive(2, bits);
    v / Pow(2, bits)
  }

  function Low(v: nat, bits: nat): (r: nat)
    ensures r < Pow(2, bits)
  {
    PowPositive(2, bits);
    DivMod(v, Pow(2, bits));
    v % Pow(2, bits)
  }

  lemma DropLow(v: nat, bits: nat)
    ensures v == Drop(v, bits) * Pow(2, bits) + Low(v, bits)
  {
    PowPositive(2, bits);
    DivMod(v, Pow(2, bits));
  }

  lemma DropLowUnique(v: nat, bits: nat, q: nat, d: nat)
    requires d < Pow(2, bits) && v == q * Pow(2, bits) + d
    ensures Drop(v, bits) == q && Low(v, bits) == d
  {
    PowPositive(2, bits);
    DivModUnique(Pow(2, bits), q, d, v);
  }

  /** The bits of a list of `width`-bit groups, most significant first. */
  function Bits(width: nat, groups: seq<nat>): (bits: seq<nat>)
    ensures |bits| == width * |groups| && AreDigits(2, bits)
  {
    if groups == [] then []
    else
      var n := |groups| - 1;
      assert width * |groups| == width * n + width;
      Bits(width, groups[..n]) + Fixed(2, width, groups[n])
  }

  /** `groups` are the bits of `whole`, zero-padded to the next group and no further. */
  ghost predicate Regroups(from: nat, to: nat, groups: seq<nat>, whole: seq<nat>) {
    && AreDigits(Pow(2, from), groups) && AreDigits(Pow(2, to), whole)
    && exists padding :: 0 <= padding < from && padding < to && PaddedBy(from, to, groups, whole, padding)
  }

  predicate PaddedBy(from: nat, to: nat, groups: seq<nat>, whole: seq<nat>, padding: nat) {
    Bits(from, groups) == Bits(to, whole) + Zeros(padding)
  }

  // -- bits as numbers ---------------------------------------------------------------------------

  lemma {:induction false} BitsVal(width: nat, groups: seq<nat>)
    requires AreDigits(Pow(2, width), groups)
    ensures Val(2, Bits(width, groups)) == Val(Pow(2, width), groups)
  {
    if groups != [] {
      var n := |groups| - 1;
      BitsVal(width, groups[..n]);
      FixedVal(2, width, groups[n]);
      ValConcat(2, Bits(width, groups[..n]), Fixed(2, width, groups[n]));
    }
  }

  /** Padding is a shift. */
  lemma PaddingShifts(from: nat, to: nat, groups: seq<nat>, whole: seq<nat>, padding: nat)
    requires AreDigits(Pow(2, from), groups) && AreDigits(Pow(2, to), whole)
    ensures PaddedBy(from, to, groups, whole, padding) <==>
      from * |groups| == to * |whole| + padding
      && Val(Pow(2, from), groups) == Val(Pow(2, to), whole) * Pow(2, padding)
  {
    BitsVal(from, groups);
    BitsVal(to, whole);
    var padded := Bits(to, whole) + Zeros(padding);
    ValConcat(2, Bits(to, whole), Zeros(padding));
    ZerosVal(2, padding);
    if from * |groups| == to * |whole| + padding && Val(Pow(2, from), groups) == Val(Pow(2, to), whole) * Pow(2, padding) {
      ValUnique(2, Bits(from, groups), padded);
    }
  }

  // -- the conversion -------------------------------------------------------------------------------

  /** How many bits are left over once whole groups are taken out. */
  function Spare(from: nat, to: nat, count: nat): nat
    requires to > 0
  {
    from * count % to
  }

  /** What `_convert_bits` returns; None where it raises. */
  function Converted(groups: seq<nat>, from: nat, to: nat): Option<seq<nat>>
    requires from > 0 && to > 0
  {
    PowPositive(2, to);
    var spare := Spare(from, to, |groups|);
    var value := Val(Pow(2, from), groups);
    if !AreDigits(Pow(2, from), groups) || spare >= from || Low(value, spare) != 0 then None
    else Some(Fixed(Pow(2, to), from * |groups| / to, Drop(value, spare)))
  }

  lemma DropBelow(v: nat, bits: nat, q: nat)
    requires v < q * Pow(2, bits)
    ensures Drop(v, bits) < q
  {
    DropLow(v, bits);
    if Drop(v, bits) >= q {
      MulAtMost(q, Drop(v, bits), Pow(2, bits));
    }
  }

  /** The whole groups taken out of the front hold the front bits. */
  lemma ConvertedVal(groups: seq<nat>, from: nat, to: nat)
    requires from > 0 && to > 0 && Converted(groups, from, to).Some?
    ensures var r := Converted(groups, from, to).value;
      && |r| == from * |groups| / to && AreDigits(Pow(2, to), r)
      && Val(Pow(2, to), r) == Drop(Val(Pow(2, from), groups), Spare(from, to, |groups|))
  {
    hide Drop, Low, Pow, Val, Spare;
    var spare, count := Spare(from, to, |groups|), from * |groups| / to;
    var value := Val(Pow(2, from), groups);
    PowPositive(2, to);
    ValueFits(groups, from, to, count, spare);
    DropBelow(value, spare, Pow(Pow(2, to), count));
    FixedVal(Pow(2, to), count, Drop(value, spare));
  }

  lemma ValueFits(groups: seq<nat>, from: nat, to: nat, count: nat, spare: nat)
    requires AreDigits(Pow(2, from), groups) && to > 0
    requires count == from * |groups| / to && spare == Spare(from, to, |groups|)
    ensures Val(Pow(2, from), groups) < Pow(Pow(2, to), count) * Pow(2, spare)
  {
    hide Pow, Val;
    ValBound(Pow(2, from), groups);
    PowOfPow(2, from, |groups|);
    Counted(from * |groups|, to);
    PowAdds(2, to * count, spare);
    PowOfPow(2, to, count);
  }

  lemma Counted(total: nat, to: nat)
    requires to > 0
    ensures total == to * (total / to) + total % to
  {
    DivMod(total, to);
  }

  lemma SplitsOnce(to: nat, count: nat, padding: nat, total: nat)
    requires padding < to && total == to * count + padding
    ensures total / to == count && total % to == padding
  {
    DivModUnique(to, count, padding, total);
  }

  /** The conversion returns `whole` exactly when the groups are its zero-padded regrouping, and
      so refuses exactly when they are nobody's. */
  lemma ConvertsExactly(groups: seq<nat>, from: nat, to: nat, whole: seq<nat>)
    requires from > 0 && to > 0
    ensures Converted(groups, from, to) == Some(whole) <==> Regroups(from, to, groups, whole)
  {
    hide Converted;
    if Converted(groups, from, to) == Some(whole) {
      ConvertedIsRegrouping(groups, from, to);
    }
    if Regroups(from, to, groups, whole) {
      RegroupingIsConverted(groups, from, to, whole);
    }
  }

  lemma ConvertedIsRegrouping(groups: seq<nat>, from: nat, to: nat)
    requires from > 0 && to > 0 && Converted(groups, from, to).Some?
    ensures Regroups(from, to, groups, Converted(groups, from, to).value)
  {
    var spare := Spare(from, to, |groups|);
    var value := Val(Pow(2, from), groups);
    var r := Converted(groups, from, to).value;
    ConvertedVal(groups, from, to);
    DropLow(value, spare);
    DivMod(from * |groups|, to);
    PaddingShifts(from, to, groups, r, spare);
    assert PaddedBy(from, to, groups, r, spare);
  }

  lemma RegroupingIsConverted(groups: seq<nat>, from: nat, to: nat, whole: seq<nat>)
    requires from > 0 && to > 0 && Regroups(from, to, groups, whole)
    ensures Converted(groups, from, to) == Some(whole)
  {
    var padding :| 0 <= padding < from && padding < to && PaddedBy(from, to, groups, whole, padding);
    PaddingShifts(from, to, groups, whole, padding);
    SplitsOnce(to, |whole|, padding, from * |groups|);
    var value := Val(Pow(2, from), groups);
    PowPositive(2, padding);
    DropLowUnique(value, padding, Val(Pow(2, to), whole), 0);
    ConvertedVal(groups, from, to);
    ValUnique(Pow(2, to), Converted(groups, from, to).value, whole);
  }

  /** It refuses exactly what is no zero-padded regrouping at all. */
  lemma RefusesExactly(groups: seq<nat>, from: nat, to: nat)
    requires from > 0 && to > 0
    ensures Converted(groups, from, to).None? <==> forall whole :: !Regroups(from, to, groups, whole)
  {
    hide Converted, Regroups;
    if Converted(groups, from, to).Some? {
      ConvertsExactly(groups, from, to, Converted(groups, from, to).value);
    } else {
      forall whole ensures !Regroups(from, to, groups, whole) {
        ConvertsExactly(groups, from, to, whole);
      }
    }
  }

  // -- the loop ----------------------------------------------------------------------------------------

  /** Dropping in two steps. */
  lemma DropDrop(v: nat, bits: nat, more: nat)
    ensures Drop(v, bits + more) == Drop(Drop(v, bits), more)
  {
    hide Drop, Low, Pow;
    var p, q := Pow(2, bits), Pow(2, more);
    PowAdds(2, bits, more);
    DropLow(v, bits);
    DropLow(Drop(v, bits), more);
    var a, b, c := Drop(Drop(v, bits), more), Low(Drop(v, bits), more), Low(v, bits);
    Nested(a, b, c, p, q);
    DropLowUnique(v, bits + more, a, b * p + c);
  }

  lemma Nested(a: nat, b: nat, c: nat, p: nat, q: nat)
    requires b < q && c < p
    ensures (a * q + b) * p + c == a * (p * q) + (b * p + c) && 0 <= b * p + c < p * q
  {
    Associate(a, q, p);
    BoundStep(b, q, p, c);
    MulAtMost(0, b, p);
  }

  /** Taking the top `to` bits out of an accumulator that holds `bits + to` unread ones. */
  lemma TakeGroup(acc: nat, bits: nat, to: nat, result: seq<nat>)
    requires Val(Pow(2, to), result) == Drop(acc, bits + to)
    ensures Val(Pow(2, to), result + [Low(Drop(acc, bits), to)]) == Drop(acc, bits)
  {
    hide Drop, Low, Pow, Val;
    DropDrop(acc, bits, to);
    DropLow(Drop(acc, bits), to);
    ValAppend(Pow(2, to), result, Low(Drop(acc, bits), to));
  }

  /** Shifting one more group in keeps what was already read. */
  lemma ShiftIn(acc: nat, bits: nat, from: nat, value: nat)
    requires value < Pow(2, from)
    ensures Drop(acc * Pow(2, from) + value, bits + from) == Drop(acc, bits)
  {
    hide Drop, Low, Pow;
    DropDrop(acc * Pow(2, from) + value, from, bits);
    assert from + bits == bits + from;
    DropLowUnique(acc * Pow(2, from) + value, from, acc, value);
  }

  /** `(acc << (to - bits)) & maximum` is zero exactly when the unread bits are. */
  lemma PaddingTest(acc: nat, bits: nat, to: nat)
    requires bits <= to
    ensures Low(acc * Pow(2, to - bits), to) == 0 <==> Low(acc, bits) == 0
  {
    hide Drop, Low, Pow;
    var s, p := Pow(2, to - bits), Pow(2, bits);
    PowPositive(2, to - bits);
    PowAdds(2, bits, to - bits);
    DropLow(acc, bits);
    var q, d := Drop(acc, bits), Low(acc, bits);
    Scaled(q, d, p, s);
    DropLowUnique(acc * s, to, q, d * s);
  }

  lemma Scaled(q: nat, d: nat, p: nat, s: nat)
    requires d < p && s > 0
    ensures (q * p + d) * s == q * (p * s) + d * s && 0 <= d * s < p * s && (d * s == 0 <==> d == 0)
  {
    Associate(q, p, s);
    BoundStep(d, p, s, 0);
    MulAtMost(0, d, s);
    if d > 0 {
      MulAtMost(1, d, s);
    }
  }

  /** What the loop has read: a prefix of the input, all but the last few bits of it already out. */
  ghost predicate Progress(data: seq<nat>, from: nat, to: nat, n: nat, acc: nat, bits: nat, result: seq<nat>) {
    && n <= |data| && AreDigits(Pow(2, from), data[..n]) && AreDigits(Pow(2, to), result)
    && acc == Val(Pow(2, from), data[..n]) && from * n == to * |result| + bits
    && Val(Pow(2, to), result) == Drop(acc, bits)
  }

  lemma Reads(data: seq<nat>, from: nat, to: nat, n: nat, acc: nat, bits: nat, result: seq<nat>)
    requires n < |data| && Progress(data, from, to, n, acc, bits, result) && data[n] < Pow(2, from)
    ensures Progress(data, from, to, n + 1, acc * Pow(2, from) + data[n], bits + from, result)
  {
    hide Drop, Low, Pow;
    assert data[..n + 1] == data[..n] + [data[n]];
    ValAppend(Pow(2, from), data[..n], data[n]);
    ShiftIn(acc, bits, from, data[n]);
    assert from * (n + 1) == from * n + from;
  }

  lemma Emits(data: seq<nat>, from: nat, to: nat, n: nat, acc: nat, bits: nat, result: seq<nat>)
    requires Progress(data, from, to, n, acc, bits + to, result)
    ensures Progress(data, from, to, n, acc, bits, result + [Low(Drop(acc, bits), to)])
  {
    hide Drop, Low, Pow;
    TakeGroup(acc, bits, to, result);
    assert to * (|result| + 1) == to * |result| + to;
  }

  lemma Begins(data: seq<nat>, from: nat, to: nat)
    ensures Progress(data, from, to, 0, 0, 0, [])
  {
    assert Pow(2, 0) == 1;
  }

  lemma Finishes(data: seq<nat>, from: nat, to: nat, acc: nat, bits: nat, result: seq<nat>)
    requires from > 0 && to > 0 && Progress(data, from, to, |data|, acc, bits, result) && bits < to
    ensures Converted(data, from, to)
         == if bits >= from || Low(acc * Pow(2, to - bits), to) != 0 then None else Some(result)
  {
    hide Drop, Low, Pow, Val, Progress;
    Finished(data, from, to, acc, bits, result);
    PaddingTest(acc, bits, to);
    if bits < from && Low(acc, bits) == 0 {
      ConvertedVal(data, from, to);
      ValUnique(Pow(2, to), Converted(data, from, to).value, result);
    }
  }

  lemma Finished(data: seq<nat>, from: nat, to: nat, acc: nat, bits: nat, result: seq<nat>)
    requires to > 0 && Progress(data, from, to, |data|, acc, bits, result) && bits < to
    ensures AreDigits(Pow(2, from), data) && AreDigits(Pow(2, to), result) && acc == Val(Pow(2, from), data)
    ensures Spare(from, to, |data|) == bits && from * |data| / to == |result| && Val(Pow(2, to), result) == Drop(acc, bits)
  {
    hide Drop, Pow, Val, AreDigits;
    assert data[..|data|] == data;
    var total := from * |data|;
    assert total == to * |result| + bits;
    SplitsOnce(to, |result|, bits, total);
  }

  /** `_convert_bits`. */
  method ConvertBits(data: seq<nat>, from: nat, to: nat) returns (r: Option<seq<nat>>)
    requires from > 0 && to > 0
    ensures r == Converted(data, from, to)
  {
    hide Converted, Progress, Drop, Low, Pow;
    var acc: nat, bits: nat := 0, 0;
    var result: seq<nat> := [];
    PowPositive(2, from);
    Begins(data, from, to);
    for n := 0 to |data|
      invariant Progress(data, from, to, n, acc, bits, result) && bits < to
    {
      var value := data[n];
      if value / Pow(2, from) != 0 {
        NotADigit(data, n, Pow(2, from));
        RefusesBadDigit(data, from, to);
        return None;
      }
      IsADigit(value, Pow(2, from));
      Reads(data, from, to, n, acc, bits, result);
      acc := acc * Pow(2, from) + value;
      bits := bits + from;
      while bits >= to
        invariant Progress(data, from, to, n + 1, acc, bits, result)
      {
        bits := bits - to;
        Emits(data, from, to, n + 1, acc, bits, result);
        result := result + [Low(Drop(acc, bits), to)];
      }
    }
    Finishes(data, from, to, acc, bits, result);
    if bits >= from || Low(acc * Pow(2, to - bits), to) != 0 {
      return None;
    }
    return Some(result);
  }

  lemma NotADigit(data: seq<nat>, n: nat, base: nat)
    requires n < |data| && base > 0 && data[n] / base != 0
    ensures !AreDigits(base, data)
  {
    if data[n] < base {
      DivModUnique(base, 0, data[n], data[n]);
    }
  }

  lemma RefusesBadDigit(data: seq<nat>, from: nat, to: nat)
    requires from > 0 && to > 0 && !AreDigits(Pow(2, from), data)
    ensures Converted(data, from, to) == None
  {
  }

  lemma IsADigit(value: nat, base: nat)
    requires base > 0 && value / base == 0
    ensures value < base
  {
    DivMod(value, base);
  }
}
