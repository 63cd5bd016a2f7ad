/** Regrouping integers into integers of another width. */
module BitRegrouping {
  // Regrouping a list of small integers into integers of another width, with an
  // accumulator and a bit count, and the bit-string meaning of the result.

  import opened BoundedFifo
  import opened Arithmetic
  import opened Text

  // -------------------------------------------------------- integers as bits

  /** `a << k` and `a >> k` on unbounded integers. */
  function ShiftLeft(a: nat, k: nat): nat {
    if k == 0 then a else 2 * ShiftLeft(a, k - 1)
  }

  function ShiftRight(a: nat, k: nat): nat {
    if k == 0 then a else ShiftRight(a, k - 1) / 2
  }

  /** `a & ((1 << k) - 1)`. */
  function Mask(a: nat, k: nat): nat {
    if k == 0 then 0 else 2 * Mask(a / 2, k - 1) + a % 2
  }

  /** The low `k` bits of `a`, the highest first. */
  function Bits(a: nat, k: nat): (r: seq<bool>)
    ensures |r| == k
  {
    if k == 0 then [] else Bits(a / 2, k - 1) + [a % 2 == 1]
  }

  /** `a` has at most `k` bits: `a >> k` is zero. */
  predicate FitsBits(a: nat, k: nat) {
    if k == 0 then a == 0 else FitsBits(a / 2, k - 1)
  }

  function Falses(k: nat): (r: seq<bool>)
    ensures |r| == k && forall i :: 0 <= i < k ==> !r[i]
  {
    seq(k, i => false)
  }

  lemma {:induction false} HalvesCommute(a: nat, k: nat)
    ensures ShiftRight(a / 2, k) == ShiftRight(a, k) / 2
  {
    if k > 0 { HalvesCommute(a, k - 1); }
  }

  lemma {:induction false} FitsIffNothingAbove(a: nat, k: nat)
    ensures FitsBits(a, k) <==> ShiftRight(a, k) == 0
  {
    if k > 0 {
      FitsIffNothingAbove(a / 2, k - 1);
      HalvesCommute(a, k - 1);
    }
  }

  /** Appending `v` below `a` appends its bits. */
  lemma {:induction false} AppendedBits(a: nat, v: nat, k: nat, f: nat)
    requires FitsBits(v, f)
    ensures Bits(ShiftLeft(a, f) + v, k + f) == Bits(a, k) + Bits(v, f)
  {
    if f == 0 {
      assert Bits(a, k) + [] == Bits(a, k);
    } else {
      AppendedBits(a, v / 2, k, f - 1);
      assert (ShiftLeft(a, f) + v) / 2 == ShiftLeft(a, f - 1) + v / 2;
      assert Bits(a, k) + (Bits(v / 2, f - 1) + [v % 2 == 1]) == (Bits(a, k) + Bits(v / 2, f - 1)) + [v % 2 == 1];
    }
  }

  /** Shifting right drops the lowest bits. */
  lemma {:induction false} ShiftedBits(a: nat, k: nat, j: nat)
    ensures Bits(ShiftRight(a, j), k) == Bits(a, k + j)[..k]
  {
    if j > 0 {
      HalvesCommute(a, j - 1);
      ShiftedBits(a / 2, k, j - 1);
      assert Bits(a, k + j) == Bits(a / 2, k + j - 1) + [a % 2 == 1];
    }
  }

  lemma {:induction false} LowerBits(a: nat, k: nat, j: nat)
    ensures Bits(a, k + j)[k..] == Bits(a, j)
  {
    if j == 0 {
      assert Bits(a, k + j)[k..] == [];
    } else {
      LowerBits(a / 2, k, j - 1);
      assert Bits(a, k + j)[k..] == Bits(a / 2, k + j - 1)[k..] + [a % 2 == 1];
    }
  }

  lemma {:induction false} MaskedBits(a: nat, k: nat)
    ensures Bits(Mask(a, k), k) == Bits(a, k) && FitsBits(Mask(a, k), k)
  {
    if k > 0 { MaskedBits(a / 2, k - 1); }
  }

  lemma {:induction false} ZeroBits(k: nat)
    ensures Bits(0, k) == Falses(k) && FitsBits(0, k)
  {
    if k > 0 {
      ZeroBits(k - 1);
      assert Falses(k) == Falses(k - 1) + [false];
    }
  }

  /** The bits of a small enough integer determine it. */
  lemma {:induction false} BitsDetermine(a: nat, b: nat, k: nat)
    requires FitsBits(a, k) && FitsBits(b, k) && Bits(a, k) == Bits(b, k)
    ensures a == b
  {
    if k > 0 {
      var s, t := Bits(a / 2, k - 1) + [a % 2 == 1], Bits(b / 2, k - 1) + [b % 2 == 1];
      assert s[..k - 1] == Bits(a / 2, k - 1) && t[..k - 1] == Bits(b / 2, k - 1);
      assert s[k - 1] == t[k - 1];
      BitsDetermine(a / 2, b / 2, k - 1);
    }
  }

  // ------------------------------------------------------------ lists of groups

  predicate NonNegative(groups: seq<int>) {
    forall i :: 0 <= i < |groups| ==> groups[i] >= 0
  }

  predicate AllFit(groups: seq<int>, width: nat) {
    forall i :: 0 <= i < |groups| ==> groups[i] >= 0 && FitsBits(groups[i], width)
  }

  /** The concatenated bits of a list of `width`-bit groups. */
  function AllBits(groups: seq<int>, width: nat): (r: seq<bool>)
    requires NonNegative(groups)
  {
    if groups == [] then [] else AllBits(groups[..|groups| - 1], width) + Bits(groups[|groups| - 1], width)
  }

  /** `values` and `bytes` are the same bit string but for `pad` final zero bits,
      too few to make up a group of either width. */
  ghost predicate RegroupsWith(values: seq<int>, from: nat, bytes: seq<int>, to: nat, pad: nat) {
    && AllFit(values, from) && AllFit(bytes, to) && pad < from && pad < to
    && AllBits(values, from) == AllBits(bytes, to) + Falses(pad)
  }

  ghost predicate Regroups(values: seq<int>, from: nat, bytes: seq<int>, to: nat) {
    exists pad :: RegroupsWith(values, from, bytes, to, pad)
  }

  lemma AllBitsAppend(groups: seq<int>, g: int, width: nat)
    requires NonNegative(groups + [g]) && NonNegative(groups)
    ensures AllBits(groups + [g], width) == AllBits(groups, width) + Bits((groups + [g])[|groups|], width)
  {
    assert (groups + [g])[..|groups|] == groups;
  }

  lemma {:induction false} AllBitsLength(groups: seq<int>, width: nat)
    requires NonNegative(groups)
    ensures |AllBits(groups, width)| == Times(|groups|, width)
  {
    if groups != [] {
      AllBitsLength(groups[..|groups| - 1], width);
    }
  }

  // ------------------------------------------------------------------- the loop

  /** The list of groups, read from the accumulator. */
  ghost predicate Consumed(values: seq<int>, from: nat, result: seq<int>, to: nat, accumulator: nat, count: nat) {
    && AllFit(values, from) && AllFit(result, to)
    && AllBits(values, from) == AllBits(result, to) + Bits(accumulator, count)
  }

  lemma AllFitAppend(groups: seq<int>, g: nat, width: nat)
    requires AllFit(groups, width) && FitsBits(g, width)
    ensures AllFit(groups + [g], width) && AllBits(groups + [g], width) == AllBits(groups, width) + Bits(g, width)
  {
    AllBitsAppend(groups, g, width);
  }

  lemma TakeValue(values: seq<int>, v: nat, from: nat, result: seq<int>, to: nat, accumulator: nat, count: nat)
    requires Consumed(values, from, result, to, accumulator, count) && FitsBits(v, from)
    ensures Consumed(values + [v], from, result, to, ShiftLeft(accumulator, from) + v, count + from)
  {
    AllFitAppend(values, v, from);
    AppendedBits(accumulator, v, count, from);
    Associates(AllBits(result, to), Bits(accumulator, count), Bits(v, from));
  }

  lemma UpperAndLowerBits(accumulator: nat, to: nat, count: nat)
    ensures var b := Mask(ShiftRight(accumulator, count), to);
            FitsBits(b, to) && Bits(accumulator, count + to) == Bits(b, to) + Bits(accumulator, count)
  {
    MaskedBits(ShiftRight(accumulator, count), to);
    ShiftedBits(accumulator, to, count);
    LowerBits(accumulator, to, count);
  }

  lemma GiveByte(values: seq<int>, from: nat, result: seq<int>, to: nat, accumulator: nat, count: nat)
    requires Consumed(values, from, result, to, accumulator, count + to)
    ensures Consumed(values, from, result + [Mask(ShiftRight(accumulator, count), to)], to, accumulator, count)
  {
    var b := Mask(ShiftRight(accumulator, count), to);
    UpperAndLowerBits(accumulator, to, count);
    AllFitAppend(result, b, to);
    Associates(AllBits(result, to), Bits(b, to), Bits(accumulator, count));
  }

  /** The remainder test looks at exactly the bits not given out yet. */
  lemma RemainderTest(accumulator: nat, count: nat, to: nat)
    requires count <= to
    ensures Mask(ShiftLeft(accumulator, to - count), to) == 0 <==> Bits(accumulator, count) == Falses(count)
  {
    var j: nat := to - count;
    ZeroBits(j);
    AppendedBits(accumulator, 0, count, j);
    MaskedBits(ShiftLeft(accumulator, j), to);
    assert Bits(ShiftLeft(accumulator, j), to) == Bits(accumulator, count) + Falses(j);
    ZeroBits(to);
    assert Falses(to) == Falses(count) + Falses(j);
    assert (Bits(accumulator, count) + Falses(j))[..count] == Bits(accumulator, count);
    assert Falses(to)[..count] == Falses(count);
    if Bits(accumulator, count) == Falses(count) {
      BitsDetermine(Mask(ShiftLeft(accumulator, j), to), 0, to);
    }
  }

  // ----------------------------------------------------------------- uniqueness

  lemma SplitsAlike<T>(a: seq<T>, x: seq<T>, b: seq<T>, y: seq<T>)
    requires |a| == |b| && a + x == b + y
    ensures a == b && x == y
  {
    assert (a + x)[..|a|] == a && (b + y)[..|b|] == b;
    assert (a + x)[|a|..] == x && (b + y)[|b|..] == y;
  }

  /** Cutting a bit string into groups is unambiguous. */
  lemma {:induction false} AllBitsDetermine(a: seq<int>, b: seq<int>, width: nat)
    requires AllFit(a, width) && AllFit(b, width) && |a| == |b| && AllBits(a, width) == AllBits(b, width)
    ensures a == b
  {
    if a != [] {
      var n := |a| - 1;
      AllBitsLength(a[..n], width);
      AllBitsLength(b[..n], width);
      SplitsAlike(AllBits(a[..n], width), Bits(a[n], width), AllBits(b[..n], width), Bits(b[n], width));
      AllBitsDetermine(a[..n], b[..n], width);
      BitsDetermine(a[n], b[n], width);
      assert a == a[..n] + [a[n]] && b == b[..n] + [b[n]];
    }
  }

  /** Two counts of groups that leave less than one group over are the same. */
  lemma MoreGroupsMoreBits(n: nat, m: nat, width: nat, p: nat)
    requires p < width && n < m
    ensures Times(n, width) + p < Times(m, width)
  {
    TimesGrows(n + 1, m, width);
  }

  lemma CountsAgree(n: nat, m: nat, width: nat, p: nat, q: nat)
    requires p < width && q < width && Times(n, width) + p == Times(m, width) + q
    ensures n == m && p == q
  {
    if n < m { MoreGroupsMoreBits(n, m, width, p); }
    if m < n { MoreGroupsMoreBits(m, n, width, q); }
  }

  /** At most one list of bytes regroups given values. */
  lemma RegroupedBytesAreUnique(values: seq<int>, from: nat, b1: seq<int>, b2: seq<int>, to: nat)
    requires Regroups(values, from, b1, to) && Regroups(values, from, b2, to)
    ensures b1 == b2
  {
    var p :| RegroupsWith(values, from, b1, to, p);
    var q :| RegroupsWith(values, from, b2, to, q);
    AllBitsLength(b1, to);
    AllBitsLength(b2, to);
    CountsAgree(|b1|, |b2|, to, p, q);
    var n := |AllBits(b1, to)|;
    assert (AllBits(b1, to) + Falses(p))[..n] == AllBits(b1, to);
    assert (AllBits(b2, to) + Falses(q))[..n] == AllBits(b2, to);
    AllBitsDetermine(b1, b2, to);
  }

  /** At most one list of values regroups to given bytes: the grouping is
      canonical. */
  lemma RegroupedValuesAreUnique(v1: seq<int>, v2: seq<int>, from: nat, bytes: seq<int>, to: nat)
    requires Regroups(v1, from, bytes, to) && Regroups(v2, from, bytes, to)
    ensures v1 == v2
  {
    var p :| RegroupsWith(v1, from, bytes, to, p);
    var q :| RegroupsWith(v2, from, bytes, to, q);
    AllBitsLength(v1, from);
    AllBitsLength(v2, from);
    CountsAgree(|v1|, |v2|, from, q, p);
    AllBitsDetermine(v1, v2, from);
  }

  // ------------------------------------------------------------- the conversion

  /** Gives out bytes as long as there are bits for one. */
  method GiveBytes(ghost values: seq<int>, ghost from: nat, given: seq<int>, to: nat, accumulator: nat, bits: nat)
    returns (result: seq<int>, count: nat)
    requires to > 0 && Consumed(values, from, given, to, accumulator, bits)
    ensures Consumed(values, from, result, to, accumulator, count) && count < to
  {
    result, count := given, bits;
    while count >= to
      invariant Consumed(values, from, result, to, accumulator, count)
    {
      count := count - to;
      GiveByte(values, from, result, to, accumulator, count);
      result := result + [Mask(ShiftRight(accumulator, count), to)];
    }
  }

  /** One turn of the loop: a value in range goes in, bytes come out. */
  method TakeAndGive(ghost values: seq<int>, v: nat, from: nat, given: seq<int>, to: nat, shifted: nat, bits: nat)
    returns (accumulator: nat, result: seq<int>, count: nat)
    requires to > 0 && Consumed(values, from, given, to, shifted, bits) && ShiftRight(v, from) == 0
    ensures Consumed(values + [v], from, result, to, accumulator, count) && count < to
  {
    FitsIffNothingAbove(v, from);
    TakeValue(values, v, from, given, to, shifted, bits);
    accumulator := ShiftLeft(shifted, from) + v;
    result, count := GiveBytes(values + [v], from, given, to, accumulator, bits + from);
  }

  lemma OutOfRange(values: seq<int>, from: nat, i: nat, to: nat)
    requires i < |values| && (values[i] < 0 || ShiftRight(values[i], from) != 0)
    ensures forall bytes: seq<int> :: !Regroups(values, from, bytes, to)
  {
    if values[i] >= 0 { FitsIffNothingAbove(values[i], from); }
  }

  /** The accumulator loop: it returns the one list of bytes that regroups the
      values, and nothing exactly if there is none. */
  method ConvertBits(values: seq<int>, from: nat, to: nat) returns (converted: Option<seq<int>>)
    requires to > 0
    ensures converted.Some? ==> Regroups(values, from, converted.value, to)
    ensures converted.None? ==> forall bytes: seq<int> :: !Regroups(values, from, bytes, to)
  {
    var accumulator: nat, count: nat, result: seq<int> := 0, 0, [];
    for i := 0 to |values|
      invariant Consumed(values[..i], from, result, to, accumulator, count) && count < to
    {
      if values[i] < 0 || ShiftRight(values[i], from) != 0 {
        OutOfRange(values, from, i, to);
        return None;
      }
      assert values[..i] + [values[i]] == values[..i + 1];
      accumulator, result, count := TakeAndGive(values[..i], values[i], from, result, to, accumulator, count);
    }
    assert values[..|values|] == values;
    FinalTestDecides(values, from, result, to, accumulator, count);
    if count >= from || Mask(ShiftLeft(accumulator, to - count), to) != 0 {
      return None;
    }
    return Some(result);
  }

  lemma FinalTestDecides(values: seq<int>, from: nat, result: seq<int>, to: nat, accumulator: nat, count: nat)
    requires Consumed(values, from, result, to, accumulator, count) && count < to
    ensures if count >= from || Mask(ShiftLeft(accumulator, to - count), to) != 0
            then forall bytes: seq<int> :: !Regroups(values, from, bytes, to)
            else Regroups(values, from, result, to)
  {
    RemainderTest(accumulator, count, to);
    RemainderDecides(values, from, result, to, accumulator, count);
  }

  /** Once all values are taken, what is left over decides. */
  lemma RemainderDecides(values: seq<int>, from: nat, result: seq<int>, to: nat, accumulator: nat, count: nat)
    requires Consumed(values, from, result, to, accumulator, count) && count < to
    ensures if count < from && Bits(accumulator, count) == Falses(count)
            then Regroups(values, from, result, to)
            else forall bytes: seq<int> :: !Regroups(values, from, bytes, to)
  {
    if count < from && Bits(accumulator, count) == Falses(count) {
      assert RegroupsWith(values, from, result, to, count);
    } else {
      forall bytes: seq<int> ensures !Regroups(values, from, bytes, to) {
        if Regroups(values, from, bytes, to) {
          var pad :| RegroupsWith(values, from, bytes, to, pad);
          RemainderIsForced(values, from, result, to, accumulator, count, bytes, pad);
          assert false;
        }
      }
    }
  }

  lemma RemainderIsForced(values: seq<int>, from: nat, result: seq<int>, to: nat, accumulator: nat, count: nat, bytes: seq<int>, pad: nat)
    requires Consumed(values, from, result, to, accumulator, count) && count < to && RegroupsWith(values, from, bytes, to, pad)
    ensures count == pad && Bits(accumulator, count) == Falses(count)
  {
    AllBitsLength(result, to);
    AllBitsLength(bytes, to);
    CountsAgree(|result|, |bytes|, to, count, pad);
    var n := |AllBits(result, to)|;
    assert (AllBits(result, to) + Bits(accumulator, count))[n..] == Bits(accumulator, count);
    assert (AllBits(bytes, to) + Falses(pad))[n..] == Falses(pad);
  }

  // --------------------------------------------------------------- the encoding

  /** The integer with the given bits. */
  function Value(bits: seq<bool>): nat {
    if bits == [] then 0 else 2 * Value(bits[..|bits| - 1]) + (if bits[|bits| - 1] then 1 else 0)
  }

  lemma {:induction false} ValueHasItsBits(bits: seq<bool>)
    ensures FitsBits(Value(bits), |bits|) && Bits(Value(bits), |bits|) == bits
  {
    if bits != [] {
      ValueHasItsBits(bits[..|bits| - 1]);
      assert bits == bits[..|bits| - 1] + [bits[|bits| - 1]];
    }
  }

  /** Zero-padded grouping, as an encoder does it. */
  function Grouped(bits: seq<bool>, width: nat): seq<int>
    requires width > 0
  {
    if bits == [] then []
    else if |bits| < width then [Value(bits + Falses(width - |bits|))]
    else [Value(bits[..width])] + Grouped(bits[width..], width)
  }

  lemma {:induction false} AllBitsPrepend(g: nat, groups: seq<int>, width: nat)
    requires NonNegative(groups)
    ensures AllBits([g] + groups, width) == Bits(g, width) + AllBits(groups, width)
  {
    if groups == [] {
      assert [g] + groups == [g];
      assert [g][..0] == [];
    } else {
      var n := |groups| - 1;
      AllBitsPrepend(g, groups[..n], width);
      assert ([g] + groups)[..n + 1] == [g] + groups[..n];
      Associates(Bits(g, width), AllBits(groups[..n], width), Bits(groups[n], width));
    }
  }

  lemma LastGroup(bits: seq<bool>, width: nat)
    requires 0 < |bits| < width
    ensures AllFit(Grouped(bits, width), width)
    ensures AllBits(Grouped(bits, width), width) == bits + Falses(width - |bits|)
  {
    var all := bits + Falses(width - |bits|);
    ValueHasItsBits(all);
    AllBitsPrepend(Value(all), [], width);
    assert [Value(all)] + [] == [Value(all)];
  }

  lemma FirstGroup(head: seq<bool>, tail: seq<bool>, rest: seq<int>, pad: nat)
    requires |head| > 0 && AllFit(rest, |head|) && AllBits(rest, |head|) == tail + Falses(pad)
    ensures AllFit([Value(head)] + rest, |head|)
    ensures AllBits([Value(head)] + rest, |head|) == head + tail + Falses(pad)
  {
    ValueHasItsBits(head);
    AllBitsPrepend(Value(head), rest, |head|);
    Associates(head, tail, Falses(pad));
  }

  lemma {:induction false} GroupedBits(bits: seq<bool>, width: nat) returns (pad: nat)
    requires width > 0
    ensures pad < width && AllFit(Grouped(bits, width), width)
    ensures AllBits(Grouped(bits, width), width) == bits + Falses(pad)
    decreases |bits|
  {
    if bits == [] {
      pad := 0;
    } else if |bits| < width {
      pad := width - |bits|;
      LastGroup(bits, width);
    } else {
      pad := GroupedBits(bits[width..], width);
      FirstGroup(bits[..width], bits[width..], Grouped(bits[width..], width), pad);
      assert bits == bits[..width] + bits[width..];
    }
  }

  /** Regrouping inverts zero-padded grouping into narrower groups: for every list
      of bytes. */
  lemma RegroupingInvertsGrouping(bytes: seq<int>, from: nat, to: nat)
    requires 0 < from <= to && AllFit(bytes, to)
    ensures Regroups(Grouped(AllBits(bytes, to), from), from, bytes, to)
  {
    var pad := GroupedBits(AllBits(bytes, to), from);
    assert RegroupsWith(Grouped(AllBits(bytes, to), from), from, bytes, to, pad);
  }
}
