/** The Bech32 checksum and the errors it sees. */
module Bech32 {
  // The Bech32 checksum of BIP-173 (section "Bech32"): the folding loop, its
  // linearity over GF(2), and which errors it is bound to notice.

  /** A data symbol: five bits. */
  type Symbol = bv5

  const GENERATORS: seq<bv30> := [0x3B6A57B2, 0x26508E6D, 0x1EA119FA, 0x3D4233DD, 0x2A1462B3]

  function Xor(a: bv30, b: bv30): bv30 { a ^ b }
  function Half(s: bv30): bv30 { s >> 1 }
  function Top(c: bv30): bv30 { c >> 25 }
  function Shifted(c: bv30): bv30 { (c & 0x1FFFFFF) << 5 }
  function Widen(v: Symbol): bv30 { v as bv30 }

  /** `g` if the lowest bit of `s` is set. */
  function Pick(s: bv30, g: bv30): bv30 { if s & 1 == 1 then g else 0 }

  /** The sum of the generators selected by the low bits of `top`. */
  function Feedback(top: bv30, generators: seq<bv30>): bv30 {
    if generators == [] then 0
    else Xor(Pick(top, generators[0]), Feedback(Half(top), generators[1..]))
  }

  /** One round of the checksum. */
  function Step(c: bv30, v: Symbol): bv30 {
    Xor(Xor(Shifted(c), Widen(v)), Feedback(Top(c), GENERATORS))
  }

  /** The checksum of `values` from state `c`. */
  function Fold(c: bv30, values: seq<Symbol>): bv30
    decreases values
  {
    if values == [] then c else Fold(Step(c, values[0]), values[1..])
  }

  ghost predicate Accepted(values: seq<Symbol>) {
    Fold(1, values) == 1
  }

  // ------------------------------------------------------------------ the loops

  lemma MixStep(before: bv30, bits: bv30, g: bv30, rest: bv30, after: bv30)
    requires after == if bits & 1 == 1 then Xor(before, g) else before
    ensures Xor(after, rest) == Xor(before, Xor(Pick(bits, g), rest))
  {
    Associative(before, Pick(bits, g), rest);
    Unit(before);
    if bits & 1 == 1 { assert Pick(bits, g) == g; } else { assert Pick(bits, g) == 0; }
  }

  /** The inner loop over the generators. */
  method MixIn(start: bv30, top: bv30, generators: seq<bv30>) returns (checksum: bv30)
    ensures checksum == Xor(start, Feedback(top, generators))
  {
    checksum := start;
    var bits := top;
    for index := 0 to |generators|
      invariant Xor(checksum, Feedback(bits, generators[index..])) == Xor(start, Feedback(top, generators))
    {
      var mixed := if bits & 1 == 1 then Xor(checksum, generators[index]) else checksum;
      assert generators[index..][1..] == generators[index + 1..];
      MixStep(checksum, bits, generators[index], Feedback(Half(bits), generators[index + 1..]), mixed);
      checksum := mixed;
      bits := Half(bits);
    }
    Unit(checksum);
  }

  /** The checksum loop. */
  method Bech32Polymod(values: seq<Symbol>) returns (checksum: bv30)
    ensures checksum == Fold(1, values)
  {
    checksum := 1;
    for i := 0 to |values|
      invariant Fold(checksum, values[i..]) == Fold(1, values)
    {
      var top := checksum >> 25;
      checksum := MixIn(((checksum & 0x1FFFFFF) << 5) ^ (values[i] as bv30), top, GENERATORS);
      assert values[i..][1..] == values[i + 1..];
    }
  }

  // ------------------------------------------------------------------ linearity

  lemma Unit(g: bv30)
    ensures Xor(g, g) == 0 && Xor(g, 0) == g && Xor(0, g) == g && Xor(0, 0) == 0
  {
  }

  lemma Commutative(a: bv30, b: bv30)
    ensures Xor(a, b) == Xor(b, a)
  {
  }

  lemma Associative(a: bv30, b: bv30, c: bv30)
    ensures Xor(Xor(a, b), c) == Xor(a, Xor(b, c))
  {
  }

  lemma Regroup(a: bv30, b: bv30, c: bv30, d: bv30)
    ensures Xor(Xor(a, b), Xor(c, d)) == Xor(Xor(a, c), Xor(b, d))
  {
    Associative(a, b, Xor(c, d));
    Associative(b, c, d);
    Commutative(b, c);
    Associative(c, b, d);
    Associative(a, c, Xor(b, d));
  }

  lemma HalfIsLinear(s: bv30, t: bv30)
    ensures Half(Xor(s, t)) == Xor(Half(s), Half(t))
  {
  }

  lemma ShiftsAreLinear(c: bv30, d: bv30)
    ensures Shifted(Xor(c, d)) == Xor(Shifted(c), Shifted(d))
    ensures Top(Xor(c, d)) == Xor(Top(c), Top(d))
  {
  }

  lemma WideningIsLinear(u: Symbol, v: Symbol)
    ensures Widen(u ^ v) == Xor(Widen(u), Widen(v))
  {
  }

  lemma LowBit(s: bv30, t: bv30)
    ensures s & 1 == 0 || s & 1 == 1
    ensures t & 1 == 0 || t & 1 == 1
    ensures Xor(s, t) & 1 == Xor(s & 1, t & 1)
  {
  }

  lemma PickIsLinear(s: bv30, t: bv30, g: bv30)
    ensures Pick(Xor(s, t), g) == Xor(Pick(s, g), Pick(t, g))
  {
    Unit(g);
    Unit(1);
    LowBit(s, t);
    if s & 1 == 1 {
      if t & 1 == 1 { assert Xor(s, t) & 1 == 0; } else { assert Xor(s, t) & 1 == 1; }
    } else {
      if t & 1 == 1 { assert Xor(s, t) & 1 == 1; } else { assert Xor(s, t) & 1 == 0; }
    }
  }

  lemma {:induction false} FeedbackIsLinear(s: bv30, t: bv30, generators: seq<bv30>)
    ensures Feedback(Xor(s, t), generators) == Xor(Feedback(s, generators), Feedback(t, generators))
    decreases generators
  {
    if generators == [] {
      Unit(0);
    } else {
      var g, rest := generators[0], generators[1..];
      PickIsLinear(s, t, g);
      HalfIsLinear(s, t);
      FeedbackIsLinear(Half(s), Half(t), rest);
      Regroup(Pick(s, g), Pick(t, g), Feedback(Half(s), rest), Feedback(Half(t), rest));
    }
  }

  lemma StepIsLinear(c: bv30, d: bv30, u: Symbol, v: Symbol)
    ensures Step(Xor(c, d), u ^ v) == Xor(Step(c, u), Step(d, v))
  {
    ShiftsAreLinear(c, d);
    WideningIsLinear(u, v);
    FeedbackIsLinear(Top(c), Top(d), GENERATORS);
    Regroup(Shifted(c), Shifted(d), Widen(u), Widen(v));
    Regroup(Xor(Shifted(c), Widen(u)), Xor(Shifted(d), Widen(v)), Feedback(Top(c), GENERATORS), Feedback(Top(d), GENERATORS));
  }

  /** Two words added symbol by symbol. */
  function Sum(u: seq<Symbol>, v: seq<Symbol>): (r: seq<Symbol>)
    requires |u| == |v|
  {
    seq(|u|, i requires 0 <= i < |u| => u[i] ^ v[i])
  }

  /** The checksum is linear: states and words add up. */
  lemma {:induction false} FoldIsLinear(c: bv30, d: bv30, u: seq<Symbol>, v: seq<Symbol>)
    requires |u| == |v|
    ensures Fold(Xor(c, d), Sum(u, v)) == Xor(Fold(c, u), Fold(d, v))
    decreases |u|
  {
    if |u| > 0 {
      assert Sum(u, v)[1..] == Sum(u[1..], v[1..]);
      assert Sum(u, v)[0] == u[0] ^ v[0];
      StepIsLinear(c, d, u[0], v[0]);
      FoldIsLinear(Step(c, u[0]), Step(d, v[0]), u[1..], v[1..]);
    }
  }

  // ---------------------------------------------------------------- injectivity

  lemma {:induction false} NothingFeedsBack(generators: seq<bv30>)
    ensures Feedback(0, generators) == 0
  {
    if generators != [] {
      NothingFeedsBack(generators[1..]);
      assert Half(0) == 0 && Pick(0, generators[0]) == 0;
      Unit(0);
    }
  }

  lemma FeedbackUnrolled(t: bv30)
    ensures Feedback(t, GENERATORS) ==
            Xor(Pick(t, 0x3B6A57B2), Xor(Pick(Half(t), 0x26508E6D), Xor(Pick(Half(Half(t)), 0x1EA119FA),
            Xor(Pick(Half(Half(Half(t))), 0x3D4233DD), Pick(Half(Half(Half(Half(t)))), 0x2A1462B3)))))
  {
    assert GENERATORS[1..][1..] == GENERATORS[2..];
    assert GENERATORS[2..][1..] == GENERATORS[3..];
    assert GENERATORS[3..][1..] == GENERATORS[4..];
    assert GENERATORS[4..][1..] == [];
    Unit(Pick(Half(Half(Half(Half(t)))), 0x2A1462B3));
    assert Feedback(Half(Half(Half(Half(t)))), GENERATORS[4..]) == Pick(Half(Half(Half(Half(t)))), 0x2A1462B3);
    assert Feedback(Half(Half(Half(t))), GENERATORS[3..]) == Xor(Pick(Half(Half(Half(t))), 0x3D4233DD), Feedback(Half(Half(Half(Half(t)))), GENERATORS[4..]));
    assert Feedback(Half(Half(t)), GENERATORS[2..]) == Xor(Pick(Half(Half(t)), 0x1EA119FA), Feedback(Half(Half(Half(t))), GENERATORS[3..]));
    assert Feedback(Half(t), GENERATORS[1..]) == Xor(Pick(Half(t), 0x26508E6D), Feedback(Half(Half(t)), GENERATORS[2..]));
  }

  /** The generators' lowest symbols are independent: what falls out at the top is
      never lost. */
  lemma FeedbackRevealsTop(t: bv30)
    requires t < 32 && Feedback(t, GENERATORS) & 31 == 0
    ensures t == 0
  {
    FeedbackUnrolled(t);
  }

  /** A round that takes in a zero leaves zero only if the state was zero. */
  lemma OnlyZeroVanishes(c: bv30)
    requires Step(c, 0) == 0
    ensures c == 0
  {
    var f := Feedback(Top(c), GENERATORS);
    LowBits(c, f);
    FeedbackRevealsTop(Top(c));
    NothingFeedsBack(GENERATORS);
    Unit(Xor(Shifted(c), Widen(0)));
    NoTopNoShift(c);
  }

  lemma LowBits(c: bv30, f: bv30)
    requires Xor(Xor(Shifted(c), Widen(0)), f) == 0
    ensures f & 31 == 0 && Top(c) < 32
  {
  }

  lemma NoTopNoShift(c: bv30)
    requires Top(c) == 0 && Xor(Shifted(c), Widen(0)) == 0
    ensures c == 0
  {
  }

  lemma EqualIffSumVanishes(a: bv30, b: bv30)
    ensures Xor(a, b) == 0 <==> a == b
  {
  }

  /** A round never merges two states. */
  lemma StepIsInjective(c: bv30, d: bv30, v: Symbol)
    ensures Step(c, v) == Step(d, v) <==> c == d
  {
    StepIsLinear(c, d, v, v);
    assert v ^ v == 0;
    EqualIffSumVanishes(Step(c, v), Step(d, v));
    EqualIffSumVanishes(c, d);
    if Step(c, v) == Step(d, v) { OnlyZeroVanishes(Xor(c, d)); }
  }

  lemma {:induction false} FoldIsInjective(c: bv30, d: bv30, values: seq<Symbol>)
    ensures Fold(c, values) == Fold(d, values) <==> c == d
    decreases values
  {
    if values != [] {
      StepIsInjective(c, d, values[0]);
      FoldIsInjective(Step(c, values[0]), Step(d, values[0]), values[1..]);
    }
  }

  lemma {:induction false} FoldAppends(c: bv30, u: seq<Symbol>, v: seq<Symbol>)
    ensures Fold(c, u + v) == Fold(Fold(c, u), v)
    decreases u
  {
    if u == [] {
      assert u + v == v;
    } else {
      assert (u + v)[1..] == u[1..] + v;
      FoldAppends(Step(c, u[0]), u[1..], v);
    }
  }

  // ---------------------------------------------------------------- six symbols

  /** The state has at most `k` symbols in use. */
  predicate UsesAtMost(c: bv30, k: nat) {
    if k == 0 then c == 0
    else if k == 1 then c < 0x20
    else if k == 2 then c < 0x400
    else if k == 3 then c < 0x8000
    else if k == 4 then c < 0x100000
    else if k == 5 then c < 0x2000000
    else true
  }

  /** While the top symbol is empty a round only shifts its symbol in. */
  lemma ShiftIn(c: bv30, v: Symbol)
    requires Top(c) == 0
    ensures Step(c, v) == Xor(Shifted(c), Widen(v))
  {
    NothingFeedsBack(GENERATORS);
    Unit(Xor(Shifted(c), Widen(v)));
  }

  lemma RoomToShift(c: bv30, v: Symbol, k: nat)
    requires k < 6 && UsesAtMost(c, k)
    ensures Top(c) == 0 && UsesAtMost(Xor(Shifted(c), Widen(v)), k + 1)
    ensures Xor(Shifted(c), Widen(v)) == 0 ==> c == 0 && v == 0
  {
  }

  predicate AllZero(d: seq<Symbol>) {
    forall i :: 0 <= i < |d| ==> d[i] == 0
  }

  /** Up to six symbols fit side by side, so they leave zero only if all are zero. */
  lemma {:induction false} VanishesOnlyOnZeros(c: bv30, d: seq<Symbol>, k: nat)
    requires k + |d| <= 6 && UsesAtMost(c, k) && Fold(c, d) == 0
    ensures c == 0 && AllZero(d)
    decreases d
  {
    if d != [] {
      RoomToShift(c, d[0], k);
      ShiftIn(c, d[0]);
      VanishesOnlyOnZeros(Step(c, d[0]), d[1..], k + 1);
      forall i | 0 <= i < |d| ensures d[i] == 0 {
        if i > 0 { assert d[i] == d[1..][i - 1]; }
      }
    }
  }

  lemma SymbolsDiffer(u: Symbol, v: Symbol)
    ensures u ^ v == 0 <==> u == v
  {
  }

  /** From any state, two words of at most six symbols that end in the same state
      are the same word. */
  lemma ShortWordsAreTold(c: bv30, u: seq<Symbol>, v: seq<Symbol>)
    requires |u| == |v| <= 6 && Fold(c, u) == Fold(c, v)
    ensures u == v
  {
    FoldIsLinear(c, c, u, v);
    Unit(c);
    Unit(Fold(c, u));
    VanishesOnlyOnZeros(0, Sum(u, v), 0);
    forall i | 0 <= i < |u| ensures u[i] == v[i] {
      assert Sum(u, v)[i] == u[i] ^ v[i];
      SymbolsDiffer(u[i], v[i]);
    }
  }

  function Low(x: bv30): Symbol { (x & 31) as Symbol }
  function Drop(x: bv30): bv30 { x >> 5 }

  /** The six symbols of a state, the top one first. */
  function Digits(x: bv30): seq<Symbol> {
    var x1 := Drop(x);
    var x2 := Drop(x1);
    var x3 := Drop(x2);
    var x4 := Drop(x3);
    var x5 := Drop(x4);
    [Low(x5), Low(x4), Low(x3), Low(x2), Low(x1), Low(x)]
  }

  /** Shifting in the lowest symbol undoes dropping it. */
  lemma LastDigit(x: bv30)
    ensures Step(Drop(x), Low(x)) == x
  {
    assert Top(Drop(x)) == 0;
    ShiftIn(Drop(x), Low(x));
    assert Xor(Shifted(Drop(x)), Widen(Low(x))) == x;
  }

  lemma NothingLeft(x: bv30)
    ensures Drop(Drop(Drop(Drop(Drop(Drop(x)))))) == 0
  {
  }

  lemma {:induction false} FoldUnrolled(c: bv30, d: seq<Symbol>)
    requires |d| == 6
    ensures Fold(c, d) == Step(Step(Step(Step(Step(Step(c, d[0]), d[1]), d[2]), d[3]), d[4]), d[5])
  {
    assert d[1..][1..] == d[2..] && d[2..][1..] == d[3..] && d[3..][1..] == d[4..] && d[4..][1..] == d[5..] && d[5..][1..] == [];
    var c1 := Step(c, d[0]);
    assert Fold(c, d) == Fold(c1, d[1..]);
    var c2 := Step(c1, d[1]);
    assert Fold(c1, d[1..]) == Fold(c2, d[2..]);
    var c3 := Step(c2, d[2]);
    assert Fold(c2, d[2..]) == Fold(c3, d[3..]);
    var c4 := Step(c3, d[3]);
    assert Fold(c3, d[3..]) == Fold(c4, d[4..]);
    assert Fold(c4, d[4..]) == Fold(Step(c4, d[4]), d[5..]);
    assert Fold(Step(c4, d[4]), d[5..]) == Fold(Step(Step(c4, d[4]), d[5]), []);
  }

  /** Any state can be reached from zero by shifting in its own six symbols. */
  lemma DigitsReachTheirState(x: bv30)
    ensures Fold(0, Digits(x)) == x
  {
    FoldUnrolled(0, Digits(x));
    NothingLeft(x);
    LastDigit(x);
    LastDigit(Drop(x));
    LastDigit(Drop(Drop(x)));
    LastDigit(Drop(Drop(Drop(x))));
    LastDigit(Drop(Drop(Drop(Drop(x)))));
    LastDigit(Drop(Drop(Drop(Drop(Drop(x))))));
  }

  function Zeros(n: nat): (z: seq<Symbol>) {
    seq(n, i => 0)
  }

  lemma AddingZeros(s: seq<Symbol>)
    ensures Sum(Zeros(|s|), s) == s
  {
    forall i | 0 <= i < |s| ensures Sum(Zeros(|s|), s)[i] == s[i] {
      assert Zeros(|s|)[i] == 0;
    }
  }

  /** A word's effect on a state is its effect on zero added to that of zeros. */
  lemma EffectAddsUp(c: bv30, s: seq<Symbol>)
    ensures Fold(c, s) == Xor(Fold(c, Zeros(|s|)), Fold(0, s))
  {
    FoldIsLinear(c, 0, Zeros(|s|), s);
    Unit(c);
    AddingZeros(s);
  }

  lemma Cancels(f: bv30, target: bv30)
    ensures Xor(f, Xor(f, target)) == target
  {
    Associative(f, f, target);
    Unit(f);
    Unit(target);
  }

  /** The six symbols that take state `c` to `target`. */
  function Steering(c: bv30, target: bv30): (s: seq<Symbol>) {
    Digits(Xor(Fold(c, Zeros(6)), target))
  }

  lemma SteeringWorks(c: bv30, target: bv30)
    ensures |Steering(c, target)| == 6 && Fold(c, Steering(c, target)) == target
  {
    EffectAddsUp(c, Steering(c, target));
    DigitsReachTheirState(Xor(Fold(c, Zeros(6)), target));
    Cancels(Fold(c, Zeros(6)), target);
  }

  // --------------------------------------------------------------- main results

  /** Every prefix has exactly one six-symbol suffix that makes it acceptable. */
  lemma ChecksumExistsAndIsUnique(prefix: seq<Symbol>, suffix: seq<Symbol>)
    requires |suffix| == 6
    ensures Accepted(prefix + suffix) <==> suffix == Steering(Fold(1, prefix), 1)
  {
    var c := Fold(1, prefix);
    FoldAppends(1, prefix, suffix);
    SteeringWorks(c, 1);
    if Fold(c, suffix) == 1 {
      ShortWordsAreTold(c, suffix, Steering(c, 1));
    }
  }

  /** The two words agree outside `width` positions from `from` on. */
  ghost predicate DifferOnlyWithin(u: seq<Symbol>, v: seq<Symbol>, from: nat, width: nat) {
    && |u| == |v| && from <= |u|
    && forall i :: 0 <= i < |u| && !(from <= i < from + width) ==> u[i] == v[i]
  }

  /** Splits two such words into a common head, the part that may differ, and a
      common tail. */
  lemma SplitAround(u: seq<Symbol>, v: seq<Symbol>, from: nat, width: nat) returns (to: nat)
    requires DifferOnlyWithin(u, v, from, width)
    ensures from <= to <= |u| && to - from <= width
    ensures u == u[..from] + (u[from..to] + u[to..]) && v == u[..from] + (v[from..to] + u[to..])
  {
    to := if from + width <= |u| then from + width else |u|;
    assert v[..from] == u[..from];
    assert v[to..] == u[to..];
  }

  lemma FoldSplits(head: seq<Symbol>, middle: seq<Symbol>, tail: seq<Symbol>)
    ensures Fold(1, head + (middle + tail)) == Fold(Fold(Fold(1, head), middle), tail)
  {
    FoldAppends(1, head, middle + tail);
    FoldAppends(Fold(1, head), middle, tail);
  }

  /** Burst detection: changes confined to six consecutive positions of an accepted
      word, of any length, are always noticed. */
  lemma BurstIsDetected(word: seq<Symbol>, other: seq<Symbol>, from: nat)
    requires Accepted(word) && DifferOnlyWithin(word, other, from, 6) && word != other
    ensures !Accepted(other)
  {
    if Accepted(other) {
      var to := SplitAround(word, other, from, 6);
      FoldSplits(word[..from], word[from..to], word[to..]);
      FoldSplits(word[..from], other[from..to], word[to..]);
      var c := Fold(1, word[..from]);
      FoldIsInjective(Fold(c, word[from..to]), Fold(c, other[from..to]), word[to..]);
      ShortWordsAreTold(c, word[from..to], other[from..to]);
      assert false;
    }
  }

  /** A change goes unnoticed exactly if its difference word is one that takes the
      zero state back to zero. */
  lemma UnnoticedIffDifferenceVanishes(word: seq<Symbol>, other: seq<Symbol>)
    requires Accepted(word) && |word| == |other|
    ensures Accepted(other) <==> Fold(0, Sum(word, other)) == 0
  {
    FoldIsLinear(1, 1, word, other);
    Unit(1);
    EqualIffSumVanishes(1, Fold(1, other));
  }

  /** Another way from `c` to `target` in seven symbols, starting differently. */
  lemma Detour(c: bv30, first: Symbol, target: bv30) returns (path: seq<Symbol>)
    ensures |path| == 7 && path[0] == first && Fold(c, path) == target
  {
    var rest := Steering(Step(c, first), target);
    SteeringWorks(Step(c, first), target);
    path := [first] + rest;
    assert path[1..] == rest;
  }

  /** Six is the limit: any seven consecutive positions of an accepted word can be
      changed so that the result is accepted as well. */
  lemma SevenPositionsCanHide(word: seq<Symbol>, from: nat) returns (other: seq<Symbol>)
    requires Accepted(word) && from + 7 <= |word|
    ensures Accepted(other) && other != word && DifferOnlyWithin(word, other, from, 7)
  {
    var head, middle, tail := word[..from], word[from..from + 7], word[from + 7..];
    var first: Symbol := if middle[0] == 0 then 1 else 0;
    var path := Detour(Fold(1, head), first, Fold(Fold(1, head), middle));
    other := head + (path + tail);
    FoldSplits(head, middle, tail);
    FoldSplits(head, path, tail);
    assert word == head + (middle + tail);
    assert other[from] == first != word[from];
  }
}
