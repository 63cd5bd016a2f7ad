/** Rewriting settings of a line-oriented file in place. */
module EnvLayout {
  // Rewriting some settings of a line-oriented file in place: the last setting
  // of each managed key is rewritten, earlier ones go, missing ones are added at
  // the end, and every other line stays where it is.

  import opened BoundedFifo
  import opened Text

  /** How lines are recognised and written: the managed key a line sets, the style
      it is written in, and the line to write for a key in a style. */
  datatype Format<!L, !K(==), !P> = Format(classify: L -> Option<K>, style: L -> P, plain: P, write: (P, K) -> L)

  predicate SetIn<L, K(==), P>(f: Format<L, K, P>, key: K, lines: seq<L>) {
    lines != [] && (f.classify(lines[0]) == Some(key) || SetIn(f, key, lines[1..]))
  }

  /** What becomes of a line, given the lines after it. */
  function KeptHead<L, K(==), P>(f: Format<L, K, P>, line: L, rest: seq<L>): seq<L> {
    match f.classify(line)
    case None => [line]
    case Some(key) => if SetIn(f, key, rest) then [] else [f.write(f.style(line), key)]
  }

  function Kept<L, K(==), P>(f: Format<L, K, P>, lines: seq<L>): seq<L> {
    if lines == [] then [] else KeptHead(f, lines[0], lines[1..]) + Kept(f, lines[1..])
  }

  function Added<L, K(==), P>(f: Format<L, K, P>, keys: seq<K>, lines: seq<L>): seq<L> {
    if keys == [] then []
    else (if SetIn(f, keys[0], lines) then [] else [f.write(f.plain, keys[0])]) + Added(f, keys[1..], lines)
  }

  function Render<L, K(==), P>(f: Format<L, K, P>, keys: seq<K>, lines: seq<L>): seq<L> {
    Kept(f, lines) + Added(f, keys, lines)
  }

  /** The other lines. */
  function Unmanaged<L, K(==), P>(f: Format<L, K, P>, lines: seq<L>): seq<L> {
    if lines == [] then [] else (if f.classify(lines[0]).None? then [lines[0]] else []) + Unmanaged(f, lines[1..])
  }

  /** What is written is recognised again. */
  ghost predicate Sound<L, K(!new), P(!new)>(f: Format<L, K, P>) {
    forall p, k :: f.classify(f.write(p, k)) == Some(k) && f.style(f.write(p, k)) == p
  }

  // ------------------------------------------------------------------- two parts

  lemma {:induction false} SetInTwoParts<L, K, P>(f: Format<L, K, P>, key: K, a: seq<L>, b: seq<L>)
    ensures SetIn(f, key, a + b) <==> SetIn(f, key, a) || SetIn(f, key, b)
  {
    if a == [] {
      assert a + b == b;
    } else {
      assert (a + b)[1..] == a[1..] + b;
      SetInTwoParts(f, key, a[1..], b);
    }
  }

  lemma {:induction false} UnmanagedInTwoParts<L, K, P>(f: Format<L, K, P>, a: seq<L>, b: seq<L>)
    ensures Unmanaged(f, a + b) == Unmanaged(f, a) + Unmanaged(f, b)
  {
    if a == [] {
      assert a + b == b;
    } else {
      assert (a + b)[1..] == a[1..] + b;
      UnmanagedInTwoParts(f, a[1..], b);
      Associates(if f.classify(a[0]).None? then [a[0]] else [], Unmanaged(f, a[1..]), Unmanaged(f, b));
    }
  }

  /** The two lists set no key in common. */
  ghost predicate SetApart<L, K(!new), P>(f: Format<L, K, P>, a: seq<L>, b: seq<L>) {
    forall key :: SetIn(f, key, a) ==> !SetIn(f, key, b)
  }

  lemma {:induction false} KeptInTwoParts<L, K(!new), P>(f: Format<L, K, P>, a: seq<L>, b: seq<L>)
    requires SetApart(f, a, b)
    ensures Kept(f, a + b) == Kept(f, a) + Kept(f, b)
  {
    if a == [] {
      assert a + b == b;
    } else {
      var rest := a[1..];
      assert (a + b)[1..] == rest + b;
      assert SetApart(f, rest, b);
      KeptInTwoParts(f, rest, b);
      if f.classify(a[0]).Some? { SetInTwoParts(f, f.classify(a[0]).value, rest, b); }
      Associates(KeptHead(f, a[0], rest), Kept(f, rest), Kept(f, b));
    }
  }

  // ------------------------------------------------------------- what is kept

  lemma SetInSingle<L, K, P>(f: Format<L, K, P>, key: K, line: L)
    ensures SetIn(f, key, [line]) <==> f.classify(line) == Some(key)
  {
  }

  lemma {:induction false} KeptSetsTheSame<L, K(!new), P(!new)>(f: Format<L, K, P>, lines: seq<L>, key: K)
    requires Sound(f)
    ensures SetIn(f, key, Kept(f, lines)) <==> SetIn(f, key, lines)
  {
    if lines != [] {
      var head := KeptHead(f, lines[0], lines[1..]);
      KeptSetsTheSame(f, lines[1..], key);
      SetInTwoParts(f, key, head, Kept(f, lines[1..]));
      if head != [] { SetInSingle(f, key, head[0]); assert head == [head[0]]; }
    }
  }

  lemma UnmanagedHead<L, K(!new), P(!new)>(f: Format<L, K, P>, line: L, rest: seq<L>)
    requires Sound(f)
    ensures Unmanaged(f, KeptHead(f, line, rest)) == if f.classify(line).None? then [line] else []
  {
    var head := KeptHead(f, line, rest);
    if head != [] { assert head[1..] == []; }
  }

  lemma {:induction false} KeptKeepsOthers<L, K(!new), P(!new)>(f: Format<L, K, P>, lines: seq<L>)
    requires Sound(f)
    ensures Unmanaged(f, Kept(f, lines)) == Unmanaged(f, lines)
  {
    if lines != [] {
      KeptKeepsOthers(f, lines[1..]);
      UnmanagedHead(f, lines[0], lines[1..]);
      UnmanagedInTwoParts(f, KeptHead(f, lines[0], lines[1..]), Kept(f, lines[1..]));
    }
  }

  /** The formats differ only in what they write. */
  ghost predicate Alike<L, K, P>(f: Format<L, K, P>, g: Format<L, K, P>) {
    f == g.(write := f.write)
  }

  lemma {:induction false} AlikeSet<L, K, P>(f: Format<L, K, P>, g: Format<L, K, P>, key: K, lines: seq<L>)
    requires Alike(f, g)
    ensures SetIn(f, key, lines) == SetIn(g, key, lines)
  {
    if lines != [] { AlikeSet(f, g, key, lines[1..]); }
  }

  lemma KeptFirst<L, K, P>(f: Format<L, K, P>, line: L, rest: seq<L>)
    ensures Kept(f, [line] + rest) == KeptHead(f, line, rest) + Kept(f, rest)
  {
    assert ([line] + rest)[1..] == rest;
  }

  lemma {:induction false} KeptTwice<L, K(!new), P(!new)>(f: Format<L, K, P>, g: Format<L, K, P>, lines: seq<L>)
    requires Sound(f) && Sound(g) && Alike(f, g)
    ensures Kept(f, Kept(g, lines)) == Kept(f, lines)
  {
    if lines != [] {
      var line, rest := lines[0], lines[1..];
      var inner := Kept(g, rest);
      KeptTwice(f, g, rest);
      match f.classify(line)
      case None => KeptFirst(f, line, inner);
      case Some(key) =>
        AlikeSet(f, g, key, rest);
        KeptSetsTheSame(g, rest, key);
        AlikeSet(f, g, key, inner);
        if SetIn(g, key, rest) {
          assert [] + inner == inner && [] + Kept(f, rest) == Kept(f, rest);
        } else {
          KeptFirst(f, g.write(g.style(line), key), inner);
        }
    }
  }

  // ------------------------------------------------------------ what is added

  lemma {:induction false} AddedSets<L, K(!new), P(!new)>(f: Format<L, K, P>, keys: seq<K>, lines: seq<L>, key: K)
    requires Sound(f)
    ensures SetIn(f, key, Added(f, keys, lines)) <==> key in keys && !SetIn(f, key, lines)
  {
    if keys != [] {
      AddedSets(f, keys[1..], lines, key);
      var first := if SetIn(f, keys[0], lines) then [] else [f.write(f.plain, keys[0])];
      SetInTwoParts(f, key, first, Added(f, keys[1..], lines));
      if first != [] { SetInSingle(f, key, first[0]); assert first == [first[0]]; }
      assert key in keys <==> key == keys[0] || key in keys[1..];
    }
  }

  lemma {:induction false} AddedIsNoOther<L, K(!new), P(!new)>(f: Format<L, K, P>, keys: seq<K>, lines: seq<L>)
    requires Sound(f)
    ensures Unmanaged(f, Added(f, keys, lines)) == []
  {
    if keys != [] {
      AddedIsNoOther(f, keys[1..], lines);
      var first := if SetIn(f, keys[0], lines) then [] else [f.write(f.plain, keys[0])];
      if first != [] { assert first[1..] == []; }
      UnmanagedInTwoParts(f, first, Added(f, keys[1..], lines));
    }
  }

  predicate Distinct<K(==)>(keys: seq<K>) {
    forall i, j :: 0 <= i < j < |keys| ==> keys[i] != keys[j]
  }

  lemma {:induction false} KeptAdded<L, K(!new), P(!new)>(f: Format<L, K, P>, g: Format<L, K, P>, keys: seq<K>, lines: seq<L>)
    requires Sound(f) && Sound(g) && Alike(f, g) && Distinct(keys)
    ensures Kept(f, Added(g, keys, lines)) == Added(f, keys, lines)
  {
    if keys != [] {
      var key, rest := keys[0], Added(g, keys[1..], lines);
      KeptAdded(f, g, keys[1..], lines);
      AlikeSet(f, g, key, lines);
      if !SetIn(g, key, lines) {
        AddedSets(g, keys[1..], lines, key);
        AlikeSet(f, g, key, rest);
        KeptFirst(f, g.write(g.plain, key), rest);
      } else {
        assert [] + rest == rest;
      }
    }
  }

  lemma {:induction false} NothingMissing<L, K, P>(f: Format<L, K, P>, keys: seq<K>, lines: seq<L>)
    requires forall k :: k in keys ==> SetIn(f, k, lines)
    ensures Added(f, keys, lines) == []
  {
    if keys != [] { NothingMissing(f, keys[1..], lines); }
  }

  // --------------------------------------------------------------- main results

  /** Rendering keeps every other line, in order. */
  lemma RenderKeepsOthers<L, K(!new), P(!new)>(f: Format<L, K, P>, keys: seq<K>, lines: seq<L>)
    requires Sound(f)
    ensures Unmanaged(f, Render(f, keys, lines)) == Unmanaged(f, lines)
  {
    KeptKeepsOthers(f, lines);
    AddedIsNoOther(f, keys, lines);
    UnmanagedInTwoParts(f, Kept(f, lines), Added(f, keys, lines));
  }

  lemma RenderSetsAll<L, K(!new), P(!new)>(f: Format<L, K, P>, keys: seq<K>, lines: seq<L>, key: K)
    requires Sound(f)
    ensures SetIn(f, key, Render(f, keys, lines)) <==> key in keys || SetIn(f, key, lines)
  {
    KeptSetsTheSame(f, lines, key);
    AddedSets(f, keys, lines, key);
    SetInTwoParts(f, key, Kept(f, lines), Added(f, keys, lines));
  }

  /** Of two renderings only the second counts, and the file does not grow: in
      particular rendering the same settings again changes nothing. */
  lemma RenderTwice<L, K(!new), P(!new)>(f: Format<L, K, P>, g: Format<L, K, P>, keys: seq<K>, lines: seq<L>)
    requires Sound(f) && Sound(g) && Alike(f, g) && Distinct(keys)
    ensures Render(f, keys, Render(g, keys, lines)) == Render(f, keys, lines)
  {
    var kept, added := Kept(g, lines), Added(g, keys, lines);
    forall key ensures SetIn(f, key, kept) ==> !SetIn(f, key, added) {
      KeptSetsTheSame(g, lines, key);
      AddedSets(g, keys, lines, key);
      AlikeSet(f, g, key, kept);
      AlikeSet(f, g, key, added);
    }
    KeptInTwoParts(f, kept, added);
    KeptTwice(f, g, lines);
    KeptAdded(f, g, keys, lines);
    forall k | k in keys ensures SetIn(f, k, Render(g, keys, lines)) {
      RenderSetsAll(g, keys, lines, k);
      AlikeSet(f, g, k, Render(g, keys, lines));
    }
    NothingMissing(f, keys, Render(g, keys, lines));
  }

  // ------------------------------------------------------------------ the passes

  /** What the first pass knows after `i` lines: the last line of each key so far,
      and its style. */
  ghost predicate Surveyed<L, K(!new), P(!new)>(f: Format<L, K, P>, lines: seq<L>, i: nat, last: map<K, nat>, styles: map<K, P>)
    requires i <= |lines|
  {
    && last.Keys == styles.Keys
    && (forall k :: k in last ==> last[k] < i && f.classify(lines[last[k]]) == Some(k) && styles[k] == f.style(lines[last[k]]))
    && (forall j :: 0 <= j < i && f.classify(lines[j]).Some? ==> f.classify(lines[j]).value in last && j <= last[f.classify(lines[j]).value])
  }

  method Survey<L, K(==, !new), P(!new)>(f: Format<L, K, P>, lines: seq<L>) returns (last: map<K, nat>, styles: map<K, P>)
    ensures Surveyed(f, lines, |lines|, last, styles)
  {
    last, styles := map[], map[];
    for i := 0 to |lines|
      invariant Surveyed(f, lines, i, last, styles)
    {
      var key := f.classify(lines[i]);
      if key.Some? {
        last := last[key.value := i];
        styles := styles[key.value := f.style(lines[i])];
      }
    }
  }

  lemma {:induction false} SetInIffSomeLine<L, K, P>(f: Format<L, K, P>, key: K, lines: seq<L>)
    ensures SetIn(f, key, lines) <==> exists j :: 0 <= j < |lines| && f.classify(lines[j]) == Some(key)
  {
    if lines != [] {
      SetInIffSomeLine(f, key, lines[1..]);
      assert forall j :: 1 <= j < |lines| ==> lines[j] == lines[1..][j - 1];
    }
  }

  /** The survey tells whether a line is the last of its key. */
  lemma SurveyDecides<L, K(!new), P(!new)>(f: Format<L, K, P>, lines: seq<L>, i: nat, last: map<K, nat>, styles: map<K, P>, key: K)
    requires i < |lines| && Surveyed(f, lines, |lines|, last, styles) && f.classify(lines[i]) == Some(key)
    ensures key in last && (last[key] != i <==> SetIn(f, key, lines[i + 1..]))
  {
    SetInIffSomeLine(f, key, lines[i + 1..]);
    assert forall j :: i + 1 <= j < |lines| ==> lines[j] == lines[i + 1..][j - (i + 1)];
  }

  /** One step of the second pass. */
  lemma KeptStep<L, K, P>(f: Format<L, K, P>, lines: seq<L>, i: nat, output: seq<L>)
    requires i < |lines| && output + Kept(f, lines[i..]) == Kept(f, lines)
    ensures output + KeptHead(f, lines[i], lines[i + 1..]) + Kept(f, lines[i + 1..]) == Kept(f, lines)
  {
    var rest := lines[i + 1..];
    assert lines[i..] == [lines[i]] + rest;
    KeptFirst(f, lines[i], rest);
    Associates(output, KeptHead(f, lines[i], rest), Kept(f, rest));
  }

  /** The second pass: rewrites the last line of each key in place. */
  method Rewrite<L, K(==, !new), P(!new)>(f: Format<L, K, P>, existing: seq<L>, last: map<K, nat>, styles: map<K, P>)
    returns (output: seq<L>, seen: set<K>)
    requires Surveyed(f, existing, |existing|, last, styles)
    ensures output == Kept(f, existing) && seen == last.Keys
  {
    output, seen := [], {};
    for i := 0 to |existing|
      invariant output + Kept(f, existing[i..]) == Kept(f, existing)
      invariant forall k :: k in seen <==> k in last && last[k] < i
    {
      KeptStep(f, existing, i, output);
      var key := f.classify(existing[i]);
      if key.None? {
        output := output + [existing[i]];
      } else {
        SurveyDecides(f, existing, i, last, styles, key.value);
        if last[key.value] == i {
          output := output + [f.write(styles[key.value], key.value)];
          seen := seen + {key.value};
        } else {
          assert output + [] == output;
        }
      }
    }
  }

  lemma SurveyedIffSet<L, K(!new), P(!new)>(f: Format<L, K, P>, lines: seq<L>, last: map<K, nat>, styles: map<K, P>, key: K)
    requires Surveyed(f, lines, |lines|, last, styles)
    ensures key in last.Keys <==> SetIn(f, key, lines)
  {
    SetInIffSomeLine(f, key, lines);
  }

  lemma AddedStep<L, K, P>(f: Format<L, K, P>, keys: seq<K>, i: nat, lines: seq<L>, added: seq<L>)
    requires i < |keys| && added + Added(f, keys[i..], lines) == Added(f, keys, lines)
    ensures added + (if SetIn(f, keys[i], lines) then [] else [f.write(f.plain, keys[i])]) + Added(f, keys[i + 1..], lines) == Added(f, keys, lines)
  {
    assert keys[i..][1..] == keys[i + 1..];
    Associates(added, if SetIn(f, keys[i], lines) then [] else [f.write(f.plain, keys[i])], Added(f, keys[i + 1..], lines));
  }

  /** All passes: the result is the rendering. */
  method RenderLines<L, K(==, !new), P(!new)>(f: Format<L, K, P>, keys: seq<K>, existing: seq<L>) returns (output: seq<L>)
    ensures output == Render(f, keys, existing)
  {
    var last, styles := Survey(f, existing);
    var kept, seen := Rewrite(f, existing, last, styles);
    var added: seq<L> := [];
    for i := 0 to |keys|
      invariant added + Added(f, keys[i..], existing) == Added(f, keys, existing)
    {
      SurveyedIffSet(f, existing, last, styles, keys[i]);
      AddedStep(f, keys, i, existing, added);
      if keys[i] !in seen {
        added := added + [f.write(f.plain, keys[i])];
      } else {
        assert added + [] == added;
      }
    }
    assert added + [] == added;
    output := kept + added;
  }
}
