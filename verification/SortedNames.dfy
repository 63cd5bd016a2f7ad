/** Names sorted in code-point order, with duplicates removed. */
module SortedNames {
  // `sorted(dict.fromkeys(names))`: the names once each, in code-point order.
  // The order is a strict total order on strings, the sorted list is determined
  // by its members, and merging into a sorted list is the same as sorting
  // everything at once, which is what the union over many runs rests on.

  /** Code-point order of strings. */
  predicate Before(a: string, b: string) {
    b != [] && (a == [] || a[0] < b[0] || (a[0] == b[0] && Before(a[1..], b[1..])))
  }

  lemma {:induction false} BeforeIsStrict(a: string)
    ensures !Before(a, a)
  {
    if a != [] { BeforeIsStrict(a[1..]); }
  }

  lemma {:induction false} BeforeIsTransitive(a: string, b: string, c: string)
    requires Before(a, b) && Before(b, c)
    ensures Before(a, c)
  {
    if a != [] && a[0] == b[0] && b[0] == c[0] { BeforeIsTransitive(a[1..], b[1..], c[1..]); }
  }

  lemma {:induction false} BeforeIsTotal(a: string, b: string)
    ensures a == b || Before(a, b) || Before(b, a)
  {
    if a != [] && b != [] && a[0] == b[0] {
      BeforeIsTotal(a[1..], b[1..]);
      assert a == [a[0]] + a[1..] && b == [b[0]] + b[1..];
    }
  }

  /** Strictly increasing. */
  predicate Increasing(names: seq<string>) {
    forall i, j :: 0 <= i < j < |names| ==> Before(names[i], names[j])
  }

  /** Puts a name in its place, unless it is there. */
  function Insert(name: string, names: seq<string>): seq<string> {
    if names == [] then [name]
    else if name == names[0] then names
    else if Before(name, names[0]) then [name] + names
    else [names[0]] + Insert(name, names[1..])
  }

  function SortedUnique(names: seq<string>): seq<string> {
    if names == [] then [] else Insert(names[|names| - 1], SortedUnique(names[..|names| - 1]))
  }

  lemma {:induction false} InsertAddsOne(name: string, names: seq<string>, x: string)
    ensures x in Insert(name, names) <==> x == name || x in names
  {
    if names != [] && name != names[0] && !Before(name, names[0]) {
      InsertAddsOne(name, names[1..], x);
      assert x in names <==> x == names[0] || x in names[1..];
    }
  }

  lemma HeadIsFirst(head: string, rest: seq<string>)
    requires Increasing(rest) && forall x :: x in rest ==> Before(head, x)
    ensures Increasing([head] + rest)
  {
    var all := [head] + rest;
    forall i, j | 0 <= i < j < |all| ensures Before(all[i], all[j]) {
      assert all[j] == rest[j - 1];
      if i > 0 { assert all[i] == rest[i - 1]; } else { assert rest[j - 1] in rest; }
    }
  }

  lemma FirstIsBefore(names: seq<string>, x: string)
    requires names != [] && Increasing(names) && x in names[1..]
    ensures Before(names[0], x)
  {
  }

  lemma TailIsIncreasing(names: seq<string>)
    requires names != [] && Increasing(names)
    ensures Increasing(names[1..])
  {
  }

  lemma {:induction false} InsertKeepsOrder(name: string, names: seq<string>)
    requires Increasing(names)
    ensures Increasing(Insert(name, names))
  {
    if names != [] && name != names[0] {
      BeforeIsTotal(name, names[0]);
      TailIsIncreasing(names);
      if Before(name, names[0]) {
        forall x | x in names ensures Before(name, x) {
          if x != names[0] {
            assert x in names[1..];
            FirstIsBefore(names, x);
            BeforeIsTransitive(name, names[0], x);
          }
        }
        HeadIsFirst(name, names);
      } else {
        InsertKeepsOrder(name, names[1..]);
        forall x | x in Insert(name, names[1..]) ensures Before(names[0], x) {
          InsertAddsOne(name, names[1..], x);
          if x != name { FirstIsBefore(names, x); }
        }
        HeadIsFirst(names[0], Insert(name, names[1..]));
      }
    }
  }

  /** The result is increasing and has the same members. */
  lemma {:induction false} SortedUniqueIsRight(names: seq<string>)
    ensures Increasing(SortedUnique(names))
    ensures forall x :: x in SortedUnique(names) <==> x in names
  {
    if names != [] {
      var n := |names| - 1;
      SortedUniqueIsRight(names[..n]);
      InsertKeepsOrder(names[n], SortedUnique(names[..n]));
      forall x ensures x in SortedUnique(names) <==> x in names {
        InsertAddsOne(names[n], SortedUnique(names[..n]), x);
        assert names == names[..n] + [names[n]];
      }
    }
  }

  lemma SmallestComesFirst(a: seq<string>, b: seq<string>)
    requires Increasing(a) && Increasing(b) && a != [] && b != [] && a[0] in b && b[0] in a
    ensures a[0] == b[0]
  {
    if a[0] != b[0] {
      assert a[0] in b[1..] && b[0] in a[1..];
      FirstIsBefore(a, b[0]);
      FirstIsBefore(b, a[0]);
      BeforeIsTransitive(a[0], b[0], a[0]);
      BeforeIsStrict(a[0]);
    }
  }

  lemma TailMembers(a: seq<string>, x: string)
    requires a != [] && Increasing(a)
    ensures x in a[1..] <==> x in a && x != a[0]
  {
    if x in a[1..] {
      FirstIsBefore(a, x);
      BeforeIsStrict(x);
    }
    if x in a && x != a[0] {
      assert x in a[1..];
    }
  }

  /** Order and members determine the list. */
  lemma {:induction false} IncreasingIsCanonical(a: seq<string>, b: seq<string>)
    requires Increasing(a) && Increasing(b) && forall x :: x in a <==> x in b
    ensures a == b
  {
    assert b != [] ==> b[0] in a;
    assert a != [] ==> a[0] in b;
    if a != [] {
      SmallestComesFirst(a, b);
      TailIsIncreasing(a);
      TailIsIncreasing(b);
      forall x ensures x in a[1..] <==> x in b[1..] {
        TailMembers(a, x);
        TailMembers(b, x);
      }
      IncreasingIsCanonical(a[1..], b[1..]);
      assert a == [a[0]] + a[1..] && b == [b[0]] + b[1..];
    }
  }

  /** Lists with the same members sort to the same list. */
  lemma SortedUniqueDependsOnMembers(a: seq<string>, b: seq<string>)
    requires forall x :: x in a <==> x in b
    ensures SortedUnique(a) == SortedUnique(b)
  {
    SortedUniqueIsRight(a);
    SortedUniqueIsRight(b);
    IncreasingIsCanonical(SortedUnique(a), SortedUnique(b));
  }

  lemma SortingTwice(names: seq<string>)
    requires Increasing(names)
    ensures SortedUnique(names) == names
  {
    SortedUniqueIsRight(names);
    IncreasingIsCanonical(SortedUnique(names), names);
  }

  /** Merging into a sorted list is sorting everything at once. */
  lemma MergeIsUnion(a: seq<string>, b: seq<string>)
    ensures SortedUnique(SortedUnique(a) + b) == SortedUnique(a + b)
  {
    SortedUniqueIsRight(a);
    SortedUniqueDependsOnMembers(SortedUnique(a) + b, a + b);
  }
}
