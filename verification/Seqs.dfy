/** Mapping, filtering and flattening of sequences, and how they treat reorderings. */
module Seqs {

  function Map<A, B>(f: A -> B, s: seq<A>): (r: seq<B>)
    ensures |r| == |s|
    ensures forall i :: 0 <= i < |s| ==> r[i] == f(s[i])
  {
    if s == [] then [] else [f(s[0])] + Map(f, s[1..])
  }

  function Filter<A>(p: A -> bool, s: seq<A>): seq<A> {
    if s == [] then [] else (if p(s[0]) then [s[0]] else []) + Filter(p, s[1..])
  }

  function Flatten<A>(ss: seq<seq<A>>): seq<A> {
    if ss == [] then [] else ss[0] + Flatten(ss[1..])
  }

  ghost predicate NoRepeats<A>(s: seq<A>) {
    forall i, j :: 0 <= i < j < |s| ==> s[i] != s[j]
  }

  // `a` and `b` hold the same elements equally often.
  ghost predicate Reordered<A>(a: seq<A>, b: seq<A>) {
    multiset(a) == multiset(b)
  }

  lemma ConcatAssociates<T>(a: seq<T>, b: seq<T>, c: seq<T>)
    ensures a + b + c == a + (b + c)
  {
  }

  lemma {:induction false} MapConcat<A, B>(f: A -> B, a: seq<A>, b: seq<A>)
    ensures Map(f, a + b) == Map(f, a) + Map(f, b)
  {
  }

  lemma {:induction false} FilterConcat<A>(p: A -> bool, a: seq<A>, b: seq<A>)
    ensures Filter(p, a + b) == Filter(p, a) + Filter(p, b)
  {
    if a == [] {
      assert a + b == b;
    } else {
      assert (a + b)[1..] == a[1..] + b;
      FilterConcat(p, a[1..], b);
      ConcatAssociates(if p(a[0]) then [a[0]] else [], Filter(p, a[1..]), Filter(p, b));
    }
  }

  lemma {:induction false} FilterMembers<A>(p: A -> bool, s: seq<A>)
    ensures forall x :: x in Filter(p, s) ==> x in s && p(x)
    ensures forall x :: x in s && p(x) ==> x in Filter(p, s)
  {
    if s != [] {
      FilterMembers(p, s[1..]);
    }
  }

  lemma {:induction false} FilterAll<A>(p: A -> bool, s: seq<A>)
    requires forall x :: x in s ==> p(x)
    ensures Filter(p, s) == s
  {
    if s != [] {
      FilterAll(p, s[1..]);
    }
  }

  lemma {:induction false} FilterNone<A>(p: A -> bool, s: seq<A>)
    requires forall x :: x in s ==> !p(x)
    ensures Filter(p, s) == []
  {
    if s != [] {
      FilterNone(p, s[1..]);
    }
  }

  // Filtering out one element.
  lemma FilterOne<A>(p: A -> bool, s: seq<A>, k: nat)
    requires k < |s| && !p(s[k])
    requires forall i :: 0 <= i < |s| && i != k ==> p(s[i])
    ensures Filter(p, s) == s[..k] + s[k + 1..]
  {
    var front, back := s[..k], s[k + 1..];
    assert s == front + [s[k]] + back;
    FilterDrops(p, front, s[k], back);
    FilterAll(p, front + back);
  }

  lemma TakenOut<A>(s: seq<A>, k: nat)
    requires k < |s|
    ensures Reordered([s[k]] + (s[..k] + s[k + 1..]), s)
  {
    assert s == s[..k] + [s[k]] + s[k + 1..];
  }

  lemma {:induction false} FilterShrinks<A>(p: A -> bool, s: seq<A>)
    ensures |Filter(p, s)| <= |s|
    ensures s != [] && !p(s[0]) ==> |Filter(p, s)| < |s|
  {
    if s != [] {
      FilterShrinks(p, s[1..]);
    }
  }

  lemma FilterKeepsFirst<A>(p: A -> bool, s: seq<A>)
    requires s != [] && p(s[0])
    ensures Filter(p, s) != [] && Filter(p, s)[0] == s[0]
  {
  }

  lemma {:induction false} FilterDrops<A>(p: A -> bool, a: seq<A>, x: A, b: seq<A>)
    requires !p(x)
    ensures Filter(p, a + [x] + b) == Filter(p, a + b)
  {
    if a == [] {
      assert a + [x] + b == [x] + b && a + b == b;
    } else {
      assert (a + [x] + b)[1..] == a[1..] + [x] + b;
      assert (a + b)[1..] == a[1..] + b;
      FilterDrops(p, a[1..], x, b);
    }
  }

  lemma {:induction false} FlattenConcat<A>(a: seq<seq<A>>, b: seq<seq<A>>)
    ensures Flatten(a + b) == Flatten(a) + Flatten(b)
  {
    if a == [] {
      assert a + b == b;
    } else {
      assert (a + b)[1..] == a[1..] + b;
      FlattenConcat(a[1..], b);
      ConcatAssociates(a[0], Flatten(a[1..]), Flatten(b));
    }
  }

  // The first element of `a` sits at some index of any reordering of `a`.
  lemma FirstIn<A>(a: seq<A>, b: seq<A>) returns (j: nat)
    requires Reordered(a, b) && a != []
    ensures j < |b| && b[j] == a[0]
    ensures b == b[..j] + [a[0]] + b[j + 1..]
    ensures Reordered(a[1..], b[..j] + b[j + 1..])
  {
    assert a == [a[0]] + a[1..];
    assert a[0] in multiset(b);
    j :| 0 <= j < |b| && b[j] == a[0];
    assert b == b[..j] + [a[0]] + b[j + 1..];
    calc {
      multiset(a[1..]);
      multiset(b) - multiset{a[0]};
      multiset(b[..j]) + multiset(b[j + 1..]);
      multiset(b[..j] + b[j + 1..]);
    }
  }

  lemma {:induction false} MapReordered<A, B>(f: A -> B, a: seq<A>, b: seq<A>)
    requires Reordered(a, b)
    ensures Reordered(Map(f, a), Map(f, b))
  {
    if a == [] {
      assert |multiset(b)| == 0;
    } else {
      var j := FirstIn(a, b);
      var front, back := b[..j], b[j + 1..];
      MapReordered(f, a[1..], front + back);
      MapConcat(f, front, back);
      MapConcat(f, front + [a[0]], back);
      MapConcat(f, front, [a[0]]);
      assert Map(f, a) == [f(a[0])] + Map(f, a[1..]);
      assert Map(f, [a[0]]) == [f(a[0])];
      hide Map;
      InsertReordered(f(a[0]), Map(f, a[1..]), Map(f, front), Map(f, back));
    }
  }

  lemma InsertReordered<A>(x: A, rest: seq<A>, front: seq<A>, back: seq<A>)
    requires Reordered(rest, front + back)
    ensures Reordered([x] + rest, front + [x] + back)
  {
  }

  lemma {:induction false} FilterReordered<A>(p: A -> bool, a: seq<A>, b: seq<A>)
    requires Reordered(a, b)
    ensures Reordered(Filter(p, a), Filter(p, b))
  {
    if a == [] {
      assert |multiset(b)| == 0;
    } else {
      var j := FirstIn(a, b);
      var front, back := b[..j], b[j + 1..];
      FilterReordered(p, a[1..], front + back);
      FilterConcat(p, front, back);
      FilterConcat(p, front + [a[0]], back);
      FilterConcat(p, front, [a[0]]);
      var first := if p(a[0]) then [a[0]] else [];
      assert Filter(p, a) == first + Filter(p, a[1..]);
      assert Filter(p, [a[0]]) == first;
    }
  }

  lemma {:induction false} FlattenReordered<A>(a: seq<seq<A>>, b: seq<seq<A>>)
    requires Reordered(a, b)
    ensures Reordered(Flatten(a), Flatten(b))
  {
    if a == [] {
      assert |multiset(b)| == 0;
    } else {
      var j := FirstIn(a, b);
      var front, back := b[..j], b[j + 1..];
      FlattenReordered(a[1..], front + back);
      FlattenConcat(front, back);
      FlattenConcat(front + [a[0]], back);
      FlattenConcat(front, [a[0]]);
      assert Flatten(a) == a[0] + Flatten(a[1..]);
      assert Flatten([a[0]]) == a[0];
    }
  }

  // Filtering before or after a mapping is the same when the two tests agree.
  lemma {:induction false} MapFilter<A, B>(f: A -> B, p: A -> bool, q: B -> bool, s: seq<A>)
    requires forall x :: x in s ==> p(x) == q(f(x))
    ensures Map(f, Filter(p, s)) == Filter(q, Map(f, s))
  {
    if s != [] {
      MapFilter(f, p, q, s[1..]);
      MapConcat(f, if p(s[0]) then [s[0]] else [], Filter(p, s[1..]));
      assert Map(f, s)[1..] == Map(f, s[1..]);
    }
  }

  lemma {:induction false} MapAgrees<A, B>(f: A -> B, g: A -> B, s: seq<A>)
    requires forall x :: x in s ==> f(x) == g(x)
    ensures Map(f, s) == Map(g, s)
  {
  }

  lemma {:induction false} MapMap<A, B, C>(f: A -> B, g: B -> C, h: A -> C, s: seq<A>)
    requires forall x :: x in s ==> g(f(x)) == h(x)
    ensures Map(g, Map(f, s)) == Map(h, s)
  {
  }

  // A step and its image under a view: stepping then viewing is viewing then stepping.
  lemma {:induction false} MapSquare<A, B>(step: A -> A, view: A -> B, image: B -> B, s: seq<A>)
    requires forall x :: x in s ==> view(step(x)) == image(view(x))
    ensures Map(view, Map(step, s)) == Map(image, Map(view, s))
  {
  }

  // A test and its complement split a sequence without loss.
  lemma {:induction false} FilterSplits<A>(p: A -> bool, q: A -> bool, s: seq<A>)
    requires forall x :: x in s ==> p(x) == !q(x)
    ensures multiset(Filter(p, s)) + multiset(Filter(q, s)) == multiset(s)
  {
    if s != [] {
      FilterSplits(p, q, s[1..]);
      assert s == [s[0]] + s[1..];
    }
  }

  lemma NoRepeatsReordered<A>(a: seq<A>, b: seq<A>)
    requires Reordered(a, b) && NoRepeats(a)
    ensures NoRepeats(b)
    decreases |a|
  {
    if a != [] {
      var j := FirstIn(a, b);
      var rest := b[..j] + b[j + 1..];
      NoRepeatsReordered(a[1..], rest);
      assert a[0] !in rest by {
        assert a[0] !in a[1..];
        assert a[0] !in multiset(a[1..]);
        assert a[0] !in multiset(rest);
      }
      forall x, y | 0 <= x < y < |b| ensures b[x] != b[y] {
        if x == j {
          assert b[y] == rest[y - 1];
        } else if y == j {
          assert b[x] == rest[x];
        } else {
          var x' := if x < j then x else x - 1;
          var y' := if y < j then y else y - 1;
          assert rest[x'] == b[x] && rest[y'] == b[y];
        }
      }
    } else {
      assert |multiset(b)| == 0;
    }
  }

  // How many elements at the start of `s` satisfy `p`.
  function Run<T>(p: T -> bool, s: seq<T>): (n: nat)
    ensures n <= |s|
  {
    if s == [] || !p(s[0]) then 0 else 1 + Run(p, s[1..])
  }

  lemma {:induction false} RunEnds<T>(p: T -> bool, s: seq<T>)
    ensures forall i :: 0 <= i < Run(p, s) ==> p(s[i])
    ensures Run(p, s) < |s| ==> !p(s[Run(p, s)])
  {
    if s != [] && p(s[0]) {
      RunEnds(p, s[1..]);
      assert forall i :: 0 < i < |s| ==> s[i] == s[1..][i - 1];
    }
  }

  lemma {:induction false} RunIs<T>(p: T -> bool, a: seq<T>, b: seq<T>)
    requires forall c :: c in a ==> p(c)
    requires b == [] || !p(b[0])
    ensures Run(p, a + b) == |a|
  {
    if a == [] {
      assert a + b == b;
    } else {
      assert (a + b)[1..] == a[1..] + b;
      RunIs(p, a[1..], b);
    }
  }

  // What is appended after an element that ends the run does not change the run.
  lemma {:induction false} RunStops<T>(p: T -> bool, a: seq<T>, b: seq<T>)
    requires Run(p, a) < |a| || b == [] || !p(b[0])
    ensures Run(p, a + b) == Run(p, a)
  {
    if a == [] {
      assert a + b == b;
    } else if p(a[0]) {
      assert (a + b)[1..] == a[1..] + b;
      RunStops(p, a[1..], b);
    }
  }

  // The elements of the run, and the elements after it.
  function Taken<T>(p: T -> bool, s: seq<T>): seq<T> {
    s[..Run(p, s)]
  }

  function Dropped<T>(p: T -> bool, s: seq<T>): (r: seq<T>)
    ensures |r| <= |s|
  {
    s[Run(p, s)..]
  }

  lemma DroppedIs<T>(p: T -> bool, a: seq<T>, b: seq<T>)
    requires forall c :: c in a ==> p(c)
    requires b == [] || !p(b[0])
    ensures Taken(p, a + b) == a && Dropped(p, a + b) == b
  {
    RunIs(p, a, b);
  }

  // A run that ends in `a` is not changed by what follows.
  lemma DroppedInside<T>(p: T -> bool, a: seq<T>, b: seq<T>)
    requires Dropped(p, a) != [] || b == [] || !p(b[0])
    ensures Taken(p, a + b) == Taken(p, a) && Dropped(p, a + b) == Dropped(p, a) + b
  {
    RunStops(p, a, b);
    var n := Run(p, a);
    hide Run;
    assert (a + b)[..n] == a[..n];
    assert (a + b)[n..] == a[n..] + b;
  }
}
