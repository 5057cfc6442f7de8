/** Facts about filtering, reversing and taking the newest part of a sequence, about folding
    over permutations, and about the least of a set, as the other modules need them. */
module Sequences {

  /** The elements of `s` that satisfy `p`, in order. */
  function Filter<T>(s: seq<T>, p: T -> bool): (r: seq<T>)
    ensures |r| <= |s|
  {
    if s == [] then []
    else
      var r := Filter(s[..|s| - 1], p);
      if p(s[|s| - 1]) then r + [s[|s| - 1]] else r
  }

  /** The newest `n` elements of `s`. */
  function LastN<T>(s: seq<T>, n: nat): (r: seq<T>)
    ensures |r| == if |s| <= n then |s| else n
  {
    if |s| <= n then s else s[|s| - n..]
  }

  function Reverse<T>(s: seq<T>): (r: seq<T>)
    ensures |r| == |s|
    ensures forall i :: 0 <= i < |s| ==> r[i] == s[|s| - 1 - i]
  {
    if s == [] then [] else [s[|s| - 1]] + Reverse(s[..|s| - 1])
  }

  lemma HasElement<T>(s: seq<T>)
    requires s != []
    ensures exists x :: x in s
  {
    assert s[0] in s;
  }

  lemma {:induction false} FilterSnoc<T>(s: seq<T>, x: T, p: T -> bool)
    ensures Filter(s + [x], p) == if p(x) then Filter(s, p) + [x] else Filter(s, p)
  {
    assert (s + [x])[..|s|] == s;
  }

  lemma {:induction false} FilterAppend<T>(a: seq<T>, b: seq<T>, p: T -> bool)
    ensures Filter(a + b, p) == Filter(a, p) + Filter(b, p)
  {
    if b == [] {
      assert a + b == a;
    } else {
      var init := b[..|b| - 1];
      FilterAppend(a, init, p);
      assert (a + b)[..|a + b| - 1] == a + init;
    }
  }

  lemma {:induction false} LastNSnoc<T>(s: seq<T>, x: T, n: nat)
    ensures LastN(s + [x], n) == if n == 0 then [] else LastN(s, n - 1) + [x]
  {
  }

  lemma {:induction false} FilterCons<T>(x: T, s: seq<T>, p: T -> bool)
    ensures Filter([x] + s, p) == if p(x) then [x] + Filter(s, p) else Filter(s, p)
  {
    FilterAppend([x], s, p);
    assert [x][..0] == [];
  }

  lemma {:induction false} FilterMember<T>(s: seq<T>, p: T -> bool)
    ensures forall x :: x in Filter(s, p) <==> x in s && p(x)
  {
    if s != [] {
      var init := s[..|s| - 1];
      FilterMember(init, p);
      assert s == init + [s[|s| - 1]];
    }
  }

  lemma {:induction false} FilterSame<T>(s: seq<T>, p: T -> bool, q: T -> bool)
    requires forall x :: x in s ==> p(x) == q(x)
    ensures Filter(s, p) == Filter(s, q)
  {
    if s != [] {
      FilterSame(s[..|s| - 1], p, q);
      assert s[|s| - 1] in s;
    }
  }

  lemma {:induction false} FilterAll<T>(s: seq<T>, p: T -> bool)
    requires forall x :: x in s ==> p(x)
    ensures Filter(s, p) == s
  {
    if s != [] {
      FilterAll(s[..|s| - 1], p);
      assert s[|s| - 1] in s;
    }
  }

  lemma {:induction false} FilterNone<T>(s: seq<T>, p: T -> bool)
    requires forall x :: x in s ==> !p(x)
    ensures Filter(s, p) == []
  {
    if s != [] {
      FilterNone(s[..|s| - 1], p);
      assert s[|s| - 1] in s;
    }
  }

  /** Filtering twice is filtering once by both conditions. */
  lemma {:induction false} FilterTwice<T>(s: seq<T>, p: T -> bool, q: T -> bool, both: T -> bool)
    requires forall x :: x in s ==> both(x) == (p(x) && q(x))
    ensures Filter(Filter(s, p), q) == Filter(s, both)
  {
    if s != [] {
      var init, x := s[..|s| - 1], s[|s| - 1];
      FilterTwice(init, p, q, both);
      assert x in s;
      if p(x) {
        assert Filter(s, p) == Filter(init, p) + [x];
        FilterSnoc(Filter(init, p), x, q);
      } else {
        assert Filter(s, p) == Filter(init, p);
      }
    }
  }

  /** Two conditions that never hold together count separately. */
  lemma {:induction false} FilterSplitCount<T>(s: seq<T>, p: T -> bool, q: T -> bool, either: T -> bool)
    requires forall x :: x in s ==> !(p(x) && q(x)) && either(x) == (p(x) || q(x))
    ensures |Filter(s, either)| == |Filter(s, p)| + |Filter(s, q)|
  {
    if s != [] {
      FilterSplitCount(s[..|s| - 1], p, q, either);
      assert s[|s| - 1] in s;
    }
  }

  lemma {:induction false} FilterEmpty<T>(s: seq<T>, p: T -> bool)
    ensures |Filter(s, p)| > 0 <==> exists x :: x in s && p(x)
  {
    hide Filter;
    FilterMember(s, p);
    if |Filter(s, p)| > 0 {
      HasElement(Filter(s, p));
      var x :| x in Filter(s, p);
      assert x in s && p(x);
    }
    if exists x :: x in s && p(x) {
      var x :| x in s && p(x);
      assert x in Filter(s, p);
    }
  }

  // ------------------------------------------------------------------ sorting by position

  /** The element that stands first. */
  method Least<T(==)>(s: set<T>, position: T -> real) returns (least: T)
    requires s != {} && forall x, y :: x in s && y in s && position(x) == position(y) ==> x == y
    ensures least in s && forall x :: x in s && x != least ==> position(least) < position(x)
  {
    least :| least in s;
    var todo := s - {least};
    while todo != {}
      invariant todo <= s && least in s && least !in todo
      invariant forall x :: x in s - todo && x != least ==> position(least) < position(x)
      decreases |todo|
    {
      var x :| x in todo;
      todo := todo - {x};
      if position(x) < position(least) {
        least := x;
      }
    }
  }

  // ------------------------------------------------------------- folds that commute

  function Fold<S, E>(f: (S, E) -> S, s: S, elements: seq<E>): S {
    if elements == [] then s else Fold(f, f(s, elements[0]), elements[1..])
  }

  /** Any two of these elements can be applied in either order. */
  ghost predicate Commutes<S(!new), E>(f: (S, E) -> S, elements: seq<E>) {
    forall x, y, s :: x in elements && y in elements ==> f(f(s, x), y) == f(f(s, y), x)
  }

  function Without<E>(elements: seq<E>, i: nat): seq<E>
    requires i < |elements|
  {
    elements[..i] + elements[i + 1..]
  }

  lemma {:induction false} FoldMovesToFront<S(!new), E>(f: (S, E) -> S, s: S, elements: seq<E>, i: nat)
    requires i < |elements| && Commutes(f, elements)
    ensures Fold(f, s, elements) == Fold(f, f(s, elements[i]), Without(elements, i))
    decreases i
  {
    if i == 0 {
      assert Without(elements, 0) == elements[1..];
    } else {
      var rest := elements[1..];
      assert Commutes(f, rest);
      FoldMovesToFront(f, f(s, elements[0]), rest, i - 1);
      assert f(f(s, elements[0]), elements[i]) == f(f(s, elements[i]), elements[0]);
      hide Commutes;
      assert Without(elements, i)[0] == elements[0] && Without(elements, i)[1..] == Without(rest, i - 1);
    }
  }

  lemma {:induction false} WithoutSame<E>(a: seq<E>, b: seq<E>, i: nat)
    requires a != [] && multiset(a) == multiset(b) && i < |b| && b[i] == a[0]
    ensures multiset(a[1..]) == multiset(Without(b, i))
  {
    assert b == b[..i] + [b[i]] + b[i + 1..];
    assert a == [a[0]] + a[1..];
    assert multiset(Without(b, i)) == multiset(b) - multiset{b[i]};
    assert multiset(a[1..]) == multiset(a) - multiset{a[0]};
  }

  lemma {:induction false} CommutesPermuted<S(!new), E>(f: (S, E) -> S, a: seq<E>, b: seq<E>)
    requires multiset(a) == multiset(b) && Commutes(f, a)
    ensures Commutes(f, b)
  {
    forall x, y, s | x in b && y in b ensures f(f(s, x), y) == f(f(s, y), x) {
      assert x in multiset(a) && y in multiset(a);
    }
  }

  lemma {:induction false} CommutesRest<S(!new), E>(f: (S, E) -> S, elements: seq<E>)
    requires elements != [] && Commutes(f, elements)
    ensures Commutes(f, elements[1..])
  {
  }

  /** Folding commuting elements does not depend on their order. */
  lemma {:induction false} FoldPermutes<S(!new), E>(f: (S, E) -> S, s: S, a: seq<E>, b: seq<E>)
    requires multiset(a) == multiset(b) && Commutes(f, a)
    ensures Fold(f, s, a) == Fold(f, s, b)
    decreases |a|
  {
    hide Commutes, Without;
    if a == [] {
      assert |multiset(b)| == 0;
    } else {
      assert a[0] in multiset(b);
      var i :| 0 <= i < |b| && b[i] == a[0];
      CommutesPermuted(f, a, b);
      FoldMovesToFront(f, s, b, i);
      WithoutSame(a, b, i);
      CommutesRest(f, a);
      FoldPermutes(f, f(s, a[0]), a[1..], Without(b, i));
    }
  }

  lemma {:induction false} FoldSnoc<S, E>(f: (S, E) -> S, s: S, elements: seq<E>, x: E)
    ensures Fold(f, s, elements + [x]) == f(Fold(f, s, elements), x)
    decreases |elements|
  {
    if elements != [] {
      assert (elements + [x])[1..] == elements[1..] + [x];
      FoldSnoc(f, f(s, elements[0]), elements[1..], x);
    }
  }
}
