/** Generic list building blocks shared by both implementations: the list
    comprehensions `[f(x) for x in xs if ...]`, the append-in-a-loop pattern,
    comprehensions whose element expression may raise, and de-duplication. */
module Lists {
  import opened Wrappers

  /** The zero- or one-element list an optional value contributes. */
  function Lift<U>(o: Option<U>): seq<U> {
    if o.Some? then [o.value] else []
  }

  /** `[y for x in xs if f(x) == Some(y)]`: the outputs of `f`, in input order. */
  function FilterMap<T, U>(xs: seq<T>, f: T -> Option<U>): (ys: seq<U>)
    ensures |ys| <= |xs|
    decreases |xs|
  {
    if xs == [] then [] else Lift(f(xs[0])) + FilterMap(xs[1..], f)
  }

  /** An input given twice in a row gives its output twice. */
  lemma FilterMapTwice<T, U>(x: T, f: T -> Option<U>)
    requires f(x).Some?
    ensures FilterMap([x, x], f) == [f(x).value, f(x).value]
  {
    var y := f(x).value;
    assert [x, x][1..] == [x] && [x][1..] == [];
    assert FilterMap([x], f) == [y] + [] == [y];
    assert FilterMap([x, x], f) == [y] + [y];
  }

  /** FilterMap works line by line: the output for a concatenation is the
      concatenation of the outputs, so order and repetitions are kept. */
  lemma {:induction false} FilterMapConcat<T, U>(a: seq<T>, b: seq<T>, f: T -> Option<U>)
    ensures FilterMap(a + b, f) == FilterMap(a, f) + FilterMap(b, f)
    decreases |a|
  {
    if a == [] {
      assert a + b == b;
    } else {
      assert (a + b)[1..] == a[1..] + b;
      FilterMapConcat(a[1..], b, f);
    }
  }

  /** A value is produced exactly when some element maps to it. */
  lemma {:induction false} FilterMapMember<T, U>(xs: seq<T>, f: T -> Option<U>, y: U)
    ensures y in FilterMap(xs, f) <==> exists i :: 0 <= i < |xs| && f(xs[i]) == Some(y)
    decreases |xs|
  {
    if xs != [] {
      FilterMapMember(xs[1..], f, y);
      if y in FilterMap(xs[1..], f) {
        var i :| 0 <= i < |xs[1..]| && f(xs[1..][i]) == Some(y);
        assert f(xs[i + 1]) == Some(y);
      }
      if exists i :: 0 <= i < |xs| && f(xs[i]) == Some(y) {
        var i :| 0 <= i < |xs| && f(xs[i]) == Some(y);
        if i > 0 {
          assert f(xs[1..][i - 1]) == Some(y);
        }
      }
    }
  }

  /** The loop step: appending one element appends its output, if any. */
  lemma FilterMapSnoc<T, U>(xs: seq<T>, i: nat, f: T -> Option<U>)
    requires i < |xs|
    ensures FilterMap(xs[..i + 1], f) == FilterMap(xs[..i], f) + Lift(f(xs[i]))
  {
    assert xs[..i + 1] == xs[..i] + [xs[i]];
    FilterMapConcat(xs[..i], [xs[i]], f);
    assert [xs[i]][1..] == [];
  }

  /** `[x for x in xs if keep(x)]`. */
  function Filter<T>(xs: seq<T>, keep: T -> bool): (ys: seq<T>)
    ensures |ys| <= |xs|
    decreases |xs|
  {
    if xs == [] then [] else (if keep(xs[0]) then [xs[0]] else []) + Filter(xs[1..], keep)
  }

  lemma {:induction false} FilterConcat<T>(a: seq<T>, b: seq<T>, keep: T -> bool)
    ensures Filter(a + b, keep) == Filter(a, keep) + Filter(b, keep)
    decreases |a|
  {
    if a == [] {
      assert a + b == b;
    } else {
      var head := if keep(a[0]) then [a[0]] else [];
      assert (a + b)[0] == a[0] && (a + b)[1..] == a[1..] + b;
      assert Filter(a + b, keep) == head + Filter(a[1..] + b, keep);
      FilterConcat(a[1..], b, keep);
      assert Filter(a, keep) == head + Filter(a[1..], keep);
      assert head + (Filter(a[1..], keep) + Filter(b, keep)) == (head + Filter(a[1..], keep)) + Filter(b, keep);
    }
  }

  lemma FilterSnoc<T>(xs: seq<T>, i: nat, keep: T -> bool)
    requires i < |xs|
    ensures Filter(xs[..i + 1], keep) == Filter(xs[..i], keep) + (if keep(xs[i]) then [xs[i]] else [])
  {
    assert xs[..i + 1] == xs[..i] + [xs[i]];
    FilterConcat(xs[..i], [xs[i]], keep);
    assert [xs[i]][1..] == [];
  }

  /** Filter keeps exactly the elements that pass, and nothing else. */
  lemma {:induction false} FilterMember<T>(xs: seq<T>, keep: T -> bool, x: T)
    ensures x in Filter(xs, keep) <==> x in xs && keep(x)
    decreases |xs|
  {
    if xs != [] {
      FilterMember(xs[1..], keep, x);
      assert xs == [xs[0]] + xs[1..];
    }
  }

  /** Two tests that agree on every element select the same sublist. */
  lemma {:induction false} FilterCongruence<T>(xs: seq<T>, p: T -> bool, q: T -> bool)
    requires forall i :: 0 <= i < |xs| ==> p(xs[i]) == q(xs[i])
    ensures Filter(xs, p) == Filter(xs, q)
    decreases |xs|
  {
    if xs != [] {
      assert p(xs[0]) == q(xs[0]);
      forall i | 0 <= i < |xs[1..]| ensures p(xs[1..][i]) == q(xs[1..][i]) {
        assert xs[1..][i] == xs[i + 1];
      }
      FilterCongruence(xs[1..], p, q);
    }
  }

  /** A filter whose test always passes changes nothing. */
  lemma {:induction false} FilterAll<T>(xs: seq<T>, keep: T -> bool)
    requires forall i :: 0 <= i < |xs| ==> keep(xs[i])
    ensures Filter(xs, keep) == xs
    decreases |xs|
  {
    if xs != [] {
      assert keep(xs[0]);
      forall i | 0 <= i < |xs[1..]| ensures keep(xs[1..][i]) {
        assert xs[1..][i] == xs[i + 1];
      }
      FilterAll(xs[1..], keep);
      assert xs == [xs[0]] + xs[1..];
    }
  }

  /** Membership in a list, as a test: Python `x in xs`, or a lookup in a
      Go map filled from `xs`. */
  function MemberOf<T(==)>(xs: seq<T>): T -> bool {
    x => x in xs
  }

  /** Filter keeps every occurrence of an element that passes and none of
      one that fails. */
  lemma {:induction false} FilterCount<T>(xs: seq<T>, keep: T -> bool, x: T)
    ensures multiset(Filter(xs, keep))[x] == if keep(x) then multiset(xs)[x] else 0
    decreases |xs|
  {
    if xs != [] {
      FilterCount(xs[1..], keep, x);
      assert xs == [xs[0]] + xs[1..];
    }
  }

  /** What the element expression of a comprehension does with one element:
      contributes a value, is filtered out, or raises. */
  datatype Step<+U, +E> = Keep(item: U) | Skip | Raise(error: E)

  /** A list comprehension whose element expression may raise: the first
      element that raises aborts the whole list. */
  function Collect<T, U, E>(xs: seq<T>, f: T -> Step<U, E>): (r: Result<seq<U>, E>)
    ensures r.Ok? ==> |r.value| <= |xs|
    decreases |xs|
  {
    if xs == [] then Ok([])
    else match f(xs[0])
      case Raise(e) => Err(e)
      case Skip => Collect(xs[1..], f)
      case Keep(y) =>
        match Collect(xs[1..], f)
        case Ok(ys) => Ok([y] + ys)
        case Err(e) => Err(e)
  }

  /** An input kept twice in a row is collected twice. */
  lemma CollectTwice<T, U, E>(x: T, f: T -> Step<U, E>)
    requires f(x).Keep?
    ensures Collect([x, x], f) == Ok([f(x).item, f(x).item])
  {
    var y := f(x).item;
    assert [x, x][1..] == [x] && [x][1..] == [];
    assert Collect([x], f) == Ok([y] + []) && [y] + [] == [y];
    assert Collect([x, x], f) == Ok([y] + [y]);
    assert [y] + [y] == [y, y];
  }

  /** The comprehension raises iff some element raises, and then it is the
      error of the first such element. */
  lemma {:induction false} CollectRaises<T, U, E>(xs: seq<T>, f: T -> Step<U, E>)
    ensures Collect(xs, f).Err? <==> exists i :: 0 <= i < |xs| && f(xs[i]).Raise?
    ensures Collect(xs, f).Err? ==>
      exists i :: 0 <= i < |xs| && f(xs[i]) == Raise(Collect(xs, f).error) &&
        forall j :: 0 <= j < i ==> !f(xs[j]).Raise?
    decreases |xs|
  {
    if xs != [] && !f(xs[0]).Raise? {
      CollectRaises(xs[1..], f);
      if Collect(xs[1..], f).Err? {
        var i :| 0 <= i < |xs[1..]| && f(xs[1..][i]) == Raise(Collect(xs[1..], f).error) &&
          forall j :: 0 <= j < i ==> !f(xs[1..][j]).Raise?;
        assert f(xs[i + 1]) == Raise(Collect(xs, f).error);
        forall j | 0 <= j < i + 1 ensures !f(xs[j]).Raise? {
          if j > 0 { assert xs[j] == xs[1..][j - 1]; }
        }
      }
      if exists i :: 0 <= i < |xs| && f(xs[i]).Raise? {
        var i :| 0 <= i < |xs| && f(xs[i]).Raise?;
        assert f(xs[1..][i - 1]).Raise?;
      }
    }
  }

  /** Without an error, the comprehension of a concatenation is the
      concatenation of the comprehensions: order and repetitions are kept. */
  lemma {:induction false} CollectConcat<T, U, E>(a: seq<T>, b: seq<T>, f: T -> Step<U, E>)
    requires Collect(a, f).Ok? && Collect(b, f).Ok?
    ensures Collect(a + b, f) == Ok(Collect(a, f).value + Collect(b, f).value)
    decreases |a|
  {
    if a == [] {
      assert a + b == b;
      assert Collect(a, f).value + Collect(b, f).value == Collect(b, f).value;
    } else {
      assert (a + b)[1..] == a[1..] + b;
      assert (a + b)[0] == a[0];
      match f(a[0])
      case Skip =>
        CollectConcat(a[1..], b, f);
      case Keep(y) =>
        CollectConcat(a[1..], b, f);
        var u, v := Collect(a[1..], f).value, Collect(b, f).value;
        assert [y] + (u + v) == ([y] + u) + v;
    }
  }

  /** The comprehension of a concatenation: the first part's error if it
      raises, otherwise the second part's error, otherwise both results in
      order. */
  lemma {:induction false} CollectAppend<T, U, E>(a: seq<T>, b: seq<T>, f: T -> Step<U, E>)
    ensures Collect(a + b, f) ==
      match Collect(a, f)
      case Err(e) => Err(e)
      case Ok(u) => (match Collect(b, f) case Err(e) => Err(e) case Ok(v) => Ok(u + v))
    decreases |a|
  {
    if a == [] {
      assert a + b == b;
      if Collect(b, f).Ok? {
        assert [] + Collect(b, f).value == Collect(b, f).value;
      }
    } else {
      assert (a + b)[1..] == a[1..] + b;
      assert (a + b)[0] == a[0];
      CollectAppend(a[1..], b, f);
      match f(a[0])
      case Raise(e) =>
      case Skip =>
      case Keep(y) =>
        if Collect(a[1..], f).Ok? && Collect(b, f).Ok? {
          var u, v := Collect(a[1..], f).value, Collect(b, f).value;
          assert [y] + (u + v) == ([y] + u) + v;
        }
    }
  }

  /** The loop step of a comprehension written as a loop: one more element. */
  lemma CollectSnoc<T, U, E>(xs: seq<T>, i: nat, f: T -> Step<U, E>)
    requires i < |xs| && Collect(xs[..i], f).Ok?
    ensures Collect(xs[..i + 1], f) ==
      match f(xs[i])
      case Keep(y) => Ok(Collect(xs[..i], f).value + [y])
      case Skip => Ok(Collect(xs[..i], f).value)
      case Raise(e) => Err(e)
  {
    assert xs[..i + 1] == xs[..i] + [xs[i]];
    CollectAppend(xs[..i], [xs[i]], f);
    assert [xs[i]][1..] == [];
    assert Collect([xs[i]][1..], f) == Ok([]);
    match f(xs[i])
    case Keep(y) =>
      assert Collect([xs[i]], f) == Ok([y] + []);
      assert [y] + [] == [y];
    case Skip =>
      assert Collect(xs[..i], f).value + [] == Collect(xs[..i], f).value;
    case Raise(e) =>
  }

  /** A raise at position i ends the comprehension with that error when
      nothing before it raised. */
  lemma CollectRaiseAt<T, U, E>(xs: seq<T>, i: nat, f: T -> Step<U, E>)
    requires i < |xs| && Collect(xs[..i], f).Ok? && f(xs[i]).Raise?
    ensures Collect(xs, f) == Err(f(xs[i]).error)
  {
    assert xs == xs[..i] + xs[i..];
    CollectAppend(xs[..i], xs[i..], f);
    assert xs[i..][0] == xs[i];
  }

  /** Without an error, a value is produced exactly when some element keeps it. */
  lemma {:induction false} CollectMember<T, U, E>(xs: seq<T>, f: T -> Step<U, E>, y: U)
    requires Collect(xs, f).Ok?
    ensures y in Collect(xs, f).value <==> exists i :: 0 <= i < |xs| && f(xs[i]) == Keep(y)
    decreases |xs|
  {
    if xs != [] {
      CollectMember(xs[1..], f, y);
      if y in Collect(xs[1..], f).value {
        var i :| 0 <= i < |xs[1..]| && f(xs[1..][i]) == Keep(y);
        assert f(xs[i + 1]) == Keep(y);
      }
      if exists i :: 0 <= i < |xs| && f(xs[i]) == Keep(y) {
        var i :| 0 <= i < |xs| && f(xs[i]) == Keep(y);
        if i > 0 {
          assert f(xs[1..][i - 1]) == Keep(y);
        }
      }
    }
  }

  /** No element occurs twice. */
  predicate Distinct<T(==)>(xs: seq<T>) {
    forall i, j :: 0 <= i < j < |xs| ==> xs[i] != xs[j]
  }

  /** The first occurrence of every element, in order. */
  function Dedup<T(==,!new)>(xs: seq<T>): (ys: seq<T>)
    ensures forall x :: x in ys <==> x in xs
    ensures Distinct(ys)
    decreases |xs|
  {
    if xs == [] then []
    else
      var init := Dedup(xs[..|xs| - 1]);
      assert xs == xs[..|xs| - 1] + [xs[|xs| - 1]];
      if xs[|xs| - 1] in init then init else init + [xs[|xs| - 1]]
  }
}
