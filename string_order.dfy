/** The order Go's `sort.Strings` sorts by. Go compares strings byte by
    byte; on valid UTF-8 that is the same as comparing code points one by
    one, which is what `Less` does. */
module StringOrder {
  import opened Lists

  /** Lexicographic "comes strictly before". */
  predicate Less(a: string, b: string)
    decreases |a|
  {
    if a == [] then b != []
    else b != [] && (a[0] < b[0] || (a[0] == b[0] && Less(a[1..], b[1..])))
  }

  lemma {:induction false} LessIrreflexive(a: string)
    ensures !Less(a, a)
    decreases |a|
  {
    if a != [] {
      LessIrreflexive(a[1..]);
    }
  }

  lemma {:induction false} LessTransitive(a: string, b: string, c: string)
    requires Less(a, b) && Less(b, c)
    ensures Less(a, c)
    decreases |a|
  {
    if a != [] && a[0] == b[0] && b[0] == c[0] {
      LessTransitive(a[1..], b[1..], c[1..]);
    }
  }

  lemma {:induction false} LessTotal(a: string, b: string)
    requires a != b
    ensures Less(a, b) || Less(b, a)
    decreases |a|
  {
    if a != [] && b != [] && a[0] == b[0] {
      assert a == [a[0]] + a[1..] && b == [b[0]] + b[1..];
      LessTotal(a[1..], b[1..]);
    }
  }

  lemma LessAsymmetric(a: string, b: string)
    requires Less(a, b)
    ensures !Less(b, a)
  {
    if Less(b, a) {
      LessTransitive(a, b, a);
      LessIrreflexive(a);
    }
  }

  /** Every element comes strictly before every later one: sorted and
      without duplicates. */
  predicate StrictlyAscending(s: seq<string>) {
    forall i, j :: 0 <= i < j < |s| ==> Less(s[i], s[j])
  }

  /** `x` placed before the first element that does not come before it. */
  function Insert(x: string, s: seq<string>): (r: seq<string>)
    ensures multiset(r) == multiset(s) + multiset{x}
    decreases |s|
  {
    if s == [] || !Less(s[0], x) then [x] + s
    else
      assert s == [s[0]] + s[1..];
      [s[0]] + Insert(x, s[1..])
  }

  /** Go `sort.Strings`, as an insertion sort: a permutation of its input. */
  function Sort(s: seq<string>): (r: seq<string>)
    ensures multiset(r) == multiset(s)
    decreases |s|
  {
    if s == [] then []
    else
      assert s == [s[0]] + s[1..];
      Insert(s[0], Sort(s[1..]))
  }

  lemma {:induction false} InsertAscending(x: string, s: seq<string>)
    requires StrictlyAscending(s) && x !in s
    ensures StrictlyAscending(Insert(x, s))
    decreases |s|
  {
    if s == [] {
    } else if !Less(s[0], x) {
      assert x != s[0];
      LessTotal(x, s[0]);
      forall k | 0 < k < |s| ensures Less(x, s[k]) {
        LessTransitive(x, s[0], s[k]);
      }
    } else {
      InsertAscending(x, s[1..]);
      var r := Insert(x, s[1..]);
      forall j | 0 <= j < |r| ensures Less(s[0], r[j]) {
        assert r[j] in multiset(r);
        if r[j] != x {
          assert r[j] in multiset(s[1..]);
          var k :| 0 <= k < |s[1..]| && s[1..][k] == r[j];
          assert s[k + 1] == r[j];
        }
      }
    }
  }

  /** Sorting elements that are pairwise different gives a strictly
      ascending list. */
  lemma {:induction false} SortAscending(s: seq<string>)
    requires Distinct(s)
    ensures StrictlyAscending(Sort(s))
    decreases |s|
  {
    if s != [] {
      SortAscending(s[1..]);
      forall k | 0 <= k < |s[1..]| ensures s[1..][k] != s[0] {
        assert s[1..][k] == s[k + 1];
      }
      assert multiset(Sort(s[1..]))[s[0]] == 0;
      InsertAscending(s[0], Sort(s[1..]));
    }
  }

  /** A strictly ascending list is determined by its elements. */
  lemma {:induction false} AscendingUnique(a: seq<string>, b: seq<string>)
    requires StrictlyAscending(a) && StrictlyAscending(b)
    requires forall x :: x in a <==> x in b
    ensures a == b
    decreases |a|
  {
    if a != [] { assert a[0] in a; }
    if b != [] { assert b[0] in b; }
    if a != [] && b != [] {
      var i :| 0 <= i < |b| && b[i] == a[0];
      var j :| 0 <= j < |a| && a[j] == b[0];
      if Less(b[0], a[0]) {
        LessAsymmetric(b[0], a[0]);
      }
      assert a[0] == b[0];
      forall x ensures x in a[1..] <==> x in b[1..] {
        assert a == [a[0]] + a[1..] && b == [b[0]] + b[1..];
        if x in a[1..] {
          var k :| 0 <= k < |a[1..]| && a[1..][k] == x;
          assert Less(a[0], a[k + 1]) && x in a;
          LessIrreflexive(x);
        }
        if x in b[1..] {
          var k :| 0 <= k < |b[1..]| && b[1..][k] == x;
          assert Less(b[0], b[k + 1]) && x in b;
          LessIrreflexive(x);
        }
      }
      AscendingUnique(a[1..], b[1..]);
      assert a == [a[0]] + a[1..] && b == [b[0]] + b[1..];
    }
  }

  /** The de-duplicated, sorted form of a list: what Go's `uniqueSorted`
      returns. */
  function SortedUnique(xs: seq<string>): seq<string> {
    Sort(Dedup(xs))
  }

  /** `SortedUnique(xs)` is strictly ascending and has exactly the elements
      of `xs`; by `AscendingUnique` it is the only such list. */
  lemma SortedUniqueShape(xs: seq<string>)
    ensures StrictlyAscending(SortedUnique(xs))
    ensures forall x :: x in SortedUnique(xs) <==> x in xs
  {
    SortAscending(Dedup(xs));
    forall x ensures x in SortedUnique(xs) <==> x in xs {
      assert x in SortedUnique(xs) <==> x in multiset(Sort(Dedup(xs)));
    }
  }
}
