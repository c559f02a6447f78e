/**
 * Order-preserving filtering and mapping of sequences (`Array.prototype.filter`
 * and `Array.prototype.map`) with the facts the rest of the model relies on.
 */
module Seqs {

  /** `s.filter(p)`: the elements satisfying `p`, in their original order. */
  function Filter<T(==)>(s: seq<T>, p: T -> bool): (r: seq<T>)
    ensures |r| <= |s|
    ensures forall i :: 0 <= i < |r| ==> p(r[i])
  {
    if |s| == 0 then [] else (if p(s[0]) then [s[0]] else []) + Filter(s[1..], p)
  }

  /** `s.map(f)`. */
  function Map<T, U>(f: T -> U, s: seq<T>): (r: seq<U>)
    ensures |r| == |s|
    ensures forall i :: 0 <= i < |s| ==> r[i] == f(s[i])
  {
    seq(|s|, i requires 0 <= i < |s| => f(s[i]))
  }

  /** An element is kept exactly when it occurs in the input and satisfies the predicate. */
  lemma {:induction false} FilterMembers<T>(s: seq<T>, p: T -> bool, x: T)
    ensures x in Filter(s, p) <==> x in s && p(x)
    decreases |s|
  {
    if |s| > 0 {
      FilterMembers(s[1..], p, x);
      assert s == [s[0]] + s[1..];
    }
  }

  lemma {:induction false} FilterAppend<T>(a: seq<T>, b: seq<T>, p: T -> bool)
    ensures Filter(a + b, p) == Filter(a, p) + Filter(b, p)
    decreases |a|
  {
    if |a| == 0 {
      assert a + b == b;
    } else {
      assert (a + b)[0] == a[0];
      assert (a + b)[1..] == a[1..] + b;
      FilterAppend(a[1..], b, p);
    }
  }

  lemma FilterSingle<T>(x: T, p: T -> bool)
    ensures Filter([x], p) == if p(x) then [x] else []
  {
    assert [x][1..] == [];
  }

  /** Filtering twice with the same predicate is filtering once. */
  lemma {:induction false} FilterIdempotent<T>(s: seq<T>, p: T -> bool)
    ensures Filter(Filter(s, p), p) == Filter(s, p)
    decreases |s|
  {
    if |s| > 0 {
      var head := if p(s[0]) then [s[0]] else [];
      FilterIdempotent(s[1..], p);
      FilterAppend(head, Filter(s[1..], p), p);
      FilterSingle(s[0], p);
    }
  }

  /** A predicate and its negation split a sequence: the two filters' lengths add up. */
  lemma {:induction false} FilterComplementCount<T>(s: seq<T>, p: T -> bool, q: T -> bool)
    requires forall i :: 0 <= i < |s| ==> q(s[i]) == !p(s[i])
    ensures |Filter(s, p)| + |Filter(s, q)| == |s|
    decreases |s|
  {
    if |s| > 0 {
      FilterComplementCount(s[1..], p, q);
    }
  }

  /** How many copies of `x` a filter keeps: all of them, or none. */
  lemma {:induction false} FilterMultiplicity<T>(s: seq<T>, p: T -> bool, x: T)
    ensures multiset(Filter(s, p))[x] == if p(x) then multiset(s)[x] else 0
    decreases |s|
  {
    if |s| > 0 {
      FilterMultiplicity(s[1..], p, x);
      assert s == [s[0]] + s[1..];
      assert multiset(s) == multiset([s[0]]) + multiset(s[1..]);
      var head := if p(s[0]) then [s[0]] else [];
      assert Filter(s, p) == head + Filter(s[1..], p);
      assert multiset(Filter(s, p)) == multiset(head) + multiset(Filter(s[1..], p));
    }
  }

  /** Multisets of two sequences that agree on every count are equal. */
  lemma MultisetExt<T>(a: seq<T>, b: seq<T>)
    requires forall x :: multiset(a)[x] == multiset(b)[x]
    ensures multiset(a) == multiset(b)
  {
  }

  /** Which elements a filter keeps, and how many times, does not depend on the order of its input. */
  lemma FilterPermutation<T>(a: seq<T>, b: seq<T>, p: T -> bool)
    requires multiset(a) == multiset(b)
    ensures multiset(Filter(a, p)) == multiset(Filter(b, p))
  {
    forall x ensures multiset(Filter(a, p))[x] == multiset(Filter(b, p))[x] {
      FilterMultiplicity(a, p, x);
      FilterMultiplicity(b, p, x);
      assert multiset(a)[x] == multiset(b)[x];
    }
    MultisetExt(Filter(a, p), Filter(b, p));
  }

  /** Filtering keeps the elements that satisfy the predicate with their multiplicities. */
  lemma FilterMultisetSub<T>(s: seq<T>, p: T -> bool)
    ensures multiset(Filter(s, p)) <= multiset(s)
  {
    forall x ensures multiset(Filter(s, p))[x] <= multiset(s)[x] {
      FilterMultiplicity(s, p, x);
    }
  }

  /** The two sides of a complementary split together hold exactly the input's elements. */
  lemma FilterSplitMultiset<T>(s: seq<T>, p: T -> bool, q: T -> bool)
    requires forall i :: 0 <= i < |s| ==> q(s[i]) == !p(s[i])
    ensures multiset(Filter(s, p)) + multiset(Filter(s, q)) == multiset(s)
  {
    var both := Filter(s, p) + Filter(s, q);
    forall x ensures multiset(both)[x] == multiset(s)[x] {
      FilterMultiplicity(s, p, x);
      FilterMultiplicity(s, q, x);
      if x in s {
        var i :| 0 <= i < |s| && s[i] == x;
        assert q(x) == !p(x);
      }
    }
    MultisetExt(both, s);
  }

  /** Filters with predicates that agree on the input give the same result. */
  lemma {:induction false} FilterExtensional<T>(s: seq<T>, p: T -> bool, q: T -> bool)
    requires forall i :: 0 <= i < |s| ==> p(s[i]) == q(s[i])
    ensures Filter(s, p) == Filter(s, q)
    decreases |s|
  {
    if |s| > 0 {
      FilterExtensional(s[1..], p, q);
    }
  }

  /** Filtering mapped elements counts the inputs whose image passes. */
  lemma {:induction false} FilterMapCount<T, U>(s: seq<T>, f: T -> U, p: U -> bool, q: T -> bool)
    requires forall i :: 0 <= i < |s| ==> q(s[i]) == p(f(s[i]))
    ensures |Filter(Map(f, s), p)| == |Filter(s, q)|
    decreases |s|
  {
    if |s| > 0 {
      assert Map(f, s)[1..] == Map(f, s[1..]);
      FilterMapCount(s[1..], f, p, q);
    }
  }

  lemma MapAppend<T, U>(f: T -> U, a: seq<T>, b: seq<T>)
    ensures Map(f, a + b) == Map(f, a) + Map(f, b)
  {
    assert forall i :: 0 <= i < |a + b| ==> Map(f, a + b)[i] == (Map(f, a) + Map(f, b))[i];
  }

  /** The predicate "`key` sends the element to `k`". */
  function KeyIs<T>(key: T -> string, k: string): T -> bool {
    x => key(x) == k
  }

  /**
   * `items.forEach(x => acc[key(x)].push(f(x)))`: every list gains the images
   * of exactly the elements with its key, in input order.
   */
  function PushAll<T(==), U>(acc: map<string, seq<U>>, items: seq<T>, key: T -> string, f: T -> U): (r: map<string, seq<U>>)
    requires forall i :: 0 <= i < |items| ==> key(items[i]) in acc
    ensures r.Keys == acc.Keys
    ensures forall k :: k in acc ==> r[k] == acc[k] + Map(f, Filter(items, KeyIs(key, k)))
    decreases |items|
  {
    if |items| == 0 then acc
    else
      var x := items[0];
      var r := PushAll(acc[key(x) := acc[key(x)] + [f(x)]], items[1..], key, f);
      assert forall k :: k in acc ==> r[k] == acc[k] + Map(f, Filter(items, KeyIs(key, k))) by {
        forall k | k in acc ensures r[k] == acc[k] + Map(f, Filter(items, KeyIs(key, k))) {
          PushStep(acc, items, key, f, k);
        }
      }
      r
  }

  lemma {:induction false} PushStep<T, U>(acc: map<string, seq<U>>, items: seq<T>, key: T -> string, f: T -> U, k: string)
    requires |items| > 0 && key(items[0]) in acc && k in acc
    ensures var x := items[0];
            acc[key(x) := acc[key(x)] + [f(x)]][k] + Map(f, Filter(items[1..], KeyIs(key, k)))
            == acc[k] + Map(f, Filter(items, KeyIs(key, k)))
  {
    var x := items[0];
    var head := if key(x) == k then [x] else [];
    MapAppend(f, head, Filter(items[1..], KeyIs(key, k)));
  }

  /** Grouping into fresh empty lists, one per key. */
  function GroupBy<T(==), U>(items: seq<T>, key: T -> string, f: T -> U, keys: set<string>): (r: map<string, seq<U>>)
    requires forall i :: 0 <= i < |items| ==> key(items[i]) in keys
    ensures r.Keys == keys
    ensures forall k :: k in keys ==> r[k] == Map(f, Filter(items, KeyIs(key, k)))
  {
    PushAll(map k | k in keys :: [], items, key, f)
  }

  /** An element with key `k` has its image in the list grouped under `k`. */
  lemma {:induction false} KeptImage<T, U>(items: seq<T>, key: T -> string, f: T -> U, i: nat, k: string)
    requires i < |items| && key(items[i]) == k
    ensures f(items[i]) in Map(f, Filter(items, KeyIs(key, k)))
  {
    var kept := Filter(items, KeyIs(key, k));
    FilterMembers(items, KeyIs(key, k), items[i]);
    var j :| 0 <= j < |kept| && kept[j] == items[i];
    assert Map(f, kept)[j] == f(items[i]);
  }

  /** When every element has one of three distinct keys, the three filters' lengths add up to the input's. */
  lemma {:induction false} PartitionSizes<T>(items: seq<T>, key: T -> string, a: string, b: string, c: string)
    requires a != b && b != c && a != c
    requires forall i :: 0 <= i < |items| ==> key(items[i]) == a || key(items[i]) == b || key(items[i]) == c
    ensures |Filter(items, KeyIs(key, a))| + |Filter(items, KeyIs(key, b))| + |Filter(items, KeyIs(key, c))| == |items|
    decreases |items|
  {
    if |items| > 0 {
      PartitionSizes(items[1..], key, a, b, c);
    }
  }

  /** `a` is obtained from `b` by deleting elements: order kept, nothing added. */
  predicate IsSubsequence<T(==)>(a: seq<T>, b: seq<T>)
    decreases |b|
  {
    if |a| == 0 then true
    else if |b| == 0 then false
    else (a[0] == b[0] && IsSubsequence(a[1..], b[1..])) || IsSubsequence(a, b[1..])
  }

  /** A filter's output is a subsequence of its input. */
  lemma {:induction false} FilterSubsequence<T>(s: seq<T>, p: T -> bool)
    ensures IsSubsequence(Filter(s, p), s)
    decreases |s|
  {
    if |s| > 0 {
      FilterSubsequence(s[1..], p);
      var r := Filter(s, p);
      if p(s[0]) {
        assert r == [s[0]] + Filter(s[1..], p);
        assert r[0] == s[0] && r[1..] == Filter(s[1..], p);
        assert IsSubsequence(r[1..], s[1..]);
      } else {
        assert r == Filter(s[1..], p);
      }
    }
  }

  predicate Distinct<T(==)>(s: seq<T>) {
    forall i, j :: 0 <= i < j < |s| ==> s[i] != s[j]
  }

  /** Filtering a sequence without repeats yields one without repeats. */
  lemma {:induction false} FilterDistinct<T>(s: seq<T>, p: T -> bool)
    requires Distinct(s)
    ensures Distinct(Filter(s, p))
    decreases |s|
  {
    if |s| > 0 {
      var rest := Filter(s[1..], p);
      assert Distinct(s[1..]) by {
        forall i, j | 0 <= i < j < |s[1..]| ensures s[1..][i] != s[1..][j] {
          assert s[1..][i] == s[i + 1] && s[1..][j] == s[j + 1];
        }
      }
      FilterDistinct(s[1..], p);
      if p(s[0]) {
        FilterMembers(s[1..], p, s[0]);
        assert Filter(s, p) == [s[0]] + rest;
      } else {
        assert Filter(s, p) == rest;
      }
    }
  }

  /** The set of values a sequence holds. */
  function Elements<T>(s: seq<T>): set<T> {
    set x | x in s
  }

  lemma {:induction false} ElementsCons<T>(s: seq<T>)
    requires |s| > 0
    ensures Elements(s) == {s[0]} + Elements(s[1..])
  {
    assert s == [s[0]] + s[1..];
  }

  /** A sequence has at most as many distinct values as elements, and as many exactly when no value repeats. */
  lemma {:induction false} ElementsCard<T>(s: seq<T>)
    ensures |Elements(s)| <= |s|
    ensures |Elements(s)| == |s| <==> Distinct(s)
    decreases |s|
  {
    if |s| > 0 {
      ElementsCard(s[1..]);
      ElementsCons(s);
      if s[0] in s[1..] {
        assert Elements(s) == Elements(s[1..]);
        var j :| 0 <= j < |s[1..]| && s[1..][j] == s[0];
        assert s[j + 1] == s[0];
      } else {
        assert s[0] !in Elements(s[1..]);
        if Distinct(s[1..]) {
          forall i, j | 0 <= i < j < |s| ensures s[i] != s[j] {
            if i > 0 {
              assert s[i] == s[1..][i - 1] && s[j] == s[1..][j - 1];
            } else {
              assert s[j] == s[1..][j - 1];
            }
          }
        } else {
          var i, j :| 0 <= i < j < |s[1..]| && s[1..][i] == s[1..][j];
          assert s[i + 1] == s[j + 1];
        }
      }
    }
  }
}
