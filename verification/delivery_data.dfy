/**
 * The stand-alone dashboard hook: the same bucket edits over the demo
 * buckets, plus adding a blank record under a fresh id.
 */
module DeliveryData {
  import opened Values
  import opened Records

  const OrangeCounty := "orange-county"
  const LosAngeles := "los-angeles"

  function DemoRecord(id: int, customer: string, address: string): Delivery {
    Delivery(Num(id), "", "", address, "", "", "", customer, NullOrder)
  }

  /** `INITIAL_DATA`: five demo records over the two Californian buckets. */
  function InitialData(): (b: Buckets)
    ensures b.Keys == {OrangeCounty, LosAngeles, OtherBucket}
    ensures |b[OrangeCounty]| == 3 && |b[LosAngeles]| == 2 && b[OtherBucket] == []
    ensures forall k, i :: k in b && 0 <= i < |b[k]| ==> b[k][i].sortOrder == NullOrder && b[k][i].id.Num?
  {
    map[
      OrangeCounty := [
        DemoRecord(1, "John Smith", "123 Main St, Irvine, CA 92618"),
        DemoRecord(2, "Mary Johnson", "456 Oak Ave, Anaheim, CA 92805"),
        DemoRecord(5, "Sarah Davis", "321 Beach Blvd, Huntington Beach, CA 92648")],
      LosAngeles := [
        DemoRecord(3, "Bob Wilson", "789 Pine St, Los Angeles, CA 90001"),
        DemoRecord(4, "Alice Brown", "159 Sunset Blvd, Los Angeles, CA 90026")],
      OtherBucket := []]
  }

  /** The hook's initial selection: empty, keyed by the demo buckets. */
  function InitialSelection(): (s: Selection)
    ensures s.Keys == InitialData().Keys
    ensures forall k :: k in s ==> s[k] == []
  {
    map[OrangeCounty := [], LosAngeles := [], OtherBucket := []]
  }

  /** Every record has a numeric id, as `Math.max` needs to produce a number. */
  predicate NumericIds(b: Buckets) {
    forall k, i :: k in b && 0 <= i < |b[k]| ==> b[k][i].id.Num?
  }

  /** The numeric ids across all buckets. */
  function AllIds(b: Buckets): set<int> {
    set k, i | k in b && 0 <= i < |b[k]| && b[k][i].id.Num? :: b[k][i].id.n
  }

  /** `allIds.length > 0 ? Math.max(...allIds) + 1 : 1`. */
  predicate IsNextId(b: Buckets, n: int) {
    (AllIds(b) == {} ==> n == 1) && (AllIds(b) != {} ==> n - 1 in AllIds(b) && forall x :: x in AllIds(b) ==> x < n)
  }

  /** The next id is determined by the buckets. */
  lemma {:induction false} NextIdUnique(b: Buckets, m: int, n: int)
    requires IsNextId(b, m) && IsNextId(b, n)
    ensures m == n
  {
    if AllIds(b) != {} {
      assert m - 1 < n && n - 1 < m;
    }
  }

  /** A set of integers with no element is the empty set. */
  lemma NoElementEmpty(s: set<int>)
    ensures (forall x :: x !in s) ==> s == {}
  {
    if forall x :: x !in s {
      assert s == {};
    }
  }

  /** The largest element of a non-empty finite set, by removing elements one at a time. */
  method MaxOf(s: set<int>) returns (m: int)
    requires s != {}
    ensures m in s && forall x :: x in s ==> x <= m
  {
    NoElementEmpty(s);
    var x :| x in s;
    m := x;
    var rest := s - {x};
    while rest != {}
      invariant rest <= s && m in s
      invariant forall y :: y in s && y !in rest ==> y <= m
      decreases |rest|
    {
      NoElementEmpty(rest);
      var y :| y in rest;
      if y > m {
        m := y;
      }
      rest := rest - {y};
    }
  }

  /** The placeholder record `handleAdd` creates. */
  function NewRecord(id: int): Delivery {
    Delivery(Num(id), "", "", "Enter address...", "", "", "", "New Customer " + NumText(id), NullOrder)
  }

  /**
   * `handleAdd`: a placeholder record under one more than the largest id in
   * any bucket (1 when there are none) is appended to the bucket. The id is
   * fresh: no record in any bucket has it.
   */
  method HandleAdd(b: Buckets, tab: string) returns (r: Buckets, newId: int)
    requires tab in b && NumericIds(b)
    ensures IsNextId(b, newId)
    ensures forall k, i :: k in b && 0 <= i < |b[k]| ==> b[k][i].id != Num(newId)
    ensures r.Keys == b.Keys && forall k :: k in b && k != tab ==> r[k] == b[k]
    ensures r[tab] == b[tab] + [NewRecord(newId)]
  {
    var ids := AllIds(b);
    if ids == {} {
      newId := 1;
    } else {
      var m := MaxOf(ids);
      newId := m + 1;
    }
    forall k, i | k in b && 0 <= i < |b[k]| ensures b[k][i].id != Num(newId) {
      assert b[k][i].id.n in ids;
    }
    r := b[tab := b[tab] + [NewRecord(newId)]];
  }

  /** On the demo data the next id is 6. */
  lemma NextIdOfInitialData(b: Buckets)
    requires b == InitialData()
    ensures IsNextId(b, 6)
  {
    var oc, la, ot := b[OrangeCounty], b[LosAngeles], b[OtherBucket];
    assert b.Keys == {OrangeCounty, LosAngeles, OtherBucket};
    assert |oc| == 3 && |la| == 2 && |ot| == 0;
    assert oc[0].id == Num(1) && oc[1].id == Num(2) && oc[2].id == Num(5);
    assert la[0].id == Num(3) && la[1].id == Num(4);
    forall x | x in AllIds(b) ensures x in {1, 2, 3, 4, 5} {
      var k, i :| k in b && 0 <= i < |b[k]| && b[k][i].id.Num? && b[k][i].id.n == x;
    }
    assert 5 in AllIds(b) by {
      assert OrangeCounty in b && b[OrangeCounty][2].id.n == 5;
    }
  }
}
