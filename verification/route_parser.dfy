/**
 * Reading an optimised route pasted as text: every line that starts with
 * digits and a colon names a delivery id, and the ids get positions 1, 2, …
 * in line order. Also the match statistics shown to the user and writing the
 * positions into the records.
 */
module RouteParser {
  import opened Text
  import opened Seqs
  import opened Values
  import opened Records

  /** `line.match(/^(\d+):/)` read with `parseInt(…, 10)`: the id a route line names, if any. */
  function LineRouteId(line: string): (r: Option<nat>)
    ensures r.Some? <==> |LeadingDigits(line)| > 0 && |LeadingDigits(line)| < |line| && line[|LeadingDigits(line)|] == ':'
    ensures r.Some? ==> r.value == ParseDecimal(LeadingDigits(line))
  {
    var d := LeadingDigits(line);
    if |d| > 0 && |d| < |line| && line[|d|] == ':' then Some(ParseDecimal(d)) else None
  }

  /** `/^\d+:/.test(line)`. */
  predicate IsRouteLine(line: string) {
    LineRouteId(line).Some?
  }

  /** The ids of the route lines, in line order, repeats included. */
  function MatchedIds(lines: seq<string>): (r: seq<nat>)
    ensures |r| <= |lines|
    decreases |lines|
  {
    if |lines| == 0 then []
    else
      (match LineRouteId(lines[0]) case Some(n) => [n] case None => []) + MatchedIds(lines[1..])
  }

  /** One id per route line: the counter of the parser advances exactly on the lines the validator accepts. */
  lemma {:induction false} MatchedIdsCount(lines: seq<string>)
    ensures |MatchedIds(lines)| == |Filter(lines, IsRouteLine)|
    decreases |lines|
  {
    if |lines| > 0 {
      MatchedIdsCount(lines[1..]);
    }
  }

  /** `r` numbers the ids of `m`: each id maps to the 1-based position of its last occurrence. */
  ghost predicate LastPositions(m: seq<nat>, r: map<nat, nat>) {
    && (forall k :: k in r <==> k in m)
    && (forall k :: k in r ==> 1 <= r[k] <= |m| && m[r[k] - 1] == k)
    && (forall k, j :: k in r && r[k] <= j < |m| ==> m[j] != k)
  }

  lemma LastPositionsStep(m: seq<nat>, prev: map<nat, nat>)
    requires |m| > 0 && LastPositions(m[..|m| - 1], prev)
    ensures LastPositions(m, prev[m[|m| - 1] := |m|])
  {
    var n := |m| - 1;
    assert forall k :: k in m <==> k in m[..n] || k == m[n] by {
      assert m == m[..n] + [m[n]];
    }
  }

  /** `sortOrders[id] = order++` over the matched ids. */
  function Positions(m: seq<nat>): (r: map<nat, nat>)
    ensures LastPositions(m, r)
    decreases |m|
  {
    if |m| == 0 then map[]
    else
      var prev := Positions(m[..|m| - 1]);
      LastPositionsStep(m, prev);
      prev[m[|m| - 1] := |m|]
  }

  /** The map has one key per distinct id. */
  lemma {:induction false} PositionsKeys(m: seq<nat>)
    ensures Positions(m).Keys == Elements(m)
  {
  }

  /** Without repeats every id gets exactly its own 1-based position. */
  lemma {:induction false} PositionsOfDistinct(m: seq<nat>, i: nat)
    requires Distinct(m) && i < |m|
    ensures m[i] in Positions(m) && Positions(m)[m[i]] == i + 1
  {
    var r := Positions(m);
    var j := r[m[i]] - 1;
    assert m[j] == m[i];
  }

  /** Without repeats there is one key per matched id. */
  lemma {:induction false} PositionsCountDistinct(m: seq<nat>)
    requires Distinct(m)
    ensures |Positions(m)| == |m|
  {
    PositionsKeys(m);
    ElementsCard(m);
    assert |Positions(m)| == |Positions(m).Keys|;
  }

  /** `parseOptimizedRoute`: split into lines, keep the route lines, number them. */
  function ParseOptimizedRoute(text: string): (r: map<nat, nat>)
    ensures LastPositions(MatchedIds(Split(text, '\n')), r)
  {
    Positions(MatchedIds(Split(text, '\n')))
  }

  /** The map has at most one key per route line, and every position lies between 1 and the number of route lines. */
  lemma {:induction false} ParseBounds(text: string)
    ensures var lines := Split(text, '\n');
            var r := ParseOptimizedRoute(text);
            && |r.Keys| <= |Filter(lines, IsRouteLine)|
            && forall k :: k in r ==> 1 <= r[k] <= |Filter(lines, IsRouteLine)|
  {
    var m := MatchedIds(Split(text, '\n'));
    MatchedIdsCount(Split(text, '\n'));
    PositionsKeys(m);
    ElementsCard(m);
  }

  /** The map is non-empty exactly when some line is a route line. */
  lemma {:induction false} ParseNonEmptyIff(text: string)
    ensures |ParseOptimizedRoute(text)| > 0 <==> |Filter(Split(text, '\n'), IsRouteLine)| > 0
  {
    var m := MatchedIds(Split(text, '\n'));
    MatchedIdsCount(Split(text, '\n'));
    if |m| > 0 {
      assert m[0] in Positions(m);
    }
  }

  /** A repeated id keeps the position of its later line, so positions can have gaps. */
  lemma {:induction false} RepeatKeepsLast(a: nat, b: nat)
    requires a != b
    ensures Positions([a, b, a]) == map[a := 3, b := 2]
  {
    var m := [a, b, a];
    var r := Positions(m);
    assert m[0] == a && m[1] == b && m[2] == a;
    assert r.Keys == {a, b};
  }

  /** `parseInt` drops leading zeros: "007:" names delivery 7. */
  lemma {:induction false} LeadingZerosCollapse(rest: string)
    ensures LineRouteId("007:" + rest) == Some(7)
  {
    LeadingDigitsOfDigitsThen("007", ":" + rest);
    assert "007:" + rest == "007" + (":" + rest);
    assert "007"[..2] == "00" && "00"[..1] == "0" && "0"[..0] == "";
    assert ParseDecimal("0") == 0;
    assert ParseDecimal("00") == 0;
  }

  /** The position map's key for a delivery: its id read as a property name, when that is an integer key. */
  function MatchedBy(orders: map<nat, nat>): Delivery -> bool {
    (d: Delivery) => RouteKey(d.id).Some? && RouteKey(d.id).value in orders
  }

  datatype MatchStats = MatchStats(totalInList: nat, matchedCount: nat, unmatchedCount: int)

  /** `calculateMatchStats`: keys in the route, deliveries the route positions, and the difference. */
  function CalculateMatchStats(deliveries: seq<Delivery>, orders: map<nat, nat>): (s: MatchStats)
    ensures s.totalInList == |orders|
    ensures s.matchedCount <= |deliveries|
    ensures s.unmatchedCount == s.totalInList - s.matchedCount
  {
    var matched := |Filter(deliveries, MatchedBy(orders))|;
    MatchStats(|orders|, matched, |orders| - matched)
  }

  /** Deliveries whose ids render differently. */
  predicate DistinctIds(deliveries: seq<Delivery>) {
    forall i, j :: 0 <= i < j < |deliveries| ==> IdString(deliveries[i].id) != IdString(deliveries[j].id)
  }

  /** With distinct delivery ids every route key matches at most one delivery, so the unmatched count is never negative. */
  lemma {:induction false} UnmatchedNonNegative(deliveries: seq<Delivery>, orders: map<nat, nat>)
    requires DistinctIds(deliveries)
    ensures CalculateMatchStats(deliveries, orders).unmatchedCount >= 0
  {
    MatchedInjective(deliveries, orders, orders.Keys);
  }

  lemma {:induction false} MatchedInjective(deliveries: seq<Delivery>, orders: map<nat, nat>, keys: set<nat>)
    requires DistinctIds(deliveries)
    requires forall i :: 0 <= i < |deliveries| && MatchedBy(orders)(deliveries[i]) ==> RouteKey(deliveries[i].id).value in keys
    ensures |Filter(deliveries, MatchedBy(orders))| <= |keys|
    decreases |deliveries|
  {
    if |deliveries| > 0 {
      var d := deliveries[0];
      var rest := deliveries[1..];
      assert DistinctIds(rest) by {
        forall i, j | 0 <= i < j < |rest| ensures IdString(rest[i].id) != IdString(rest[j].id) {
          assert rest[i] == deliveries[i + 1] && rest[j] == deliveries[j + 1];
        }
      }
      if MatchedBy(orders)(d) {
        var k := RouteKey(d.id).value;
        forall i | 0 <= i < |rest| && MatchedBy(orders)(rest[i])
          ensures RouteKey(rest[i].id).value in keys - {k}
        {
          assert rest[i] == deliveries[i + 1];
          assert IdString(rest[i].id) != IdString(d.id);
        }
        MatchedInjective(rest, orders, keys - {k});
      } else {
        forall i | 0 <= i < |rest| && MatchedBy(orders)(rest[i])
          ensures RouteKey(rest[i].id).value in keys
        {
          assert rest[i] == deliveries[i + 1];
        }
        MatchedInjective(rest, orders, keys);
      }
    }
  }

  /** `sortOrders[id] || null`: the position stored under the id's key, or null when absent or zero. */
  function SortFor(orders: map<nat, int>, id: JsId): (r: SortOrder)
    ensures r.Order? <==> RouteKey(id).Some? && RouteKey(id).value in orders && orders[RouteKey(id).value] != 0
    ensures r.Order? ==> r.position == orders[RouteKey(id).value]
    ensures !r.Order? ==> r == NullOrder
  {
    match RouteKey(id)
    case Some(k) => if k in orders && orders[k] != 0 then Order(orders[k]) else NullOrder
    case None => NullOrder
  }

  function WithSortFrom(orders: map<nat, int>): Delivery -> Delivery {
    (d: Delivery) => d.(sortOrder := SortFor(orders, d.id))
  }

  /** `applySortOrder`: same records in the same order, only `sortOrder` rewritten. */
  function ApplySortOrder(deliveries: seq<Delivery>, orders: map<nat, int>): (r: seq<Delivery>)
    ensures |r| == |deliveries|
    ensures forall i :: 0 <= i < |r| ==> r[i].(sortOrder := deliveries[i].sortOrder) == deliveries[i]
  {
    Map(WithSortFrom(orders), deliveries)
  }

  /** Widening the parsed positions to the general map type. */
  function AsOrders(positions: map<nat, nat>): map<nat, int> {
    map k | k in positions :: positions[k] as int
  }

  /**
   * Applying a parsed route: a delivery named by some route line gets that
   * line's position (never null, as positions start at 1); every other
   * delivery gets null.
   */
  lemma {:induction false} AppliedRoutePositions(deliveries: seq<Delivery>, text: string, i: nat)
    requires i < |deliveries|
    ensures var positions := ParseOptimizedRoute(text);
            var d := ApplySortOrder(deliveries, AsOrders(positions))[i];
            && (MatchedBy(positions)(deliveries[i]) ==> d.sortOrder == Order(positions[RouteKey(deliveries[i].id).value]))
            && (!MatchedBy(positions)(deliveries[i]) ==> d.sortOrder == NullOrder)
  {
  }

  predicate HasOrder(d: Delivery) {
    d.sortOrder.Order?
  }

  /**
   * The matched count is the number of records that receive a position when
   * the same route is applied: every position is at least 1, so no key maps
   * to the null that `|| null` makes of a zero.
   */
  lemma {:induction false} MatchedCountIsOrdered(deliveries: seq<Delivery>, positions: map<nat, nat>)
    requires forall k :: k in positions ==> positions[k] >= 1
    ensures CalculateMatchStats(deliveries, positions).matchedCount
            == |Filter(ApplySortOrder(deliveries, AsOrders(positions)), HasOrder)|
  {
    forall i | 0 <= i < |deliveries|
      ensures MatchedBy(positions)(deliveries[i]) == HasOrder(WithSortFrom(AsOrders(positions))(deliveries[i]))
    {
    }
    FilterMapCount(deliveries, WithSortFrom(AsOrders(positions)), HasOrder, MatchedBy(positions));
  }

  /** For a parsed route: matched deliveries are exactly those the applied route positions. */
  lemma {:induction false} ParsedMatchedCountIsOrdered(deliveries: seq<Delivery>, text: string)
    ensures var positions := ParseOptimizedRoute(text);
            CalculateMatchStats(deliveries, positions).matchedCount
            == |Filter(ApplySortOrder(deliveries, AsOrders(positions)), HasOrder)|
  {
    MatchedCountIsOrdered(deliveries, ParseOptimizedRoute(text));
  }
}
