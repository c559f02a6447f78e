/**
 * The route optimizer's state: one pasted route text per tab, and applying a
 * pasted route to a tab's deliveries.
 */
module RouteOptimizer {
  import opened Values
  import opened Records
  import opened RouteParser
  import DeliveryActions

  /** The route text typed into the optimizer, per tab key. */
  type RouteTexts = map<string, string>

  const OrangeCountyTab := "orange-county"
  const LosAngelesTab := "los-angeles"
  const OtherTab := "other"

  /** Every tab starts with an empty route text. */
  function InitialRouteTexts(): (t: RouteTexts)
    ensures t.Keys == {OrangeCountyTab, LosAngelesTab, OtherTab}
    ensures forall k :: k in t ==> t[k] == ""
  {
    map[OrangeCountyTab := "", LosAngelesTab := "", OtherTab := ""]
  }

  /** `updateRouteText`: the tab's text is replaced, every other tab's text is kept. */
  function UpdateRouteText(texts: RouteTexts, tab: string, text: string): (r: RouteTexts)
    ensures r.Keys == texts.Keys + {tab}
    ensures r[tab] == text
    ensures forall k :: k in texts && k != tab ==> r[k] == texts[k]
  {
    texts[tab := text]
  }

  /** `applyOptimizedRoute`: parse the text and hand the positions to the sort-order action. */
  function ApplyOptimizedRoute(b: Buckets, tab: string, text: string): (r: Buckets)
    requires tab in b
    ensures r.Keys == b.Keys
    ensures forall k :: k in b && k != tab ==> r[k] == b[k]
    ensures |r[tab]| == |b[tab]|
  {
    DeliveryActions.ApplySortOrder(b, tab, AsOrders(ParseOptimizedRoute(text)))
  }

  /**
   * After applying a route, each record of the tab keeps everything but its
   * sort order, which is its route position when its id is on a route line,
   * and null otherwise.
   */
  lemma {:induction false} AppliedPositions(b: Buckets, tab: string, text: string, i: nat)
    requires tab in b && i < |b[tab]|
    ensures var positions := ParseOptimizedRoute(text);
            var d := b[tab][i];
            var e := ApplyOptimizedRoute(b, tab, text)[tab][i];
            && e.(sortOrder := d.sortOrder) == d
            && (MatchedBy(positions)(d) ==> e.sortOrder == Order(positions[RouteKey(d.id).value]))
            && (!MatchedBy(positions)(d) ==> e.sortOrder == NullOrder)
  {
    AppliedRoutePositions(b[tab], text, i);
  }

  /** Positions do not accumulate: applying a second route discards everything the first one set. */
  lemma {:induction false} LastRouteWins(b: Buckets, tab: string, first: string, second: string)
    requires tab in b
    ensures ApplyOptimizedRoute(ApplyOptimizedRoute(b, tab, first), tab, second) == ApplyOptimizedRoute(b, tab, second)
  {
    var once := ApplyOptimizedRoute(b, tab, first);
    var twice := ApplyOptimizedRoute(once, tab, second);
    var direct := ApplyOptimizedRoute(b, tab, second);
    forall i | 0 <= i < |b[tab]| ensures twice[tab][i] == direct[tab][i] {
      AppliedPositions(b, tab, first, i);
      AppliedPositions(once, tab, second, i);
      AppliedPositions(b, tab, second, i);
    }
    assert twice[tab] == direct[tab];
  }
}
