/**
 * Formatting a bucket for the clipboard as route text, one `id: address`
 * line per delivery, and the round trip back through the route parser.
 */
module Clipboard {
  import opened Text
  import opened Seqs
  import opened Values
  import opened Records
  import opened RouteParser

  /** `${d.id}: ${d.address}`. */
  function RouteLine(d: Delivery): string {
    IdString(d.id) + ": " + d.address
  }

  /** `formatRouteForClipboard`: the route lines joined with newlines; an empty list gives "". */
  function FormatRouteForClipboard(deliveries: seq<Delivery>): (text: string)
    ensures |deliveries| == 0 ==> text == ""
  {
    Join(Map(RouteLine, deliveries), "\n")
  }

  /** A delivery the round trip is stated for: a non-negative integer id and a one-line address. */
  predicate Plain(d: Delivery) {
    d.id.Num? && d.id.n >= 0 && '\n' !in d.address
  }

  lemma {:induction false} RouteLineShape(d: Delivery)
    requires Plain(d)
    ensures LineRouteId(RouteLine(d)) == Some(d.id.n)
    ensures '\n' !in RouteLine(d)
  {
    var digits := DecimalString(d.id.n);
    var rest := ": " + d.address;
    assert RouteLine(d) == digits + rest;
    LeadingDigitsOfDigitsThen(digits, rest);
    ParseDecimalString(d.id.n);
  }

  /** Every line of the formatted text passes the validator's `^\d+:` test. */
  lemma {:induction false} FormattedLinesValid(deliveries: seq<Delivery>, i: nat)
    requires i < |deliveries| && Plain(deliveries[i])
    ensures IsRouteLine(Map(RouteLine, deliveries)[i])
  {
    RouteLineShape(deliveries[i]);
  }

  lemma {:induction false} MatchedIdsAll(lines: seq<string>)
    requires forall i :: 0 <= i < |lines| ==> IsRouteLine(lines[i])
    ensures |MatchedIds(lines)| == |lines|
    ensures forall i :: 0 <= i < |lines| ==> LineRouteId(lines[i]) == Some(MatchedIds(lines)[i])
    decreases |lines|
  {
    if |lines| > 0 {
      MatchedIdsAll(lines[1..]);
      var head := LineRouteId(lines[0]).value;
      assert MatchedIds(lines) == [head] + MatchedIds(lines[1..]);
    }
  }

  /** The id a plain delivery's route line names. */
  function RouteId(d: Delivery): nat {
    if d.id.Num? && d.id.n >= 0 then d.id.n else 0
  }

  lemma {:induction false} SplitFormatted(deliveries: seq<Delivery>)
    requires |deliveries| > 0
    requires forall i :: 0 <= i < |deliveries| ==> Plain(deliveries[i])
    ensures Split(FormatRouteForClipboard(deliveries), '\n') == Map(RouteLine, deliveries)
  {
    var lines := Map(RouteLine, deliveries);
    forall i | 0 <= i < |lines| ensures '\n' !in lines[i] {
      RouteLineShape(deliveries[i]);
    }
    assert "\n" == ['\n'];
    SplitJoin(lines, '\n');
  }

  lemma {:induction false} MatchedFormatted(deliveries: seq<Delivery>)
    requires forall i :: 0 <= i < |deliveries| ==> Plain(deliveries[i])
    ensures MatchedIds(Map(RouteLine, deliveries)) == Map(RouteId, deliveries)
  {
    var lines := Map(RouteLine, deliveries);
    forall i | 0 <= i < |lines| ensures LineRouteId(lines[i]) == Some(RouteId(deliveries[i])) {
      RouteLineShape(deliveries[i]);
    }
    MatchedIdsAll(lines);
  }

  /** `r` maps exactly the ids of `deliveries`, each to its 1-based position in the list. */
  predicate ListPositions(r: map<nat, nat>, deliveries: seq<Delivery>) {
    && |r| == |deliveries|
    && forall i :: 0 <= i < |deliveries| ==> RouteId(deliveries[i]) in r && r[RouteId(deliveries[i])] == i + 1
  }

  lemma FormatNothing()
    ensures ParseOptimizedRoute(FormatRouteForClipboard([])) == map[]
  {
    assert Split("", '\n') == [""];
    assert LineRouteId("") == None;
    assert MatchedIds([""]) == [];
  }

  lemma {:induction false} RouteIdsDistinct(deliveries: seq<Delivery>)
    requires forall i :: 0 <= i < |deliveries| ==> Plain(deliveries[i])
    requires DistinctIds(deliveries)
    ensures Distinct(Map(RouteId, deliveries))
  {
    var m := Map(RouteId, deliveries);
    forall i, j | 0 <= i < j < |m| ensures m[i] != m[j] {
      assert IdString(deliveries[i].id) != IdString(deliveries[j].id);
    }
  }

  lemma {:induction false} DistinctPositions(deliveries: seq<Delivery>)
    requires Distinct(Map(RouteId, deliveries))
    ensures ListPositions(Positions(Map(RouteId, deliveries)), deliveries)
  {
    var m := Map(RouteId, deliveries);
    var r := Positions(m);
    PositionsCountDistinct(m);
    forall i | 0 <= i < |deliveries| ensures RouteId(deliveries[i]) in r && r[RouteId(deliveries[i])] == i + 1 {
      assert m[i] == RouteId(deliveries[i]);
      PositionsOfDistinct(m, i);
    }
  }

  /**
   * Round trip: for deliveries with distinct non-negative integer ids and
   * one-line addresses, parsing the formatted text gives every delivery its
   * 1-based position in the list, and names no other id.
   */
  lemma {:induction false} FormatThenParse(deliveries: seq<Delivery>)
    requires forall i :: 0 <= i < |deliveries| ==> Plain(deliveries[i])
    requires DistinctIds(deliveries)
    ensures ListPositions(ParseOptimizedRoute(FormatRouteForClipboard(deliveries)), deliveries)
  {
    if |deliveries| == 0 {
      FormatNothing();
    } else {
      SplitFormatted(deliveries);
      MatchedFormatted(deliveries);
      RouteIdsDistinct(deliveries);
      DistinctPositions(deliveries);
    }
  }
}
