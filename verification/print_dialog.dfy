/**
 * The print dialog: "print all" and "print selected" both sort the chosen
 * deliveries into route order, send their ids, and close the dialog when
 * the request went out.
 */
module PrintDialog {
  import opened Text
  import opened Seqs
  import opened Values
  import opened Records
  import opened Messages
  import opened PrintService
  import DeliveryActions
  import PrintHandler

  /** What the page offers the dialog: the extension API, and whether sending throws. */
  datatype Runtime = Runtime(hasRuntime: bool, sendThrows: Option<string>)

  /** Whether `onClose` ran, and what `openPrintWindow` did. */
  datatype DialogResult = DialogResult(closed: bool, call: PrintCall)

  /** The ids of the chosen deliveries, in print order. */
  function PrintIds(chosen: seq<Delivery>): (ids: seq<JsId>)
    ensures |ids| == |chosen|
    ensures multiset(ids) == multiset(Map(DeliveryActions.IdOf, chosen))
  {
    SortByMapPermutes(PrintCompare, DeliveryActions.IdOf, chosen);
    Map(DeliveryActions.IdOf, SortDeliveriesForPrint(chosen))
  }

  function PrintChosen(chosen: seq<Delivery>, tab: string, rt: Runtime): (r: DialogResult)
    ensures r.closed <==> r.call.ok
    ensures r.closed <==> |chosen| > 0 && rt.hasRuntime && rt.sendThrows.None?
    ensures r.closed ==> r.call.sent == Some(PrintRoute(PrintRequest(tab, Some(PrintIds(chosen)))))
  {
    var call := OpenPrintWindow(Some(PrintIds(chosen)), tab, rt.hasRuntime, rt.sendThrows);
    DialogResult(call.ok, call)
  }

  /** `handlePrintAll`: every delivery of the tab. */
  function PrintAll(deliveries: seq<Delivery>, tab: string, rt: Runtime): (r: DialogResult)
    ensures r.closed <==> |deliveries| > 0 && rt.hasRuntime && rt.sendThrows.None?
    ensures r.closed ==> r.call.sent == Some(PrintRoute(PrintRequest(tab, Some(PrintIds(deliveries)))))
  {
    PrintChosen(deliveries, tab, rt)
  }

  /** `handlePrintSelected`: the tab's deliveries whose id is selected. */
  function PrintSelected(deliveries: seq<Delivery>, selectedIds: seq<JsId>, tab: string, rt: Runtime): (r: DialogResult)
    ensures r.closed ==> rt.hasRuntime && rt.sendThrows.None?
    ensures r.closed <==>
              |Filter(deliveries, DeliveryActions.Listed(selectedIds))| > 0 && rt.hasRuntime && rt.sendThrows.None?
    ensures r.closed ==>
              r.call.sent == Some(PrintRoute(PrintRequest(tab, Some(PrintIds(Filter(deliveries, DeliveryActions.Listed(selectedIds)))))))
  {
    PrintChosen(Filter(deliveries, DeliveryActions.Listed(selectedIds)), tab, rt)
  }

  /**
   * The sent ids are the chosen deliveries' ids in route order: positioned
   * deliveries by position, then the rest, each group in table order.
   */
  lemma {:induction false} SentIdsInRouteOrder(chosen: seq<Delivery>, tab: string, rt: Runtime)
    requires PrintChosen(chosen, tab, rt).closed
    ensures exists sorted: seq<Delivery> ::
              && PrintChosen(chosen, tab, rt).call.sent == Some(PrintRoute(PrintRequest(tab, Some(Map(DeliveryActions.IdOf, sorted)))))
              && PrintSorted(sorted)
              && multiset(sorted) == multiset(chosen)
              && (forall rank :: Filter(sorted, HasRank(rank)) == Filter(chosen, HasRank(rank)))
  {
    var sorted := SortDeliveriesForPrint(chosen);
    PrintSortSorted(chosen);
    SortByPermutes(PrintCompare, chosen);
    forall rank ensures Filter(sorted, HasRank(rank)) == Filter(chosen, HasRank(rank)) {
      PrintSortStable(chosen, rank);
    }
  }

  /** "Print selected" closes the dialog exactly when some delivery of the tab is selected and the request goes out. */
  lemma {:induction false} ClosesIffSomeSelected(deliveries: seq<Delivery>, selectedIds: seq<JsId>, tab: string, rt: Runtime)
    ensures PrintSelected(deliveries, selectedIds, tab, rt).closed
            <==> (exists d :: d in deliveries && d.id in selectedIds) && rt.hasRuntime && rt.sendThrows.None?
  {
    var chosen := Filter(deliveries, DeliveryActions.Listed(selectedIds));
    if exists d :: d in deliveries && d.id in selectedIds {
      var d :| d in deliveries && d.id in selectedIds;
      FilterMembers(deliveries, DeliveryActions.Listed(selectedIds), d);
    }
    if |chosen| > 0 {
      FilterMembers(deliveries, DeliveryActions.Listed(selectedIds), chosen[0]);
    }
  }

  /** Every id "print selected" sends is selected and belongs to a delivery of the tab. */
  lemma {:induction false} PrintsOnlySelected(deliveries: seq<Delivery>, selectedIds: seq<JsId>, tab: string, rt: Runtime)
    requires PrintSelected(deliveries, selectedIds, tab, rt).closed
    ensures forall x :: x in PrintSelected(deliveries, selectedIds, tab, rt).call.sent.value.request.deliveryIds.value ==>
              x in selectedIds && exists d :: d in deliveries && d.id == x
  {
    var chosen := Filter(deliveries, DeliveryActions.Listed(selectedIds));
    var ids := PrintIds(chosen);
    assert PrintSelected(deliveries, selectedIds, tab, rt).call.sent.value.request.deliveryIds.value == ids;
    forall x | x in ids ensures x in selectedIds && exists d :: d in deliveries && d.id == x {
      assert x in multiset(Map(DeliveryActions.IdOf, chosen));
      var j :| 0 <= j < |chosen| && Map(DeliveryActions.IdOf, chosen)[j] == x;
      FilterMembers(deliveries, DeliveryActions.Listed(selectedIds), chosen[j]);
    }
  }

  /** Selecting every id of the tab prints exactly what "print all" prints. */
  lemma {:induction false} SelectAllIsPrintAll(deliveries: seq<Delivery>, selectedIds: seq<JsId>, tab: string, rt: Runtime)
    requires forall i :: 0 <= i < |deliveries| ==> deliveries[i].id in selectedIds
    ensures PrintSelected(deliveries, selectedIds, tab, rt) == PrintAll(deliveries, tab, rt)
  {
    FilterExtensional(deliveries, DeliveryActions.Listed(selectedIds), (d: Delivery) => true);
    FilterAll(deliveries);
  }

  lemma {:induction false} FilterAll(s: seq<Delivery>)
    ensures Filter(s, (d: Delivery) => true) == s
    decreases |s|
  {
    if |s| > 0 {
      FilterAll(s[1..]);
    }
  }

  /** A request the dialog sends always passes the background worker's "nothing to print" guard. */
  lemma {:induction false} SentRequestHasDeliveries(chosen: seq<Delivery>, tab: string, rt: Runtime)
    requires PrintChosen(chosen, tab, rt).closed
    ensures PrintChosen(chosen, tab, rt).call.sent.value.PrintRoute?
    ensures PrintHandler.HasDeliveries(PrintChosen(chosen, tab, rt).call.sent.value.request)
  {
  }
}
