/**
 * The print page: on `INIT_PRINT` it resets the page, registers an
 * `invoiceReady` listener and creates one hidden invoice frame per delivery;
 * every frame that shows its invoice details signals once, and when the set
 * of signalled ids reaches the expected count the page prints.
 */
module PrintContent {
  import opened Text
  import opened Seqs
  import opened Values
  import opened Messages

  /** One invoice frame: its `src`, element id, `data-delivery-id` and `data-index`. */
  datatype Frame = Frame(src: string, elementId: string, deliveryId: string, index: nat)

  /**
   * The page's state: the expected count, the set of ready invoice ids, the
   * number of `invoiceReady` listeners registered on the document, the title,
   * the status line, the frames, and how many times printing was triggered.
   */
  datatype PrintPage = PrintPage(
    total: nat,
    ready: set<string>,
    listeners: nat,
    title: string,
    status: string,
    frames: seq<Frame>,
    printRuns: nat)

  /** The page as the script finds it when injected: module state fresh, no listener, nothing printed. */
  function InjectedPage(title: string): PrintPage {
    PrintPage(0, {}, 0, title, "", [], 0)
  }

  const InvoiceQuery :=
    "/Invoice?hidePrintFirstPageOnly=false&hideUnavailable=true&hideSkipReturnPolicy=true&hideBackordered=true&hideDeliverable=true"
  const AllLoadedStatus := "All invoices loaded! Printing..."

  function LoadingStatus(done: nat, total: nat): string {
    "Loading " + NumText(done) + " of " + NumText(total) + " invoices..."
  }

  /** The frame for the delivery at position `index`; ids become strings as template values and data attributes do. */
  function FrameFor(id: JsId, index: nat): (f: Frame)
    ensures f.deliveryId == IdString(id) && f.index == index
    ensures f.elementId == "invoice-" + f.deliveryId
    ensures f.src == "/Deliveries/" + f.deliveryId + InvoiceQuery
  {
    var key := IdString(id);
    Frame("/Deliveries/" + key + InvoiceQuery, "invoice-" + key, key, index)
  }

  /** Two frames share an element id exactly when their deliveries' ids print the same. */
  lemma {:induction false} FrameIdsShared(a: JsId, i: nat, b: JsId, j: nat)
    ensures FrameFor(a, i).elementId == FrameFor(b, j).elementId <==> IdString(a) == IdString(b)
  {
    var ea, eb := FrameFor(a, i).elementId, FrameFor(b, j).elementId;
    if ea == eb {
      assert IdString(a) == ea[|"invoice-"|..] && IdString(b) == eb[|"invoice-"|..];
    }
  }

  /**
   * The `INIT_PRINT` listener. A request without `deliveryIds` throws on
   * `.length` before anything changes. Otherwise the count is replaced, the
   * body (and with it every old frame) is cleared, one more listener is
   * registered, and the ready set, a module variable, is kept.
   */
  function OnInitPrint(page: PrintPage, request: PrintRequest): (p: PrintPage)
    ensures request.deliveryIds.None? ==> p == page
    ensures request.deliveryIds.Some? ==>
              var ids := request.deliveryIds.value;
              && p.total == |ids|
              && p.ready == page.ready
              && p.listeners == page.listeners + 1
              && p.printRuns == page.printRuns
              && p.title == Upper(request.tabName) + " - Merge Print"
              && p.status == LoadingStatus(0, |ids|)
              && |p.frames| == |ids|
              && (forall i :: 0 <= i < |ids| ==> p.frames[i].deliveryId == IdString(ids[i]) && p.frames[i].index == i)
              && (forall i :: 0 <= i < |ids| ==> p.frames[i] == FrameFor(ids[i], i))
              && (forall i :: 0 <= i < |ids| ==>
                    p.frames[i].src == "/Deliveries/" + IdString(ids[i]) + InvoiceQuery
                    && p.frames[i].elementId == "invoice-" + IdString(ids[i]))
  {
    match request.deliveryIds
    case None => page
    case Some(ids) =>
      PrintPage(
        |ids|,
        page.ready,
        page.listeners + 1,
        Upper(request.tabName) + " - Merge Print",
        LoadingStatus(0, |ids|),
        seq(|ids|, i requires 0 <= i < |ids| => FrameFor(ids[i], i)),
        page.printRuns)
  }

  /** One run of the `invoiceReady` listener: record the id, update the status, print when the count is reached. */
  function ListenerRun(page: PrintPage, invoiceId: string): (p: PrintPage)
    ensures p.ready == page.ready + {invoiceId}
    ensures p.printRuns == page.printRuns + (if |p.ready| == page.total then 1 else 0)
    ensures p.status == if |p.ready| == page.total then AllLoadedStatus else LoadingStatus(|p.ready|, page.total)
    ensures p.(ready := page.ready, status := page.status, printRuns := page.printRuns) == page
  {
    var ready := page.ready + {invoiceId};
    if |ready| == page.total then
      page.(ready := ready, status := AllLoadedStatus, printRuns := page.printRuns + 1)
    else
      page.(ready := ready, status := LoadingStatus(|ready|, page.total))
  }

  function RunListeners(page: PrintPage, invoiceId: string, k: nat): PrintPage
    decreases k
  {
    if k == 0 then page else RunListeners(ListenerRun(page, invoiceId), invoiceId, k - 1)
  }

  /** An `invoiceReady` event: every registered listener runs, in turn, on the same id. */
  function OnInvoiceReady(page: PrintPage, invoiceId: string): (p: PrintPage)
    ensures page.listeners == 0 ==> p == page
    ensures page.listeners > 0 ==> p.ready == page.ready + {invoiceId}
    ensures p.printRuns == page.printRuns + (if page.listeners > 0 && |page.ready + {invoiceId}| == page.total then page.listeners else 0)
    ensures p.total == page.total && p.listeners == page.listeners && p.frames == page.frames
  {
    RunListenersEffect(page, invoiceId, page.listeners);
    RunListeners(page, invoiceId, page.listeners)
  }

  /**
   * The effect of the listeners on one event: the id joins the ready set, and
   * if that brings the set to the expected count every listener prints.
   */
  lemma {:induction false} RunListenersEffect(page: PrintPage, invoiceId: string, k: nat)
    ensures var p := RunListeners(page, invoiceId, k);
            && p.ready == (if k == 0 then page.ready else page.ready + {invoiceId})
            && p.total == page.total && p.listeners == page.listeners && p.frames == page.frames
            && p.printRuns == page.printRuns + (if k > 0 && |page.ready + {invoiceId}| == page.total then k else 0)
    decreases k
  {
    if k > 0 {
      var q := ListenerRun(page, invoiceId);
      RunListenersEffect(q, invoiceId, k - 1);
      assert q.ready + {invoiceId} == q.ready;
    }
  }

  /** Events delivered in order. */
  function OnInvoicesReady(page: PrintPage, ids: seq<string>): PrintPage
    decreases |ids|
  {
    if |ids| == 0 then page else OnInvoicesReady(OnInvoiceReady(page, ids[0]), ids[1..])
  }

  /** After a run of events the ready set holds exactly the earlier ids and the signalled ones. */
  lemma {:induction false} ReadyAccumulates(page: PrintPage, ids: seq<string>)
    requires page.listeners > 0
    ensures var p := OnInvoicesReady(page, ids);
            p.ready == page.ready + Elements(ids) && p.total == page.total && p.listeners == page.listeners
            && p.printRuns >= page.printRuns
    decreases |ids|
  {
    if |ids| > 0 {
      RunListenersEffect(page, ids[0], page.listeners);
      ReadyAccumulates(OnInvoiceReady(page, ids[0]), ids[1..]);
      ElementsCons(ids);
    }
  }

  /**
   * When the ready set can only hold values from a universe of `total`
   * values, the page prints during a run of events exactly when the run is
   * non-empty and ends with every value of the universe ready.
   */
  lemma {:induction false} PrintsIffComplete(page: PrintPage, ids: seq<string>, universe: set<string>)
    requires page.listeners > 0
    requires |universe| == page.total
    requires page.ready <= universe && Elements(ids) <= universe
    ensures OnInvoicesReady(page, ids).printRuns > page.printRuns
            <==> |ids| > 0 && page.ready + Elements(ids) == universe
    decreases |ids|
  {
    if |ids| > 0 {
      var q := OnInvoiceReady(page, ids[0]);
      RunListenersEffect(page, ids[0], page.listeners);
      ElementsCons(ids);
      assert ids[0] in Elements(ids);
      var ready1 := page.ready + {ids[0]};
      assert ready1 <= universe;
      assert |ready1| == page.total <==> ready1 == universe by {
        if |ready1| == |universe| && ready1 != universe {
          var x :| x in universe && x !in ready1;
          assert |universe - {x}| == |universe| - 1;
          SubsetCard(ready1, universe - {x});
        }
      }
      ReadyAccumulates(q, ids[1..]);
      if |ids| > 1 {
        assert Elements(ids[1..]) <= universe;
        PrintsIffComplete(q, ids[1..], universe);
      }
    }
  }

  /** The ids the frames answer to. */
  function FrameKeys(ids: seq<JsId>): seq<string> {
    Map(IdString, ids)
  }

  /**
   * Right after `INIT_PRINT` on a freshly injected page, signals coming only
   * from its frames print the page exactly when every frame has signalled.
   */
  lemma {:induction false} PrintsOnceAllFramesSignal(title: string, tabName: string, ids: seq<JsId>, signals: seq<string>)
    requires Elements(signals) <= Elements(FrameKeys(ids))
    requires Distinct(FrameKeys(ids))
    ensures var p := OnInitPrint(InjectedPage(title), PrintRequest(tabName, Some(ids)));
            OnInvoicesReady(p, signals).printRuns > 0
            <==> |signals| > 0 && Elements(signals) == Elements(FrameKeys(ids))
  {
    var p := OnInitPrint(InjectedPage(title), PrintRequest(tabName, Some(ids)));
    ElementsCard(FrameKeys(ids));
    PrintsIffComplete(p, signals, Elements(FrameKeys(ids)));
  }

  /**
   * Two deliveries whose ids print the same (`7` and `"7"`, or a repeated id)
   * share one ready slot, so the count is never reached and the page never
   * prints.
   */
  lemma {:induction false} RepeatedIdNeverPrints(title: string, tabName: string, ids: seq<JsId>, signals: seq<string>)
    requires !Distinct(FrameKeys(ids))
    requires Elements(signals) <= Elements(FrameKeys(ids))
    ensures var p := OnInitPrint(InjectedPage(title), PrintRequest(tabName, Some(ids)));
            OnInvoicesReady(p, signals).printRuns == 0
  {
    var p := OnInitPrint(InjectedPage(title), PrintRequest(tabName, Some(ids)));
    ElementsCard(FrameKeys(ids));
    NeverReachesTotal(p, signals, Elements(FrameKeys(ids)));
  }

  /** If the ready set is confined to fewer values than the expected count, no event prints. */
  lemma {:induction false} NeverReachesTotal(page: PrintPage, ids: seq<string>, universe: set<string>)
    requires page.listeners > 0
    requires |universe| < page.total
    requires page.ready <= universe && Elements(ids) <= universe
    ensures OnInvoicesReady(page, ids).printRuns == page.printRuns
    decreases |ids|
  {
    if |ids| > 0 {
      RunListenersEffect(page, ids[0], page.listeners);
      ElementsCons(ids);
      assert ids[0] in Elements(ids);
      var ready1 := page.ready + {ids[0]};
      assert ready1 <= universe;
      assert |ready1| <= |universe| by { SubsetCard(ready1, universe); }
      NeverReachesTotal(OnInvoiceReady(page, ids[0]), ids[1..], universe);
    }
  }

  lemma SubsetCard(a: set<string>, b: set<string>)
    requires a <= b
    ensures |a| <= |b|
  {
    assert b == a + (b - a);
  }

  /**
   * The ready set and the first listener survive a second `INIT_PRINT`: once
   * every frame of a list has signalled, a repeated request for the same list
   * prints on its first signal, once per registered listener.
   */
  lemma {:induction false} ReinitPrintsOnFirstSignal(page: PrintPage, tabName: string, ids: seq<JsId>)
    requires |ids| > 0 && Distinct(FrameKeys(ids))
    requires page.ready == Elements(FrameKeys(ids)) && page.listeners == 1
    ensures var p := OnInitPrint(page, PrintRequest(tabName, Some(ids)));
            OnInvoiceReady(p, IdString(ids[0])).printRuns == page.printRuns + 2
  {
    var p := OnInitPrint(page, PrintRequest(tabName, Some(ids)));
    ElementsCard(FrameKeys(ids));
    assert IdString(ids[0]) == FrameKeys(ids)[0];
    assert p.ready + {IdString(ids[0])} == p.ready;
    RunListenersEffect(p, IdString(ids[0]), 2);
  }

  /**
   * The evidently intended count: the number of different ids the frames
   * answer to, which is what the ready set can reach.
   */
  function OnInitPrintCounted(page: PrintPage, request: PrintRequest): (p: PrintPage)
    ensures request.deliveryIds.None? ==> p == page
    ensures request.deliveryIds.Some? ==>
              && p.total == |Elements(FrameKeys(request.deliveryIds.value))|
              && p.total <= |request.deliveryIds.value|
              && p == OnInitPrint(page, request).(total := p.total)
  {
    match request.deliveryIds
    case None => page
    case Some(ids) =>
      ElementsCard(FrameKeys(ids));
      OnInitPrint(page, request).(total := |Elements(FrameKeys(ids))|)
  }

  /**
   * With the corrected count, repeated ids no longer matter: the page prints
   * exactly when every frame has signalled.
   */
  lemma {:induction false} CountedPrintsOnceAllFramesSignal(title: string, tabName: string, ids: seq<JsId>, signals: seq<string>)
    requires Elements(signals) <= Elements(FrameKeys(ids))
    ensures var p := OnInitPrintCounted(InjectedPage(title), PrintRequest(tabName, Some(ids)));
            OnInvoicesReady(p, signals).printRuns > 0
            <==> |signals| > 0 && Elements(signals) == Elements(FrameKeys(ids))
  {
    var p := OnInitPrintCounted(InjectedPage(title), PrintRequest(tabName, Some(ids)));
    PrintsIffComplete(p, signals, Elements(FrameKeys(ids)));
  }

  /** The counts agree whenever the ids render distinctly, so the correction changes nothing else. */
  lemma {:induction false} CountedAgreesOnDistinct(page: PrintPage, tabName: string, ids: seq<JsId>)
    requires Distinct(FrameKeys(ids))
    ensures OnInitPrintCounted(page, PrintRequest(tabName, Some(ids))) == OnInitPrint(page, PrintRequest(tabName, Some(ids)))
  {
    ElementsCard(FrameKeys(ids));
  }
}
