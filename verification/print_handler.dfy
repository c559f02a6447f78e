/**
 * The background worker's `PRINT_ROUTE` handler: refuse an empty list, open
 * the print window, poll its tab until it has loaded, inject the print
 * script and hand it the request.
 */
module PrintHandler {
  import opened Values
  import opened Messages

  const NothingToPrintError := "No deliveries to print"
  const PrintWindowUrl := "https://cm.chasunamallny.com/"
  const PollIntervalMs := 100
  const PollTimeoutMs := 10000

  /** The `chrome.windows.create` options: the page, the window type and its size. */
  datatype WindowRequest = WindowRequest(url: string, kind: string, width: int, height: int)

  /** The print window: a popup of 800 by 600 on the print site's home page. */
  const PrintWindow := WindowRequest(PrintWindowUrl, "popup", 800, 600)

  /** Polls that run before the timeout clears the interval. */
  const MaxPolls := PollTimeoutMs / PollIntervalMs

  /** One poll of the window's tabs: the first tab's id and whether its status is `complete`, or no tab. */
  datatype WindowTab = WindowTab(tabId: int, complete: bool)

  predicate ReadyPoll(poll: Option<WindowTab>) {
    poll.Some? && poll.value.complete
  }

  /**
   * What the browser does: the window creation's thrown error (if any), the
   * successive poll results, and the print-script injection's thrown error.
   */
  datatype PrintEnv = PrintEnv(
    windowError: Option<string>,
    polls: seq<Option<WindowTab>>,
    injectError: Option<string>)

  /**
   * The window creation asked for (if any), whether a window was opened,
   * where the script went, what was sent to it, and the response.
   */
  datatype PrintResult = PrintResult(
    created: Option<WindowRequest>,
    windowOpened: bool,
    injectedInto: Option<int>,
    sentTo: Option<int>,
    sent: Option<TabMessage>,
    reply: Response)

  /** Some poll before the timeout found tab `t` loaded. */
  predicate ReadyBeforeTimeout(polls: seq<Option<WindowTab>>, t: int) {
    exists j :: 0 <= j < |polls| && j < MaxPolls && ReadyPoll(polls[j]) && polls[j].value.tabId == t
  }

  /** Poll `k` is the one that stops the interval: ready, before the timeout, and no earlier poll was. */
  predicate FirstReadyAt(polls: seq<Option<WindowTab>>, k: nat) {
    k < MaxPolls && k < |polls| && ReadyPoll(polls[k]) && forall j :: 0 <= j < k ==> !ReadyPoll(polls[j])
  }

  /** Tab `t` is the one reported by the first ready poll. */
  ghost predicate FirstReadyTab(polls: seq<Option<WindowTab>>, t: int) {
    exists k: nat :: FirstReadyAt(polls, k) && polls[k].value.tabId == t
  }

  /** The request names at least one delivery (`deliveryIds` present and non-empty). */
  predicate HasDeliveries(request: PrintRequest) {
    request.deliveryIds.Some? && |request.deliveryIds.value| > 0
  }

  /** The poll that stops the interval: the first ready one among those run before the timeout. */
  method FirstReadyPoll(polls: seq<Option<WindowTab>>) returns (k: Option<nat>)
    ensures k.Some? ==> k.value < MaxPolls && k.value < |polls| && ReadyPoll(polls[k.value])
    ensures k.Some? ==> forall j :: 0 <= j < k.value ==> !ReadyPoll(polls[j])
    ensures k.None? ==> forall j :: 0 <= j < |polls| && j < MaxPolls ==> !ReadyPoll(polls[j])
  {
    var i := 0;
    while i < |polls| && i < MaxPolls
      invariant 0 <= i <= |polls|
      invariant i <= MaxPolls
      invariant forall j :: 0 <= j < i ==> !ReadyPoll(polls[j])
    {
      if ReadyPoll(polls[i]) {
        return Some(i);
      }
      i := i + 1;
    }
    return None;
  }

  /**
   * `handlePrintRoute` with `waitForTabAndInject`. The response is sent as
   * soon as polling is scheduled, so it does not depend on the polls or the
   * injection.
   */
  method HandlePrintRoute(request: PrintRequest, env: PrintEnv) returns (r: PrintResult)
    ensures r.reply == Ok <==> HasDeliveries(request) && env.windowError.None?
    ensures r.reply.Ok? || r.reply.Failed?
    ensures !HasDeliveries(request) ==> r == PrintResult(None, false, None, None, None, Failed(NothingToPrintError))
    ensures HasDeliveries(request) ==> r.created == Some(PrintWindow)
    ensures r.created.Some? ==> r.created.value.url == "https://cm.chasunamallny.com/" && r.created.value.kind == "popup"
    ensures r.windowOpened <==> r.reply == Ok
    ensures r.sent.Some? <==> r.injectedInto.Some?
    ensures r.sent.Some? ==> r.sent == Some(InitPrint(request)) && r.sentTo == r.injectedInto
    ensures r.injectedInto.Some? ==>
              r.windowOpened && env.injectError.None? && ReadyBeforeTimeout(env.polls, r.injectedInto.value)
    ensures r.injectedInto.Some? ==> FirstReadyTab(env.polls, r.injectedInto.value)
    ensures (r.windowOpened && env.injectError.None? && exists t :: ReadyBeforeTimeout(env.polls, t)) ==>
              r.injectedInto.Some?
  {
    if !HasDeliveries(request) {
      return PrintResult(None, false, None, None, None, Failed(NothingToPrintError));
    }
    if env.windowError.Some? {
      return PrintResult(Some(PrintWindow), false, None, None, None, Failed(env.windowError.value));
    }
    var k := FirstReadyPoll(env.polls);
    if k.None? || env.injectError.Some? {
      return PrintResult(Some(PrintWindow), true, None, None, None, Ok);
    }
    var tab := env.polls[k.value].value.tabId;
    assert FirstReadyAt(env.polls, k.value);
    return PrintResult(Some(PrintWindow), true, Some(tab), Some(tab), Some(InitPrint(PrintRequest(request.tabName, request.deliveryIds))), Ok);
  }
}
