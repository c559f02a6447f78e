/**
 * The dashboard's link to the extension: a one-time request for the cached
 * data, and the listener for `DATA_UPDATED` and `GET_PRINT_ROUTE`.
 */
module ExtensionSync {
  import opened Values
  import opened Records
  import opened Messages
  import opened StorageService
  import opened PrintHandler

  /** `hasRequestedCache` and whether a message listener is currently registered. */
  datatype SyncState = SyncState(requested: bool, listening: bool)

  const InitialSync := SyncState(false, false)

  /**
   * One run of the hook's effect (on mount and whenever the active bucket
   * changes): outside an extension it does nothing; otherwise it requests the
   * cache unless it already did, and (re)registers the listener. The boolean
   * says whether `GET_CACHED_DATA` was sent by this run.
   */
  function SyncEffect(s: SyncState, inExtension: bool): (r: (SyncState, bool))
    ensures !inExtension ==> r == (s, false)
    ensures r.1 <==> inExtension && !s.requested
    ensures r.0.requested == (s.requested || inExtension)
    ensures inExtension ==> r.0.listening
  {
    if !inExtension then (s, false) else (SyncState(true, true), !s.requested)
  }

  /** Runs of the effect, with the number of cache requests they sent. */
  function SyncEffects(s: SyncState, runs: seq<bool>): (r: (SyncState, nat))
    decreases |runs|
  {
    if |runs| == 0 then (s, 0)
    else
      var (t, sent) := SyncEffect(s, runs[0]);
      var (u, n) := SyncEffects(t, runs[1..]);
      (u, n + if sent then 1 else 0)
  }

  /** However many times the effect runs, the cache is requested at most once, and once whenever some run is in an extension. */
  lemma {:induction false} CacheRequestedOnce(s: SyncState, runs: seq<bool>)
    ensures SyncEffects(s, runs).1 <= 1
    ensures SyncEffects(s, runs).1 == 1 <==> !s.requested && true in runs
    ensures s.requested ==> SyncEffects(s, runs).1 == 0
    decreases |runs|
  {
    if |runs| > 0 {
      var t := SyncEffect(s, runs[0]).0;
      CacheRequestedOnce(t, runs[1..]);
      assert runs == [runs[0]] + runs[1..];
    }
  }

  // The cache response is read with `StorageService.CachedDeliveries`: the
  // same `success && data` test, and the deliveries go to the loop-safe setter
  // (`DeliveryState.ExtensionUpdate`).

  /** What the listener does with one tab message. */
  datatype ListenerAction = ListenerAction(
    fromExtension: Option<Buckets>,   // passed to `setDeliveriesFromExtension`
    reply: Option<Response>,
    keepOpen: bool)

  function OnDashboardMessage(m: TabMessage, activeTab: string): (a: ListenerAction)
    ensures a.reply.Some? <==> m.DataUpdated? || m.GetPrintRoute?
    ensures a.keepOpen <==> a.reply.Some?
    ensures a.fromExtension.Some? <==> m.DataUpdated?
    ensures m.DataUpdated? ==> a.fromExtension == Some(m.envelope.deliveries) && a.reply == Some(Ok)
    ensures m.GetPrintRoute? ==> a.reply == Some(RouteLabel(activeTab))
  {
    match m
    case DataUpdated(envelope) => ListenerAction(Some(envelope.deliveries), Some(Ok), true)
    case GetPrintRoute => ListenerAction(None, Some(RouteLabel(activeTab)), true)
    case _ => ListenerAction(None, None, false)
  }

  /**
   * The `GET_PRINT_ROUTE` answer names the bucket but carries no ids, so
   * relaying it as a `PRINT_ROUTE` request is refused before any window opens.
   */
  method RelayPrintRoute(activeTab: string, env: PrintEnv) returns (r: PrintResult)
    ensures r == PrintResult(None, false, None, None, None, Failed(NothingToPrintError))
  {
    var answer := OnDashboardMessage(GetPrintRoute, activeTab).reply.value;
    r := HandlePrintRoute(PrintRequest(answer.tabName, None), env);
  }
}
