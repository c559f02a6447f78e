/**
 * The background worker's storage handlers: one persisted envelope under a
 * single key, and `DATA_UPDATED` broadcasts to the open dashboard tabs after
 * every successful write.
 */
module DataStorage {
  import opened Seqs
  import opened Values
  import opened Records
  import opened Messages

  /** The extension's local storage under the data key: an envelope, or nothing (`null`). */
  type Store = Option<Envelope>

  /** The dashboard-tab query: the tab ids in query order, or a thrown error. */
  datatype TabQuery = UiTabs(ids: seq<int>) | QueryFailed(message: string)

  /**
   * What the browser does during one handler run: the storage call's thrown
   * error (if any), the current ISO timestamp, the dashboard-tab query, and the
   * tabs whose `sendMessage` throws.
   */
  datatype StorageEnv = StorageEnv(
    storageError: Option<string>,
    timestamp: string,
    uiTabs: TabQuery,
    unreachable: set<int>)

  /** One delivered tab message. */
  datatype Notification = Notification(tab: int, message: TabMessage)

  /** The store afterwards, the notifications delivered, and the response. */
  datatype StorageResult = StorageResult(store: Store, sent: seq<Notification>, reply: Response)

  function Reachable(unreachable: set<int>): int -> bool {
    t => t !in unreachable
  }

  function NotifyTab(data: Envelope): int -> Notification {
    t => Notification(t, DataUpdated(data))
  }

  /**
   * `notifyUIPages`: one `DATA_UPDATED` per dashboard tab in query order; a
   * tab that throws is skipped and a failed query sends nothing. It never fails.
   */
  function NotifyUIPages(env: StorageEnv, data: Envelope): (sent: seq<Notification>)
    ensures |sent| <= if env.uiTabs.UiTabs? then |env.uiTabs.ids| else 0
    ensures forall i :: 0 <= i < |sent| ==> sent[i].message == DataUpdated(data)
  {
    match env.uiTabs
    case QueryFailed(_) => []
    case UiTabs(ids) => Map(NotifyTab(data), Filter(ids, Reachable(env.unreachable)))
  }

  /** A tab is notified exactly when the query listed it and it accepted the message. */
  lemma {:induction false} NotifiedExactly(env: StorageEnv, data: Envelope, tab: int)
    ensures Notification(tab, DataUpdated(data)) in NotifyUIPages(env, data)
            <==> env.uiTabs.UiTabs? && tab in env.uiTabs.ids && tab !in env.unreachable
  {
    if env.uiTabs.UiTabs? {
      var kept := Filter(env.uiTabs.ids, Reachable(env.unreachable));
      FilterMembers(env.uiTabs.ids, Reachable(env.unreachable), tab);
      if tab in kept {
        var j :| 0 <= j < |kept| && kept[j] == tab;
        assert Map(NotifyTab(data), kept)[j] == Notification(tab, DataUpdated(data));
      }
      if Notification(tab, DataUpdated(data)) in Map(NotifyTab(data), kept) {
        var j :| 0 <= j < |kept| && Map(NotifyTab(data), kept)[j] == Notification(tab, DataUpdated(data));
        assert kept[j] == tab;
      }
    }
  }

  function TabOf(n: Notification): int {
    n.tab
  }

  /**
   * The notified tabs are the listed, reachable ones in query order; when the
   * query lists each tab once, no tab is notified twice.
   */
  lemma {:induction false} NotifiedInQueryOrder(env: StorageEnv, data: Envelope)
    ensures env.uiTabs.UiTabs? ==>
              Map(TabOf, NotifyUIPages(env, data)) == Filter(env.uiTabs.ids, Reachable(env.unreachable))
              && IsSubsequence(Map(TabOf, NotifyUIPages(env, data)), env.uiTabs.ids)
    ensures env.uiTabs.UiTabs? && Distinct(env.uiTabs.ids) ==> Distinct(Map(TabOf, NotifyUIPages(env, data)))
    ensures env.uiTabs.QueryFailed? ==> NotifyUIPages(env, data) == []
  {
    if env.uiTabs.UiTabs? {
      var kept := Filter(env.uiTabs.ids, Reachable(env.unreachable));
      assert Map(TabOf, NotifyUIPages(env, data)) == kept;
      FilterSubsequence(env.uiTabs.ids, Reachable(env.unreachable));
      if Distinct(env.uiTabs.ids) {
        FilterDistinct(env.uiTabs.ids, Reachable(env.unreachable));
      }
    }
  }

  /**
   * `saveData`: the envelope is stored verbatim; only a successful write is
   * broadcast, so a failure cannot start a save/notify loop.
   */
  function SaveData(store: Store, data: Envelope, env: StorageEnv): (r: StorageResult)
    ensures r.reply == Ok <==> env.storageError.None?
    ensures r.reply == Ok ==> r.store == Some(data) && r.sent == NotifyUIPages(env, data)
    ensures r.reply != Ok ==> r.store == store && r.sent == [] && r.reply == Failed(env.storageError.value)
  {
    match env.storageError
    case Some(e) => StorageResult(store, [], Failed(e))
    case None => StorageResult(Some(data), NotifyUIPages(env, data), Ok)
  }

  /** `handleExtractedData`: wraps freshly extracted buckets in a version-1 envelope, stores and broadcasts it. */
  function HandleExtractedData(store: Store, data: Buckets, env: StorageEnv): (r: StorageResult)
    ensures r.reply == Ok <==> env.storageError.None?
    ensures r.reply == Ok ==> r.store.Some? && r.store.value.version == StorageVersion
                              && r.store.value.deliveries == data && r.store.value.timestamp == env.timestamp
    ensures r.reply != Ok ==> r.store == store && r.sent == []
  {
    var envelope := NewEnvelope(env.timestamp, data);
    match env.storageError
    case Some(e) => StorageResult(store, [], Failed(e))
    case None => StorageResult(Some(envelope), NotifyUIPages(env, envelope), Ok)
  }

  /** Storing extracted data is saving the envelope built from it. */
  lemma {:induction false} ExtractedIsSavedEnvelope(store: Store, data: Buckets, env: StorageEnv)
    ensures HandleExtractedData(store, data, env) == SaveData(store, NewEnvelope(env.timestamp, data), env)
  {
  }

  /** `getCachedData`: the stored envelope, or `null`; a read error is the failure reply. */
  function GetCachedData(store: Store, readError: Option<string>): (r: Response)
    ensures readError.None? <==> r.Cached?
    ensures r.Cached? ==> r.data == store
    ensures r.Failed? ==> r.error == readError.value
  {
    match readError
    case Some(e) => Failed(e)
    case None => Cached(store)
  }

  /** `clearData`: removes the key and broadcasts an envelope with the three empty buckets. */
  function ClearData(store: Store, env: StorageEnv): (r: StorageResult)
    ensures r.reply == Ok <==> env.storageError.None?
    ensures r.reply == Ok ==> r.store.None? && r.sent == NotifyUIPages(env, NewEnvelope(env.timestamp, EmptyBuckets()))
    ensures r.reply != Ok ==> r.store == store && r.sent == []
  {
    match env.storageError
    case Some(e) => StorageResult(store, [], Failed(e))
    case None => StorageResult(None, NotifyUIPages(env, NewEnvelope(env.timestamp, EmptyBuckets())), Ok)
  }

  /** Reading after a successful save returns exactly what was saved. */
  lemma {:induction false} GetAfterSave(store: Store, data: Envelope, env: StorageEnv)
    requires env.storageError.None?
    ensures GetCachedData(SaveData(store, data, env).store, None) == Cached(Some(data))
  {
  }

  /** Reading after a successful clear returns `null`, whatever was stored before. */
  lemma {:induction false} GetAfterClear(store: Store, env: StorageEnv)
    requires env.storageError.None?
    ensures GetCachedData(ClearData(store, env).store, None) == Cached(None)
  {
  }

  /** Clearing twice leaves the same store as clearing once; each clear broadcasts again. */
  lemma {:induction false} ClearIdempotent(store: Store, env: StorageEnv)
    ensures ClearData(ClearData(store, env).store, env).store == ClearData(store, env).store
  {
  }

  /** A failed save is invisible: the store is unchanged and no tab hears of it. */
  lemma {:induction false} FailedSaveInvisible(store: Store, data: Envelope, env: StorageEnv)
    requires env.storageError.Some?
    ensures GetCachedData(SaveData(store, data, env).store, None) == GetCachedData(store, None)
    ensures SaveData(store, data, env).sent == []
  {
  }

  /** Every tab a successful save notifies receives the saved envelope itself. */
  lemma {:induction false} SaveBroadcastsSaved(store: Store, data: Envelope, env: StorageEnv, i: nat)
    requires env.storageError.None? && i < |SaveData(store, data, env).sent|
    ensures SaveData(store, data, env).sent[i].message.envelope == SaveData(store, data, env).store.value
  {
  }
}
