/**
 * The dashboard's storage wrapper: it never touches browser storage itself
 * but sends `SAVE_DATA`, `GET_CACHED_DATA` and `CLEAR_DATA` to the background
 * worker and reads the response.
 */
module StorageService {
  import opened Values
  import opened Records
  import opened Messages
  import DataStorage

  /**
   * The response to a runtime message: `None` when `sendMessage` threw or
   * resolved to `undefined`.
   */
  type Reply = Option<Response>

  /** `response?.success` is truthy: a response arrived and it is not a failure. */
  predicate ReplySucceeded(reply: Reply) {
    reply.Some? && Succeeded(reply.value)
  }

  /** The message sent (if any) and the boolean the wrapper resolves to. */
  datatype Call = Call(sent: Option<RuntimeMessage>, ok: bool)

  /**
   * `saveToExtensionStorage`: outside an extension nothing is sent and the
   * result is false; otherwise the deliveries go out in a version-1 envelope
   * and the result is whether the background answered with success.
   */
  function SaveToExtensionStorage(inExtension: bool, timestamp: string, deliveries: Buckets, reply: Reply): (c: Call)
    ensures !inExtension ==> c == Call(None, false)
    ensures inExtension ==>
              && c.sent.Some? && c.sent.value.SaveData?
              && c.sent.value.envelope.version == StorageVersion
              && c.sent.value.envelope.deliveries == deliveries
    ensures c.ok <==> inExtension && ReplySucceeded(reply)
  {
    if !inExtension then Call(None, false)
    else Call(Some(SaveData(NewEnvelope(timestamp, deliveries))), ReplySucceeded(reply))
  }

  /** The deliveries a cache response carries: only a successful response with stored data has any. */
  function CachedDeliveries(reply: Reply): (r: Option<Buckets>)
    ensures r.Some? <==> reply.Some? && reply.value.Cached? && reply.value.data.Some?
    ensures r.Some? ==> r.value == reply.value.data.value.deliveries
  {
    match reply
    case Some(Cached(Some(envelope))) => Some(envelope.deliveries)
    case _ => None
  }

  /** `loadFromExtensionStorage`: the stored deliveries, or `null`. */
  function LoadFromExtensionStorage(inExtension: bool, reply: Reply): (r: (Option<RuntimeMessage>, Option<Buckets>))
    ensures !inExtension ==> r == (None, None)
    ensures inExtension ==> r.0 == Some(GetCachedData) && r.1 == CachedDeliveries(reply)
  {
    if !inExtension then (None, None) else (Some(GetCachedData), CachedDeliveries(reply))
  }

  /** `clearExtensionStorage`: true exactly when the background reports success. */
  function ClearExtensionStorage(inExtension: bool, reply: Reply): (c: Call)
    ensures !inExtension ==> c == Call(None, false)
    ensures inExtension ==> c.sent == Some(ClearData)
    ensures c.ok <==> inExtension && ReplySucceeded(reply)
  {
    if !inExtension then Call(None, false) else Call(Some(ClearData), ReplySucceeded(reply))
  }

  /**
   * Round trip through the background worker: when the write succeeds, saving
   * reports true and a later load returns the saved deliveries, because the
   * envelope is stored and returned verbatim.
   */
  lemma {:induction false} SaveThenLoad(store: DataStorage.Store, timestamp: string, deliveries: Buckets, env: DataStorage.StorageEnv)
    requires env.storageError.None?
    ensures var c := SaveToExtensionStorage(true, timestamp, deliveries, None);
            var saved := DataStorage.SaveData(store, c.sent.value.envelope, env);
            && SaveToExtensionStorage(true, timestamp, deliveries, Some(saved.reply)).ok
            && LoadFromExtensionStorage(true, Some(DataStorage.GetCachedData(saved.store, None))).1 == Some(deliveries)
  {
  }

  /** After a successful clear, a load finds nothing. */
  lemma {:induction false} ClearThenLoad(store: DataStorage.Store, env: DataStorage.StorageEnv)
    requires env.storageError.None?
    ensures var cleared := DataStorage.ClearData(store, env);
            && ClearExtensionStorage(true, Some(cleared.reply)).ok
            && LoadFromExtensionStorage(true, Some(DataStorage.GetCachedData(cleared.store, None))).1 == None
  {
  }

  /** A failed write makes the save report false and leaves what a load returns unchanged. */
  lemma {:induction false} FailedSaveReported(store: DataStorage.Store, timestamp: string, deliveries: Buckets, env: DataStorage.StorageEnv)
    requires env.storageError.Some?
    ensures var c := SaveToExtensionStorage(true, timestamp, deliveries, None);
            var saved := DataStorage.SaveData(store, c.sent.value.envelope, env);
            && !SaveToExtensionStorage(true, timestamp, deliveries, Some(saved.reply)).ok
            && DataStorage.GetCachedData(saved.store, None) == DataStorage.GetCachedData(store, None)
  {
  }
}
