/**
 * The background worker's runtime-message listener: which handler each
 * message type goes to, whether the response channel is kept open, and the
 * immediate failure for an unknown type.
 */
module MessageRouter {
  import opened Values
  import opened Records
  import opened Messages

  /** The handler a message is passed to, with the payload it is given. */
  datatype Handler =
    | ExtractionHandler
    | ExtractedDataHandler(data: Buckets)
    | SaveHandler(envelope: Envelope)
    | CachedDataHandler
    | ClearHandler
    | PrintRouteHandler(request: PrintRequest)
    | NoHandler

  /** The listener's decision: handler, return value, and a response sent before returning. */
  datatype Dispatch = Dispatch(handler: Handler, keepOpen: bool, immediate: Option<Response>)

  const UnknownTypeError := "Unknown message type"

  /** The `switch (message.type)` of the listener. */
  function Route(m: RuntimeMessage): (d: Dispatch)
    ensures WellTagged(m) ==> (d.keepOpen <==> Tag(m) in KnownTags)
    ensures d.keepOpen <==> d.handler != NoHandler
    ensures d.immediate.Some? <==> !d.keepOpen
    ensures d.immediate.Some? ==> d.immediate == Some(Failed(UnknownTypeError))
    ensures m.InjectAndGrab? <==> d.handler == ExtractionHandler
    ensures m.GetCachedData? <==> d.handler == CachedDataHandler
    ensures m.ClearData? <==> d.handler == ClearHandler
    ensures m.DataExtracted? <==> d.handler.ExtractedDataHandler?
    ensures m.SaveData? <==> d.handler.SaveHandler?
    ensures m.PrintRoute? <==> d.handler.PrintRouteHandler?
    ensures m.DataExtracted? ==> d.handler == ExtractedDataHandler(m.extracted)
    ensures m.SaveData? ==> d.handler == SaveHandler(m.envelope)
    ensures m.PrintRoute? ==> d.handler == PrintRouteHandler(m.request)
  {
    match m
    case InjectAndGrab => Dispatch(ExtractionHandler, true, None)
    case DataExtracted(data) => Dispatch(ExtractedDataHandler(data), true, None)
    case SaveData(envelope) => Dispatch(SaveHandler(envelope), true, None)
    case GetCachedData => Dispatch(CachedDataHandler, true, None)
    case ClearData => Dispatch(ClearHandler, true, None)
    case PrintRoute(request) => Dispatch(PrintRouteHandler(request), true, None)
    case UnknownType(_) => Dispatch(NoHandler, false, Some(Failed(UnknownTypeError)))
  }

  /** The payload a handler receives, if it takes one. */
  function Payload(h: Handler): Option<RuntimeMessage> {
    match h
    case ExtractedDataHandler(data) => Some(DataExtracted(data))
    case SaveHandler(envelope) => Some(SaveData(envelope))
    case PrintRouteHandler(request) => Some(PrintRoute(request))
    case _ => None
  }

  /** Payloads reach their handler unchanged: the handler's payload rebuilds the message. */
  lemma {:induction false} PayloadForwarded(m: RuntimeMessage)
    requires m.DataExtracted? || m.SaveData? || m.PrintRoute?
    ensures Payload(Route(m).handler) == Some(m)
  {
  }

  /** Well-tagged messages with the same `type` string are dispatched the same way. */
  lemma {:induction false} DispatchByTag(m1: RuntimeMessage, m2: RuntimeMessage)
    requires WellTagged(m1) && WellTagged(m2) && Tag(m1) == Tag(m2)
    ensures Route(m1).keepOpen == Route(m2).keepOpen
    ensures Route(m1).immediate == Route(m2).immediate
    ensures Payload(Route(m1).handler).None? == Payload(Route(m2).handler).None?
  {
  }

  /** Two different known messages never share a handler. */
  lemma {:induction false} HandlersDistinct(m1: RuntimeMessage, m2: RuntimeMessage)
    requires WellTagged(m1) && WellTagged(m2) && Tag(m1) in KnownTags && Tag(m2) != Tag(m1)
    ensures Route(m1).handler != Route(m2).handler
  {
  }
}
