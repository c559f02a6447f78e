/**
 * The typed messages exchanged between the dashboard, the background worker,
 * the content scripts and the print page, and the response objects.
 */
module Messages {
  import opened Values
  import opened Records

  /** `{tabName, deliveryIds}`; `deliveryIds` may be missing. */
  datatype PrintRequest = PrintRequest(tabName: string, deliveryIds: Option<seq<JsId>>)

  /** Messages to the background worker's runtime listener, by their `type` tag. */
  datatype RuntimeMessage =
    | InjectAndGrab
    | DataExtracted(extracted: Buckets)
    | SaveData(envelope: Envelope)
    | GetCachedData
    | ClearData
    | PrintRoute(request: PrintRequest)
    | UnknownType(tag: string)

  const KnownTags: set<string> :=
    {"INJECT_AND_GRAB", "DATA_EXTRACTED", "SAVE_DATA", "GET_CACHED_DATA", "CLEAR_DATA", "PRINT_ROUTE"}

  /** The `type` string each message carries on the wire. */
  function Tag(m: RuntimeMessage): string {
    match m
    case InjectAndGrab => "INJECT_AND_GRAB"
    case DataExtracted(_) => "DATA_EXTRACTED"
    case SaveData(_) => "SAVE_DATA"
    case GetCachedData => "GET_CACHED_DATA"
    case ClearData => "CLEAR_DATA"
    case PrintRoute(_) => "PRINT_ROUTE"
    case UnknownType(t) => t
  }

  /** An `UnknownType` message really carries a tag no handler claims. */
  predicate WellTagged(m: RuntimeMessage) {
    m.UnknownType? ==> m.tag !in KnownTags
  }

  /** Messages sent to a single tab with `chrome.tabs.sendMessage`. */
  datatype TabMessage =
    | ExtractData
    | DataUpdated(envelope: Envelope)
    | InitPrint(request: PrintRequest)
    | GetPrintRoute
    | OtherTabMessage(tag: string)

  /** The response objects: `{success:true}`, `{success:false, error}`,
      `{success:true, data}` for the cache query and `{success:true, data:{tabName}}`. */
  datatype Response =
    | Ok
    | Failed(error: string)
    | Cached(data: Option<Envelope>)
    | RouteLabel(tabName: string)

  predicate Succeeded(r: Response) {
    !r.Failed?
  }
}
