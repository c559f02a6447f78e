/**
 * The content script on the deliveries page: the extraction pipeline
 * (scrape ids, fetch, filter, categorise) and its `EXTRACT_DATA` listener.
 */
module ContentScript {
  import opened Text
  import opened Values
  import opened Records
  import opened Messages
  import opened DeliveryExtractor
  import opened ApiService

  /** What the page's `fetch` of the deliveries list produced: an HTTP response, or a thrown error. */
  datatype FetchResult = HttpResponse(status: int, body: seq<ApiItem>) | NetworkError(message: string)

  predicate ResponseOk(status: int) {
    200 <= status <= 299
  }

  /** `fetchAllDeliveries`: a non-ok status becomes an error naming the status. */
  function FetchAllDeliveries(fetch: FetchResult): (r: Outcome<seq<ApiItem>>)
    ensures r.Success? <==> fetch.HttpResponse? && ResponseOk(fetch.status)
    ensures r.Success? ==> r.value == fetch.body
    ensures fetch.HttpResponse? && !ResponseOk(fetch.status) ==> r.message == "API request failed: " + NumText(fetch.status)
    ensures fetch.NetworkError? ==> r.message == fetch.message
  {
    match fetch
    case NetworkError(m) => Failure(m)
    case HttpResponse(status, body) =>
      if ResponseOk(status) then Success(body) else Failure("API request failed: " + NumText(status))
  }

  /** One run of `extractDeliveryData`: whether the API was called, and the outcome. */
  datatype Extraction = Extraction(fetched: bool, result: Outcome<Buckets>)

  const NoIdsError := "No delivery IDs found in table"

  /**
   * `extractDeliveryData`: an empty id set fails before the fetch; otherwise
   * the fetched list is filtered by the ids and categorised.
   */
  function ExtractDeliveryData(linkTexts: seq<string>, fetch: FetchResult): (x: Extraction)
    ensures x.fetched <==> ExtractDeliveryIds(linkTexts) != {}
    ensures !x.fetched ==> x.result == Failure(NoIdsError)
    ensures x.result.Success? <==> x.fetched && FetchAllDeliveries(fetch).Success?
    ensures x.result.Success? ==>
              x.result.value == CategorizeDeliveries(FilterDeliveriesByIds(fetch.body, ExtractDeliveryIds(linkTexts)))
  {
    var ids := ExtractDeliveryIds(linkTexts);
    if ids == {} then Extraction(false, Failure(NoIdsError))
    else
      match FetchAllDeliveries(fetch)
      case Failure(m) => Extraction(true, Failure(m))
      case Success(all) => Extraction(true, Success(CategorizeDeliveries(FilterDeliveriesByIds(all, ids))))
  }

  /** The table yields no ids exactly when no link text holds a digit. */
  lemma {:induction false} NoIdsIffNoDigits(linkTexts: seq<string>)
    ensures ExtractDeliveryIds(linkTexts) == {} <==> forall i :: 0 <= i < |linkTexts| ==> DigitsOf(linkTexts[i]) == ""
  {
    if ExtractDeliveryIds(linkTexts) == {} {
      forall i | 0 <= i < |linkTexts| ensures DigitsOf(linkTexts[i]) == "" {
        if DigitsOf(linkTexts[i]) != "" {
          var n := ScrapedId(linkTexts[i]).value;
          assert IdScraped(linkTexts, n);
        }
      }
    } else {
      var n :| n in ExtractDeliveryIds(linkTexts);
      assert IdScraped(linkTexts, n);
    }
  }

  /** What the listener does with one message: keep the channel open, what it sends on, what it replies. */
  datatype ListenerResult = ListenerResult(keepOpen: bool, sent: Option<RuntimeMessage>, reply: Option<Response>)

  /**
   * The `chrome.runtime.onMessage` listener: only `EXTRACT_DATA` is handled;
   * success forwards the buckets as `DATA_EXTRACTED` and then acknowledges,
   * failure replies with the error and forwards nothing.
   */
  function OnContentMessage(m: TabMessage, linkTexts: seq<string>, fetch: FetchResult): (r: ListenerResult)
    ensures r.keepOpen <==> m.ExtractData?
    ensures !m.ExtractData? ==> r.sent.None? && r.reply.None?
    ensures m.ExtractData? ==> r.reply.Some? && (r.reply == Some(Ok) <==> r.sent.Some?)
    ensures r.sent.Some? ==> r.sent.value.DataExtracted?
    ensures r.reply.Some? && r.reply.value.Failed? ==> r.sent.None?
    ensures m.ExtractData? ==> (r.sent.Some? <==> ExtractDeliveryData(linkTexts, fetch).result.Success?)
    ensures m.ExtractData? ==> (r.sent.Some? <==> ExtractDeliveryIds(linkTexts) != {} && fetch.HttpResponse? && ResponseOk(fetch.status))
    ensures r.sent.Some? ==>
              r.sent.value == DataExtracted(CategorizeDeliveries(FilterDeliveriesByIds(fetch.body, ExtractDeliveryIds(linkTexts))))
    ensures m.ExtractData? && r.sent.None? ==> r.reply == Some(Failed(ExtractDeliveryData(linkTexts, fetch).result.message))
  {
    if !m.ExtractData? then ListenerResult(false, None, None)
    else
      match ExtractDeliveryData(linkTexts, fetch).result
      case Success(b) => ListenerResult(true, Some(DataExtracted(b)), Some(Ok))
      case Failure(msg) => ListenerResult(true, None, Some(Failed(msg)))
  }

  /** On success the forwarded payload is exactly the categorised, filtered API list. */
  lemma {:induction false} ForwardsCategorisedData(linkTexts: seq<string>, fetch: FetchResult)
    requires OnContentMessage(ExtractData, linkTexts, fetch).sent.Some?
    ensures OnContentMessage(ExtractData, linkTexts, fetch).sent.value.extracted
            == CategorizeDeliveries(FilterDeliveriesByIds(fetch.body, ExtractDeliveryIds(linkTexts)))
  {
  }

  /** An empty table fails without fetching, whatever the API would have answered. */
  lemma {:induction false} EmptyTableNeverFetches(linkTexts: seq<string>, fetch: FetchResult)
    requires forall i :: 0 <= i < |linkTexts| ==> DigitsOf(linkTexts[i]) == ""
    ensures !ExtractDeliveryData(linkTexts, fetch).fetched
    ensures OnContentMessage(ExtractData, linkTexts, fetch) == ListenerResult(true, None, Some(Failed(NoIdsError)))
  {
    NoIdsIffNoDigits(linkTexts);
  }

  /** A fetch that throws is reported with the thrown message, and nothing is forwarded. */
  lemma {:induction false} NetworkErrorReported(linkTexts: seq<string>, message: string)
    requires ExtractDeliveryIds(linkTexts) != {}
    ensures OnContentMessage(ExtractData, linkTexts, NetworkError(message))
            == ListenerResult(true, None, Some(Failed(message)))
  {
  }

  /** A non-ok status is reported with its number, and nothing is forwarded. */
  lemma {:induction false} BadStatusReported(linkTexts: seq<string>, status: int, body: seq<ApiItem>)
    requires ExtractDeliveryIds(linkTexts) != {} && !ResponseOk(status)
    ensures OnContentMessage(ExtractData, linkTexts, HttpResponse(status, body))
            == ListenerResult(true, None, Some(Failed("API request failed: " + NumText(status))))
  {
  }

  /**
   * Each `executeScript` run of the script registers one more listener, so a
   * page grabbed k times without a reload holds k listeners. All of them see
   * every message, each runs its own extraction with its own fetch, and each
   * success is forwarded on its own.
   */
  function OnContentMessageAll(m: TabMessage, linkTexts: seq<string>, fetches: seq<FetchResult>): (rs: seq<ListenerResult>)
    ensures |rs| == |fetches|
    ensures forall i :: 0 <= i < |rs| ==> rs[i] == OnContentMessage(m, linkTexts, fetches[i])
  {
    seq(|fetches|, i requires 0 <= i < |fetches| => OnContentMessage(m, linkTexts, fetches[i]))
  }

  /** The messages the listeners send on, in registration order. */
  function Forwarded(rs: seq<ListenerResult>): (out: seq<RuntimeMessage>)
    ensures |out| <= |rs|
    decreases |rs|
  {
    if |rs| == 0 then []
    else (if rs[0].sent.Some? then [rs[0].sent.value] else []) + Forwarded(rs[1..])
  }

  /** Listeners that all forward the same message forward it once each. */
  lemma {:induction false} AllForwardSame(rs: seq<ListenerResult>, msg: RuntimeMessage)
    requires forall i :: 0 <= i < |rs| ==> rs[i].sent == Some(msg)
    ensures |Forwarded(rs)| == |rs|
    ensures forall i :: 0 <= i < |rs| ==> Forwarded(rs)[i] == msg
    decreases |rs|
  {
    if |rs| > 0 {
      AllForwardSame(rs[1..], msg);
      assert Forwarded(rs) == [msg] + Forwarded(rs[1..]);
    }
  }

  /**
   * The k-th grab of the same page forwards the same `DATA_EXTRACTED` k
   * times when every listener's fetch succeeds alike.
   */
  lemma {:induction false} RepeatedInjectionForwardsRepeatedly(linkTexts: seq<string>, fetches: seq<FetchResult>, fetch: FetchResult)
    requires ExtractDeliveryIds(linkTexts) != {} && fetch.HttpResponse? && ResponseOk(fetch.status)
    requires forall i :: 0 <= i < |fetches| ==> fetches[i] == fetch
    ensures var out := Forwarded(OnContentMessageAll(ExtractData, linkTexts, fetches));
            |out| == |fetches| &&
            forall i :: 0 <= i < |out| ==>
              out[i] == DataExtracted(CategorizeDeliveries(FilterDeliveriesByIds(fetch.body, ExtractDeliveryIds(linkTexts))))
  {
    var msg := DataExtracted(CategorizeDeliveries(FilterDeliveriesByIds(fetch.body, ExtractDeliveryIds(linkTexts))));
    var rs := OnContentMessageAll(ExtractData, linkTexts, fetches);
    assert OnContentMessage(ExtractData, linkTexts, fetch).sent == Some(msg);
    AllForwardSame(rs, msg);
  }
}
