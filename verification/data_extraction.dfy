/**
 * The background worker's `INJECT_AND_GRAB` handler: find the active tab,
 * check that it shows the deliveries page, inject the content script and ask
 * it to extract.
 */
module DataExtraction {
  import opened Values
  import opened Messages

  /** A tab URL as `new URL` sees it: origin, pathname and query; or a string it rejects. */
  datatype Url = Url(origin: string, pathname: string, search: string) | Unparsable

  const DeliveriesOrigin := "https://cm.chasunamallny.com"
  const DeliveriesPath := "/Deliveries"
  const NoTabError := "No active tab found."
  const WrongPageError := "Please navigate to the deliveries page (https://cm.chasunamallny.com/Deliveries) and try again."

  /** `isValidDeliveriesPage`: exact origin and exact pathname; the query does not matter; a parse failure is `false`. */
  predicate IsValidDeliveriesPage(url: Url) {
    url.Url? && url.origin == DeliveriesOrigin && url.pathname == DeliveriesPath
  }

  datatype Tab = Tab(id: int, url: Url)

  /**
   * What the browser does during one run: the active-tab query (which may
   * throw), the script injection (`Some(message)` when it throws), the
   * `lastError` after the `EXTRACT_DATA` round trip, and the content
   * script's own reply.
   */
  datatype ExtractionEnv = ExtractionEnv(
    tabs: Outcome<seq<Tab>>,
    injectError: Option<string>,
    lastError: Option<string>,
    contentReply: Option<Response>)

  /** The tab the content script was injected into (if any), whether `EXTRACT_DATA` was sent, and the reply. */
  datatype ExtractionResult = ExtractionResult(injectedInto: Option<int>, requested: bool, reply: Response)

  /** `handleDataExtraction`: the guards in order, then injection and the extraction request. */
  function HandleDataExtraction(env: ExtractionEnv): (r: ExtractionResult)
    ensures r.reply == Ok <==>
              env.tabs.Success? && |env.tabs.value| > 0 && IsValidDeliveriesPage(env.tabs.value[0].url)
              && env.injectError.None? && env.lastError.None?
    ensures r.injectedInto.Some? ==>
              env.tabs.Success? && |env.tabs.value| > 0 && r.injectedInto.value == env.tabs.value[0].id
              && IsValidDeliveriesPage(env.tabs.value[0].url)
    ensures r.requested <==> r.injectedInto.Some?
    ensures r.reply.Ok? || r.reply.Failed?
    ensures (env.tabs.Success? && |env.tabs.value| > 0 && IsValidDeliveriesPage(env.tabs.value[0].url)
             && env.injectError.None?) ==> r.injectedInto == Some(env.tabs.value[0].id) && r.requested
    ensures env.tabs.Failure? ==> r.reply == Failed(env.tabs.message)
    ensures r.requested && env.lastError.Some? ==> r.reply == Failed(env.lastError.value)
  {
    match env.tabs
    case Failure(m) => ExtractionResult(None, false, Failed(m))
    case Success(tabs) =>
      if |tabs| == 0 then ExtractionResult(None, false, Failed(NoTabError))
      else
        var target := tabs[0];
        if !IsValidDeliveriesPage(target.url) then ExtractionResult(None, false, Failed(WrongPageError))
        else
          match env.injectError
          case Some(m) => ExtractionResult(None, false, Failed(m))
          case None =>
            var reply := match env.lastError
              case Some(m) => Failed(m)
              case None => Ok;
            ExtractionResult(Some(target.id), true, reply)
  }

  /** No active tab: the fixed error, and nothing is injected. */
  lemma {:induction false} NoActiveTab(env: ExtractionEnv)
    requires env.tabs == Success([])
    ensures HandleDataExtraction(env) == ExtractionResult(None, false, Failed(NoTabError))
  {
  }

  /** A tab on another page gets the fixed error before any injection is attempted. */
  lemma {:induction false} WrongPageNotInjected(env: ExtractionEnv)
    requires env.tabs.Success? && |env.tabs.value| > 0 && !IsValidDeliveriesPage(env.tabs.value[0].url)
    ensures HandleDataExtraction(env) == ExtractionResult(None, false, Failed(WrongPageError))
  {
  }

  /** Only the first tab of the query result matters. */
  lemma {:induction false} OnlyFirstTabMatters(env: ExtractionEnv, tabs: seq<Tab>)
    requires env.tabs.Success? && |env.tabs.value| > 0 && |tabs| > 0 && tabs[0] == env.tabs.value[0]
    ensures HandleDataExtraction(env.(tabs := Success(tabs))) == HandleDataExtraction(env)
  {
  }

  /** The page check is exact: a trailing slash fails, a query string passes, an unparsable URL fails. */
  lemma {:induction false} PageCheckIsExact()
    ensures !IsValidDeliveriesPage(Url(DeliveriesOrigin, "/Deliveries/", ""))
    ensures IsValidDeliveriesPage(Url(DeliveriesOrigin, "/Deliveries", "?page=2"))
    ensures !IsValidDeliveriesPage(Url("http://cm.chasunamallny.com", "/Deliveries", ""))
    ensures !IsValidDeliveriesPage(Unparsable)
  {
    assert |"/Deliveries/"| != |DeliveriesPath|;
    assert "http://cm.chasunamallny.com"[4] != DeliveriesOrigin[4];
  }

  /**
   * Success depends only on `lastError`: when the content script replies that
   * extraction failed, the popup is still told it succeeded.
   */
  lemma {:induction false} FailedExtractionReportedAsSuccess(env: ExtractionEnv, error: string)
    requires env.tabs.Success? && |env.tabs.value| > 0 && IsValidDeliveriesPage(env.tabs.value[0].url)
    requires env.injectError.None? && env.lastError.None?
    requires env.contentReply == Some(Failed(error))
    ensures HandleDataExtraction(env).reply == Ok
  {
  }

  /** An injection failure is caught and becomes the failure reply, with no extraction request. */
  lemma {:induction false} InjectionFailureReported(env: ExtractionEnv, message: string)
    requires env.tabs.Success? && |env.tabs.value| > 0 && IsValidDeliveriesPage(env.tabs.value[0].url)
    requires env.injectError == Some(message)
    ensures HandleDataExtraction(env) == ExtractionResult(None, false, Failed(message))
  {
  }
}
