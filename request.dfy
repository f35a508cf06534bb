/** `buildRequests`: one POST request per auction round, whose payload holds
    the auction-wide settings resolved across the slots, one impression per
    slot, the device, the consent data and the client hints. */
module Request {
  import opened Js
  import opened Types
  import opened Ortb
  import opened Resolver
  import opened Impressions
  import opened ClientHints

  const BIDDER_URL: string := "https://ssp.wp.pl/bidder/"
  const TMAX: real := 450.0
  const BIDDER_VERSION: string := "4.0"
  const PREBID_VERSION: string := "$prebid.version$"

  /** A snapshot of what the adapter reads from the browser. */
  datatype Browser = Browser(
    userAgent: JsValue,
    language: JsValue,
    browserLanguage: JsValue,
    userLanguage: JsValue,
    systemLanguage: JsValue,
    isTopFrame: bool,             // window.self === window.top
    referrerAccessThrows: bool,   // reading the frame or the referrer throws
    documentReferrer: JsValue,
    hints: Hints,
    isSafari: bool,               // the user-agent heuristic's verdict
    cookieEnabled: bool,
    cookieLength: nat)

  /** What `buildRequests` returns: `false`, or the request to send (`httpMethod` is its `method` member). */
  datatype BuildResult =
    | NoRequest
    | Post(httpMethod: string, url: string, data: Payload, bidderRequest: BidderRequest)

  /** `cookieSupport()`: never on Safari; elsewhere iff cookies are enabled
      or the document already holds some. */
  function CookieSupport(browser: Browser): (cs: bool)
    ensures browser.isSafari ==> !cs
    ensures !browser.isSafari ==> (cs <==> browser.cookieEnabled || browser.cookieLength > 0)
  {
    !browser.isSafari && (browser.cookieEnabled || browser.cookieLength != 0)
  }

  /** What the request URL starts with: the endpoint and the cookie parameter's name. */
  const URL_HEAD: string := BIDDER_URL + "?cs="

  /** What the request URL ends with: the Prebid version running straight into `inver=0`. */
  const URL_TAIL: string := "&pbver=" + PREBID_VERSION + "inver=0"

  /** The request URL, assembled as the adapter does it (no `&` before `inver`):
      the bidder endpoint, the cookie flag spelt out, and the version
      parameters. */
  function RequestUrl(cs: bool): (url: string)
    ensures URL_HEAD <= url && |url| > |URL_HEAD| + |URL_TAIL|
    ensures url[|url| - |URL_TAIL|..] == URL_TAIL
    ensures var flag := if cs then "true" else "false";
      && |url| == |URL_HEAD| + |flag| + |"&bdver=" + BIDDER_VERSION| + |URL_TAIL|
      && url[|URL_HEAD|..|URL_HEAD| + |flag|] == flag
      && url[|URL_HEAD| + |flag|..|url| - |URL_TAIL|] == "&bdver=" + BIDDER_VERSION
  {
    var flag := if cs then "true" else "false";
    var version := "&bdver=" + BIDDER_VERSION;
    var url := URL_HEAD + flag + version + URL_TAIL;
    assert url[..|URL_HEAD|] == URL_HEAD;
    assert url[|URL_HEAD|..|URL_HEAD| + |flag|] == flag;
    assert url[|URL_HEAD| + |flag|..|url| - |URL_TAIL|] == version;
    assert url[|url| - |URL_TAIL|..] == URL_TAIL;
    url
  }

  /** `getDevice()`: the user agent and the first truthy language source,
      the last source when none is truthy. */
  function GetDevice(browser: Browser): (device: Device)
    ensures device.ua == browser.userAgent
    ensures Truthy(browser.language) ==> device.language == browser.language
    ensures !Truthy(browser.language) && Truthy(browser.browserLanguage) ==> device.language == browser.browserLanguage
    ensures !Truthy(browser.language) && !Truthy(browser.browserLanguage) && Truthy(browser.userLanguage)
            ==> device.language == browser.userLanguage
    ensures !Truthy(browser.language) && !Truthy(browser.browserLanguage) && !Truthy(browser.userLanguage)
            ==> device.language == browser.systemLanguage
  {
    Device(browser.userAgent,
           Or(Or(Or(browser.language, browser.browserLanguage), browser.userLanguage), browser.systemLanguage))
  }

  /** The top-level referrer: read only in the top frame and when present; a
      failure to read it leaves it unset. */
  function TopReferrer(browser: Browser): (ref: JsValue)
    ensures ref == Undefined || ref == browser.documentReferrer
    ensures Truthy(ref) <==> !browser.referrerAccessThrows && browser.isTopFrame && Truthy(browser.documentReferrer)
    ensures !(!browser.referrerAccessThrows && browser.isTopFrame && Truthy(browser.documentReferrer)) ==> ref == Undefined
  {
    if !browser.referrerAccessThrows && browser.isTopFrame && Truthy(browser.documentReferrer)
    then browser.documentReferrer
    else Undefined
  }

  /** The GDPR flag put in `regs`. */
  function GdprFlag(consent: GdprConsent): int
  {
    if Truthy(consent.gdprApplies) then 1 else 0
  }

  /** `applyGdpr`: with consent data, `regs` gets the applies flag and `user`
      the consent string; without, the request is left as it was. */
  method ApplyGdpr(bidderRequest: BidderRequest, ortbRequest: OrtbRequest)
    modifies ortbRequest
    ensures bidderRequest.gdprConsent.None? ==> ortbRequest.Value() == old(ortbRequest.Value())
    ensures bidderRequest.gdprConsent.Some? ==>
      var consent := bidderRequest.gdprConsent.value;
      ortbRequest.Value() == old(ortbRequest.Value()).(
        regs := old(ortbRequest.regs).(gdpr := Some(GdprFlag(consent))),
        user := old(ortbRequest.user).(consent := Some(consent.consentString)))
  {
    if bidderRequest.gdprConsent.Some? {
      var consent := bidderRequest.gdprConsent.value;
      ortbRequest.regs := ortbRequest.regs.(gdpr := Some(GdprFlag(consent)));
      ortbRequest.user := ortbRequest.user.(consent := Some(consent.consentString));
    }
  }

  /** The user object after both steps. */
  function UserOf(host: Host, browser: Browser, consent: Option<GdprConsent>): User
  {
    User(if consent.Some? then Some(consent.value.consentString) else None,
         Some([NetInfo(Segments(host, Entries(browser.hints)))]))
  }

  /** Lines 89-100 of `buildRequests`: the request object is created with an
      empty `user` and `regs`, then patched by `applyGdpr` and
      `applyClientHints`. */
  method AssemblePayload(host: Host, browser: Browser, bidderRequest: BidderRequest, site: Site, imp: seq<Imp>,
                         tmax: JsValue)
    returns (data: Payload)
    ensures data == Payload(bidderRequest.auctionId, site, imp, tmax, GetDevice(browser),
                            UserOf(host, browser, bidderRequest.gdprConsent),
                            Regs(if bidderRequest.gdprConsent.Some? then Some(GdprFlag(bidderRequest.gdprConsent.value)) else None))
  {
    var ortbRequest := new OrtbRequest(bidderRequest.auctionId, site, imp, tmax, GetDevice(browser));
    ApplyGdpr(bidderRequest, ortbRequest);
    ApplyClientHints(host, browser.hints, ortbRequest);
    data := ortbRequest.Value();
  }

  /** `buildRequests`.  No request without slots; otherwise the site block's
      fields come from the first slot that sets them, falling back to the
      referer, to the page's hostname and to 450 ms for the timeout, and the
      impressions are the slots mapped one to one, in order. */
  method BuildRequests(host: Host, browser: Browser, validBidRequests: Option<seq<Slot>>, bidderRequest: BidderRequest)
    returns (request: BuildResult)
    requires validBidRequests.Some? ==> AllHaveParams(validBidRequests.value)
    ensures request.NoRequest? <==> validBidRequests.None? || |validBidRequests.value| < 1
    ensures request.Post? ==>
      var slots := validBidRequests.value;
      var page := Or(Resolve(slots, "page"), bidderRequest.referer);
      && request.httpMethod == "POST"
      && request.url == RequestUrl(CookieSupport(browser))
      && request.bidderRequest == bidderRequest
      && request.data.id == bidderRequest.auctionId
      && request.data.site.id == Resolve(slots, "siteId")
      && request.data.site.page == page
      && request.data.site.domain == Or(Resolve(slots, "domain"), host.hostname(page))
      && request.data.site.ref == TopReferrer(browser)
      && request.data.tmax == (if Truthy(Resolve(slots, "tmax"))
                               then NumberOf(if host.parseInt(Resolve(slots, "tmax")).Some?
                                             then Some(host.parseInt(Resolve(slots, "tmax")).value as real)
                                             else None)
                               else Num(TMAX))
      && |request.data.imp| == |slots|
      && (forall i :: 0 <= i < |slots| ==> request.data.imp[i] == MapImpression(host, slots[i]))
      && request.data.device == GetDevice(browser)
      && request.data.user == UserOf(host, browser, bidderRequest.gdprConsent)
      && request.data.regs == Regs(if bidderRequest.gdprConsent.Some? then Some(GdprFlag(bidderRequest.gdprConsent.value)) else None)
  {
    if validBidRequests.None? || |validBidRequests.value| < 1 {
      return NoRequest;
    }
    var slots := validBidRequests.value;
    var siteId := SetOnAny(slots, "siteId");
    var pageParam := SetOnAny(slots, "page");
    var page := Or(pageParam, bidderRequest.referer);
    var domainParam := SetOnAny(slots, "domain");
    var domain := Or(domainParam, host.hostname(page));
    var tmaxParam := SetOnAny(slots, "tmax");
    var tmax := Num(TMAX);
    if Truthy(tmaxParam) {
      tmaxParam := SetOnAny(slots, "tmax");
      var parsed := host.parseInt(tmaxParam);
      tmax := NumberOf(if parsed.Some? then Some(parsed.value as real) else None);
    }
    var ref := TopReferrer(browser);

    var data := AssemblePayload(host, browser, bidderRequest, Site(siteId, page, domain, ref),
                                MapImpressions(host, slots), tmax);
    request := Post("POST", RequestUrl(CookieSupport(browser)), data, bidderRequest);
  }
}
