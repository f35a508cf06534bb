/** The exchange's response and the bids the adapter hands back to the
    auction framework. */
module Exchange {
  import opened Js
  import opened Types

  /** One returned bid: the impression it answers, its price, size, expiry,
      ad markup and optional GAM configuration (a JSON string); `rest` holds
      every other member the exchange sent (`id`, `crid`, `adomain`, `ext`,
      ...), which travels untouched into `mcad`. */
  datatype ServerBid = ServerBid(
    impid: JsValue,
    price: JsValue,
    w: JsValue,
    h: JsValue,
    exp: JsValue,
    adm: JsValue,
    gam: JsValue,
    rest: map<string, JsValue>)

  datatype SeatBid = SeatBid(seat: JsValue, bid: seq<ServerBid>)

  /** The response body; `seatbid` is absent when the exchange has no bids. */
  datatype ExchangeResponse = ExchangeResponse(id: JsValue, cur: JsValue, seatbid: Option<seq<SeatBid>>)

  /** The `mcad` object handed to the rendering script (base64 of the
      URI-encoded JSON in the document; kept structured here). */
  datatype Mcad = Mcad(id: JsValue, seat: JsValue, bid: ServerBid)

  /** The values the generated creative document's script is built from:
      the siteId (pasted unquoted as `window.rekid`), `window.mcad`,
      `window.gdpr` and, when present, `window.gam`. */
  datatype Creative = Creative(
    siteId: JsValue,
    mcad: Mcad,
    gdpr: Option<GdprConsent>,
    gam: Option<map<string, JsValue>>)

  /** The bid as returned to the auction framework. */
  datatype NormalizedBid = NormalizedBid(
    requestId: JsValue,
    creativeId: string,
    cpm: JsValue,
    currency: JsValue,
    ttl: JsValue,
    width: JsValue,
    height: JsValue,
    bidderCode: string,
    mediaType: string,
    netRevenue: bool,
    ad: Creative)
}
