/** The inputs the auction framework hands the adapter: slot requests (one per
    ad placement) and the auction-wide bidder request. */
module Types {
  import opened Js

  /** One slot request: its framework id, the exchange parameters object
      (`params.id`, `params.siteId`, `params.bidFloor`, ...), the declared
      media type(s) and the list of `[width, height]` sizes. */
  datatype Slot = Slot(
    bidId: JsValue,
    params: JsValue,
    mediaType: JsValue,
    mediaTypes: JsValue,
    sizes: seq<seq<JsValue>>)

  /** `bidderRequest.gdprConsent`; `rest` holds its other members
      (`vendorData`, `apiVersion`, ...), which reach `window.gdpr` as they are. */
  datatype GdprConsent = GdprConsent(gdprApplies: JsValue, consentString: JsValue, rest: map<string, JsValue>)

  /** The auction-wide bidder request: auction id, `refererInfo.referer`,
      consent data when the framework has any, and every slot of the round. */
  datatype BidderRequest = BidderRequest(
    auctionId: JsValue,
    referer: JsValue,
    gdprConsent: Option<GdprConsent>,
    bids: seq<Slot>)

  /** `slot.params` can be read from without throwing. */
  predicate HasParams(slot: Slot)
  {
    !slot.params.Undefined? && !slot.params.Null?
  }

  predicate AllHaveParams(slots: seq<Slot>)
  {
    forall k :: 0 <= k < |slots| ==> HasParams(slots[k])
  }

  /** `slot.params[key]`, i.e. `deepAccess(slot, 'params.' + key)`. */
  function Param(slot: Slot, key: string): JsValue
  {
    Prop(slot.params, key)
  }
}
