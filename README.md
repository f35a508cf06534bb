# sspBC bidder adapter — a verified model

This project models the Prebid bidder adapter for the WP.pl SSP (`sspBC`,
`sspBCAdapter.js`). It covers how the adapter translates one auction round's slot requests into a
single batched OpenRTB 2.5 request, and how it translates the exchange's answer back into bids.
The parts it models:

- **Parameter resolver** (`setOnAny`). This is module `Resolver`. It returns the first truthy
  `params[key]` in slot order, and `undefined` when no slot sets one.
- **Request builder**. These are modules `Impressions`, `ClientHints`, `Ortb` and `Request`.
  - `isBidRequestValid` checks the slot.
  - `mapImpression` and `mapBanner` map one slot to one impression, with the banner object of
    section 3.2.6 of OpenRTB 2.5.
  - `applyGdpr` and `applyClientHints` patch the request object in place. They are modelled on the
    class `Ortb.OrtbRequest`.
  - `buildRequests` resolves the site settings with their fallbacks: the referer, the page's
    hostname, and 450 ms for `tmax`.
- **Response interpreter** (`interpretResponse`). This is module `Response`. Each returned bid is
  matched to a slot by `params.id === impid`. It is priced at `flatCpm || price` and is kept only
  when `cpm > 0 && cpm >= (bidFloor || 0)`. Its lifetime is `exp || 300`. The output follows the
  order seats, then bids. A slot's GAM placement fills in `serverBid.gam` when the exchange sent
  none.
- **Creative composer** (`renderCreative`). This is module `CreativeComposer`. It normalises the
  GAM configuration carried in the ad markup. It overwrites `namedSizes` and `div`, and it forces
  `OAS_retarg`, `PREBID_ON` and `emptygaf` over the exchange's own targeting. The `window.gam`
  global is emitted exactly when a non-empty configuration was parsed.
- **User sync** (`getUserSyncs`). This is module `UserSync`. It returns one iframe sync exactly
  when iframe syncing is enabled.

JavaScript values are modelled by `Js.JsValue`, together with the JavaScript semantics the adapter
relies on:

- truthiness and `||`;
- property reads, where a missing property is `undefined`;
- `===`;
- `>` and `>=`: two strings compare lexicographically, anything else compares after ToNumber.

The host's opaque services are fields of `Js.Host`, a record of functions passed in. These are
`parseFloat`, `parseInt`, ToNumber on strings, `toString`, `utils.parseUrl(..).hostname`,
`JSON.stringify`, `JSON.parse(adm).gam` and `Math.random`. The browser is a snapshot value,
`Request.Browser`.

Each imperative routine is a method proved against a specification function:

| method | specification function |
|---|---|
| `SetOnAny` | `Resolve` |
| `ApplyClientHints` | `Segments` |
| `RenderCreative` | `GamFromAdm` |
| `InterpretBid` | `ProcessBid` |
| `InterpretSeat` | `SeatOutcomes`, filtered by `Traversal.Present` |
| `InterpretResponse` | `Interpret` |

Lemmas then state what the source promises about those functions.

Quirks of the source that the model keeps:

- `mapImpression` reads `params.bidfloor` (lower case). `interpretResponse` reads
  `params.bidFloor`.
- Any non-zero parsed floor is attached to the impression, including a negative one.
- A bid with `cpm <= 0` is dropped without a warning. Only bids below the floor get one.
- The three default targeting keys `OAS_retarg`, `PREBID_ON` and `emptygaf` overwrite whatever
  values the exchange sent for them (`Object.assign(existing, defaults)`).
- `window.gam` comes only from the ad markup (`adm`). A `gam` configuration filled in from the
  slot's placement reaches the creative only inside `mcad`.
- The request URL has no `&` before `inver=0`, so the `pbver` value runs into it.
  `Request.RequestUrl` builds it as written.
- The GDPR keys are the literal strings `[ortb_extensions.gdpr]` and
  `[ortb_extensions.consent]`.
- The whole server bid goes into `mcad`, and the whole consent object into `window.gdpr`. The
  members the adapter does not read travel in the `rest` maps of `Exchange.ServerBid` and
  `Types.GdprConsent`.

## Model

| member | source | states |
|---|---|---|
| `Resolver.ResolveIsFirstTruthy` | sspBCAdapter.js:182-189 | The resolved value is truthy iff some slot has a truthy value at the key. If so, it is the value at the lowest such index and all earlier values are falsy. Otherwise it is `undefined`. |
| `Resolver.SetOnAny` | sspBCAdapter.js:182-189 | The loop with early return yields the first truthy `params[key]` in slot order, with every earlier value falsy. With no truthy value it yields `undefined`. |
| `Impressions.IsBidRequestValid` | sspBCAdapter.js:66-72 | A slot is valid iff its `params` is an object whose `id` is truthy. |
| `Impressions.MapBanner` | sspBCAdapter.js:211-226 | A banner exists iff `mediaType` is `'banner'`, or `mediaTypes.banner` is truthy, or neither field is set. Its formats are the sizes mapped to `{w: size[0], h: size[1]}`, in order. Its id is the slot's `bidId`. |
| `Impressions.MapImpression` | sspBCAdapter.js:191-205 | `id == tagid == params.id`. The banner is `mapBanner(slot)`. `bidfloor` is present iff `parseFloat(params.bidfloor)` is a number other than 0, and it is then that number. |
| `Impressions.MapImpressions` | sspBCAdapter.js:92 | There is one impression per slot, in slot order. |
| `Impressions.ImpIdsDistinctIffSlotIdsDistinct` | sspBCAdapter.js:92 | The impression ids are pairwise distinct iff the slots' `params.id` values are. |
| `Impressions.ValidSlotHasImpId` | sspBCAdapter.js:66-72 | A slot that passes validation yields an impression whose id is truthy and equals its tag id. |
| `ClientHints.Entries` | sspBCAdapter.js:28-36 | There are seven hint entries, named in the fixed key order `CH-Ect` … `CH-ViewportWidth`, each paired with its own hint value. |
| `ClientHints.SegmentsAreTruthyEntriesInOrder` | sspBCAdapter.js:37-45 | The segments are exactly the truthy entries, stringified. Entry order is kept: the source indices ascend and every truthy entry appears. |
| `ClientHints.SegmentNamesFollowEntries` | sspBCAdapter.js:37-45 | For entries with distinct names, the segment names are distinct too. A segment named after an entry is present iff that entry is truthy, and it then holds the entry's string form. |
| `ClientHints.HintPresentIffTruthy` | sspBCAdapter.js:24-45 | A segment named after a hint key is present iff that hint is truthy, and it then holds the hint's string form. No other names occur, none occurs twice, and there are at most seven. |
| `ClientHints.ApplyClientHints` | sspBCAdapter.js:24-53 | `user.data` becomes exactly one `NetInfo` block (id `'12'`) holding those segments. The rest of the request is unchanged. |
| `Ortb.OrtbRequest.constructor` | sspBCAdapter.js:89-97 | The request object starts with empty `user` and `regs`. |
| `Request.CookieSupport` | sspBCAdapter.js:11-15 | Cookies are never reported as supported on Safari. Elsewhere they are iff cookies are enabled or the document already holds some. |
| `Request.RequestUrl` | sspBCAdapter.js:104 | The URL is the bidder endpoint and `?cs=`, then the flag spelt `true` or `false`, then `&bdver=4.0`. It ends with `&pbver=` and the Prebid version running straight into `inver=0`. |
| `Request.GetDevice` | sspBCAdapter.js:17-22 | The device's `ua` is the user agent. Its language is the first truthy of the four language sources, or the last source when none is truthy. |
| `Request.TopReferrer` | sspBCAdapter.js:83-87 | `ref` is the document referrer iff the frame is the top frame, the read does not throw and the referrer is truthy. Otherwise it is `undefined`. |
| `Request.ApplyGdpr` | sspBCAdapter.js:55-60 | With consent data, `regs` gets the flag (1 iff `gdprApplies` is truthy, else 0) and `user` gets the consent string. Without it, the request is unchanged. |
| `Request.AssemblePayload` | sspBCAdapter.js:89-100 | The payload after both patches: the device, the consent fields when present, and the `NetInfo` block. |
| `Request.BuildRequests` | sspBCAdapter.js:73-108 | There is no request iff the slot list is missing or empty. Otherwise it is a POST whose site id, page, domain and tmax come from the first slot that sets them. The fallbacks are the referer, the page's hostname and 450. There is one impression per slot, in order, plus the device, user and regs as patched. |
| `CreativeComposer.NormalizedSpec` | sspBCAdapter.js:245-252 | Every other key is kept. `namedSizes` becomes `['fluid']` and `div` becomes `'div-gpt-ad-x01'`. The targeting keeps its own keys but `OAS_retarg`, `PREBID_ON` and `emptygaf` are forced to `'0'`, `'1'` and `'0'`. |
| `CreativeComposer.GamFromAdmSpec` | sspBCAdapter.js:238-259 | There is a configuration iff the markup is truthy, parses, and has a non-empty `gam`. It is then that `gam`, normalised. |
| `CreativeComposer.RenderCreative` | sspBCAdapter.js:227-287 | The field-by-field updates yield the normalised configuration. The record holds the raw site id that the script pastes into `window.rekid`, the `mcad` bundle `{id, seat, bid}` and the consent data. It carries `window.gam` iff a configuration remains. |
| `Response.FindSlotIsFirstMatch` | sspBCAdapter.js:118 | The match is the first slot whose `params.id === impid`. It is absent iff no slot's id is strictly equal. |
| `Response.WithGamConfig` | sspBCAdapter.js:122-138 | Only `gam` may change. It is set to the slot's placement configuration iff the server bid has no truthy `gam` and the slot's `params.gam` is truthy. |
| `Response.BidOutcome` | sspBCAdapter.js:118-161 | An unmatched bid yields nothing. For a matched bid, `cpm` is `flatCpm` if truthy, else the price. A bid is produced iff `cpm > 0` and `cpm >= (bidFloor \|\| 0)`. It carries the slot's bid id, `ttl = exp \|\| 300`, the currency, the size, `mediaType 'banner'`, `netRevenue` true and creative id `'bc' + digits`. |
| `Response.Interpret` | sspBCAdapter.js:110-114 | A response without `seatbid` yields no bids. |
| `Traversal.PresentSound` | sspBCAdapter.js:117-162 | Within one list of outcomes, value t of the collected bids is the outcome at its recorded index. |
| `Traversal.PresentAscend` | sspBCAdapter.js:117-162 | The recorded indices are in range and strictly ascend, so bid order within a seat is kept. |
| `Traversal.PresentComplete` | sspBCAdapter.js:117-162 | Every index whose outcome is a bid is recorded. |
| `Traversal.FlattenSound` | sspBCAdapter.js:114-165 | Across the grid of seats and bids, value t is the accepted outcome at its recorded (seat, bid) position. |
| `Traversal.FlattenAscend` | sspBCAdapter.js:114-165 | The recorded positions strictly ascend in seat-then-bid order, so no sorting takes place. |
| `Traversal.FlattenComplete` | sspBCAdapter.js:114-165 | Every position whose outcome is a bid is recorded, so the siblings of a discarded bid are still processed. |
| `Traversal.FlattenSpec` | sspBCAdapter.js:114-165 | The three facts together: the result is the filter of the outcomes, in traversal order. |
| `Response.InterpretInTraversalOrder` | sspBCAdapter.js:110-166 | The bids returned are exactly the accepted `ProcessBid` outcomes, in seat-then-bid order, with none missed. |
| `Response.InterpretedBidsAnswerSlots` | sspBCAdapter.js:118-158 | Every bid returned carries the bid id of a slot of the round. Its price is positive and at least that slot's floor. It is a net-revenue banner bid. |
| `Response.UnmatchedBidsYieldNothing` | sspBCAdapter.js:118-161 | A response none of whose bids names a slot yields no bids. |
| `Response.InterpretBid` | sspBCAdapter.js:117-162 | The inner loop body produces exactly the outcome `ProcessBid` specifies. |
| `Response.InterpretSeat` | sspBCAdapter.js:117-162 | The inner loop over one seat returns exactly the accepted outcomes of that seat's bids, in bid order. |
| `Response.InterpretResponse` | sspBCAdapter.js:110-166 | The nested loops return exactly `Interpret`: the accepted outcomes, seat by seat and bid by bid. |
| `UserSync.GetUserSyncs` | sspBCAdapter.js:167-176 | It returns one iframe sync to the sync URL iff `iframeEnabled` is truthy, and nothing otherwise. |

## Left out

- Browser reads are inputs in `Request.Browser`. These are `navigator.*`, `window.visualViewport`,
  `window.devicePixelRatio`, `document.referrer` and the top-frame check. A failing read is a
  boolean flag. `navigator.connection || false` and `window.visualViewport || false` are not
  modelled separately: an absent hint is simply `undefined`.
- `cookieSupport`'s user-agent regular expression is not modelled. Its verdict is the input
  `isSafari`.
- Number parsing and conversion are host functions: `parseFloat`, `parseInt` and ToNumber on
  strings. So are `toString` and `utils.parseUrl(..).hostname`. Prices are reals. IEEE floating
  point, `-0` and the infinities are not modelled.
- Relational comparison treats an object or array operand as `NaN`. JavaScript would first turn
  it into a primitive.
- Strings compare by Unicode scalar value, not by UTF-16 code unit.
- `JSON.stringify`, `JSON.parse`, `btoa` and `encodeURI` are not modelled. Neither is the literal
  HTML template. The creative is a record (`Creative`) of the values the document's script is
  built from, and the `mcad` bundle is kept structured.
- `CreativeComposer.RenderCreative`: `window.rekid` is the siteId pasted into the script
  unquoted, so the document evaluates it as script code. A numeric string becomes a number, and a
  non-numeric one can stop the script before `mcad`, `gdpr` and `gam` are set. The model keeps
  the raw siteId value in `Creative.siteId`. The constant global `window.wp_sn = "mc_adapter"`
  is not carried in the record.
- A `gam` member of the markup that is not an object (string, number, array) is not modelled.
  The parse result is an optional object.
- A truthy `targeting` that is not an object is not modelled, for every kind of primitive and
  for arrays: the model treats it as `{}`. In the source, `Object.assign` on a number, boolean or
  string yields a wrapper object, so `window.gam.targeting` would not be the three defaults alone.
- `Math.random` is not modelled. The creative id is `'bc'` followed by `host.randomDigits(seat, bid)`.
- `utils.logWarn` is dropped. Where a warning is logged is noted in comments.
- `registerBidder` is not modelled. Neither are the `spec` metadata (`code`, `aliases`,
  `supportedMediaTypes`) and `onTimeout` (an empty body).
- `interpretResponse` overwrites `serverBid.gam` inside the caller's response object. The model
  passes a filled-in copy to the creative and to nothing else. The update of the caller's response
  object is not captured.
- Inputs on which the source throws a `TypeError` are not modelled:
  - a slot whose `params` is null or undefined (excluded by `requires`);
  - `seatbid` that is `null`;
  - a missing `sizes` or `bid` array.
- `buildRequests` always receives a bidder request, so `applyGdpr`'s `bidderRequest &&` guard is
  not modelled.
- `tmax` is resolved by two calls to `setOnAny`, as in the source. Both calls return the same
  value.
