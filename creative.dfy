/** The creative composer (`renderCreative`): what the generated document
    exposes, and the normalisation of the GAM configuration found in the ad
    markup. */
module CreativeComposer {
  import opened Js
  import opened Types
  import opened Exchange

  const GAM_DIV: string := "div-gpt-ad-x01"

  /** The targeting keys `renderCreative` forces, with their values. */
  const DefaultTargeting: map<string, JsValue> :=
    map["OAS_retarg" := Str("0"), "PREBID_ON" := Str("1"), "emptygaf" := Str("0")]

  /** `gam.targeting || {}`, as the object `Object.assign` writes into. */
  function ExistingTargeting(gam: map<string, JsValue>): map<string, JsValue>
  {
    if "targeting" in gam && gam["targeting"].Obj? then gam["targeting"].fields else map[]
  }

  /** A non-empty GAM configuration after normalisation, in the order the
      source writes its fields. */
  function Normalized(gam: map<string, JsValue>): map<string, JsValue>
  {
    var g1 := gam["namedSizes" := Arr([Str("fluid")])];
    var g2 := g1["div" := Str(GAM_DIV)];
    g2["targeting" := Obj(ExistingTargeting(g2) + DefaultTargeting)]
  }

  /** Normalisation overwrites `namedSizes` and `div` and keeps every other
      key; the targeting object keeps its own keys, but the three default
      keys are forced to their defaults, whatever the exchange sent. */
  lemma NormalizedSpec(gam: map<string, JsValue>)
    ensures var g := Normalized(gam);
      && g.Keys == gam.Keys + {"namedSizes", "div", "targeting"}
      && g["namedSizes"] == Arr([Str("fluid")]) && g["div"] == Str(GAM_DIV)
      && (forall k :: k in gam && k != "namedSizes" && k != "div" && k != "targeting" ==> g[k] == gam[k])
      && g["targeting"].Obj?
      && g["targeting"].fields.Keys == ExistingTargeting(gam).Keys + DefaultTargeting.Keys
      && g["targeting"].fields["OAS_retarg"] == Str("0")
      && g["targeting"].fields["PREBID_ON"] == Str("1")
      && g["targeting"].fields["emptygaf"] == Str("0")
      && (forall k :: k in ExistingTargeting(gam) && k !in DefaultTargeting ==>
            g["targeting"].fields[k] == ExistingTargeting(gam)[k])
  {
    var g1 := gam["namedSizes" := Arr([Str("fluid")])];
    assert ExistingTargeting(g1["div" := Str(GAM_DIV)]) == ExistingTargeting(gam);
  }

  /** The GAM configuration the document publishes. */
  function GamFromAdm(host: Host, adm: JsValue): Option<map<string, JsValue>>
  {
    if !Truthy(adm) then None
    else match host.parseAdm(adm)
      case ParseError => None
      case Parsed(parsed) =>
        if parsed.None? || |parsed.value| == 0 then None else Some(Normalized(parsed.value))
  }

  /** No configuration when the markup is falsy, does not parse, has no `gam`
      or an empty one; otherwise the parsed configuration, normalised. */
  lemma GamFromAdmSpec(host: Host, adm: JsValue)
    ensures GamFromAdm(host, adm).Some? <==>
      Truthy(adm) && host.parseAdm(adm).Parsed? && host.parseAdm(adm).gam.Some?
      && |host.parseAdm(adm).gam.value| > 0
    ensures GamFromAdm(host, adm).Some? ==> GamFromAdm(host, adm).value == Normalized(host.parseAdm(adm).gam.value)
  {
  }

  /** `renderCreative`: the parsed configuration is updated field by field;
      the `window.gam` line is emitted iff a configuration remains. */
  method RenderCreative(host: Host, siteId: JsValue, auctionId: JsValue, bid: ServerBid, seat: JsValue,
                        gdprConsent: Option<GdprConsent>)
    returns (ad: Creative)
    ensures ad.siteId == siteId
    ensures ad.mcad == Mcad(auctionId, seat, bid)
    ensures ad.gdpr == gdprConsent
    ensures ad.gam == GamFromAdm(host, bid.adm)
  {
    var gam: Option<map<string, JsValue>> := None;
    if Truthy(bid.adm) {
      var parsed := host.parseAdm(bid.adm);
      if parsed.Parsed? {
        if parsed.gam.None? || |parsed.gam.value| == 0 {
          gam := None;
        } else {
          var g := parsed.gam.value;
          g := g["namedSizes" := Arr([Str("fluid")])];
          g := g["div" := Str(GAM_DIV)];
          g := g["targeting" := Obj(ExistingTargeting(g) + DefaultTargeting)];
          gam := Some(g);
        }
        // The later `if (gam && !gam.targeting)` cannot fire: normalisation
        // always sets `targeting` to an object.
      } else {
        // JSON.parse threw: the warning is logged and no configuration is used.
      }
    }
    ad := Creative(siteId, Mcad(auctionId, seat, bid), gdprConsent, gam);
  }
}
