/** `interpretResponse`: every returned bid, seat by seat and bid by bid, is
    matched to the slot whose `params.id` equals its `impid`, priced, checked
    against the slot's floor, and turned into a bid for the auction. */
module Response {
  import opened Js
  import opened Types
  import opened Exchange
  import opened CreativeComposer
  import opened Traversal

  const BIDDER_CODE: string := "sspBC"
  const DEFAULT_TTL: real := 300.0

  /** `bids.filter(b => b.params.id === impid)[0]`, as the index of the
      matching slot. */
  function FindSlot(slots: seq<Slot>, impid: JsValue): (k: Option<nat>)
    ensures k.Some? ==> k.value < |slots|
  {
    if |slots| == 0 then None
    else if StrictEq(Param(slots[0], "id"), impid) then Some(0)
    else match FindSlot(slots[1..], impid)
      case None => None
      case Some(k) => Some(k + 1)
  }

  /** The match is the first slot whose `params.id` is strictly equal to
      `impid`; there is none iff no slot's is. */
  lemma {:induction false} FindSlotIsFirstMatch(slots: seq<Slot>, impid: JsValue)
    ensures var k := FindSlot(slots, impid);
      && (k.Some? ==> StrictEq(Param(slots[k.value], "id"), impid))
      && (k.Some? ==> forall j :: 0 <= j < k.value ==> !StrictEq(Param(slots[j], "id"), impid))
      && (k.None? ==> forall j :: 0 <= j < |slots| ==> !StrictEq(Param(slots[j], "id"), impid))
  {
    if |slots| > 0 && !StrictEq(Param(slots[0], "id"), impid) {
      FindSlotIsFirstMatch(slots[1..], impid);
      forall j | 1 <= j < |slots| ensures slots[j] == slots[1..][j - 1] { }
    }
  }

  /** The GAM configuration built from the slot's params when the exchange
      sent none. */
  function GamPlacementConfig(params: JsValue): JsValue
  {
    Obj(map[
      "placement" := Prop(params, "gam"),
      "multiplier" := Num(1.0),
      "floor" := Prop(params, "gamFloor"),
      "ceil" := Num(100.0),
      "namedSizes" := Arr([Str("fluid")]),
      "div" := Str(GAM_DIV),
      "targeting" := Obj(map["OAS_retarg" := Str("0"), "PREBID_ON" := Str("1"), "DFPHASH" := Str(""), "emptygaf" := Str("0")])
    ])
  }

  /** The server bid after lines 122-138: its `gam` is filled in from the slot
      only when it has none and the slot's params name one. */
  function WithGamConfig(host: Host, serverBid: ServerBid, slot: Slot): (filled: ServerBid)
    ensures filled.(gam := serverBid.gam) == serverBid
    ensures Truthy(serverBid.gam) || !Truthy(Param(slot, "gam")) ==> filled == serverBid
    ensures !Truthy(serverBid.gam) && Truthy(Param(slot, "gam")) ==>
      filled.gam == Str(host.stringify(GamPlacementConfig(slot.params)))
  {
    if !Truthy(serverBid.gam) && Truthy(Param(slot, "gam"))
    then serverBid.(gam := Str(host.stringify(GamPlacementConfig(slot.params))))
    else serverBid
  }

  /** `params.bidFloor || 0`. */
  function Floor(slot: Slot): JsValue
  {
    Or(Param(slot, "bidFloor"), Num(0.0))
  }

  /** `params.flatCpm || serverBid.price`. */
  function Cpm(slot: Slot, serverBid: ServerBid): JsValue
  {
    Or(Param(slot, "flatCpm"), serverBid.price)
  }

  /** The acceptance rule: `cpm > 0` and `cpm >= floor`. */
  predicate Accepted(host: Host, cpm: JsValue, floor: JsValue)
  {
    Greater(host.strToNum, cpm, Num(0.0)) && GreaterEq(host.strToNum, cpm, floor)
  }

  /** What one auction round's interpretation depends on. */
  datatype Round = Round(host: Host, response: ExchangeResponse, slots: seq<Slot>, gdprConsent: Option<GdprConsent>)

  /** The outcome of the bid at position (i, j): no bid when its `impid`
      matches no slot or the price is not accepted; otherwise a banner bid,
      net revenue, priced at `flatCpm` when that is truthy and at the returned
      price otherwise, with the returned expiry or 300 s as its lifetime. */
  function ProcessBid(r: Round, seats: seq<SeatBid>, i: nat, j: nat): Option<NormalizedBid>
    requires AllHaveParams(r.slots) && i < |seats| && j < |seats[i].bid|
  {
    var serverBid := seats[i].bid[j];
    match FindSlot(r.slots, serverBid.impid)
    case None => None
    case Some(k) =>
      var slot := r.slots[k];
      var filled := WithGamConfig(r.host, serverBid, slot);
      var ad := Creative(Param(slot, "siteId"), Mcad(r.response.id, seats[i].seat, filled), r.gdprConsent,
                         GamFromAdm(r.host, filled.adm));
      var bid := NormalizedBid(slot.bidId, "bc" + r.host.randomDigits(i, j), Cpm(slot, serverBid), r.response.cur,
                               Or(serverBid.exp, Num(DEFAULT_TTL)), serverBid.w, serverBid.h, BIDDER_CODE, "banner",
                               true, ad);
      if Accepted(r.host, bid.cpm, Floor(slot)) then Some(bid) else None
  }

  /** The outcome of one returned bid: none when its `impid` matches no slot;
      otherwise a bid exactly when `cpm > 0` and `cpm >= floor`, where `cpm` is
      the slot's `flatCpm` if truthy and the returned price otherwise and the
      floor is the slot's `bidFloor` if truthy and 0 otherwise; the bid is a
      net-revenue banner bid for the slot, living `exp` seconds or 300. */
  lemma BidOutcome(r: Round, seats: seq<SeatBid>, i: nat, j: nat)
    requires AllHaveParams(r.slots) && i < |seats| && j < |seats[i].bid|
    ensures FindSlot(r.slots, seats[i].bid[j].impid).None? ==> ProcessBid(r, seats, i, j).None?
    ensures FindSlot(r.slots, seats[i].bid[j].impid).Some? ==>
      var slot, serverBid := r.slots[FindSlot(r.slots, seats[i].bid[j].impid).value], seats[i].bid[j];
      var flatCpm := Param(slot, "flatCpm");
      var cpm := if Truthy(flatCpm) then flatCpm else serverBid.price;
      var floor := if Truthy(Param(slot, "bidFloor")) then Param(slot, "bidFloor") else Num(0.0);
      && (ProcessBid(r, seats, i, j).Some? <==> Greater(r.host.strToNum, cpm, Num(0.0)) && GreaterEq(r.host.strToNum, cpm, floor))
      && (ProcessBid(r, seats, i, j).Some? ==>
            var bid := ProcessBid(r, seats, i, j).value;
            && bid.requestId == slot.bidId
            && bid.cpm == cpm
            && bid.currency == r.response.cur
            && (Truthy(serverBid.exp) ==> bid.ttl == serverBid.exp)
            && (!Truthy(serverBid.exp) ==> bid.ttl == Num(DEFAULT_TTL))
            && bid.width == serverBid.w && bid.height == serverBid.h
            && bid.bidderCode == BIDDER_CODE && bid.mediaType == "banner" && bid.netRevenue
            && bid.creativeId == "bc" + r.host.randomDigits(i, j)
            && bid.ad.siteId == Param(slot, "siteId")
            && bid.ad.mcad == Mcad(r.response.id, seats[i].seat, WithGamConfig(r.host, serverBid, slot))
            && bid.ad.gdpr == r.gdprConsent
            && bid.ad.gam == GamFromAdm(r.host, serverBid.adm))
  {
  }

  /** The outcomes of seat i's bids, in bid order. */
  function SeatOutcomes(r: Round, seats: seq<SeatBid>, i: nat): seq<Option<NormalizedBid>>
    requires AllHaveParams(r.slots) && i < |seats|
  {
    seq(|seats[i].bid|, j requires 0 <= j < |seats[i].bid| => ProcessBid(r, seats, i, j))
  }

  /** The outcomes of every bid, seat by seat. */
  function Outcomes(r: Round, seats: seq<SeatBid>): seq<seq<Option<NormalizedBid>>>
    requires AllHaveParams(r.slots)
  {
    seq(|seats|, i requires 0 <= i < |seats| => SeatOutcomes(r, seats, i))
  }

  /** The bids `interpretResponse` returns: none without `seatbid`. */
  function Interpret(host: Host, response: ExchangeResponse, bidderRequest: BidderRequest): (bids: seq<NormalizedBid>)
    requires AllHaveParams(bidderRequest.bids)
    ensures response.seatbid.None? ==> bids == []
  {
    if response.seatbid.None? then []
    else Flatten(Outcomes(Round(host, response, bidderRequest.bids, bidderRequest.gdprConsent), response.seatbid.value))
  }

  /** The bids returned are exactly the accepted outcomes, in seat-then-bid
      traversal order: bid t is the outcome at position `FlattenAt[t]`, the
      positions strictly ascend, and every position whose outcome is a bid is
      among them, so the siblings of a discarded bid still contribute. */
  lemma InterpretInTraversalOrder(host: Host, response: ExchangeResponse, bidderRequest: BidderRequest)
    requires AllHaveParams(bidderRequest.bids) && response.seatbid.Some?
    ensures var r, seats := Round(host, response, bidderRequest.bids, bidderRequest.gdprConsent), response.seatbid.value;
      var O, B := FlattenAt(Outcomes(r, seats)), Interpret(host, response, bidderRequest);
      && |O| == |B|
      && (forall t :: 0 <= t < |O| ==>
            O[t].0 < |seats| && O[t].1 < |seats[O[t].0].bid| && ProcessBid(r, seats, O[t].0, O[t].1) == Some(B[t]))
      && (forall t1, t2 :: 0 <= t1 < t2 < |O| ==> Before(O[t1], O[t2]))
      && (forall i, j :: 0 <= i < |seats| && 0 <= j < |seats[i].bid| && ProcessBid(r, seats, i, j).Some? ==> (i, j) in O)
  {
    var r, seats := Round(host, response, bidderRequest.bids, bidderRequest.gdprConsent), response.seatbid.value;
    var g := Outcomes(r, seats);
    FlattenSpec(g);
    forall i, j | 0 <= i < |seats| && 0 <= j < |seats[i].bid| ensures g[i][j] == ProcessBid(r, seats, i, j) { }
  }

  /** A bid answers a slot: it carries the slot's bid id, is a net-revenue
      banner bid, and its price is positive and at least the slot's floor. */
  predicate AnswersSlot(host: Host, bid: NormalizedBid, slot: Slot)
  {
    && bid.requestId == slot.bidId
    && Greater(host.strToNum, bid.cpm, Num(0.0))
    && GreaterEq(host.strToNum, bid.cpm, Floor(slot))
    && bid.mediaType == "banner"
    && bid.netRevenue
  }

  /** Every bid handed back answers a slot of the round. */
  lemma InterpretedBidsAnswerSlots(host: Host, response: ExchangeResponse, bidderRequest: BidderRequest)
    requires AllHaveParams(bidderRequest.bids)
    ensures forall t :: 0 <= t < |Interpret(host, response, bidderRequest)| ==>
      exists k :: 0 <= k < |bidderRequest.bids| &&
        AnswersSlot(host, Interpret(host, response, bidderRequest)[t], bidderRequest.bids[k])
  {
    if response.seatbid.Some? {
      var seats := response.seatbid.value;
      var r := Round(host, response, bidderRequest.bids, bidderRequest.gdprConsent);
      var g := Outcomes(r, seats);
      FlattenSound(g);
      var O, B := FlattenAt(g), Flatten(g);
      var slots := bidderRequest.bids;
      forall t | 0 <= t < |B| ensures exists k :: 0 <= k < |slots| && AnswersSlot(host, B[t], slots[k]) {
        var i, j := O[t].0, O[t].1;
        assert g[i][j] == ProcessBid(r, seats, i, j);
        BidOutcome(r, seats, i, j);
        var k := FindSlot(slots, seats[i].bid[j].impid).value;
        assert AnswersSlot(host, B[t], slots[k]);
      }
      assert Interpret(host, response, bidderRequest) == B;
    } else {
      assert Interpret(host, response, bidderRequest) == [];
    }
  }

  /** A response none of whose bids names a slot of the round yields no bids. */
  lemma UnmatchedBidsYieldNothing(host: Host, response: ExchangeResponse, bidderRequest: BidderRequest)
    requires AllHaveParams(bidderRequest.bids)
    requires response.seatbid.Some?
    requires forall i, j :: 0 <= i < |response.seatbid.value| && 0 <= j < |response.seatbid.value[i].bid| ==>
      FindSlot(bidderRequest.bids, response.seatbid.value[i].bid[j].impid).None?
    ensures Interpret(host, response, bidderRequest) == []
  {
    var seats := response.seatbid.value;
    var r := Round(host, response, bidderRequest.bids, bidderRequest.gdprConsent);
    var g := Outcomes(r, seats);
    FlattenSound(g);
    var O := FlattenAt(g);
    if |O| > 0 {
      BidOutcome(r, seats, O[0].0, O[0].1);
      assert false;
    }
  }

  /** The body of the inner `forEach`: match, price, fill in the GAM
      configuration, render, and keep the bid if its price is accepted. */
  method InterpretBid(host: Host, response: ExchangeResponse, bidderRequest: BidderRequest, seats: seq<SeatBid>,
                      i: nat, j: nat)
    returns (accepted: Option<NormalizedBid>)
    requires AllHaveParams(bidderRequest.bids) && i < |seats| && j < |seats[i].bid|
    ensures accepted == ProcessBid(Round(host, response, bidderRequest.bids, bidderRequest.gdprConsent), seats, i, j)
  {
    var seat := seats[i].seat;
    var serverBid := seats[i].bid[j];
    accepted := None;
    var found := FindSlot(bidderRequest.bids, serverBid.impid);
    if found.Some? {
      var bidRequest := bidderRequest.bids[found.value];
      var bidFloor := Or(Param(bidRequest, "bidFloor"), Num(0.0));
      var bidCpm := Param(bidRequest, "flatCpm");
      if !Truthy(serverBid.gam) && Truthy(Param(bidRequest, "gam")) {
        serverBid := serverBid.(gam := Str(host.stringify(GamPlacementConfig(bidRequest.params))));
      }
      var ad := RenderCreative(host, Param(bidRequest, "siteId"), response.id, serverBid, seat,
                               bidderRequest.gdprConsent);
      var bid := NormalizedBid(bidRequest.bidId, "bc" + host.randomDigits(i, j), Or(bidCpm, serverBid.price),
                               response.cur, Or(serverBid.exp, Num(DEFAULT_TTL)), serverBid.w, serverBid.h,
                               BIDDER_CODE, "banner", true, ad);
      if Greater(host.strToNum, bid.cpm, Num(0.0)) {
        if GreaterEq(host.strToNum, bid.cpm, bidFloor) {
          accepted := Some(bid);
        } else {
          // Discarded below the floor (a warning is logged).
        }
      }
    } else {
      // No slot with this impid (a warning is logged).
    }
  }

  /** The inner `forEach` over one seat's bids, in order, appending each
      accepted bid as it is met. */
  method InterpretSeat(host: Host, response: ExchangeResponse, bidderRequest: BidderRequest, seats: seq<SeatBid>,
                       i: nat)
    returns (seatBids: seq<NormalizedBid>)
    requires AllHaveParams(bidderRequest.bids) && i < |seats|
    ensures seatBids == Present(SeatOutcomes(Round(host, response, bidderRequest.bids, bidderRequest.gdprConsent), seats, i))
  {
    ghost var os := SeatOutcomes(Round(host, response, bidderRequest.bids, bidderRequest.gdprConsent), seats, i);
    seatBids := [];
    var j := 0;
    while j < |seats[i].bid|
      invariant 0 <= j <= |seats[i].bid|
      invariant seatBids == Present(os[..j])
    {
      var accepted := InterpretBid(host, response, bidderRequest, seats, i, j);
      assert os[..j + 1][..j] == os[..j] && os[..j + 1][j] == accepted;
      if accepted.Some? {
        seatBids := seatBids + [accepted.value];
      }
      j := j + 1;
    }
    assert os[..|seats[i].bid|] == os;
  }

  /** The two nested loops: seats in order, bids in order within each seat,
      accepted bids appended as they are met. */
  method InterpretResponse(host: Host, response: ExchangeResponse, bidderRequest: BidderRequest)
    returns (bids: seq<NormalizedBid>)
    requires AllHaveParams(bidderRequest.bids)
    ensures bids == Interpret(host, response, bidderRequest)
  {
    bids := [];
    if response.seatbid.Some? {
      var seats := response.seatbid.value;
      ghost var g := Outcomes(Round(host, response, bidderRequest.bids, bidderRequest.gdprConsent), seats);
      var i := 0;
      while i < |seats|
        invariant 0 <= i <= |seats|
        invariant bids == Flatten(g[..i])
      {
        var seatBids := InterpretSeat(host, response, bidderRequest, seats, i);
        assert g[..i + 1][..i] == g[..i] && Present(g[..i + 1][i]) == seatBids;
        bids := bids + seatBids;
        i := i + 1;
      }
      assert g[..|seats|] == g;
    }
  }
}
