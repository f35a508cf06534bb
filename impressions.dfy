/** Slot validation and the per-slot mapping to OpenRTB impressions. */
module Impressions {
  import opened Js
  import opened Types
  import opened Ortb

  /** `isBidRequestValid`: a slot is usable iff its params carry a truthy `id`. */
  function IsBidRequestValid(bid: Slot): (valid: bool)
    ensures valid <==> bid.params.Obj? && "id" in bid.params.fields && Truthy(bid.params.fields["id"])
  {
    Truthy(bid.params) && Truthy(Param(bid, "id"))
  }

  /** `mapBanner`: a banner object when the slot is a banner slot or declares
      no media type at all; its formats are the slot's sizes, in order. */
  function MapBanner(slot: Slot): (banner: Option<Banner>)
    ensures banner.Some? <==>
      (slot.mediaType == Str("banner")
       || Truthy(Prop(slot.mediaTypes, "banner"))
       || (!Truthy(slot.mediaType) && !Truthy(slot.mediaTypes)))
    ensures banner.Some? ==> banner.value.id == slot.bidId && |banner.value.format| == |slot.sizes|
    ensures banner.Some? ==> forall i :: 0 <= i < |slot.sizes| ==>
      banner.value.format[i].w == At(slot.sizes[i], 0) && banner.value.format[i].h == At(slot.sizes[i], 1)
  {
    if StrictEq(slot.mediaType, Str("banner"))
       || Truthy(Prop(slot.mediaTypes, "banner"))
       || (!Truthy(slot.mediaType) && !Truthy(slot.mediaTypes))
    then
      var format := seq(|slot.sizes|, i requires 0 <= i < |slot.sizes| => Format(At(slot.sizes[i], 0), At(slot.sizes[i], 1)));
      Some(Banner(format, slot.bidId))
    else None
  }

  /** `mapImpression`: the impression's id and tag id are both the slot's
      `params.id`; a floor is attached iff `parseFloat(params.bidfloor)` is a
      number other than zero (negative floors included). */
  function MapImpression(host: Host, slot: Slot): (imp: Imp)
    requires HasParams(slot)
    ensures imp.id == Param(slot, "id") && imp.tagid == Param(slot, "id")
    ensures imp.banner == MapBanner(slot)
    ensures imp.bidfloor.Some? <==>
      (host.parseFloat(Param(slot, "bidfloor")).Some? && host.parseFloat(Param(slot, "bidfloor")).value != 0.0)
    ensures imp.bidfloor.Some? ==> imp.bidfloor == host.parseFloat(Param(slot, "bidfloor"))
  {
    var imp := Imp(Param(slot, "id"), MapBanner(slot), Param(slot, "id"), None);
    var bidfloor := NumberOf(host.parseFloat(Param(slot, "bidfloor")));
    if Truthy(bidfloor) then imp.(bidfloor := Some(bidfloor.r)) else imp
  }

  /** `validBidRequests.map(mapImpression)`. */
  function MapImpressions(host: Host, slots: seq<Slot>): (imps: seq<Imp>)
    requires AllHaveParams(slots)
    ensures |imps| == |slots|
    ensures forall i :: 0 <= i < |slots| ==> imps[i] == MapImpression(host, slots[i])
  {
    seq(|slots|, i requires 0 <= i < |slots| && AllHaveParams(slots) => MapImpression(host, slots[i]))
  }

  /** The impression ids of a payload are pairwise distinct exactly when the
      slots' `params.id` values are: the adapter neither invents nor merges ids. */
  lemma ImpIdsDistinctIffSlotIdsDistinct(host: Host, slots: seq<Slot>)
    requires AllHaveParams(slots)
    ensures var imps := MapImpressions(host, slots);
      (forall i, j :: 0 <= i < j < |imps| ==> imps[i].id != imps[j].id)
      <==> (forall i, j :: 0 <= i < j < |slots| ==> Param(slots[i], "id") != Param(slots[j], "id"))
  {
    var imps := MapImpressions(host, slots);
    forall i | 0 <= i < |slots| ensures imps[i].id == Param(slots[i], "id") {
      assert imps[i] == MapImpression(host, slots[i]);
    }
  }

  /** A slot that passes validation yields an impression with a truthy id. */
  lemma ValidSlotHasImpId(host: Host, slot: Slot)
    requires IsBidRequestValid(slot)
    ensures HasParams(slot)
    ensures Truthy(MapImpression(host, slot).id) && MapImpression(host, slot).tagid == MapImpression(host, slot).id
  {
  }
}
