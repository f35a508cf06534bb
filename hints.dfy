/** `applyClientHints`: the platform's network and display hints that are
    available become named segments of a single `NetInfo` data block on the
    request's `user` object. */
module ClientHints {
  import opened Js
  import opened Ortb

  /** The hint values read from the platform: `navigator.connection`'s
      effectiveType, rtt, saveData and downlink, `navigator.deviceMemory`,
      `window.devicePixelRatio` and `window.visualViewport.width`; a hint the
      platform does not offer is `undefined`. */
  datatype Hints = Hints(
    ect: JsValue,
    rtt: JsValue,
    saveData: JsValue,
    downlink: JsValue,
    deviceMemory: JsValue,
    dpr: JsValue,
    viewportWidth: JsValue)

  /** The segment names, in the order the hints object declares its keys. */
  const HintKeys: seq<string> :=
    ["CH-Ect", "CH-Rtt", "CH-SaveData", "CH-Downlink", "CH-DeviceMemory", "CH-Dpr", "CH-ViewportWidth"]

  /** The hints object's entries in key order. */
  function Entries(h: Hints): (e: seq<(string, JsValue)>)
    ensures |e| == |HintKeys|
    ensures forall k :: 0 <= k < |e| ==> e[k].0 == HintKeys[k]
    ensures e[0].1 == h.ect && e[1].1 == h.rtt && e[2].1 == h.saveData && e[3].1 == h.downlink
    ensures e[4].1 == h.deviceMemory && e[5].1 == h.dpr && e[6].1 == h.viewportWidth
  {
    [("CH-Ect", h.ect), ("CH-Rtt", h.rtt), ("CH-SaveData", h.saveData), ("CH-Downlink", h.downlink),
     ("CH-DeviceMemory", h.deviceMemory), ("CH-Dpr", h.dpr), ("CH-ViewportWidth", h.viewportWidth)]
  }

  /** The segments pushed for a list of entries: one per truthy value, in
      entry order, its value stringified. */
  function Segments(host: Host, e: seq<(string, JsValue)>): seq<Segment>
  {
    if |e| == 0 then []
    else
      var last := e[|e| - 1];
      Segments(host, e[..|e| - 1]) + (if Truthy(last.1) then [Segment(last.0, host.toString(last.1))] else [])
  }

  /** The indices of the entries that `Segments` keeps, ascending. */
  ghost function Kept(e: seq<(string, JsValue)>): seq<nat>
  {
    if |e| == 0 then []
    else Kept(e[..|e| - 1]) + (if Truthy(e[|e| - 1].1) then [|e| - 1] else [])
  }

  /** The data block attached to `user.data`. */
  function NetInfo(segments: seq<Segment>): DataBlock
  {
    DataBlock("12", "NetInfo", segments)
  }

  /** `Segments` is exactly the truthy entries, stringified, in entry order:
      segment t comes from entry `Kept(e)[t]`, those indices ascend, and every
      truthy entry is among them. */
  lemma {:induction false} SegmentsAreTruthyEntriesInOrder(host: Host, e: seq<(string, JsValue)>)
    ensures var s, K := Segments(host, e), Kept(e);
      && |s| == |K|
      && (forall t :: 0 <= t < |K| ==>
            K[t] < |e| && Truthy(e[K[t]].1) && s[t] == Segment(e[K[t]].0, host.toString(e[K[t]].1)))
      && (forall t1, t2 :: 0 <= t1 < t2 < |K| ==> K[t1] < K[t2])
      && (forall k :: 0 <= k < |e| && Truthy(e[k].1) ==> k in K)
  {
    if |e| > 0 {
      var init := e[..|e| - 1];
      SegmentsAreTruthyEntriesInOrder(host, init);
      forall k | 0 <= k < |e| && Truthy(e[k].1) ensures k in Kept(e) {
        if k < |e| - 1 {
          assert e[k] == init[k];
          assert k in Kept(init);
        }
      }
    }
  }

  /** When the entry names are distinct, so are the segment names; a segment
      named after an entry is present iff that entry is truthy, and it then
      holds the entry's string form; there are at most as many segments as
      entries. */
  lemma SegmentNamesFollowEntries(host: Host, e: seq<(string, JsValue)>)
    requires forall a, b :: 0 <= a < b < |e| ==> e[a].0 != e[b].0
    ensures |Segments(host, e)| <= |e|
    ensures forall t :: 0 <= t < |Segments(host, e)| ==>
      exists k :: 0 <= k < |e| && Segments(host, e)[t].name == e[k].0
    ensures forall t1, t2 :: 0 <= t1 < t2 < |Segments(host, e)| ==>
      Segments(host, e)[t1].name != Segments(host, e)[t2].name
    ensures forall k :: 0 <= k < |e| ==>
      ((exists t :: 0 <= t < |Segments(host, e)| && Segments(host, e)[t].name == e[k].0) <==> Truthy(e[k].1))
    ensures forall t, k :: 0 <= t < |Segments(host, e)| && 0 <= k < |e| && Segments(host, e)[t].name == e[k].0 ==>
      Segments(host, e)[t].value == host.toString(e[k].1)
  {
    var s := Segments(host, e);
    SegmentsAreTruthyEntriesInOrder(host, e);
    KeptBounded(e);
    var K := Kept(e);
    forall t | 0 <= t < |s| ensures exists k :: 0 <= k < |e| && s[t].name == e[k].0 {
      assert s[t].name == e[K[t]].0;
    }
    forall t1, t2 | 0 <= t1 < t2 < |s| ensures s[t1].name != s[t2].name {
      assert s[t1].name == e[K[t1]].0 && s[t2].name == e[K[t2]].0;
    }
    forall k | 0 <= k < |e|
      ensures (exists t :: 0 <= t < |s| && s[t].name == e[k].0) <==> Truthy(e[k].1)
    {
      if Truthy(e[k].1) {
        var t :| 0 <= t < |K| && K[t] == k;
        assert s[t].name == e[k].0;
      } else {
        forall t | 0 <= t < |s| ensures s[t].name != e[k].0 {
          assert s[t].name == e[K[t]].0;
        }
      }
    }
    forall t, k | 0 <= t < |s| && 0 <= k < |e| && s[t].name == e[k].0
      ensures s[t].value == host.toString(e[k].1)
    {
      assert s[t].name == e[K[t]].0;
    }
  }

  /** For the hints object: a segment is present for a hint key iff that hint
      is truthy, and it then holds the hint's string form; no other names
      occur, no name occurs twice, and there are at most seven segments. */
  lemma HintPresentIffTruthy(host: Host, h: Hints)
    ensures |Segments(host, Entries(h))| <= |HintKeys|
    ensures forall t :: 0 <= t < |Segments(host, Entries(h))| ==> Segments(host, Entries(h))[t].name in HintKeys
    ensures forall t1, t2 :: 0 <= t1 < t2 < |Segments(host, Entries(h))| ==>
      Segments(host, Entries(h))[t1].name != Segments(host, Entries(h))[t2].name
    ensures forall k :: 0 <= k < |HintKeys| ==>
      ((exists t :: 0 <= t < |Segments(host, Entries(h))| && Segments(host, Entries(h))[t].name == HintKeys[k])
       <==> Truthy(Entries(h)[k].1))
    ensures forall t, k :: 0 <= t < |Segments(host, Entries(h))| && 0 <= k < |HintKeys|
                           && Segments(host, Entries(h))[t].name == HintKeys[k] ==>
      Segments(host, Entries(h))[t].value == host.toString(Entries(h)[k].1)
  {
    var e := Entries(h);
    assert forall a, b :: 0 <= a < b < |e| ==> e[a].0 != e[b].0;
    SegmentNamesFollowEntries(host, e);
  }

  lemma {:induction false} KeptBounded(e: seq<(string, JsValue)>)
    ensures |Kept(e)| <= |e|
  {
    if |e| > 0 {
      KeptBounded(e[..|e| - 1]);
    }
  }

  /** The in-place step: push one segment per truthy hint, then set
      `user.data` to the single `NetInfo` block. */
  method ApplyClientHints(host: Host, h: Hints, ortbRequest: OrtbRequest)
    modifies ortbRequest
    ensures ortbRequest.Value() == old(ortbRequest.Value()).(
      user := old(ortbRequest.user).(data := Some([NetInfo(Segments(host, Entries(h)))])))
  {
    var hints := Entries(h);
    var segments: seq<Segment> := [];
    for i := 0 to |hints|
      invariant segments == Segments(host, hints[..i])
    {
      assert hints[..i + 1][..i] == hints[..i];
      var hint := hints[i].1;
      if Truthy(hint) {
        segments := segments + [Segment(hints[i].0, host.toString(hint))];
      }
    }
    assert hints[..|hints|] == hints;
    var data := [NetInfo(segments)];
    ortbRequest.user := ortbRequest.user.(data := Some(data));
  }
}
