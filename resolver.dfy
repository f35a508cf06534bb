/** `setOnAny`: an auction-wide setting that each slot may carry in its
    params is taken from the first slot, in request order, that carries a
    truthy value for it. */
module Resolver {
  import opened Js
  import opened Types

  /** The value `setOnAny(slots, 'params.' + key)` returns: the first truthy
      `params[key]` in slot order, or `undefined`. */
  function Resolve(slots: seq<Slot>, key: string): JsValue
  {
    if |slots| == 0 then Undefined
    else if Truthy(Param(slots[0], key)) then Param(slots[0], key)
    else Resolve(slots[1..], key)
  }

  /** `Resolve` returns the value at the lowest index whose value is truthy,
      all earlier values being falsy, and `undefined` when there is none. */
  lemma {:induction false} ResolveIsFirstTruthy(slots: seq<Slot>, key: string)
    ensures var r := Resolve(slots, key);
      (Truthy(r) <==> exists i :: 0 <= i < |slots| && Truthy(Param(slots[i], key)))
      && (!Truthy(r) ==> r == Undefined)
      && (Truthy(r) ==> exists i :: 0 <= i < |slots| && Param(slots[i], key) == r
                                      && forall j :: 0 <= j < i ==> !Truthy(Param(slots[j], key)))
  {
    if |slots| > 0 && !Truthy(Param(slots[0], key)) {
      var rest := slots[1..];
      ResolveIsFirstTruthy(rest, key);
      if Truthy(Resolve(rest, key)) {
        var i :| 0 <= i < |rest| && Param(rest[i], key) == Resolve(rest, key)
                 && forall j :: 0 <= j < i ==> !Truthy(Param(rest[j], key));
        assert Param(slots[i + 1], key) == Resolve(slots, key);
        forall j | 0 <= j < i + 1 ensures !Truthy(Param(slots[j], key)) {
          if j > 0 { assert slots[j] == rest[j - 1]; }
        }
      } else {
        forall i | 0 <= i < |slots| ensures !Truthy(Param(slots[i], key)) {
          if i > 0 { assert slots[i] == rest[i - 1]; }
        }
      }
    }
  }

  /** The scan itself: an indexed loop that returns at the first truthy value. */
  method SetOnAny(collection: seq<Slot>, key: string) returns (result: JsValue)
    ensures result == Resolve(collection, key)
    ensures Truthy(result) ==> exists i :: 0 <= i < |collection| && Param(collection[i], key) == result
                                            && forall j :: 0 <= j < i ==> !Truthy(Param(collection[j], key))
    ensures !Truthy(result) ==> result == Undefined && forall i :: 0 <= i < |collection| ==> !Truthy(Param(collection[i], key))
  {
    var i := 0;
    while i < |collection|
      invariant 0 <= i <= |collection|
      invariant forall j :: 0 <= j < i ==> !Truthy(Param(collection[j], key))
      invariant Resolve(collection, key) == Resolve(collection[i..], key)
    {
      result := Param(collection[i], key);
      if Truthy(result) {
        return;
      }
      assert collection[i..][1..] == collection[i + 1..];
      i := i + 1;
    }
    result := Undefined;
  }
}
