/** Collecting the present values from a list of optional outcomes, and from
    a grid of them row by row: the shape of a loop that visits every element
    in order and appends only the accepted ones.  The lemmas say that the
    result is exactly the present values, in traversal order. */
module Traversal {
  import opened Js

  /** The present values of a list of outcomes, in order. */
  function Present<T>(os: seq<Option<T>>): seq<T>
  {
    if |os| == 0 then []
    else Present(os[..|os| - 1]) + (if os[|os| - 1].Some? then [os[|os| - 1].value] else [])
  }

  /** The present values of a grid of outcomes, row by row. */
  function Flatten<T>(grid: seq<seq<Option<T>>>): seq<T>
  {
    if |grid| == 0 then [] else Flatten(grid[..|grid| - 1]) + Present(grid[|grid| - 1])
  }

  /** The indices of the present outcomes, ascending. */
  ghost function PresentAt<T>(os: seq<Option<T>>): seq<nat>
  {
    if |os| == 0 then []
    else PresentAt(os[..|os| - 1]) + (if os[|os| - 1].Some? then [|os| - 1] else [])
  }

  /** Indices within row i, as grid positions. */
  ghost function InRow(i: nat, ks: seq<nat>): (ps: seq<(nat, nat)>)
    ensures |ps| == |ks|
    ensures forall k :: 0 <= k < |ks| ==> ps[k] == (i, ks[k])
  {
    seq(|ks|, k requires 0 <= k < |ks| => (i, ks[k]))
  }

  /** The positions, row then column, of the present outcomes of a grid. */
  ghost function FlattenAt<T>(grid: seq<seq<Option<T>>>): seq<(nat, nat)>
  {
    if |grid| == 0 then []
    else FlattenAt(grid[..|grid| - 1]) + InRow(|grid| - 1, PresentAt(grid[|grid| - 1]))
  }

  /** Traversal order: row first, then column within the row. */
  predicate Before(a: (nat, nat), b: (nat, nat))
  {
    a.0 < b.0 || (a.0 == b.0 && a.1 < b.1)
  }

  /** Value t of `Present` is the outcome at index `PresentAt[t]`. */
  lemma {:induction false} PresentSound<T>(os: seq<Option<T>>)
    ensures |PresentAt(os)| == |Present(os)|
    ensures forall t :: 0 <= t < |PresentAt(os)| ==>
      PresentAt(os)[t] < |os| && os[PresentAt(os)[t]] == Some(Present(os)[t])
  {
    if |os| > 0 {
      var init := os[..|os| - 1];
      PresentSound(init);
      forall t | 0 <= t < |PresentAt(init)|
        ensures PresentAt(os)[t] == PresentAt(init)[t] && Present(os)[t] == Present(init)[t]
        ensures os[PresentAt(init)[t]] == init[PresentAt(init)[t]]
      {
      }
    }
  }

  /** The indices in `PresentAt` are in range and strictly ascend. */
  lemma {:induction false} PresentAscend<T>(os: seq<Option<T>>)
    ensures forall t :: 0 <= t < |PresentAt(os)| ==> PresentAt(os)[t] < |os|
    ensures forall t1, t2 :: 0 <= t1 < t2 < |PresentAt(os)| ==> PresentAt(os)[t1] < PresentAt(os)[t2]
  {
    if |os| > 0 {
      var init := os[..|os| - 1];
      PresentAscend(init);
      forall t | 0 <= t < |PresentAt(init)| ensures PresentAt(os)[t] == PresentAt(init)[t] { }
    }
  }

  /** Every present outcome's index is in `PresentAt`. */
  lemma {:induction false} PresentComplete<T>(os: seq<Option<T>>)
    ensures forall j :: 0 <= j < |os| && os[j].Some? ==> j in PresentAt(os)
  {
    if |os| > 0 {
      var init := os[..|os| - 1];
      PresentComplete(init);
      forall j | 0 <= j < |os| - 1 ensures os[j] == init[j] { }
    }
  }

  /** Value t of `Flatten` is the outcome at position `FlattenAt[t]`. */
  lemma {:induction false} FlattenSound<T>(grid: seq<seq<Option<T>>>)
    ensures |FlattenAt(grid)| == |Flatten(grid)|
    ensures forall t :: 0 <= t < |FlattenAt(grid)| ==>
      FlattenAt(grid)[t].0 < |grid| && FlattenAt(grid)[t].1 < |grid[FlattenAt(grid)[t].0]|
      && grid[FlattenAt(grid)[t].0][FlattenAt(grid)[t].1] == Some(Flatten(grid)[t])
  {
    if |grid| > 0 {
      var n := |grid|;
      var init := grid[..n - 1];
      FlattenSound(init);
      PresentSound(grid[n - 1]);
      var O', B' := FlattenAt(init), Flatten(init);
      var S, SB := InRow(n - 1, PresentAt(grid[n - 1])), Present(grid[n - 1]);
      var O, B := FlattenAt(grid), Flatten(grid);
      assert O == O' + S && B == B' + SB;
      forall t | 0 <= t < |O|
        ensures O[t].0 < n && O[t].1 < |grid[O[t].0]| && grid[O[t].0][O[t].1] == Some(B[t])
      {
        if t < |O'| {
          assert O[t] == O'[t] && B[t] == B'[t];
          assert grid[O[t].0] == init[O[t].0];
        } else {
          assert O[t] == S[t - |O'|] && B[t] == SB[t - |O'|];
        }
      }
    }
  }

  /** The positions in `FlattenAt` ascend in row-then-column order. */
  lemma {:induction false} FlattenAscend<T>(grid: seq<seq<Option<T>>>)
    ensures forall t :: 0 <= t < |FlattenAt(grid)| ==> FlattenAt(grid)[t].0 < |grid|
    ensures forall t1, t2 :: 0 <= t1 < t2 < |FlattenAt(grid)| ==> Before(FlattenAt(grid)[t1], FlattenAt(grid)[t2])
  {
    if |grid| > 0 {
      var n := |grid|;
      var init := grid[..n - 1];
      FlattenAscend(init);
      PresentAscend(grid[n - 1]);
      var O' := FlattenAt(init);
      var S := InRow(n - 1, PresentAt(grid[n - 1]));
      var O := FlattenAt(grid);
      assert O == O' + S;
      forall t1, t2 | 0 <= t1 < t2 < |O| ensures Before(O[t1], O[t2]) {
        if t2 < |O'| {
          assert O[t1] == O'[t1] && O[t2] == O'[t2];
        } else if t1 < |O'| {
          assert O[t1] == O'[t1] && O[t2] == S[t2 - |O'|];
        } else {
          assert O[t1] == S[t1 - |O'|] && O[t2] == S[t2 - |O'|];
        }
      }
    }
  }

  /** Every position of the grid holding a present outcome is in `FlattenAt`. */
  lemma {:induction false} FlattenComplete<T>(grid: seq<seq<Option<T>>>)
    ensures forall i, j :: 0 <= i < |grid| && 0 <= j < |grid[i]| && grid[i][j].Some? ==> (i, j) in FlattenAt(grid)
  {
    if |grid| > 0 {
      var n := |grid|;
      var init := grid[..n - 1];
      FlattenComplete(init);
      PresentComplete(grid[n - 1]);
      var S := InRow(n - 1, PresentAt(grid[n - 1]));
      assert FlattenAt(grid) == FlattenAt(init) + S;
      forall i, j | 0 <= i < n && 0 <= j < |grid[i]| && grid[i][j].Some? ensures (i, j) in FlattenAt(grid) {
        if i < n - 1 {
          assert grid[i] == init[i];
        } else {
          var k :| 0 <= k < |PresentAt(grid[n - 1])| && PresentAt(grid[n - 1])[k] == j;
          assert S[k] == (i, j);
        }
      }
    }
  }

  /** `Flatten` is exactly the present outcomes in row-then-column order:
      value t comes from position `FlattenAt[t]`, the positions strictly
      ascend, and every position holding a present outcome is among them. */
  lemma FlattenSpec<T>(grid: seq<seq<Option<T>>>)
    ensures |FlattenAt(grid)| == |Flatten(grid)|
    ensures forall t :: 0 <= t < |FlattenAt(grid)| ==>
      FlattenAt(grid)[t].0 < |grid| && FlattenAt(grid)[t].1 < |grid[FlattenAt(grid)[t].0]|
      && grid[FlattenAt(grid)[t].0][FlattenAt(grid)[t].1] == Some(Flatten(grid)[t])
    ensures forall t1, t2 :: 0 <= t1 < t2 < |FlattenAt(grid)| ==> Before(FlattenAt(grid)[t1], FlattenAt(grid)[t2])
    ensures forall i, j :: 0 <= i < |grid| && 0 <= j < |grid[i]| && grid[i][j].Some? ==> (i, j) in FlattenAt(grid)
  {
    FlattenSound(grid);
    FlattenAscend(grid);
    FlattenComplete(grid);
  }
}
