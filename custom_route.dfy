/**
 * Detailed routes: one intra-tile path slot per hop boundary of a route
 * template, filled front to back, with a pool of candidate paths per slot
 * and backtracking by clearing every slot after a given index.
 */
module Routes {
  import opened Wrappers
  import opened Elements
  import opened TilePaths
  import opened Templates

  /** Total cost of the filled slots. */
  function SumCost(slots: seq<Option<TilePath>>): int
  {
    if slots == [] then 0
    else (if slots[0].Some? then slots[0].value.cost else 0) + SumCost(slots[1..])
  }

  /** The cost of a slot sequence is the cost of its front plus that of its back. */
  lemma {:induction false} SumCostSplit(slots: seq<Option<TilePath>>, m: nat)
    requires m <= |slots|
    ensures SumCost(slots) == SumCost(slots[..m]) + SumCost(slots[m..])
  {
    if m > 0 {
      SumCostSplit(slots[1..], m - 1);
      assert slots[1..][..m - 1] == slots[..m][1..];
      assert slots[1..][m - 1..] == slots[m..];
    } else {
      assert slots[..0] == [];
      assert slots[0..] == slots;
    }
  }

  /** Empty slots cost nothing. */
  lemma {:induction false} SumCostOfBlanks(slots: seq<Option<TilePath>>)
    requires forall k :: 0 <= k < |slots| ==> slots[k].None?
    ensures SumCost(slots) == 0
  {
    if slots != [] {
      SumCostOfBlanks(slots[1..]);
    }
  }

  /** Filling an empty slot adds exactly the path's cost. */
  lemma {:induction false} SumCostFill(slots: seq<Option<TilePath>>, i: nat, path: TilePath)
    requires i < |slots| && slots[i].None?
    ensures SumCost(slots[i := Some(path)]) == SumCost(slots) + path.cost
  {
    if i > 0 {
      SumCostFill(slots[1..], i - 1, path);
      assert slots[i := Some(path)][1..] == slots[1..][i - 1 := Some(path)];
    } else {
      assert slots[i := Some(path)][1..] == slots[1..];
    }
  }

  /** Index of the first empty slot, or -1 when every slot is filled. */
  function FirstBlank(slots: seq<Option<TilePath>>): (i: int)
    ensures -1 <= i < |slots|
    ensures i >= 0 ==> slots[i].None? && forall k :: 0 <= k < i ==> slots[k].Some?
    ensures i == -1 <==> forall k :: 0 <= k < |slots| ==> slots[k].Some?
  {
    if slots == [] then -1
    else if slots[0].None? then 0
    else
      var r := FirstBlank(slots[1..]);
      if r == -1 then -1 else r + 1
  }

  /** Moves the front candidate to the back: a permutation with the old front last. */
  function Rotate(pool: seq<TilePath>): (r: seq<TilePath>)
    requires |pool| > 0
    ensures |r| == |pool| && multiset(r) == multiset(pool)
    ensures r[|r| - 1] == pool[0]
  {
    assert pool == [pool[0]] + pool[1..];
    pool[1..] + [pool[0]]
  }

  /** The pool after k rotations. */
  function RotateN(pool: seq<TilePath>, k: nat): (r: seq<TilePath>)
    requires |pool| > 0
    ensures |r| == |pool|
  {
    if k == 0 then pool else Rotate(RotateN(pool, k - 1))
  }

  /** Rotating the split at k - 1 gives the split at k. */
  lemma RotateOfSplit(pool: seq<TilePath>, k: nat)
    requires 0 < k <= |pool|
    ensures Rotate(pool[k - 1..] + pool[..k - 1]) == pool[k..] + pool[..k]
  {
  }

  /** After k <= n rotations of a pool of size n, its first k candidates sit at the back. */
  lemma {:induction false} RotateNSplits(pool: seq<TilePath>, k: nat)
    requires 0 < |pool| && k <= |pool|
    ensures RotateN(pool, k) == pool[k..] + pool[..k]
  {
    if k == 0 {
      assert pool[0..] == pool && pool[..0] == [];
    } else {
      RotateNSplits(pool, k - 1);
      var prev := RotateN(pool, k - 1);
      assert prev == pool[k - 1..] + pool[..k - 1];
      RotateOfSplit(pool, k);
    }
  }

  /** n rotations of a pool of size n restore it. */
  lemma RotateNRestores(pool: seq<TilePath>)
    requires |pool| > 0
    ensures RotateN(pool, |pool|) == pool
  {
    RotateNSplits(pool, |pool|);
    assert pool[|pool|..] == [] && pool[..|pool|] == pool;
  }

  /**
   * The (k+1)-th request at a slot hands out the pool's k-th candidate, so
   * n requests cycle through all n candidates in order.
   */
  lemma RotateNFront(pool: seq<TilePath>, k: nat)
    requires k < |pool|
    ensures RotateN(pool, k)[0] == pool[k]
  {
    RotateNSplits(pool, k);
  }

  class CustomRoute {
    var cost: int
    var bitIndex: int

    const src: Junction
    const snk: Junction
    const distanceX: int
    const distanceY: int
    const template: RouteTemplate

    /** The committed tile path of every hop boundary (None: empty slot). */
    const route: array<Option<TilePath>>
    /** The candidate pool of every slot (None: not set yet). */
    const pathSubs: array<Option<seq<TilePath>>>

    /** Parallel arrays, and the cost is that of the filled slots. */
    ghost predicate Valid()
      reads this, route
    {
      route.Length == pathSubs.Length && cost == SumCost(route[..])
    }

    /** One empty slot, without a pool, per pair of template junctions. */
    constructor (template: RouteTemplate, bitIndex: int)
      ensures Valid() && fresh(route) && fresh(pathSubs)
      ensures route.Length == |template.template| / 2
      ensures forall k :: 0 <= k < route.Length ==> route[k].None? && pathSubs[k].None?
      ensures cost == 0 && this.bitIndex == bitIndex && this.template == template
      ensures src == template.src && snk == template.snk
      ensures distanceX == template.distanceX && distanceY == template.distanceY
    {
      cost := 0;
      this.bitIndex := bitIndex;
      src := template.src;
      snk := template.snk;
      distanceX := template.distanceX;
      distanceY := template.distanceY;
      this.template := template;
      var size := |template.template| / 2;
      route := new Option<TilePath>[size](_ => None);
      pathSubs := new Option<seq<TilePath>>[size](_ => None);
      new;
      SumCostOfBlanks(route[..]);
    }

    /** The committed path at index i, negative indices counting from the end. */
    function GetPath(i: int): (p: Option<TilePath>)
      reads this, route
      requires -route.Length <= i < route.Length
      ensures i >= 0 ==> p == route[i]
      ensures i < 0 ==> p == route[route.Length + i]
    {
      route[FromEnd(i, route.Length)]
    }

    /** Scans the slots for the first empty one. */
    method GetNextBlankPathIndex() returns (i: int)
      ensures i == FirstBlank(route[..])
    {
      for k := 0 to route.Length
        invariant forall j :: 0 <= j < k ==> route[j].Some?
      {
        if route[k].None? {
          return k;
        }
      }
      return -1;
    }

    /**
     * Backtracks: empties every slot after `index` and takes their cost off.
     * The slots after `index` must all be filled.
     */
    method Revert(index: int)
      requires Valid()
      requires index >= -1
      requires forall k :: index < k < route.Length ==> route[k].Some?
      modifies this`cost, route
      ensures Valid()
      ensures forall k :: 0 <= k < route.Length ==> route[k] == if k <= index then old(route[k]) else None
      ensures var m := if index + 1 < route.Length then index + 1 else route.Length;
        && cost == old(cost) - SumCost(old(route[..])[m..])
        && cost == SumCost(old(route[..])[..m])
    {
      ghost var before := route[..];
      ghost var m := if index + 1 < route.Length then index + 1 else route.Length;
      var i := route.Length - 1;
      while i > index
        invariant -1 <= i < route.Length
        invariant i >= index || i == route.Length - 1
        invariant forall k :: 0 <= k < route.Length ==> route[k] == if k <= i then before[k] else None
        invariant cost == old(cost) - SumCost(before[i + 1..])
      {
        assert before[i..][1..] == before[i + 1..];
        cost := cost - route[i].value.cost;
        route[i] := None;
        i := i - 1;
      }
      assert i + 1 == m;
      SumCostSplit(before, m);
      SumCostSplit(route[..], m);
      assert route[..][..m] == before[..m];
      SumCostOfBlanks(route[..][m..]);
    }

    /** Commits `path` to the first empty slot, which must exist. */
    method SetAsNextPath(path: TilePath)
      requires Valid()
      requires FirstBlank(route[..]) != -1
      modifies this`cost, route
      ensures Valid()
      ensures route[..] == old(route[..])[FirstBlank(old(route[..])) := Some(path)]
      ensures cost == old(cost) + path.cost
    {
      var i := GetNextBlankPathIndex();
      SumCostFill(route[..], i, path);
      route[i] := Some(path);
      cost := cost + path.cost;
    }

    /**
     * Rotates the pool of the first empty slot and hands out its former
     * front candidate; None when every slot is filled.
     */
    method GetNextPossiblePath() returns (p: Option<TilePath>)
      requires Valid()
      requires FirstBlank(route[..]) != -1 ==>
        pathSubs[FirstBlank(route[..])].Some? && |pathSubs[FirstBlank(route[..])].value| > 0
      modifies pathSubs
      ensures Valid() && route[..] == old(route[..])
      ensures var i := FirstBlank(route[..]);
        if i == -1 then p == None && pathSubs[..] == old(pathSubs[..])
        else
          && p == Some(old(pathSubs[i]).value[0])
          && pathSubs[..] == old(pathSubs[..])[i := Some(Rotate(old(pathSubs[i]).value))]
    {
      var i := GetNextBlankPathIndex();
      if i == -1 {
        return None;
      }
      var pool := pathSubs[i].value;
      pathSubs[i] := Some(pool[1..] + [pool[0]]);
      var rotated := pathSubs[i].value;
      p := Some(rotated[|rotated| - 1]);
    }

    /** The same rotation for the pool at index i (negative: from the end). */
    method GetNextPossiblePathAt(i: int) returns (p: TilePath)
      requires Valid()
      requires -pathSubs.Length <= i < pathSubs.Length
      requires pathSubs[FromEnd(i, pathSubs.Length)].Some? && |pathSubs[FromEnd(i, pathSubs.Length)].value| > 0
      modifies pathSubs
      ensures Valid() && route[..] == old(route[..])
      ensures var j := FromEnd(i, pathSubs.Length);
        && p == old(pathSubs[j]).value[0]
        && pathSubs[..] == old(pathSubs[..])[j := Some(Rotate(old(pathSubs[j]).value))]
    {
      var j := if i < 0 then i + pathSubs.Length else i;
      var pool := pathSubs[j].value;
      pathSubs[j] := Some(pool[1..] + [pool[0]]);
      var rotated := pathSubs[j].value;
      p := rotated[|rotated| - 1];
    }

    /** Installs the candidate pool of slot i (negative: from the end). */
    method SetPathSub(i: int, pool: seq<TilePath>)
      requires Valid()
      requires -pathSubs.Length <= i < pathSubs.Length
      modifies pathSubs
      ensures Valid() && route[..] == old(route[..])
      ensures pathSubs[..] == old(pathSubs[..])[FromEnd(i, pathSubs.Length) := Some(pool)]
    {
      var j := if i < 0 then i + pathSubs.Length else i;
      pathSubs[j] := Some(pool);
    }
  }

  /**
   * Backtracking scenario: fill every slot of an empty route in order, then
   * revert to index j; slots 0..j keep their paths, the rest are empty, and
   * the cost is that of slots 0..j.
   */
  method FillThenRevert(r: CustomRoute, paths: seq<TilePath>, j: int)
    requires r.Valid()
    requires forall k :: 0 <= k < r.route.Length ==> r.route[k].None?
    requires |paths| == r.route.Length
    requires -1 <= j < |paths|
    modifies r`cost, r.route
    ensures r.Valid()
    ensures forall k :: 0 <= k <= j ==> r.route[k] == Some(paths[k])
    ensures forall k :: j < k < r.route.Length ==> r.route[k].None?
    ensures r.cost == SumCost(r.route[..][..j + 1])
  {
    for n := 0 to |paths|
      invariant r.Valid()
      invariant forall k :: 0 <= k < n ==> r.route[k] == Some(paths[k])
      invariant forall k :: n <= k < r.route.Length ==> r.route[k].None?
    {
      assert r.route[..][n].None?;
      assert forall k :: 0 <= k < n ==> r.route[..][k].Some?;
      assert FirstBlank(r.route[..]) == n;
      r.SetAsNextPath(paths[n]);
    }
    ghost var filled := r.route[..];
    r.Revert(j);
    assert r.route[..][..j + 1] == filled[..j + 1];
  }
}
