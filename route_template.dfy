/**
 * Route templates: the skeleton of a long-haul route as a sequence of
 * wire junctions from source to sink, with an incrementally maintained
 * adjusted cost that penalises short hops, reversals and orthogonal turns.
 */
module Templates {
  import opened Wrappers
  import opened Elements

  /** Wires at least this long are long lines (true for all UltraScale+ parts). */
  const LongLineLength := 6

  /** The approach cost a junction contributes: nothing when it is unset (-1). */
  function ApproachCost(c: int): int
  {
    if c != -1 then c else 0
  }

  /** The hop runs back against the direction of the previous hop. */
  predicate Reversal(dev: Device, en: Junction, last: Option<Direction>)
  {
    last == Some(dev.reverse(en.dir))
  }

  /** The hop turns at a right angle (a reversal is never also a turn). */
  predicate OrthogonalTurn(dev: Device, en: Junction, last: Option<Direction>)
  {
    !Reversal(dev, en, last) && dev.isOrthogonal(en.dir, last)
  }

  /** Cost charged for entering through `en` after a hop in direction `last`. */
  function HopCost(dev: Device, en: Junction, last: Option<Direction>): int
  {
    2 + ApproachCost(en.tilePathCost) + ApproachCost(dev.srcJunction(en).tilePathCost)
    + (if en.length < LongLineLength then 4 else 0)
    + (if Reversal(dev, en, last) then 2 else if OrthogonalTurn(dev, en, last) then 8 else 0)
  }

  /** Approach costs are either unset (-1) or non-negative. */
  predicate SaneApproach(dev: Device, en: Junction)
  {
    en.tilePathCost >= -1 && dev.srcJunction(en).tilePathCost >= -1
  }

  /**
   * A hop never lowers the cost: it charges at least 2, at least 6 for a
   * short wire, and at least 10 for an orthogonal turn.
   */
  lemma HopCostBounds(dev: Device, en: Junction, last: Option<Direction>)
    requires SaneApproach(dev, en)
    ensures HopCost(dev, en, last) >= 2
    ensures en.length < LongLineLength ==> HopCost(dev, en, last) >= 6
    ensures OrthogonalTurn(dev, en, last) ==> HopCost(dev, en, last) >= 10
    ensures Reversal(dev, en, last) ==> HopCost(dev, en, last) >= 4
  {
  }

  /**
   * Sum of the hop costs of the entrance junctions at indices i, i+2, ...
   * of `t`, each judged against the same previous direction `last`.
   */
  function HopCosts(dev: Device, t: seq<Junction>, i: nat, last: Option<Direction>): int
    decreases |t| - i
  {
    if i >= |t| then 0 else HopCost(dev, t[i], last) + HopCosts(dev, t, i + 2, last)
  }

  /** Number of orthogonal turns among the hops at indices i, i+2, ... of `t`. */
  function TurnCount(dev: Device, t: seq<Junction>, i: nat, last: Option<Direction>): nat
    decreases |t| - i
  {
    if i >= |t| then 0
    else (if OrthogonalTurn(dev, t[i], last) then 1 else 0) + TurnCount(dev, t, i + 2, last)
  }

  /** Every entrance junction from index i on has sane approach costs. */
  ghost predicate SaneFrom(dev: Device, t: seq<Junction>, i: nat)
  {
    forall k :: i <= k < |t| ==> SaneApproach(dev, t[k])
  }

  /**
   * A full recompute never charges less than 10 per orthogonal turn it
   * counts, so the recomputed cost never drops below the base cost.
   */
  lemma {:induction false} HopCostsCoverTurns(dev: Device, t: seq<Junction>, i: nat, last: Option<Direction>)
    requires SaneFrom(dev, t, i)
    ensures HopCosts(dev, t, i, last) >= 10 * TurnCount(dev, t, i, last)
    decreases |t| - i
  {
    if i < |t| {
      HopCostBounds(dev, t[i], last);
      HopCostsCoverTurns(dev, t, i + 2, last);
    }
  }

  /** Hop costs only depend on the junctions at the hop positions. */
  lemma {:induction false} HopCostsShift(dev: Device, t: seq<Junction>, u: seq<Junction>, i: nat, last: Option<Direction>)
    requires |u| == |t| + 2
    requires forall k :: i <= k < |t| ==> u[k + 2] == t[k]
    ensures HopCosts(dev, u, i + 2, last) == HopCosts(dev, t, i, last)
    ensures TurnCount(dev, u, i + 2, last) == TurnCount(dev, t, i, last)
    decreases |t| - i
  {
    if i < |t| {
      HopCostsShift(dev, t, u, i + 2, last);
    }
  }

  /** The template after pushing the hop pair (srcJunction(en), en) at index 1. */
  function Pushed(dev: Device, t: seq<Junction>, en: Junction): seq<Junction>
    requires |t| >= 1
  {
    [t[0], dev.srcJunction(en), en] + t[1..]
  }

  /**
   * For a fixed previous direction, the recomputed sum over the pushed
   * template is the old sum plus the pushed hop, and the turn count grows
   * by one exactly for an orthogonal hop.
   */
  lemma PushThenRecompute(dev: Device, t: seq<Junction>, en: Junction, last: Option<Direction>)
    requires |t| >= 2
    ensures HopCosts(dev, Pushed(dev, t, en), 2, last) == HopCost(dev, en, last) + HopCosts(dev, t, 2, last)
    ensures TurnCount(dev, Pushed(dev, t, en), 2, last)
            == (if OrthogonalTurn(dev, en, last) then 1 else 0) + TurnCount(dev, t, 2, last)
  {
    HopCostsShift(dev, t, Pushed(dev, t, en), 2, last);
  }

  /** A compass device: North and South are vertical, East and West horizontal, each reversing the other. */
  function Compass(): Device
  {
    Device(
      _ => 0, _ => 0, j => j, (j, _, _) => j,
      (d: Direction) => match d case North => South case South => North case East => West case West => East case Self => Self,
      (d: Direction, last: Option<Direction>) =>
        last.Some? && d != Self && last.value != Self && (d in {North, South}) != (last.value in {North, South}))
  }

  /** A long-line entrance junction heading `d`, with no approach cost. */
  function LongHop(d: Direction): Junction
  {
    Junction("INT_X0Y0", "WW6", "INT_X0Y0/WW6", d, LongLineLength, -1)
  }

  /**
   * The incremental and the full cost computation disagree: pushing hops
   * North, East, South charges each against the direction before it
   * (2, then 8 more for each of two turns, 22 in all), while a recompute
   * charges all three against the last direction, South (2 for South,
   * 10 for the turn into East, 4 for North as a reversal, 16 in all).
   */
  lemma StaleDirectionRecompute()
    ensures var dev := Compass();
      HopCost(dev, LongHop(North), None) + HopCost(dev, LongHop(East), Some(North))
      + HopCost(dev, LongHop(South), Some(East)) == 22
    ensures var dev := Compass();
      var t := Pushed(dev, Pushed(dev, Pushed(dev, [LongHop(Self), LongHop(Self)], LongHop(North)), LongHop(East)), LongHop(South));
      HopCosts(dev, t, 2, Some(South)) == 16
  {
    var dev := Compass();
    var t0 := [LongHop(Self), LongHop(Self)];
    var t1 := Pushed(dev, t0, LongHop(North));
    assert t1 == [t0[0], LongHop(North), LongHop(North), t0[1]];
    var t2 := Pushed(dev, t1, LongHop(East));
    assert t2 == [t0[0], LongHop(East), LongHop(East)] + t1[1..];
    var t := Pushed(dev, t2, LongHop(South));
    assert t == [t0[0], LongHop(South), LongHop(South)] + t2[1..];
    assert t == [t0[0], LongHop(South), LongHop(South), LongHop(East), LongHop(East), LongHop(North), LongHop(North), t0[1]];
    assert HopCost(dev, LongHop(South), Some(South)) == 2;
    assert HopCost(dev, LongHop(East), Some(South)) == 10;
    assert HopCost(dev, LongHop(North), Some(South)) == 4;
    assert HopCosts(dev, t, 8, Some(South)) == 0;
    assert HopCosts(dev, t, 6, Some(South)) == 4;
    assert HopCosts(dev, t, 4, Some(South)) == 14;
  }

  /** Index of the last junction equal to `enter` among the first n, or 0. */
  function StartIndex(t: seq<Junction>, enter: Junction, n: nat): (s: nat)
    requires n <= |t|
    ensures s == 0 || s < n
    ensures (exists i :: 0 <= i < n && SameJunction(enter, t[i])) ==>
      s < n && SameJunction(enter, t[s]) && forall i :: s < i < n ==> !SameJunction(enter, t[i])
    ensures (forall i :: 0 <= i < n ==> !SameJunction(enter, t[i])) ==> s == 0
  {
    if n == 0 then 0
    else if SameJunction(enter, t[n - 1]) then n - 1
    else StartIndex(t, enter, n - 1)
  }

  /**
   * Index of the last junction among the first n that equals `exit` but
   * not `enter` (the enter test takes precedence), or 0.
   */
  function EndIndex(t: seq<Junction>, enter: Junction, exit: Junction, n: nat): (e: nat)
    requires n <= |t|
    ensures e == 0 || e < n
    ensures (exists i :: 0 <= i < n && !SameJunction(enter, t[i]) && SameJunction(exit, t[i])) ==>
      && e < n && !SameJunction(enter, t[e]) && SameJunction(exit, t[e])
      && forall i :: e < i < n ==> SameJunction(enter, t[i]) || !SameJunction(exit, t[i])
    ensures (forall i :: 0 <= i < n ==> SameJunction(enter, t[i]) || !SameJunction(exit, t[i])) ==> e == 0
  {
    if n == 0 then 0
    else if !SameJunction(enter, t[n - 1]) && SameJunction(exit, t[n - 1]) then n - 1
    else EndIndex(t, enter, exit, n - 1)
  }

  class RouteTemplate {
    var baseCost: int
    var adjustedCost: int
    var orthogonalTurns: int
    var lastDirection: Option<Direction>

    const src: Junction
    const snk: Junction
    const distanceX: int
    const distanceY: int

    /** The junctions of the route, source and sink included. */
    var template: seq<Junction>

    ghost predicate Valid()
      reads this
    {
      |template| >= 2
    }

    /** A template holding just the source and the sink. */
    constructor (dev: Device, src: Junction, snk: Junction)
      ensures Valid()
      ensures template == [src, snk] && this.src == src && this.snk == snk
      ensures baseCost == 0 && adjustedCost == 0 && orthogonalTurns == 0 && lastDirection == None
      ensures distanceX == dev.tileX(snk.tile) - dev.tileX(src.tile)
      ensures distanceY == dev.tileY(snk.tile) - dev.tileY(src.tile)
    {
      orthogonalTurns := 0;
      baseCost := 0;
      adjustedCost := 0;
      lastDirection := None;
      this.src := src;
      this.snk := snk;
      distanceX := dev.tileX(snk.tile) - dev.tileX(src.tile);
      distanceY := dev.tileY(snk.tile) - dev.tileY(src.tile);
      template := [src, snk];
    }

    /**
     * Copy constructor: same costs, ends, distances and junctions; the last
     * direction is not carried over.
     */
    constructor Copy(ref: RouteTemplate)
      requires ref.Valid()
      ensures Valid()
      ensures template == ref.template
      ensures baseCost == ref.baseCost && adjustedCost == ref.adjustedCost
      ensures orthogonalTurns == ref.orthogonalTurns && lastDirection == None
      ensures src == ref.src && snk == ref.snk
      ensures distanceX == ref.distanceX && distanceY == ref.distanceY
    {
      baseCost := ref.baseCost;
      adjustedCost := ref.adjustedCost;
      orthogonalTurns := ref.orthogonalTurns;
      lastDirection := None;
      src := ref.src;
      snk := ref.snk;
      distanceX := ref.distanceX;
      distanceY := ref.distanceY;
      template := ref.template;
    }

    /**
     * A new template translated by (dx, dy): the translated source and sink
     * around translated copies of the interior junctions, with fresh costs.
     */
    method CopyWithOffset(dev: Device, dx: int, dy: int) returns (copy: RouteTemplate)
      requires Valid()
      ensures fresh(copy) && copy.Valid()
      ensures |copy.template| == |template|
      ensures copy.src == dev.offset(src, dx, dy) && copy.snk == dev.offset(snk, dx, dy)
      ensures copy.template[0] == copy.src && copy.template[|template| - 1] == copy.snk
      ensures forall i :: 0 < i < |template| - 1 ==> copy.template[i] == dev.offset(template[i], dx, dy)
      ensures template[0] == src && template[|template| - 1] == snk ==>
        forall i :: 0 <= i < |template| ==> copy.template[i] == dev.offset(template[i], dx, dy)
      ensures copy.baseCost == 0 && copy.adjustedCost == 0 && copy.orthogonalTurns == 0
      ensures copy.lastDirection == None
      ensures copy.distanceX == dev.tileX(copy.snk.tile) - dev.tileX(copy.src.tile)
      ensures copy.distanceY == dev.tileY(copy.snk.tile) - dev.tileY(copy.src.tile)
    {
      copy := new RouteTemplate(dev, dev.offset(src, dx, dy), dev.offset(snk, dx, dy));
      for i := 1 to |template| - 1
        invariant |copy.template| == i + 1
        invariant copy.template[0] == copy.src && copy.template[i] == copy.snk
        invariant forall k :: 0 < k < i ==> copy.template[k] == dev.offset(template[k], dx, dy)
        invariant copy.baseCost == 0 && copy.adjustedCost == 0 && copy.orthogonalTurns == 0
        invariant copy.lastDirection == None
      {
        copy.template := copy.template[..i] + [dev.offset(template[i], dx, dy)] + copy.template[i..];
      }
    }

    /** Charges one hop: adds its cost and counts an orthogonal turn. */
    method ReadjustHopCost(dev: Device, en: Junction)
      modifies this`adjustedCost, this`orthogonalTurns
      ensures adjustedCost == old(adjustedCost) + HopCost(dev, en, lastDirection)
      ensures orthogonalTurns == old(orthogonalTurns) + (if OrthogonalTurn(dev, en, lastDirection) then 1 else 0)
    {
      var delta := 2;
      if en.tilePathCost != -1 {
        delta := delta + en.tilePathCost;
      }
      if dev.srcJunction(en).tilePathCost != -1 {
        delta := delta + dev.srcJunction(en).tilePathCost;
      }
      if en.length < LongLineLength {
        delta := delta + 4;
      }
      if Some(dev.reverse(en.dir)) == lastDirection {
        delta := delta + 2;
      } else if dev.isOrthogonal(en.dir, lastDirection) {
        delta := delta + 8;
        orthogonalTurns := orthogonalTurns + 1;
      }
      adjustedCost := adjustedCost + delta;
    }

    /**
     * Full recompute: restarts from the base cost and charges every hop at
     * indices 2, 4, ... against the current last direction; the turn count
     * is not reset.
     */
    method ReadjustCost(dev: Device)
      modifies this`adjustedCost, this`orthogonalTurns
      ensures adjustedCost == baseCost + HopCosts(dev, template, 2, lastDirection)
      ensures orthogonalTurns == old(orthogonalTurns) + TurnCount(dev, template, 2, lastDirection)
    {
      adjustedCost := baseCost;
      var i := 2;
      while i < |template|
        invariant i >= 2
        invariant adjustedCost + HopCosts(dev, template, i, lastDirection)
                  == baseCost + HopCosts(dev, template, 2, lastDirection)
        invariant orthogonalTurns + TurnCount(dev, template, i, lastDirection)
                  == old(orthogonalTurns) + TurnCount(dev, template, 2, lastDirection)
        decreases |template| - i
      {
        ReadjustHopCost(dev, template[i]);
        i := i + 2;
      }
    }

    /** The junction at index i, negative indices counting back from the sink. */
    function GetTemplate(i: int): (j: Junction)
      reads this
      requires -|template| <= i < |template|
      ensures j in template
      ensures i >= 0 ==> j == template[i]
      ensures i < 0 ==> j == template[|template| + i]
    {
      template[FromEnd(i, |template|)]
    }

    /**
     * Prepends a hop: the entrance junction's source junction and the
     * entrance junction go in at indices 1 and 2, the hop is charged, and
     * its direction becomes the last direction.
     */
    method PushEnterWireJunction(dev: Device, en: Junction)
      requires Valid()
      modifies this`template, this`adjustedCost, this`orthogonalTurns, this`lastDirection
      ensures Valid()
      ensures template == Pushed(dev, old(template), en)
      ensures |template| == |old(template)| + 2
      ensures template[1] == dev.srcJunction(en) && template[2] == en
      ensures template[0] == old(template)[0] && template[3..] == old(template)[1..]
      ensures adjustedCost == old(adjustedCost) + HopCost(dev, en, old(lastDirection))
      ensures orthogonalTurns == old(orthogonalTurns) + (if OrthogonalTurn(dev, en, old(lastDirection)) then 1 else 0)
      ensures SaneApproach(dev, en) ==> adjustedCost >= old(adjustedCost) + 2
      ensures SaneApproach(dev, en) && en.length < LongLineLength ==> adjustedCost >= old(adjustedCost) + 6
      ensures lastDirection == Some(en.dir)
    {
      template := template[..1] + [en] + template[1..];
      template := template[..1] + [dev.srcJunction(en)] + template[1..];
      ReadjustHopCost(dev, en);
      if SaneApproach(dev, en) {
        HopCostBounds(dev, en, old(lastDirection));
      }
      lastDirection := Some(en.dir);
    }

    /**
     * Splices `replacement` in place of the junctions from the last match of
     * `enter` through the last match of `exit`, then recomputes the cost.
     */
    method ReplaceTemplate(dev: Device, enter: Junction, exit: Junction, replacement: RouteTemplate)
      requires Valid() && replacement.Valid()
      modifies this`template, this`adjustedCost, this`orthogonalTurns
      ensures Valid()
      ensures
        var s := StartIndex(old(template), enter, |old(template)|);
        var e := EndIndex(old(template), enter, exit, |old(template)|);
        template == old(template)[..s] + old(replacement.template) + old(template)[e + 1..]
      ensures adjustedCost == baseCost + HopCosts(dev, template, 2, lastDirection)
      ensures orthogonalTurns == old(orthogonalTurns) + TurnCount(dev, template, 2, lastDirection)
    {
      var startIndex, endIndex := 0, 0;
      for i := 0 to |template|
        invariant startIndex == StartIndex(template, enter, i)
        invariant endIndex == EndIndex(template, enter, exit, i)
      {
        if SameJunction(enter, template[i]) {
          startIndex := i;
        } else if SameJunction(exit, template[i]) {
          endIndex := i;
        }
      }
      template := template[..startIndex] + replacement.template + template[endIndex + 1..];
      ReadjustCost(dev);
    }

    /** The node names the template occupies. */
    method GetUsage() returns (usage: set<string>)
      ensures forall j :: j in template ==> j.node in usage
      ensures forall n :: n in usage ==> exists j :: j in template && j.node == n
    {
      usage := {};
      for i := 0 to |template|
        invariant forall k :: 0 <= k < i ==> template[k].node in usage
        invariant forall n :: n in usage ==> exists k :: 0 <= k < i && template[k].node == n
      {
        usage := usage + {template[i].node};
      }
    }
  }

  /** Pushing onto a copy leaves the original template untouched. */
  method PushOnCopy(dev: Device, original: RouteTemplate, en: Junction) returns (copy: RouteTemplate)
    requires original.Valid()
    ensures fresh(copy) && copy.Valid()
    ensures copy.template == Pushed(dev, original.template, en)
    ensures original.template == old(original.template)
    ensures original.adjustedCost == old(original.adjustedCost)
  {
    copy := new RouteTemplate.Copy(original);
    copy.PushEnterWireJunction(dev, en);
  }
}
