/**
 * Bounded breadth-first searches over one tile's switch graph: which
 * entrance wires can feed an exit junction, which exit wires an entrance
 * junction can reach, which intra-tile paths join the two, and whether one
 * exists at all. Two wire-keyed caches sit in front of the fan-out searches.
 */
module Browser {
  import opened Wrappers
  import opened Elements
  import opened TilePaths

  /** Buffer hops a tile search crosses at most. */
  const MaxDepth := 8
  /** Extra hops a tile path may take beyond the first path found. */
  const ExtraDepthTolerance := 3

  /**
   * The device as the searches see it: the PIPs of every tile in device
   * order, the direction and length classifiers for entering and exiting
   * wires (by tile and wire name), the clock and buffer classifiers, and the
   * junction constructors (by tile and wire name).
   */
  datatype Fabric = Fabric(
    tilePips: string -> seq<Pip>,
    enterDirection: (string, string) -> Option<Direction>,
    enterLength: (string, string) -> int,
    exitDirection: (string, string) -> Option<Direction>,
    exitLength: (string, string) -> int,
    isClock: string -> bool,
    isBuffer: (string, string) -> bool,
    enterJunction: (string, string) -> Junction,
    exitJunction: (string, string) -> Junction)

  /** A queued node with the number of buffers crossed to reach it. */
  datatype NodeDepth = NodeDepth(node: string, depth: nat)

  /** The tile's PIPs that start at `node`. */
  function PipsFrom(f: Fabric, tile: string, node: string): set<Pip>
  {
    set p | p in f.tilePips(tile) && p.startNode == node
  }

  /** The tile's PIPs that end at `node`. */
  function PipsInto(f: Fabric, tile: string, node: string): set<Pip>
  {
    set p | p in f.tilePips(tile) && p.endNode == node
  }

  /** Every node that some PIP of the tile touches. */
  function TileNodes(f: Fabric, tile: string): set<string>
  {
    (set p | p in f.tilePips(tile) :: p.startNode) + (set p | p in f.tilePips(tile) :: p.endNode)
  }

  /** A PIP of the tile leads from node `a` to node `b`. */
  ghost predicate Linked(f: Fabric, tile: string, a: string, b: string)
  {
    exists p :: p in f.tilePips(tile) && p.startNode == a && p.endNode == b
  }

  /** Collects the tile's PIPs that start at `node`. */
  method GetFwdPips(f: Fabric, tile: string, node: string) returns (pipSet: set<Pip>)
    ensures pipSet == PipsFrom(f, tile, node)
  {
    var pips := f.tilePips(tile);
    pipSet := {};
    for i := 0 to |pips|
      invariant pipSet == set p | p in pips[..i] && p.startNode == node
    {
      assert pips[..i + 1] == pips[..i] + [pips[i]];
      if pips[i].startNode == node {
        pipSet := pipSet + {pips[i]};
      }
    }
    assert pips[..|pips|] == pips;
  }

  /** Collects the tile's PIPs that end at `node`. */
  method GetBkwdPips(f: Fabric, tile: string, node: string) returns (pipSet: set<Pip>)
    ensures pipSet == PipsInto(f, tile, node)
  {
    var pips := f.tilePips(tile);
    pipSet := {};
    for i := 0 to |pips|
      invariant pipSet == set p | p in pips[..i] && p.endNode == node
    {
      assert pips[..i + 1] == pips[..i] + [pips[i]];
      if pips[i].endNode == node {
        pipSet := pipSet + {pips[i]};
      }
    }
    assert pips[..|pips|] == pips;
  }

  /**
   * `n` leads forward to `start` through exactly `d` PIPs, every node
   * before `start` on the way being a usable buffer.
   */
  ghost predicate ReachesBack(f: Fabric, blocked: set<string>, tile: string, start: string, n: string, d: nat)
    decreases d
  {
    if d == 0 then n == start
    else
      && f.isBuffer(tile, n) && n !in blocked
      && exists p :: p in f.tilePips(tile) && p.startNode == n && ReachesBack(f, blocked, tile, start, p.endNode, d - 1)
  }

  /**
   * `n` is reached from `start` through exactly `d` PIPs, every node after
   * `start` on the way being a usable buffer.
   */
  ghost predicate ReachesFwd(f: Fabric, blocked: set<string>, tile: string, start: string, n: string, d: nat)
    decreases d
  {
    if d == 0 then n == start
    else
      && f.isBuffer(tile, n) && n !in blocked
      && exists p :: p in f.tilePips(tile) && p.endNode == n && ReachesFwd(f, blocked, tile, start, p.startNode, d - 1)
  }

  /** The PIP's start wire is a directed, non-local, non-clock entering wire. */
  predicate IsEnterCandidate(f: Fabric, tile: string, p: Pip)
  {
    var dir := f.enterDirection(tile, p.startWire);
    dir.Some? && dir.value != Self && f.enterLength(tile, p.startWire) != 0 && !f.isClock(p.startNode)
  }

  /** The PIP's end wire is a directed, non-local, non-clock exiting wire. */
  predicate IsExitCandidate(f: Fabric, tile: string, p: Pip)
  {
    var dir := f.exitDirection(tile, p.endWire);
    dir.Some? && dir.value != Self && f.exitLength(tile, p.endWire) != 0 && !f.isClock(p.endNode)
  }

  /**
   * Wire `w` is an entering wire on an unblocked node whose PIP leads into
   * a node from which `start` is reached in fewer than MaxDepth buffer hops.
   */
  ghost predicate FeedsExit(f: Fabric, blocked: set<string>, tile: string, start: string, w: string)
  {
    exists p :: p in f.tilePips(tile) && p.startWire == w && p.startNode !in blocked && IsEnterCandidate(f, tile, p)
      && exists d: nat :: d < MaxDepth && ReachesBack(f, blocked, tile, start, p.endNode, d)
  }

  /**
   * Wire `w` is an exiting wire on an unblocked node whose PIP starts at a
   * node reached from `start` in fewer than MaxDepth buffer hops.
   */
  ghost predicate FedByEntrance(f: Fabric, blocked: set<string>, tile: string, start: string, w: string)
  {
    exists p :: p in f.tilePips(tile) && p.endWire == w && p.endNode !in blocked && IsExitCandidate(f, tile, p)
      && exists d: nat :: d < MaxDepth && ReachesFwd(f, blocked, tile, start, p.startNode, d)
  }

  /** Entrance junctions of the tile for the given wire names. */
  function EnterJunctions(f: Fabric, tile: string, wires: set<string>): set<Junction>
  {
    set w | w in wires :: f.enterJunction(tile, w)
  }

  /** Exit junctions of the tile for the given wire names. */
  function ExitJunctions(f: Fabric, tile: string, wires: set<string>): set<Junction>
  {
    set w | w in wires :: f.exitJunction(tile, w)
  }

  /**
   * A complete tile path: from `a` to `b` over PIPs of the tile, with usable
   * buffers in between, one cost unit per hop, and no node repeated (except
   * that `a` may equal `b`).
   */
  ghost predicate IsTilePath(f: Fabric, blocked: set<string>, tile: string, a: string, b: string, t: TilePath)
  {
    && IsPartialTilePath(f, blocked, tile, a, b, t)
    && Linked(f, tile, t.nodes[|t.nodes| - 2], t.nodes[|t.nodes| - 1])
  }

  /** A tile path whose last hop, into `b`, is not yet known to exist. */
  ghost predicate IsPartialTilePath(f: Fabric, blocked: set<string>, tile: string, a: string, b: string, t: TilePath)
  {
    && |t.nodes| >= 2 && t.nodes[0] == a && t.nodes[|t.nodes| - 1] == b
    && t.cost == |t.nodes| - 1
    && Simple(t.nodes)
    && (forall k :: 0 <= k < |t.nodes| - 2 ==> Linked(f, tile, t.nodes[k], t.nodes[k + 1]))
    && (forall k :: 0 < k < |t.nodes| - 1 ==> f.isBuffer(tile, t.nodes[k]) && t.nodes[k] !in blocked)
  }

  /** Number of queued paths of cost c. */
  function Level(q: seq<TilePath>, c: int): nat
  {
    if q == [] then 0 else Level(q[..|q| - 1], c) + (if q[|q| - 1].cost == c then 1 else 0)
  }

  /**
   * The path counts of costs 1 to MaxDepth + 1 in `q` are lexicographically
   * below those in `q0`: TilePathSearch's termination measure.
   */
  ghost predicate LevelsBelow(q: seq<TilePath>, q0: seq<TilePath>)
  {
    Level(q, 1) < Level(q0, 1) ||
    (Level(q, 1) == Level(q0, 1) &&
      (Level(q, 2) < Level(q0, 2) ||
      (Level(q, 2) == Level(q0, 2) &&
        (Level(q, 3) < Level(q0, 3) ||
        (Level(q, 3) == Level(q0, 3) &&
          (Level(q, 4) < Level(q0, 4) ||
          (Level(q, 4) == Level(q0, 4) &&
            (Level(q, 5) < Level(q0, 5) ||
            (Level(q, 5) == Level(q0, 5) &&
              (Level(q, 6) < Level(q0, 6) ||
              (Level(q, 6) == Level(q0, 6) &&
                (Level(q, 7) < Level(q0, 7) ||
                (Level(q, 7) == Level(q0, 7) &&
                  (Level(q, 8) < Level(q0, 8) ||
                  (Level(q, 8) == Level(q0, 8) &&
                    Level(q, 9) < Level(q0, 9))))))))))))))))
  }

  /**
   * Lowering the count of cost c, leaving every cheaper count as it was,
   * lowers the measure.
   */
  lemma LevelsDrop(q0: seq<TilePath>, q: seq<TilePath>, c: int)
    requires 1 <= c <= MaxDepth && Level(q, c) < Level(q0, c)
    requires forall c' :: c' < c ==> Level(q, c') == Level(q0, c')
    ensures LevelsBelow(q, q0)
  {
  }

  /**
   * Taking the front path off the queue and adding only paths one hop
   * longer lowers the measure.
   */
  lemma LevelsStep(q0: seq<TilePath>, q: seq<TilePath>)
    requires q0 != [] && 1 <= q0[0].cost <= MaxDepth
    requires forall c :: c != q0[0].cost + 1 ==> Level(q, c) == Level(q0[1..], c)
    ensures LevelsBelow(q, q0)
  {
    forall c {
      LevelPopFront(q0, c);
    }
    LevelsDrop(q0, q, q0[0].cost);
  }

  /** Taking the front path off the queue lowers its level by one. */
  lemma {:induction false} LevelPopFront(q: seq<TilePath>, c: int)
    requires q != []
    ensures Level(q, c) == Level(q[1..], c) + (if q[0].cost == c then 1 else 0)
  {
    if |q| > 1 {
      LevelPopFront(q[..|q| - 1], c);
      assert q[..|q| - 1][1..] == q[1..][..|q[1..]| - 1];
    } else {
      assert q[1..] == [];
    }
  }

  /** Marking a new node visited leaves fewer unvisited nodes. */
  lemma FewerUnvisited(nodes: set<string>, before: set<string>, after: set<string>)
    requires before <= after <= nodes && before != after
    ensures |nodes - after| < |nodes - before|
  {
    var a, b := nodes - after, nodes - before;
    var x :| x in after && x !in before;
    assert x in b - a;
    assert b == a + (b - a);
    assert a * (b - a) == {};
  }

  /** One hop more from a node reached in d hops backwards. */
  lemma ReachesBackStep(f: Fabric, blocked: set<string>, tile: string, start: string, p: Pip, d: nat)
    requires p in f.tilePips(tile)
    requires ReachesBack(f, blocked, tile, start, p.endNode, d)
    requires f.isBuffer(tile, p.startNode) && p.startNode !in blocked
    ensures ReachesBack(f, blocked, tile, start, p.startNode, d + 1)
  {
  }

  /** One hop more from a node reached in d hops forwards. */
  lemma ReachesFwdStep(f: Fabric, blocked: set<string>, tile: string, start: string, p: Pip, d: nat)
    requires p in f.tilePips(tile)
    requires ReachesFwd(f, blocked, tile, start, p.startNode, d)
    requires f.isBuffer(tile, p.endNode) && p.endNode !in blocked
    ensures ReachesFwd(f, blocked, tile, start, p.endNode, d + 1)
  {
  }

  /** Every queued node is reached backwards from `start` within its depth. */
  ghost predicate BackQueue(f: Fabric, blocked: set<string>, tile: string, start: string, q: seq<NodeDepth>)
  {
    forall k :: 0 <= k < |q| ==> q[k].depth <= MaxDepth && ReachesBack(f, blocked, tile, start, q[k].node, q[k].depth)
  }

  /** Every queued node is reached forwards from `start` within its depth. */
  ghost predicate FwdQueue(f: Fabric, blocked: set<string>, tile: string, start: string, q: seq<NodeDepth>)
  {
    forall k :: 0 <= k < |q| ==> q[k].depth <= MaxDepth && ReachesFwd(f, blocked, tile, start, q[k].node, q[k].depth)
  }

  /** The front of a reached queue is reached, and so is the rest. */
  lemma BackQueuePop(f: Fabric, blocked: set<string>, tile: string, start: string, q: seq<NodeDepth>)
    requires q != [] && BackQueue(f, blocked, tile, start, q)
    ensures q[0].depth <= MaxDepth && ReachesBack(f, blocked, tile, start, q[0].node, q[0].depth)
    ensures BackQueue(f, blocked, tile, start, q[1..])
  {
  }

  /** Queueing the node one PIP beyond a reached node keeps the queue reached. */
  lemma BackQueueExtend(f: Fabric, blocked: set<string>, tile: string, start: string, q: seq<NodeDepth>, p: Pip, d: nat)
    requires BackQueue(f, blocked, tile, start, q)
    requires p in f.tilePips(tile) && d < MaxDepth && ReachesBack(f, blocked, tile, start, p.endNode, d)
    requires f.isBuffer(tile, p.startNode) && p.startNode !in blocked
    ensures BackQueue(f, blocked, tile, start, q + [NodeDepth(p.startNode, d + 1)])
  {
    ReachesBackStep(f, blocked, tile, start, p, d);
  }

  /** The front of a reached queue is reached, and so is the rest. */
  lemma FwdQueuePop(f: Fabric, blocked: set<string>, tile: string, start: string, q: seq<NodeDepth>)
    requires q != [] && FwdQueue(f, blocked, tile, start, q)
    ensures q[0].depth <= MaxDepth && ReachesFwd(f, blocked, tile, start, q[0].node, q[0].depth)
    ensures FwdQueue(f, blocked, tile, start, q[1..])
  {
  }

  /** Queueing the node one PIP beyond a reached node keeps the queue reached. */
  lemma FwdQueueExtend(f: Fabric, blocked: set<string>, tile: string, start: string, q: seq<NodeDepth>, p: Pip, d: nat)
    requires FwdQueue(f, blocked, tile, start, q)
    requires p in f.tilePips(tile) && d < MaxDepth && ReachesFwd(f, blocked, tile, start, p.startNode, d)
    requires f.isBuffer(tile, p.endNode) && p.endNode !in blocked
    ensures FwdQueue(f, blocked, tile, start, q + [NodeDepth(p.endNode, d + 1)])
  {
    ReachesFwdStep(f, blocked, tile, start, p, d);
  }

  /** Every wire in `ws` feeds the exit node `start`. */
  ghost predicate AllFeedExit(f: Fabric, blocked: set<string>, tile: string, start: string, ws: set<string>)
  {
    forall w :: w in ws ==> FeedsExit(f, blocked, tile, start, w)
  }

  /** Every wire in `ws` is fed by the entrance node `start`. */
  ghost predicate AllFedByEntrance(f: Fabric, blocked: set<string>, tile: string, start: string, ws: set<string>)
  {
    forall w :: w in ws ==> FedByEntrance(f, blocked, tile, start, w)
  }

  /** An entering wire found one PIP before a node expanded at depth d feeds the exit. */
  lemma FeedsExitStep(f: Fabric, blocked: set<string>, tile: string, start: string, p: Pip, d: nat)
    requires p in f.tilePips(tile) && p.startNode !in blocked && IsEnterCandidate(f, tile, p)
    requires d < MaxDepth && ReachesBack(f, blocked, tile, start, p.endNode, d)
    ensures FeedsExit(f, blocked, tile, start, p.startWire)
    ensures forall ws :: AllFeedExit(f, blocked, tile, start, ws) ==> AllFeedExit(f, blocked, tile, start, ws + {p.startWire})
  {
  }

  /** An exiting wire found one PIP after a node expanded at depth d is fed by the entrance. */
  lemma FedByEntranceStep(f: Fabric, blocked: set<string>, tile: string, start: string, p: Pip, d: nat)
    requires p in f.tilePips(tile) && p.endNode !in blocked && IsExitCandidate(f, tile, p)
    requires d < MaxDepth && ReachesFwd(f, blocked, tile, start, p.startNode, d)
    ensures FedByEntrance(f, blocked, tile, start, p.endWire)
    ensures forall ws :: AllFedByEntrance(f, blocked, tile, start, ws) ==> AllFedByEntrance(f, blocked, tile, start, ws + {p.endWire})
  {
  }

  /** Both ends of a PIP of the tile are nodes of the tile. */
  lemma PipNodesInTile(f: Fabric, tile: string, p: Pip)
    requires p in f.tilePips(tile)
    ensures p.startNode in TileNodes(f, tile) && p.endNode in TileNodes(f, tile)
  {
  }

  /** The nodes of the queued entries. */
  function QueuedNodes(q: seq<NodeDepth>): set<string>
  {
    set e | e in q :: e.node
  }

  /**
   * What one expansion step did to the queue and the visited set: `q` is
   * `q0` followed by entries at `depth` for nodes newly visited (in `fp`
   * but not in `fp0`), at most one entry per such node; every newly visited
   * node is unblocked, and the buffers among them are queued.
   */
  ghost predicate Enqueued(f: Fabric, blocked: set<string>, tile: string, q0: seq<NodeDepth>, q: seq<NodeDepth>,
                           fp0: set<string>, fp: set<string>, depth: nat)
  {
    && q0 <= q && fp0 <= fp && |q| - |q0| <= |fp| - |fp0|
    && (forall k :: |q0| <= k < |q| ==> q[k].depth == depth && q[k].node in fp && q[k].node !in fp0)
    && (forall i, j :: |q0| <= i < j < |q| ==> q[i].node != q[j].node)
    && (forall n :: n in fp && n !in fp0 ==> n !in blocked && (f.isBuffer(tile, n) ==> n in QueuedNodes(q[|q0|..])))
  }

  /** Visiting one more unblocked node, and queueing it when it is a buffer, keeps the step's record. */
  lemma EnqueuedVisit(f: Fabric, blocked: set<string>, tile: string, q0: seq<NodeDepth>, q: seq<NodeDepth>,
                      fp0: set<string>, fp: set<string>, depth: nat, n: string)
    requires Enqueued(f, blocked, tile, q0, q, fp0, fp, depth) && fp0 <= fp
    requires n !in fp && n !in blocked
    ensures f.isBuffer(tile, n) ==> Enqueued(f, blocked, tile, q0, q + [NodeDepth(n, depth)], fp0, fp + {n}, depth)
    ensures !f.isBuffer(tile, n) ==> Enqueued(f, blocked, tile, q0, q, fp0, fp + {n}, depth)
  {
    if f.isBuffer(tile, n) {
      var q' := q + [NodeDepth(n, depth)];
      assert q'[|q0|..] == q[|q0|..] + [NodeDepth(n, depth)];
      assert forall m :: m in QueuedNodes(q[|q0|..]) ==> m in QueuedNodes(q'[|q0|..]);
      assert n in QueuedNodes(q'[|q0|..]);
      assert forall i :: |q0| <= i < |q| ==> q'[i].node != n;
    }
  }

  /**
   * Breadth-first search backwards from `start`: the entering wires whose
   * PIPs lead, through usable buffers, to `start` within MaxDepth hops.
   * Nodes in `blocked` and nodes already visited are skipped.
   */
  method ExitFanOutSearch(f: Fabric, blocked: set<string>, tile: string, start: string) returns (results: set<string>)
    ensures AllFeedExit(f, blocked, tile, start, results)
  {
    results := {};
    var queue := [NodeDepth(start, 0)];
    var footprint: set<string> := {};
    ghost var nodes := TileNodes(f, tile);

    while queue != []
      invariant footprint <= nodes
      invariant BackQueue(f, blocked, tile, start, queue)
      invariant AllFeedExit(f, blocked, tile, start, results)
      decreases |nodes - footprint|, |queue|
    {
      BackQueuePop(f, blocked, tile, start, queue);
      var trav := queue[0];
      queue := queue[1..];
      if trav.depth >= MaxDepth {
        break;
      }
      var footprint0 := footprint;
      queue, footprint, results := ExpandBack(f, blocked, tile, start, trav, queue, footprint, results);
      if footprint != footprint0 {
        FewerUnvisited(nodes, footprint0, footprint);
      }
    }
  }

  /**
   * What ExpandBack keeps while it visits the PIPs into `trav`: the queue
   * still reaches `start`, every recorded wire feeds it, and the queue and
   * visited set differ from `q0` and `fp0` only as one step allows.
   */
  ghost predicate BackStep(f: Fabric, blocked: set<string>, tile: string, start: string, trav: NodeDepth,
                           q0: seq<NodeDepth>, q: seq<NodeDepth>, fp0: set<string>, fp: set<string>, rs: set<string>)
  {
    BackFront(f, blocked, tile, start, trav.depth + 1, q0, q, fp0, fp) && AllFeedExit(f, blocked, tile, start, rs)
  }

  /**
   * The queue and visited set part of BackStep: the queue still reaches
   * `start`, and it and the visited set differ from `q0` and `fp0` only by
   * nodes newly visited at `depth`.
   */
  ghost predicate BackFront(f: Fabric, blocked: set<string>, tile: string, start: string, depth: nat,
                            q0: seq<NodeDepth>, q: seq<NodeDepth>, fp0: set<string>, fp: set<string>)
  {
    && fp0 <= fp <= TileNodes(f, tile)
    && BackQueue(f, blocked, tile, start, q)
    && Enqueued(f, blocked, tile, q0, q, fp0, fp, depth)
  }

  /**
   * One step of ExitFanOutSearch: visits every PIP into the dequeued node
   * `trav`, recording candidate entering wires and queueing buffers.
   */
  method ExpandBack(f: Fabric, blocked: set<string>, tile: string, start: string, trav: NodeDepth,
                    queue: seq<NodeDepth>, footprint: set<string>, results: set<string>)
    returns (queue': seq<NodeDepth>, footprint': set<string>, results': set<string>)
    requires trav.depth < MaxDepth && ReachesBack(f, blocked, tile, start, trav.node, trav.depth)
    requires BackQueue(f, blocked, tile, start, queue) && AllFeedExit(f, blocked, tile, start, results)
    requires footprint <= TileNodes(f, tile)
    ensures BackQueue(f, blocked, tile, start, queue') && AllFeedExit(f, blocked, tile, start, results')
    ensures footprint <= footprint' <= TileNodes(f, tile)
    ensures Enqueued(f, blocked, tile, queue, queue', footprint, footprint', trav.depth + 1)
  {
    queue', footprint', results' := queue, footprint, results;
    var pips := GetBkwdPips(f, tile, trav.node);
    while pips != {}
      invariant pips <= PipsInto(f, tile, trav.node)
      invariant BackStep(f, blocked, tile, start, trav, queue, queue', footprint, footprint', results')
      decreases pips
    {
      var pip :| pip in pips;
      pips := pips - {pip};
      queue', footprint', results' := VisitBack(f, blocked, tile, start, trav, pip, queue, footprint, queue', footprint', results');
    }
  }

  /**
   * ExpandBack's work on one PIP into `trav`: a blocked or visited start
   * node is skipped; otherwise a candidate entering wire is recorded, a
   * buffer is queued one level deeper, and the node is marked visited.
   */
  method VisitBack(f: Fabric, blocked: set<string>, tile: string, start: string, trav: NodeDepth, pip: Pip,
                   queue0: seq<NodeDepth>, footprint0: set<string>,
                   queue: seq<NodeDepth>, footprint: set<string>, results: set<string>)
    returns (queue': seq<NodeDepth>, footprint': set<string>, results': set<string>)
    requires trav.depth < MaxDepth && ReachesBack(f, blocked, tile, start, trav.node, trav.depth)
    requires pip in PipsInto(f, tile, trav.node)
    requires BackStep(f, blocked, tile, start, trav, queue0, queue, footprint0, footprint, results)
    ensures BackStep(f, blocked, tile, start, trav, queue0, queue', footprint0, footprint', results')
  {
    queue', footprint', results' := queue, footprint, results;
    var next := pip.startNode;
    var dir := f.enterDirection(tile, pip.startWire);
    var wireLength := f.enterLength(tile, pip.startWire);

    if next in blocked || next in footprint {
      return;
    }
    if dir.Some? && dir.value != Self && wireLength != 0 && !f.isClock(next) {
      FeedsExitStep(f, blocked, tile, start, pip, trav.depth);
      results' := results + {pip.startWire};
    }
    if f.isBuffer(tile, next) {
      BackFrontQueue(f, blocked, tile, start, trav, pip, queue0, queue, footprint0, footprint);
      queue' := queue + [NodeDepth(next, trav.depth + 1)];
    } else {
      BackFrontMark(f, blocked, tile, start, trav, pip, queue0, queue, footprint0, footprint);
    }
    footprint' := footprint + {next};
  }

  /** Visiting the unvisited, unblocked start buffer of a PIP into `trav` queues it and keeps the record. */
  lemma BackFrontQueue(f: Fabric, blocked: set<string>, tile: string, start: string, trav: NodeDepth, pip: Pip,
                      q0: seq<NodeDepth>, q: seq<NodeDepth>, fp0: set<string>, fp: set<string>)
    requires trav.depth < MaxDepth && ReachesBack(f, blocked, tile, start, trav.node, trav.depth)
    requires pip in PipsInto(f, tile, trav.node) && pip.startNode !in blocked && pip.startNode !in fp
    requires f.isBuffer(tile, pip.startNode)
    requires BackFront(f, blocked, tile, start, trav.depth + 1, q0, q, fp0, fp)
    ensures BackFront(f, blocked, tile, start, trav.depth + 1, q0, q + [NodeDepth(pip.startNode, trav.depth + 1)], fp0, fp + {pip.startNode})
  {
    PipNodesInTile(f, tile, pip);
    EnqueuedVisit(f, blocked, tile, q0, q, fp0, fp, trav.depth + 1, pip.startNode);
    BackQueueExtend(f, blocked, tile, start, q, pip, trav.depth);
  }

  /** Visiting the unvisited, unblocked start node of a PIP into `trav`, when it is no buffer, keeps the record. */
  lemma BackFrontMark(f: Fabric, blocked: set<string>, tile: string, start: string, trav: NodeDepth, pip: Pip,
                     q0: seq<NodeDepth>, q: seq<NodeDepth>, fp0: set<string>, fp: set<string>)
    requires pip in PipsInto(f, tile, trav.node) && pip.startNode !in blocked && pip.startNode !in fp
    requires !f.isBuffer(tile, pip.startNode)
    requires BackFront(f, blocked, tile, start, trav.depth + 1, q0, q, fp0, fp)
    ensures BackFront(f, blocked, tile, start, trav.depth + 1, q0, q, fp0, fp + {pip.startNode})
  {
    PipNodesInTile(f, tile, pip);
    EnqueuedVisit(f, blocked, tile, q0, q, fp0, fp, trav.depth + 1, pip.startNode);
  }

  /**
   * Breadth-first search forwards from `start`: the exiting wires whose
   * PIPs are reached, through usable buffers, from `start` within MaxDepth hops.
   * Nodes in `blocked` and nodes already visited are skipped.
   */
  method EntranceFanOutSearch(f: Fabric, blocked: set<string>, tile: string, start: string) returns (results: set<string>)
    ensures AllFedByEntrance(f, blocked, tile, start, results)
  {
    results := {};
    var queue := [NodeDepth(start, 0)];
    var footprint: set<string> := {};
    ghost var nodes := TileNodes(f, tile);

    while queue != []
      invariant footprint <= nodes
      invariant FwdQueue(f, blocked, tile, start, queue)
      invariant AllFedByEntrance(f, blocked, tile, start, results)
      decreases |nodes - footprint|, |queue|
    {
      FwdQueuePop(f, blocked, tile, start, queue);
      var trav := queue[0];
      queue := queue[1..];
      if trav.depth >= MaxDepth {
        break;
      }
      var footprint0 := footprint;
      queue, footprint, results := ExpandFwd(f, blocked, tile, start, trav, queue, footprint, results);
      if footprint != footprint0 {
        FewerUnvisited(nodes, footprint0, footprint);
      }
    }
  }

  /**
   * What ExpandFwd keeps while it visits the PIPs out of `trav`: the queue
   * is still reached from `start`, every recorded wire is fed by it, and the
   * queue and visited set differ from `q0` and `fp0` only as one step allows.
   */
  ghost predicate FwdStep(f: Fabric, blocked: set<string>, tile: string, start: string, trav: NodeDepth,
                          q0: seq<NodeDepth>, q: seq<NodeDepth>, fp0: set<string>, fp: set<string>, rs: set<string>)
  {
    FwdFront(f, blocked, tile, start, trav.depth + 1, q0, q, fp0, fp) && AllFedByEntrance(f, blocked, tile, start, rs)
  }

  /**
   * The queue and visited set part of FwdStep and ProbeStep: the queue is
   * still reached from `start`, and it and the visited set differ from `q0`
   * and `fp0` only by nodes newly visited at `depth`.
   */
  ghost predicate FwdFront(f: Fabric, blocked: set<string>, tile: string, start: string, depth: nat,
                           q0: seq<NodeDepth>, q: seq<NodeDepth>, fp0: set<string>, fp: set<string>)
  {
    && fp0 <= fp <= TileNodes(f, tile)
    && FwdQueue(f, blocked, tile, start, q)
    && Enqueued(f, blocked, tile, q0, q, fp0, fp, depth)
  }

  /**
   * One step of EntranceFanOutSearch: visits every PIP out of the dequeued
   * node `trav`, recording candidate exiting wires and queueing buffers.
   */
  method ExpandFwd(f: Fabric, blocked: set<string>, tile: string, start: string, trav: NodeDepth,
                   queue: seq<NodeDepth>, footprint: set<string>, results: set<string>)
    returns (queue': seq<NodeDepth>, footprint': set<string>, results': set<string>)
    requires trav.depth < MaxDepth && ReachesFwd(f, blocked, tile, start, trav.node, trav.depth)
    requires FwdQueue(f, blocked, tile, start, queue) && AllFedByEntrance(f, blocked, tile, start, results)
    requires footprint <= TileNodes(f, tile)
    ensures FwdQueue(f, blocked, tile, start, queue') && AllFedByEntrance(f, blocked, tile, start, results')
    ensures footprint <= footprint' <= TileNodes(f, tile)
    ensures Enqueued(f, blocked, tile, queue, queue', footprint, footprint', trav.depth + 1)
  {
    queue', footprint', results' := queue, footprint, results;
    var pips := GetFwdPips(f, tile, trav.node);
    while pips != {}
      invariant pips <= PipsFrom(f, tile, trav.node)
      invariant FwdStep(f, blocked, tile, start, trav, queue, queue', footprint, footprint', results')
      decreases pips
    {
      var pip :| pip in pips;
      pips := pips - {pip};
      queue', footprint', results' := VisitFwd(f, blocked, tile, start, trav, pip, queue, footprint, queue', footprint', results');
    }
  }

  /**
   * ExpandFwd's work on one PIP out of `trav`: a blocked or visited end
   * node is skipped; otherwise a candidate exiting wire is recorded, a
   * buffer is queued one level deeper, and the node is marked visited.
   */
  method VisitFwd(f: Fabric, blocked: set<string>, tile: string, start: string, trav: NodeDepth, pip: Pip,
                  queue0: seq<NodeDepth>, footprint0: set<string>,
                  queue: seq<NodeDepth>, footprint: set<string>, results: set<string>)
    returns (queue': seq<NodeDepth>, footprint': set<string>, results': set<string>)
    requires trav.depth < MaxDepth && ReachesFwd(f, blocked, tile, start, trav.node, trav.depth)
    requires pip in PipsFrom(f, tile, trav.node)
    requires FwdStep(f, blocked, tile, start, trav, queue0, queue, footprint0, footprint, results)
    ensures FwdStep(f, blocked, tile, start, trav, queue0, queue', footprint0, footprint', results')
  {
    queue', footprint', results' := queue, footprint, results;
    var next := pip.endNode;
    var dir := f.exitDirection(tile, pip.endWire);
    var wireLength := f.exitLength(tile, pip.endWire);

    if next in blocked || next in footprint {
      return;
    }
    if dir.Some? && dir.value != Self && wireLength != 0 && !f.isClock(next) {
      FedByEntranceStep(f, blocked, tile, start, pip, trav.depth);
      results' := results + {pip.endWire};
    }
    if f.isBuffer(tile, next) {
      FwdFrontQueue(f, blocked, tile, start, trav, pip, queue0, queue, footprint0, footprint);
      queue' := queue + [NodeDepth(next, trav.depth + 1)];
    } else {
      FwdFrontMark(f, blocked, tile, start, trav, pip, queue0, queue, footprint0, footprint);
    }
    footprint' := footprint + {next};
  }

  /** Visiting the unvisited, unblocked end buffer of a PIP out of `trav` queues it and keeps the record. */
  lemma FwdFrontQueue(f: Fabric, blocked: set<string>, tile: string, start: string, trav: NodeDepth, pip: Pip,
                      q0: seq<NodeDepth>, q: seq<NodeDepth>, fp0: set<string>, fp: set<string>)
    requires trav.depth < MaxDepth && ReachesFwd(f, blocked, tile, start, trav.node, trav.depth)
    requires pip in PipsFrom(f, tile, trav.node) && pip.endNode !in blocked && pip.endNode !in fp
    requires f.isBuffer(tile, pip.endNode)
    requires FwdFront(f, blocked, tile, start, trav.depth + 1, q0, q, fp0, fp)
    ensures FwdFront(f, blocked, tile, start, trav.depth + 1, q0, q + [NodeDepth(pip.endNode, trav.depth + 1)], fp0, fp + {pip.endNode})
  {
    PipNodesInTile(f, tile, pip);
    EnqueuedVisit(f, blocked, tile, q0, q, fp0, fp, trav.depth + 1, pip.endNode);
    FwdQueueExtend(f, blocked, tile, start, q, pip, trav.depth);
  }

  /** Visiting the unvisited, unblocked end node of a PIP out of `trav`, when it is no buffer, keeps the record. */
  lemma FwdFrontMark(f: Fabric, blocked: set<string>, tile: string, start: string, trav: NodeDepth, pip: Pip,
                     q0: seq<NodeDepth>, q: seq<NodeDepth>, fp0: set<string>, fp: set<string>)
    requires pip in PipsFrom(f, tile, trav.node) && pip.endNode !in blocked && pip.endNode !in fp
    requires !f.isBuffer(tile, pip.endNode)
    requires FwdFront(f, blocked, tile, start, trav.depth + 1, q0, q, fp0, fp)
    ensures FwdFront(f, blocked, tile, start, trav.depth + 1, q0, q, fp0, fp + {pip.endNode})
  {
    PipNodesInTile(f, tile, pip);
    EnqueuedVisit(f, blocked, tile, q0, q, fp0, fp, trav.depth + 1, pip.endNode);
  }

  /** Costs never decrease along the sequence. */
  predicate CostsSorted(q: seq<TilePath>)
  {
    forall i, j :: 0 <= i < j < |q| ==> q[i].cost <= q[j].cost
  }

  /** Every queued path is a partial tile path from `a` to `b` of at most MaxDepth + 1 hops. */
  ghost predicate PathQueue(f: Fabric, blocked: set<string>, tile: string, a: string, b: string, q: seq<TilePath>)
  {
    forall k :: 0 <= k < |q| ==> IsPartialTilePath(f, blocked, tile, a, b, q[k]) && q[k].cost <= MaxDepth + 1
  }

  /** Every recorded path is a complete tile path from `a` to `b` of at most MaxDepth hops. */
  ghost predicate FoundPaths(f: Fabric, blocked: set<string>, tile: string, a: string, b: string, rs: seq<TilePath>)
  {
    forall k :: 0 <= k < |rs| ==> IsTilePath(f, blocked, tile, a, b, rs[k]) && rs[k].cost <= MaxDepth
  }

  /**
   * Each recorded path costs at most two hops more than the one recorded
   * before it: after a path of cost c is found the ceiling becomes
   * (c - 1) + ExtraDepthTolerance.
   */
  predicate WithinSlack(rs: seq<TilePath>)
  {
    forall j :: 0 < j < |rs| ==> rs[j].cost <= rs[j - 1].cost - 1 + ExtraDepthTolerance
  }

  /**
   * A complete tile path the search is bound to report, given what it has
   * recorded: at most MaxDepth hops and, once a first path is recorded, at
   * most ExtraDepthTolerance - 1 hops more than that first path.
   */
  ghost predicate Admitted(f: Fabric, blocked: set<string>, tile: string, a: string, b: string, t: TilePath, rs: seq<TilePath>)
  {
    && IsTilePath(f, blocked, tile, a, b, t) && t.cost <= MaxDepth
    && (rs != [] ==> t.cost <= rs[0].cost - 1 + ExtraDepthTolerance)
  }

  /** Appending a path no cheaper than the last keeps the costs sorted. */
  lemma SortedAppend(q: seq<TilePath>, t: TilePath)
    requires CostsSorted(q) && (q != [] ==> q[|q| - 1].cost <= t.cost)
    ensures CostsSorted(q + [t])
  {
  }

  /** Putting one more buffer in front of the exit keeps a partial tile path. */
  lemma ExtendPartial(f: Fabric, blocked: set<string>, tile: string, a: string, b: string, t: TilePath, p: Pip)
    requires IsPartialTilePath(f, blocked, tile, a, b, t)
    requires p in f.tilePips(tile) && p.startNode == t.nodes[|t.nodes| - 2]
    requires f.isBuffer(tile, p.endNode) && p.endNode !in blocked
    requires AddNode(t, p.endNode).Some?
    ensures IsPartialTilePath(f, blocked, tile, a, b, AddNode(t, p.endNode).value)
  {
  }

  /** A partial tile path whose last hop is a PIP of the tile is complete. */
  lemma CompletePath(f: Fabric, blocked: set<string>, tile: string, a: string, b: string, t: TilePath, p: Pip)
    requires IsPartialTilePath(f, blocked, tile, a, b, t)
    requires p in f.tilePips(tile) && p.startNode == t.nodes[|t.nodes| - 2] && p.endNode == b
    ensures IsTilePath(f, blocked, tile, a, b, t)
  {
  }

  /**
   * The path the search holds on its way to `t` after inserting `t`'s
   * first j - 1 buffers: `t`'s first j nodes closed by its exit node.
   */
  function Prefix(t: TilePath, j: nat): TilePath
    requires 1 <= j < |t.nodes|
  {
    TilePath(t.nodes[..j] + [t.nodes[|t.nodes| - 1]], j)
  }

  /** The search starts every tile path from the one-hop path. */
  lemma PrefixFirst(f: Fabric, blocked: set<string>, tile: string, entrance: Junction, exit: Junction, t: TilePath)
    requires IsTilePath(f, blocked, tile, entrance.node, exit.node, t)
    ensures Prefix(t, 1) == Between(entrance, exit)
  {
    assert t.nodes[..1] + [t.nodes[|t.nodes| - 1]] == [entrance.node, exit.node];
  }

  /** The longest prefix of a tile path is the path itself. */
  lemma PrefixWhole(f: Fabric, blocked: set<string>, tile: string, a: string, b: string, t: TilePath)
    requires IsTilePath(f, blocked, tile, a, b, t)
    ensures Prefix(t, t.cost) == t
  {
    assert t.nodes[..t.cost] + [t.nodes[|t.nodes| - 1]] == t.nodes;
  }

  /**
   * Each prefix of a tile path grows into the next one: its node before the
   * exit has a PIP into `t`'s next node, a usable buffer other than the
   * exit, and inserting that buffer gives the next prefix.
   */
  lemma PrefixExtend(f: Fabric, blocked: set<string>, tile: string, a: string, b: string, t: TilePath, j: nat)
    requires IsTilePath(f, blocked, tile, a, b, t) && 1 <= j < t.cost
    ensures Prefix(t, j).nodes[j - 1] == t.nodes[j - 1]
    ensures Linked(f, tile, t.nodes[j - 1], t.nodes[j])
    ensures t.nodes[j] != b && f.isBuffer(tile, t.nodes[j]) && t.nodes[j] !in blocked
    ensures AddNode(Prefix(t, j), t.nodes[j]) == Some(Prefix(t, j + 1))
  {
    var n := t.nodes[j];
    var pre := Prefix(t, j);
    assert n !in pre.nodes by {
      forall i | 0 <= i < |pre.nodes|
        ensures pre.nodes[i] != n
      {
        if i < j {
          assert pre.nodes[i] == t.nodes[i];
        } else {
          assert pre.nodes[i] == t.nodes[|t.nodes| - 1];
        }
      }
    }
    assert pre.nodes[..j] + [n, t.nodes[|t.nodes| - 1]] == t.nodes[..j + 1] + [t.nodes[|t.nodes| - 1]];
  }

  /**
   * The expansion of `trav` has taken PIP `p` into account: a PIP into the
   * exit node `b` has recorded `trav`, and a PIP into a usable buffer not on
   * `trav` has queued `trav` extended by that buffer.
   */
  ghost predicate Followed(f: Fabric, blocked: set<string>, tile: string, b: string, trav: TilePath, p: Pip,
                           q: seq<TilePath>, rs: seq<TilePath>)
  {
    && |trav.nodes| >= 2
    && (p.endNode == b ==> trav in rs)
    && (p.endNode != b && f.isBuffer(tile, p.endNode) && p.endNode !in blocked && p.endNode !in trav.nodes ==>
          AddNode(trav, p.endNode).value in q)
  }

  /** What is queued or recorded stays so as the queue and results grow. */
  lemma FollowedGrow(f: Fabric, blocked: set<string>, tile: string, b: string, trav: TilePath, done: set<Pip>,
                     q: seq<TilePath>, q': seq<TilePath>, rs: seq<TilePath>, rs': seq<TilePath>)
    requires q <= q' && rs <= rs'
    requires forall p :: p in done ==> Followed(f, blocked, tile, b, trav, p, q, rs)
    ensures forall p :: p in done ==> Followed(f, blocked, tile, b, trav, p, q', rs')
  {
    assert forall x :: x in q ==> x in q' by {
      forall x | x in q
        ensures x in q'
      {
        var i :| 0 <= i < |q| && q[i] == x;
        assert q'[i] == x;
      }
    }
    assert forall x :: x in rs ==> x in rs' by {
      forall x | x in rs
        ensures x in rs'
      {
        var i :| 0 <= i < |rs| && rs[i] == x;
        assert rs'[i] == x;
      }
    }
  }

  /**
   * Every admitted tile path has been recorded or has a prefix still
   * waiting in the queue.
   */
  ghost predicate Complete(f: Fabric, blocked: set<string>, tile: string, a: string, b: string,
                           q: seq<TilePath>, rs: seq<TilePath>)
  {
    forall t :: Admitted(f, blocked, tile, a, b, t, rs) ==>
      t in rs || exists j :: 1 <= j <= t.cost && Prefix(t, j) in q
  }

  /** Before the search starts, every tile path waits behind the one-hop path. */
  lemma CompleteInit(f: Fabric, blocked: set<string>, tile: string, entrance: Junction, exit: Junction)
    ensures Complete(f, blocked, tile, entrance.node, exit.node, [Between(entrance, exit)], [])
  {
    forall t | Admitted(f, blocked, tile, entrance.node, exit.node, t, [])
      ensures Prefix(t, 1) in [Between(entrance, exit)]
    {
      PrefixFirst(f, blocked, tile, entrance, exit, t);
    }
  }

  /**
   * Expanding the front path, with every PIP out of its node before the
   * exit followed, keeps every admitted tile path recorded or waiting.
   */
  lemma CompleteStep(f: Fabric, blocked: set<string>, tile: string, a: string, b: string,
                     q: seq<TilePath>, q': seq<TilePath>, rs: seq<TilePath>, rs': seq<TilePath>)
    requires q != [] && Complete(f, blocked, tile, a, b, q, rs) && |q[0].nodes| >= 2
    requires q[1..] <= q' && rs <= rs'
    requires forall p :: p in PipsFrom(f, tile, NodeName(q[0], -2)) ==> Followed(f, blocked, tile, b, q[0], p, q', rs')
    ensures Complete(f, blocked, tile, a, b, q', rs')
  {
    forall t | Admitted(f, blocked, tile, a, b, t, rs')
      ensures t in rs' || exists j :: 1 <= j <= t.cost && Prefix(t, j) in q'
    {
      assert Admitted(f, blocked, tile, a, b, t, rs);
      if t in rs {
        var i :| 0 <= i < |rs| && rs[i] == t;
        assert rs'[i] == t;
      } else {
        var j :| 1 <= j <= t.cost && Prefix(t, j) in q;
        var k :| 0 <= k < |q| && q[k] == Prefix(t, j);
        if k > 0 {
          assert q'[k - 1] == Prefix(t, j);
        } else {
          CompleteFront(f, blocked, tile, a, b, q[0], q', rs', t, j);
        }
      }
    }
  }

  /**
   * An admitted tile path whose prefix of j hops is the expanded path
   * `trav` is recorded, when j is its whole cost, or has its prefix of
   * j + 1 hops queued.
   */
  lemma CompleteFront(f: Fabric, blocked: set<string>, tile: string, a: string, b: string,
                      trav: TilePath, q': seq<TilePath>, rs': seq<TilePath>, t: TilePath, j: nat)
    requires IsTilePath(f, blocked, tile, a, b, t) && 1 <= j <= t.cost && trav == Prefix(t, j)
    requires forall p :: p in PipsFrom(f, tile, NodeName(trav, -2)) ==> Followed(f, blocked, tile, b, trav, p, q', rs')
    ensures j == t.cost ==> t in rs'
    ensures j < t.cost ==> Prefix(t, j + 1) in q'
  {
    if j == t.cost {
      PrefixWhole(f, blocked, tile, a, b, t);
      var p :| p in f.tilePips(tile) && p.startNode == t.nodes[|t.nodes| - 2] && p.endNode == t.nodes[|t.nodes| - 1];
      assert p in PipsFrom(f, tile, NodeName(trav, -2));
    } else {
      PrefixExtend(f, blocked, tile, a, b, t, j);
      var p :| p in f.tilePips(tile) && p.startNode == t.nodes[j - 1] && p.endNode == t.nodes[j];
      assert p in PipsFrom(f, tile, NodeName(trav, -2));
    }
  }

  /**
   * When the queue is empty, or its cheapest path is over the ceiling,
   * every admitted tile path has been recorded.
   */
  lemma CompleteCutoff(f: Fabric, blocked: set<string>, tile: string, a: string, b: string,
                       q: seq<TilePath>, rs: seq<TilePath>, md: int)
    requires Complete(f, blocked, tile, a, b, q, rs) && CostsSorted(q)
    requires rs == [] ==> md == MaxDepth
    requires rs != [] ==> Ceiling(rs[0].cost - 1) <= md
    requires q != [] ==> q[0].cost > md
    ensures forall t :: Admitted(f, blocked, tile, a, b, t, rs) ==> t in rs
  {
    forall t | Admitted(f, blocked, tile, a, b, t, rs)
      ensures t in rs
    {
      forall j, k | 1 <= j <= t.cost && 0 <= k < |q|
        ensures q[k] != Prefix(t, j)
      {
        assert q[0].cost <= q[k].cost;
      }
    }
  }

  /**
   * What holds between iterations of TilePathSearch: the queue holds partial
   * tile paths in cost order spanning at most one hop, the results are
   * complete tile paths in cost order within the slack and no costlier than
   * anything queued, and the ceiling is at most MaxDepth, at most the slack
   * above the last result and at least the slack above the first.
   */
  ghost predicate SearchState(f: Fabric, blocked: set<string>, tile: string, a: string, b: string,
                              q: seq<TilePath>, rs: seq<TilePath>, md: int)
  {
    && md <= MaxDepth
    && PathQueue(f, blocked, tile, a, b, q)
    && CostsSorted(q) && (q != [] ==> q[|q| - 1].cost <= q[0].cost + 1)
    && FoundPaths(f, blocked, tile, a, b, rs) && CostsSorted(rs) && WithinSlack(rs)
    && (rs != [] ==>
        && md <= rs[|rs| - 1].cost - 1 + ExtraDepthTolerance
        && Ceiling(rs[0].cost - 1) <= md
        && forall k :: 0 <= k < |q| ==> rs[|rs| - 1].cost <= q[k].cost)
  }

  /** Taking the front path within the ceiling sets up its expansion. */
  lemma SearchStatePop(f: Fabric, blocked: set<string>, tile: string, a: string, b: string,
                       q: seq<TilePath>, rs: seq<TilePath>, md: int)
    requires SearchState(f, blocked, tile, a, b, q, rs, md) && q != [] && q[0].cost <= md
    ensures IsPartialTilePath(f, blocked, tile, a, b, q[0])
    ensures Frontier(f, blocked, tile, a, b, q[0], q[1..], q[1..])
    ensures Recorded(f, blocked, tile, a, b, q[0], rs, rs, md, md)
  {
  }

  /** Expanding one path restores the state between iterations. */
  lemma SearchStateResume(f: Fabric, blocked: set<string>, tile: string, a: string, b: string, trav: TilePath,
                          q0: seq<TilePath>, q: seq<TilePath>, rs0: seq<TilePath>, rs: seq<TilePath>, md0: int, md: int)
    requires Frontier(f, blocked, tile, a, b, trav, q0, q)
    requires Recorded(f, blocked, tile, a, b, trav, rs0, rs, md0, md)
    ensures SearchState(f, blocked, tile, a, b, q, rs, md)
  {
  }

  /**
   * The loop state of TilePathSearch: the state between iterations, every
   * admitted path recorded or waiting, the ceiling at MaxDepth until a first
   * path is recorded, and, when a PIP joins the entrance node to the exit
   * node, the one-hop path waiting alone or recorded first.
   */
  ghost predicate Searching(f: Fabric, blocked: set<string>, tile: string, entrance: Junction, exit: Junction,
                            q: seq<TilePath>, rs: seq<TilePath>, md: int)
  {
    && SearchState(f, blocked, tile, entrance.node, exit.node, q, rs, md)
    && Complete(f, blocked, tile, entrance.node, exit.node, q, rs)
    && (rs == [] ==> md == MaxDepth)
    && (Linked(f, tile, entrance.node, exit.node) ==>
          if rs == [] then q == [Between(entrance, exit)] else rs[0] == Between(entrance, exit))
  }

  /** Expanding the front path within the ceiling restores the loop state. */
  lemma SearchingResume(f: Fabric, blocked: set<string>, tile: string, entrance: Junction, exit: Junction,
                        q: seq<TilePath>, q': seq<TilePath>, rs: seq<TilePath>, rs': seq<TilePath>, md: int, md': int)
    requires Searching(f, blocked, tile, entrance, exit, q, rs, md) && q != []
    requires IsPartialTilePath(f, blocked, tile, entrance.node, exit.node, q[0])
    requires Frontier(f, blocked, tile, entrance.node, exit.node, q[0], q[1..], q')
    requires Recorded(f, blocked, tile, entrance.node, exit.node, q[0], rs, rs', md, md')
    requires forall p :: p in PipsFrom(f, tile, NodeName(q[0], -2)) ==> Followed(f, blocked, tile, exit.node, q[0], p, q', rs')
    requires Linked(f, tile, NodeName(q[0], -2), exit.node) ==> q[0] in rs'
    ensures Searching(f, blocked, tile, entrance, exit, q', rs', md')
  {
    SearchStateResume(f, blocked, tile, entrance.node, exit.node, q[0], q[1..], q', rs, rs', md, md');
    CompleteStep(f, blocked, tile, entrance.node, exit.node, q, q', rs, rs');
  }

  /**
   * Breadth-first enumeration of the tile paths from `entrance` to `exit`
   * through usable buffers. The depth ceiling starts at MaxDepth and, each
   * time a path of cost c reaches the exit, becomes
   * min(c - 1 + ExtraDepthTolerance, MaxDepth); the search stops at the
   * first dequeued path that costs more than the ceiling.
   */
  method TilePathSearch(f: Fabric, blocked: set<string>, tile: string, entrance: Junction, exit: Junction)
    returns (results: seq<TilePath>)
    ensures FoundPaths(f, blocked, tile, entrance.node, exit.node, results)
    ensures CostsSorted(results) && WithinSlack(results)
    ensures forall t :: Admitted(f, blocked, tile, entrance.node, exit.node, t, results) ==> t in results
    ensures Linked(f, tile, entrance.node, exit.node) ==> results != [] && results[0] == Between(entrance, exit)
  {
    var a, b := entrance.node, exit.node;
    results := [];
    var queue := [Between(entrance, exit)];
    var maxDepth := MaxDepth;
    var minDepth := 0;
    CompleteInit(f, blocked, tile, entrance, exit);
    assert Linked(f, tile, a, b) ==> queue == [Between(entrance, exit)];

    while queue != []
      invariant Searching(f, blocked, tile, entrance, exit, queue, results, maxDepth)
      decreases Level(queue, 1), Level(queue, 2), Level(queue, 3), Level(queue, 4), Level(queue, 5),
        Level(queue, 6), Level(queue, 7), Level(queue, 8), Level(queue, 9)
    {
      var trav := queue[0];
      ghost var before := queue;
      queue := queue[1..];
      if trav.cost >= maxDepth + 1 {
        CompleteCutoff(f, blocked, tile, a, b, before, results, maxDepth);
        return;
      }
      queue, results, minDepth, maxDepth := SearchStep(f, blocked, tile, entrance, exit, before, trav, queue, results, minDepth, maxDepth);
    }
    CompleteCutoff(f, blocked, tile, a, b, [], results, maxDepth);
  }

  /**
   * One iteration of TilePathSearch past the ceiling test: expands the
   * dequeued path `trav`, leaving the loop state intact and the measure
   * lower: one path of the dequeued cost fewer, only paths one hop longer added.
   */
  method SearchStep(f: Fabric, blocked: set<string>, tile: string, entrance: Junction, exit: Junction,
                    ghost before: seq<TilePath>, trav: TilePath, queue: seq<TilePath>, results: seq<TilePath>,
                    minDepth: int, maxDepth: int)
    returns (queue': seq<TilePath>, results': seq<TilePath>, minDepth': int, maxDepth': int)
    requires Searching(f, blocked, tile, entrance, exit, before, results, maxDepth)
    requires before != [] && trav == before[0] && queue == before[1..] && trav.cost <= maxDepth
    ensures Searching(f, blocked, tile, entrance, exit, queue', results', maxDepth')
    ensures 1 <= trav.cost <= MaxDepth
    ensures LevelsBelow(queue', before)
  {
    SearchStatePop(f, blocked, tile, entrance.node, exit.node, before, results, maxDepth);
    queue', results', minDepth', maxDepth' :=
      ExpandPath(f, blocked, tile, entrance.node, exit.node, trav, queue, results, minDepth, maxDepth);
    SearchingResume(f, blocked, tile, entrance, exit, before, queue', results, results', maxDepth, maxDepth');
    LevelsStep(before, queue');
  }

  /** The ceiling after a path whose cost is minDepth + 1 has reached the exit. */
  function Ceiling(minDepth: int): (c: int)
    ensures c <= MaxDepth && c <= minDepth + ExtraDepthTolerance
    ensures c == MaxDepth || c == minDepth + ExtraDepthTolerance
  {
    if minDepth + ExtraDepthTolerance < MaxDepth then minDepth + ExtraDepthTolerance else MaxDepth
  }

  /**
   * The queue `q` after expanding `trav` from `q0`: `q0` extended by partial
   * tile paths, all in cost order, within one hop of `trav`, and changed
   * only in the number of paths one hop longer than `trav`.
   */
  ghost predicate Frontier(f: Fabric, blocked: set<string>, tile: string, a: string, b: string, trav: TilePath,
                           q0: seq<TilePath>, q: seq<TilePath>)
  {
    && q0 <= q
    && PathQueue(f, blocked, tile, a, b, q) && CostsSorted(q)
    && (forall k :: 0 <= k < |q| ==> trav.cost <= q[k].cost <= trav.cost + 1)
    && (forall c :: c != trav.cost + 1 ==> Level(q, c) == Level(q0, c))
  }

  /**
   * The results `rs` and ceiling `md` after expanding `trav` from `rs0` and
   * `md0`: `rs0` extended by complete tile paths, in cost order within the
   * slack, every new entry being `trav`, and the ceiling changed only by a
   * new entry, never below the slack above the first entry.
   */
  ghost predicate Recorded(f: Fabric, blocked: set<string>, tile: string, a: string, b: string, trav: TilePath,
                           rs0: seq<TilePath>, rs: seq<TilePath>, md0: int, md: int)
  {
    && trav.cost <= md <= MaxDepth
    && rs0 <= rs
    && FoundPaths(f, blocked, tile, a, b, rs) && CostsSorted(rs) && WithinSlack(rs)
    && (rs0 == [] && rs != [] ==> rs[0] == trav)
    && (forall k :: |rs0| <= k < |rs| ==> rs[k] == trav)
    && (rs != [] ==>
        && rs[|rs| - 1].cost <= trav.cost
        && md <= rs[|rs| - 1].cost - 1 + ExtraDepthTolerance
        && Ceiling(rs[0].cost - 1) <= md)
    && (|rs| == |rs0| ==> md == md0)
  }

  /** Queueing a one-hop-longer partial path keeps the frontier. */
  lemma FrontierAppend(f: Fabric, blocked: set<string>, tile: string, a: string, b: string, trav: TilePath,
                       q0: seq<TilePath>, q: seq<TilePath>, t: TilePath)
    requires Frontier(f, blocked, tile, a, b, trav, q0, q)
    requires IsPartialTilePath(f, blocked, tile, a, b, t) && t.cost == trav.cost + 1 <= MaxDepth + 1
    ensures Frontier(f, blocked, tile, a, b, trav, q0, q + [t])
  {
    PathQueueAppend(f, blocked, tile, a, b, q, t);
    SortedAppend(q, t);
    var q' := q + [t];
    forall k | 0 <= k < |q'| ensures trav.cost <= q'[k].cost <= trav.cost + 1 {
      if k < |q| {
        assert q'[k] == q[k];
      }
    }
    LevelsAppend(q0, q, t);
  }

  /** Appending a path leaves the count of every other cost as it was. */
  lemma LevelsAppend(q0: seq<TilePath>, q: seq<TilePath>, t: TilePath)
    requires forall c :: c != t.cost ==> Level(q, c) == Level(q0, c)
    ensures forall c :: c != t.cost ==> Level(q + [t], c) == Level(q0, c)
  {
    assert (q + [t])[..|q|] == q;
  }

  /** Appending a partial tile path of at most MaxDepth + 1 hops keeps every entry one. */
  lemma PathQueueAppend(f: Fabric, blocked: set<string>, tile: string, a: string, b: string, q: seq<TilePath>, t: TilePath)
    requires PathQueue(f, blocked, tile, a, b, q)
    requires IsPartialTilePath(f, blocked, tile, a, b, t) && t.cost <= MaxDepth + 1
    ensures PathQueue(f, blocked, tile, a, b, q + [t])
  {
    var q' := q + [t];
    forall k | 0 <= k < |q'|
      ensures IsPartialTilePath(f, blocked, tile, a, b, q'[k]) && q'[k].cost <= MaxDepth + 1
    {
      if k < |q| {
        assert q'[k] == q[k];
      }
    }
  }

  /** Recording `trav` when it reaches the exit keeps the record, with the new ceiling. */
  lemma RecordedHit(f: Fabric, blocked: set<string>, tile: string, a: string, b: string, trav: TilePath,
                    rs0: seq<TilePath>, rs: seq<TilePath>, md0: int, md: int)
    requires Recorded(f, blocked, tile, a, b, trav, rs0, rs, md0, md)
    requires IsTilePath(f, blocked, tile, a, b, trav)
    ensures Recorded(f, blocked, tile, a, b, trav, rs0, rs + [trav], md0, Ceiling(trav.cost - 1))
  {
    FoundPathsAppend(f, blocked, tile, a, b, rs, trav);
    SortedAppend(rs, trav);
    SlackAppend(rs, trav);
  }

  /** Appending a complete tile path of at most MaxDepth hops keeps every entry one. */
  lemma FoundPathsAppend(f: Fabric, blocked: set<string>, tile: string, a: string, b: string, rs: seq<TilePath>, t: TilePath)
    requires FoundPaths(f, blocked, tile, a, b, rs)
    requires IsTilePath(f, blocked, tile, a, b, t) && t.cost <= MaxDepth
    ensures FoundPaths(f, blocked, tile, a, b, rs + [t])
  {
    var rs' := rs + [t];
    forall k | 0 <= k < |rs'|
      ensures IsTilePath(f, blocked, tile, a, b, rs'[k]) && rs'[k].cost <= MaxDepth
    {
      if k < |rs| {
        assert rs'[k] == rs[k];
      }
    }
  }

  /** Appending a path within the slack above the last entry keeps the results within the slack. */
  lemma SlackAppend(rs: seq<TilePath>, t: TilePath)
    requires WithinSlack(rs)
    requires rs != [] ==> t.cost <= rs[|rs| - 1].cost - 1 + ExtraDepthTolerance
    ensures WithinSlack(rs + [t])
  {
    var rs' := rs + [t];
    forall j | 0 < j < |rs'| ensures rs'[j].cost <= rs'[j - 1].cost - 1 + ExtraDepthTolerance {
      if j < |rs| {
        assert rs'[j] == rs[j] && rs'[j - 1] == rs[j - 1];
      }
    }
  }

  /**
   * What ExpandPath keeps while it follows the PIPs out of the node before
   * the exit on `trav`: the frontier and the record, and every PIP in
   * `done` followed.
   */
  ghost predicate PathStep(f: Fabric, blocked: set<string>, tile: string, a: string, b: string, trav: TilePath,
                           done: set<Pip>, q0: seq<TilePath>, q: seq<TilePath>, rs0: seq<TilePath>, rs: seq<TilePath>,
                           md0: int, md: int)
  {
    && Frontier(f, blocked, tile, a, b, trav, q0, q)
    && Recorded(f, blocked, tile, a, b, trav, rs0, rs, md0, md)
    && forall p :: p in done ==> Followed(f, blocked, tile, b, trav, p, q, rs)
  }

  /**
   * One step of TilePathSearch: follows every PIP out of the node before
   * the exit on `trav`. A PIP into the exit node records `trav` and lowers
   * the ceiling; a PIP into a usable buffer not yet on `trav` queues `trav`
   * extended by that buffer.
   */
  method ExpandPath(f: Fabric, blocked: set<string>, tile: string, a: string, b: string, trav: TilePath,
                    queue: seq<TilePath>, results: seq<TilePath>, minDepth: int, maxDepth: int)
    returns (queue': seq<TilePath>, results': seq<TilePath>, minDepth': int, maxDepth': int)
    requires IsPartialTilePath(f, blocked, tile, a, b, trav)
    requires Frontier(f, blocked, tile, a, b, trav, queue, queue)
    requires Recorded(f, blocked, tile, a, b, trav, results, results, maxDepth, maxDepth)
    ensures Frontier(f, blocked, tile, a, b, trav, queue, queue')
    ensures Recorded(f, blocked, tile, a, b, trav, results, results', maxDepth, maxDepth')
    ensures forall p :: p in PipsFrom(f, tile, NodeName(trav, -2)) ==> Followed(f, blocked, tile, b, trav, p, queue', results')
    ensures Linked(f, tile, NodeName(trav, -2), b) ==> trav in results'
  {
    queue', results', minDepth', maxDepth' := queue, results, minDepth, maxDepth;
    var from := NodeName(trav, -2);
    var pips := GetFwdPips(f, tile, from);
    while pips != {}
      invariant pips <= PipsFrom(f, tile, from)
      invariant PathStep(f, blocked, tile, a, b, trav, PipsFrom(f, tile, from) - pips,
                         queue, queue', results, results', maxDepth, maxDepth')
      decreases pips
    {
      var pip :| pip in pips;
      queue', results', minDepth', maxDepth' := FollowPip(f, blocked, tile, a, b, trav, pip, PipsFrom(f, tile, from) - pips,
                                                          queue, results, maxDepth, queue', results', minDepth', maxDepth');
      assert PipsFrom(f, tile, from) - (pips - {pip}) == (PipsFrom(f, tile, from) - pips) + {pip};
      pips := pips - {pip};
    }
    if Linked(f, tile, from, b) {
      var p :| p in f.tilePips(tile) && p.startNode == from && p.endNode == b;
      assert p in PipsFrom(f, tile, from);
    }
  }

  /**
   * ExpandPath's work on one PIP out of the node before the exit on `trav`:
   * into the exit it records `trav` and resets the ceiling; into an
   * unblocked buffer not on `trav` it queues the extended path.
   */
  method FollowPip(f: Fabric, blocked: set<string>, tile: string, a: string, b: string, trav: TilePath, pip: Pip,
                   done: set<Pip>, queue0: seq<TilePath>, results0: seq<TilePath>, maxDepth0: int,
                   queue: seq<TilePath>, results: seq<TilePath>, minDepth: int, maxDepth: int)
    returns (queue': seq<TilePath>, results': seq<TilePath>, minDepth': int, maxDepth': int)
    requires IsPartialTilePath(f, blocked, tile, a, b, trav)
    requires pip in PipsFrom(f, tile, NodeName(trav, -2))
    requires PathStep(f, blocked, tile, a, b, trav, done, queue0, queue, results0, results, maxDepth0, maxDepth)
    ensures PathStep(f, blocked, tile, a, b, trav, done + {pip}, queue0, queue', results0, results', maxDepth0, maxDepth')
  {
    queue', results', minDepth', maxDepth' := queue, results, minDepth, maxDepth;
    var next := pip.endNode;

    if next == b {
      CompletePath(f, blocked, tile, a, b, trav, pip);
      RecordedHit(f, blocked, tile, a, b, trav, results0, results, maxDepth0, maxDepth);
      results' := results + [trav];
      minDepth' := trav.cost - 1;
      maxDepth' := Ceiling(minDepth');
    } else if f.isBuffer(tile, next) {
      if next in blocked {
        return;
      }
      var extended := AddNode(trav, next);
      if extended.Some? {
        ExtendPartial(f, blocked, tile, a, b, trav, pip);
        FrontierAppend(f, blocked, tile, a, b, trav, queue0, queue, extended.value);
        queue' := queue + [extended.value];
      }
    }
    FollowedGrow(f, blocked, tile, b, trav, done, queue, queue', results, results');
  }

  /**
   * Some PIP of the tile ends at node `b` and starts at a node reached from
   * `start` in fewer than MaxDepth buffer hops.
   */
  ghost predicate ExitReachable(f: Fabric, blocked: set<string>, tile: string, start: string, b: string)
  {
    exists p :: p in f.tilePips(tile) && p.endNode == b
      && exists d: nat :: d < MaxDepth && ReachesFwd(f, blocked, tile, start, p.startNode, d)
  }

  /**
   * The breadth-first state of PathPossibleSearch at level `lvl`: queued
   * depths are `lvl` or `lvl + 1`, in that order; every node reached in
   * fewer than `lvl` hops has been expanded, and every node reached in
   * exactly `lvl` hops is expanded or queued at `lvl`; no PIP out of an
   * expanded node ends at `b`, and each leads to a blocked or visited node;
   * every visited usable buffer is expanded or queued.
   */
  ghost predicate Layered(f: Fabric, blocked: set<string>, tile: string, start: string, b: string,
                          q: seq<NodeDepth>, fp: set<string>, expanded: set<string>, lvl: nat)
  {
    && (forall k :: 0 <= k < |q| ==> lvl <= q[k].depth <= lvl + 1)
    && (forall i, j :: 0 <= i < j < |q| ==> q[i].depth <= q[j].depth)
    && (forall n, d: nat :: d < lvl && ReachesFwd(f, blocked, tile, start, n, d) ==> n in expanded)
    && (forall n :: ReachesFwd(f, blocked, tile, start, n, lvl) ==> n in expanded || NodeDepth(n, lvl) in q)
    && (forall p :: p in f.tilePips(tile) && p.startNode in expanded ==>
          p.endNode != b && (p.endNode in blocked || p.endNode in fp))
    && (forall n :: n in fp && f.isBuffer(tile, n) && n !in blocked ==> n in expanded || n in QueuedNodes(q))
  }

  /** When the front of the queue is one level deeper, the whole level below has been expanded. */
  lemma LayeredNext(f: Fabric, blocked: set<string>, tile: string, start: string, b: string,
                    q: seq<NodeDepth>, fp: set<string>, expanded: set<string>, lvl: nat)
    requires Layered(f, blocked, tile, start, b, q, fp, expanded, lvl)
    requires q != [] && q[0].depth == lvl + 1
    ensures Layered(f, blocked, tile, start, b, q, fp, expanded, lvl + 1)
  {
    assert forall k :: 0 <= k < |q| ==> q[k].depth == lvl + 1 by {
      forall k | 0 < k < |q|
        ensures q[k].depth == lvl + 1
      {
        assert q[0].depth <= q[k].depth;
      }
    }
    forall n, d: nat | d < lvl + 1 && ReachesFwd(f, blocked, tile, start, n, d)
      ensures n in expanded
    {
      if d == lvl {
        assert NodeDepth(n, lvl) !in q;
      }
    }
    forall n | ReachesFwd(f, blocked, tile, start, n, lvl + 1)
      ensures n in expanded || NodeDepth(n, lvl + 1) in q
    {
      var p :| p in f.tilePips(tile) && p.endNode == n && ReachesFwd(f, blocked, tile, start, p.startNode, lvl);
      assert p.startNode in expanded;
      if n !in expanded {
        var e :| e in q && e.node == n;
        assert e == NodeDepth(n, lvl + 1);
      }
    }
  }

  /** The breadth-first state holds at the depth of the front of the queue. */
  lemma LayeredFront(f: Fabric, blocked: set<string>, tile: string, start: string, b: string,
                     q: seq<NodeDepth>, fp: set<string>, expanded: set<string>, lvl: nat)
    requires Layered(f, blocked, tile, start, b, q, fp, expanded, lvl) && q != []
    ensures Layered(f, blocked, tile, start, b, q, fp, expanded, q[0].depth)
  {
    if q[0].depth != lvl {
      LayeredNext(f, blocked, tile, start, b, q, fp, expanded, lvl);
    }
  }

  /** Expanding the front node without meeting `b` keeps the breadth-first state. */
  lemma LayeredExpand(f: Fabric, blocked: set<string>, tile: string, start: string, b: string,
                      q: seq<NodeDepth>, q': seq<NodeDepth>, fp: set<string>, fp': set<string>,
                      expanded: set<string>, lvl: nat)
    requires Layered(f, blocked, tile, start, b, q, fp, expanded, lvl)
    requires q != [] && q[0].depth == lvl && fp <= fp'
    requires Enqueued(f, blocked, tile, q[1..], q', fp, fp', lvl + 1)
    requires forall p :: p in PipsFrom(f, tile, q[0].node) ==> p.endNode != b && (p.endNode in blocked || p.endNode in fp')
    ensures Layered(f, blocked, tile, start, b, q', fp', expanded + {q[0].node}, lvl)
  {
    var e' := expanded + {q[0].node};
    assert forall k :: 0 <= k < |q| - 1 ==> q'[k] == q[k + 1];
    forall n | ReachesFwd(f, blocked, tile, start, n, lvl)
      ensures n in e' || NodeDepth(n, lvl) in q'
    {
      if n !in expanded && n != q[0].node {
        var k :| 0 <= k < |q| && q[k] == NodeDepth(n, lvl);
        assert q'[k - 1] == q[k];
      }
    }
    forall n | n in fp' && f.isBuffer(tile, n) && n !in blocked
      ensures n in e' || n in QueuedNodes(q')
    {
      if n in fp && n !in e' {
        var x :| x in q && x.node == n;
        var k :| 0 <= k < |q| && q[k] == x;
        assert q'[k - 1] == x;
      } else if n !in fp {
        var x :| x in q'[|q| - 1..] && x.node == n;
        assert x in q';
      }
    }
  }

  /** Once the level reaches MaxDepth, the exit is not reachable. */
  lemma LayeredDeep(f: Fabric, blocked: set<string>, tile: string, start: string, b: string,
                    q: seq<NodeDepth>, fp: set<string>, expanded: set<string>, lvl: nat)
    requires Layered(f, blocked, tile, start, b, q, fp, expanded, lvl) && lvl >= MaxDepth
    ensures !ExitReachable(f, blocked, tile, start, b)
  {
  }

  /** With the queue empty every reachable node has been expanded. */
  lemma {:induction false} LayeredDrainedReach(f: Fabric, blocked: set<string>, tile: string, start: string, b: string,
                                               fp: set<string>, expanded: set<string>, lvl: nat, n: string, d: nat)
    requires Layered(f, blocked, tile, start, b, [], fp, expanded, lvl)
    requires ReachesFwd(f, blocked, tile, start, n, d)
    ensures n in expanded
    decreases d
  {
    if d > lvl {
      var p :| p in f.tilePips(tile) && p.endNode == n && ReachesFwd(f, blocked, tile, start, p.startNode, d - 1);
      LayeredDrainedReach(f, blocked, tile, start, b, fp, expanded, lvl, p.startNode, d - 1);
    }
  }

  /** With the queue empty the exit is not reachable. */
  lemma LayeredDrained(f: Fabric, blocked: set<string>, tile: string, start: string, b: string,
                       fp: set<string>, expanded: set<string>, lvl: nat)
    requires Layered(f, blocked, tile, start, b, [], fp, expanded, lvl)
    ensures !ExitReachable(f, blocked, tile, start, b)
  {
    if ExitReachable(f, blocked, tile, start, b) {
      var p: Pip, d: nat :| p in f.tilePips(tile) && p.endNode == b && d < MaxDepth && ReachesFwd(f, blocked, tile, start, p.startNode, d);
      LayeredDrainedReach(f, blocked, tile, start, b, fp, expanded, lvl, p.startNode, d);
    }
  }

  /**
   * Breadth-first search forwards from `start` that answers whether some
   * PIP out of an expanded node ends at `b`. It answers false at the first
   * dequeued node at depth MaxDepth or when the queue runs out.
   */
  method PathPossibleSearch(f: Fabric, blocked: set<string>, tile: string, start: string, b: string)
    returns (possible: bool)
    ensures possible <==> ExitReachable(f, blocked, tile, start, b)
  {
    var queue := [NodeDepth(start, 0)];
    var footprint: set<string> := {};
    ghost var nodes := TileNodes(f, tile);
    ghost var expanded: set<string> := {};
    ghost var lvl: nat := 0;

    while queue != []
      invariant footprint <= nodes
      invariant FwdQueue(f, blocked, tile, start, queue)
      invariant Layered(f, blocked, tile, start, b, queue, footprint, expanded, lvl)
      decreases |nodes - footprint|, |queue|
    {
      FwdQueuePop(f, blocked, tile, start, queue);
      var trav := queue[0];
      LayeredFront(f, blocked, tile, start, b, queue, footprint, expanded, lvl);
      lvl := trav.depth;
      if trav.depth >= MaxDepth {
        LayeredDeep(f, blocked, tile, start, b, queue, footprint, expanded, lvl);
        return false;
      }
      ghost var before := queue;
      queue := queue[1..];
      var footprint0 := footprint;
      var found;
      found, queue, footprint := ProbeFwd(f, blocked, tile, start, b, trav, queue, footprint);
      if found {
        return true;
      }
      LayeredExpand(f, blocked, tile, start, b, before, queue, footprint0, footprint, expanded, lvl);
      expanded := expanded + {trav.node};
      if footprint != footprint0 {
        FewerUnvisited(nodes, footprint0, footprint);
      }
    }
    LayeredDrained(f, blocked, tile, start, b, footprint, expanded, lvl);
    return false;
  }

  /**
   * What ProbeFwd keeps while it visits the PIPs out of `trav`: the queue is
   * still reached from `start`, it differs from `q0` only as one step allows,
   * and every PIP already visited (not in `pips`) misses `b` and leads to a
   * blocked or visited node.
   */
  ghost predicate ProbeStep(f: Fabric, blocked: set<string>, tile: string, start: string, b: string, trav: NodeDepth,
                            pips: set<Pip>, q0: seq<NodeDepth>, q: seq<NodeDepth>, fp0: set<string>, fp: set<string>)
  {
    && FwdFront(f, blocked, tile, start, trav.depth + 1, q0, q, fp0, fp)
    && (forall p :: p in PipsFrom(f, tile, trav.node) && p !in pips ==>
          p.endNode != b && (p.endNode in blocked || p.endNode in fp))
  }

  /**
   * One step of PathPossibleSearch: visits every PIP out of the dequeued
   * node `trav`, answering true at the first one that ends at `b` and
   * otherwise queueing unvisited usable buffers.
   */
  method ProbeFwd(f: Fabric, blocked: set<string>, tile: string, start: string, b: string, trav: NodeDepth,
                  queue: seq<NodeDepth>, footprint: set<string>)
    returns (found: bool, queue': seq<NodeDepth>, footprint': set<string>)
    requires trav.depth < MaxDepth && ReachesFwd(f, blocked, tile, start, trav.node, trav.depth)
    requires FwdQueue(f, blocked, tile, start, queue) && footprint <= TileNodes(f, tile)
    ensures found <==> Linked(f, tile, trav.node, b)
    ensures FwdQueue(f, blocked, tile, start, queue')
    ensures footprint <= footprint' <= TileNodes(f, tile)
    ensures Enqueued(f, blocked, tile, queue, queue', footprint, footprint', trav.depth + 1)
    ensures !found ==> forall p :: p in PipsFrom(f, tile, trav.node) ==> p.endNode in blocked || p.endNode in footprint'
  {
    queue', footprint' := queue, footprint;
    var pips := GetFwdPips(f, tile, trav.node);
    while pips != {}
      invariant pips <= PipsFrom(f, tile, trav.node)
      invariant ProbeStep(f, blocked, tile, start, b, trav, pips, queue, queue', footprint, footprint')
      decreases pips
    {
      var pip :| pip in pips;
      if pip.endNode == b {
        return true, queue', footprint';
      }
      queue', footprint' := VisitProbe(f, blocked, tile, start, b, trav, pip, pips, queue, footprint, queue', footprint');
      pips := pips - {pip};
    }
    found := false;
  }

  /**
   * ProbeFwd's work on one PIP out of `trav` that does not end at `b`: a
   * blocked or visited end node is skipped; otherwise a buffer is queued
   * one level deeper and the node is marked visited.
   */
  method VisitProbe(f: Fabric, blocked: set<string>, tile: string, start: string, b: string, trav: NodeDepth,
                    pip: Pip, pips: set<Pip>, queue0: seq<NodeDepth>, footprint0: set<string>,
                    queue: seq<NodeDepth>, footprint: set<string>)
    returns (queue': seq<NodeDepth>, footprint': set<string>)
    requires trav.depth < MaxDepth && ReachesFwd(f, blocked, tile, start, trav.node, trav.depth)
    requires pip in pips && pips <= PipsFrom(f, tile, trav.node) && pip.endNode != b
    requires ProbeStep(f, blocked, tile, start, b, trav, pips, queue0, queue, footprint0, footprint)
    ensures ProbeStep(f, blocked, tile, start, b, trav, pips - {pip}, queue0, queue', footprint0, footprint')
  {
    queue', footprint' := queue, footprint;
    var next := pip.endNode;
    if next in blocked || next in footprint {
      return;
    }
    if f.isBuffer(tile, next) {
      FwdFrontQueue(f, blocked, tile, start, trav, pip, queue0, queue, footprint0, footprint);
      queue' := queue + [NodeDepth(next, trav.depth + 1)];
    } else {
      FwdFrontMark(f, blocked, tile, start, trav, pip, queue0, queue, footprint0, footprint);
    }
    footprint' := footprint + {next};
  }

  class FabricBrowser {
    const fabric: Fabric
    /** Nodes locked by concurrent routing jobs. */
    const locked: set<string>
    /** Nodes committed to earlier routes. */
    var globalNodeFootprint: set<string>
    /** Exit wire name to the entering wire names that can feed it. */
    var exitFanOutCache: map<string, set<string>>
    /** Entrance wire name to the exiting wire names it can reach. */
    var entranceFanOutCache: map<string, set<string>>

    constructor (fabric: Fabric, locked: set<string>)
      ensures this.fabric == fabric && this.locked == locked
      ensures globalNodeFootprint == {} && exitFanOutCache == map[] && entranceFanOutCache == map[]
    {
      this.fabric := fabric;
      this.locked := locked;
      globalNodeFootprint := {};
      exitFanOutCache := map[];
      entranceFanOutCache := map[];
    }

    method SetGlobalNodeFootprint(footprint: set<string>)
      modifies this`globalNodeFootprint
      ensures globalNodeFootprint == footprint
    {
      globalNodeFootprint := footprint;
    }

    /** Nodes no search may use. */
    function Blocked(): set<string>
      reads this
    {
      globalNodeFootprint + locked
    }

    /**
     * Entrance junctions that can feed `exit`: served from the cache when
     * its wire is cached, searched (and cached) otherwise.
     */
    method GetExitFanOut(exit: Junction) returns (entrances: set<Junction>)
      modifies this`exitFanOutCache
      ensures exit.wire in exitFanOutCache
      ensures exitFanOutCache == old(exitFanOutCache)[exit.wire := exitFanOutCache[exit.wire]]
      ensures entrances == EnterJunctions(fabric, exit.tile, exitFanOutCache[exit.wire])
      ensures exit.wire in old(exitFanOutCache) ==> exitFanOutCache == old(exitFanOutCache)
      ensures exit.wire !in old(exitFanOutCache) ==>
        forall w :: w in exitFanOutCache[exit.wire] ==> FeedsExit(fabric, Blocked(), exit.tile, exit.node, w)
    {
      if exit.wire !in exitFanOutCache {
        entrances := SearchExitFanOut(exit);
        return;
      }
      entrances := EnterJunctions(fabric, exit.tile, exitFanOutCache[exit.wire]);
    }

    /**
     * Exit junctions that `entrance` can reach: served from the cache when
     * its wire is cached, searched (and cached) otherwise.
     */
    method GetEntranceFanOut(entrance: Junction) returns (exits: set<Junction>)
      modifies this`entranceFanOutCache
      ensures entrance.wire in entranceFanOutCache
      ensures entranceFanOutCache == old(entranceFanOutCache)[entrance.wire := entranceFanOutCache[entrance.wire]]
      ensures exits == ExitJunctions(fabric, entrance.tile, entranceFanOutCache[entrance.wire])
      ensures entrance.wire in old(entranceFanOutCache) ==> entranceFanOutCache == old(entranceFanOutCache)
      ensures entrance.wire !in old(entranceFanOutCache) ==>
        forall w :: w in entranceFanOutCache[entrance.wire] ==> FedByEntrance(fabric, Blocked(), entrance.tile, entrance.node, w)
    {
      if entrance.wire !in entranceFanOutCache {
        exits := SearchEntranceFanOut(entrance);
        return;
      }
      exits := ExitJunctions(fabric, entrance.tile, entranceFanOutCache[entrance.wire]);
    }

    /**
     * Searches backwards from the exit junction's node for the entering
     * wires that can feed it; the result replaces the cache entry of the
     * exit's wire.
     */
    method SearchExitFanOut(exit: Junction) returns (entrances: set<Junction>)
      modifies this`exitFanOutCache
      ensures exit.wire in exitFanOutCache
      ensures exitFanOutCache == old(exitFanOutCache)[exit.wire := exitFanOutCache[exit.wire]]
      ensures entrances == EnterJunctions(fabric, exit.tile, exitFanOutCache[exit.wire])
      ensures forall w :: w in exitFanOutCache[exit.wire] ==> FeedsExit(fabric, Blocked(), exit.tile, exit.node, w)
    {
      var results := ExitFanOutSearch(fabric, Blocked(), exit.tile, exit.node);
      exitFanOutCache := exitFanOutCache[exit.wire := results];
      entrances := EnterJunctions(fabric, exit.tile, results);
    }

    /**
     * Searches forwards from the entrance junction's node for the exiting
     * wires it can reach; the result replaces the cache entry of the
     * entrance's wire.
     */
    method SearchEntranceFanOut(entrance: Junction) returns (exits: set<Junction>)
      modifies this`entranceFanOutCache
      ensures entrance.wire in entranceFanOutCache
      ensures entranceFanOutCache == old(entranceFanOutCache)[entrance.wire := entranceFanOutCache[entrance.wire]]
      ensures exits == ExitJunctions(fabric, entrance.tile, entranceFanOutCache[entrance.wire])
      ensures forall w :: w in entranceFanOutCache[entrance.wire] ==> FedByEntrance(fabric, Blocked(), entrance.tile, entrance.node, w)
    {
      var results := EntranceFanOutSearch(fabric, Blocked(), entrance.tile, entrance.node);
      entranceFanOutCache := entranceFanOutCache[entrance.wire := results];
      exits := ExitJunctions(fabric, entrance.tile, entranceFanOutCache[entrance.wire]);
    }

    /**
     * The tile paths from `entrance` to `exit`, cheapest first; none when
     * the two junctions are on different tiles.
     */
    method FindTilePaths(entrance: Junction, exit: Junction) returns (results: seq<TilePath>)
      ensures entrance.tile != exit.tile ==> results == []
      ensures FoundPaths(fabric, Blocked(), entrance.tile, entrance.node, exit.node, results)
      ensures CostsSorted(results) && WithinSlack(results)
      ensures entrance.tile == exit.tile ==>
        forall t :: Admitted(fabric, Blocked(), entrance.tile, entrance.node, exit.node, t, results) ==> t in results
      ensures entrance.tile == exit.tile && Linked(fabric, entrance.tile, entrance.node, exit.node) ==>
        results != [] && results[0] == Between(entrance, exit)
    {
      if entrance.tile != exit.tile {
        return [];
      }
      results := TilePathSearch(fabric, Blocked(), entrance.tile, entrance, exit);
    }

    /**
     * Whether the exit node can be reached from the entrance node inside
     * their tile; false when the two junctions are on different tiles.
     */
    method IsPathPossible(entrance: Junction, exit: Junction) returns (possible: bool)
      ensures possible <==> entrance.tile == exit.tile && ExitReachable(fabric, Blocked(), entrance.tile, entrance.node, exit.node)
    {
      if entrance.tile != exit.tile {
        return false;
      }
      possible := PathPossibleSearch(fabric, Blocked(), entrance.tile, entrance.node, exit.node);
    }
  }
}
