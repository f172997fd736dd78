/**
 * DjikstraTrafficController::findShortestPath: a uniform-cost search over
 * segments from a train's current segment, in the train's direction, to the
 * connector that is its destination.
 */
module PathFinder {
  import opened Options
  import opened RailDefinitions
  import opened RailNetwork
  import opened PathGraph

  /** The inner loop's invariant, while the successors of the popped entry `e` are explored. */
  ghost predicate InnerInv(net: Network, start: CompId, dir: Direction, dest: Option<CompId>,
                           f: multiset<Entry>, done: set<Entry>, best: map<CompId, nat>,
                           e: Entry, todo: set<CompId>, best0: map<CompId, nat>) {
    && WellFormed(net) && ClosedOn(net, dir) && IsSegment(net, start)
    && ValidEntry(net, start, dir, e) && Settled(net, dir, best, e) && Distinct(e.path)
    && Some(e.vertex) != dest
    && todo <= ConnectorNext(net, e.vertex, Last(e.path))
    && FrontierOk(net, start, dir, best, f)
    && DoneOk(net, start, dir, dest, best, done)
    && Witnessed(best, f, done + {e})
    && Ordered(f, done + {e})
    && (forall g :: g in done ==> g.distance <= e.distance)
    && (forall x :: x in ConnectorNext(net, e.vertex, Last(e.path)) && x !in todo ==> RelaxedEdge(net, dir, best, e, x))
    && (Seed(net, start, dir) in f || Seed(net, start, dir) in done + {e})
    && NoWorse(best, best0)
  }

  lemma PopFrontier(net: Network, start: CompId, dir: Direction, best: map<CompId, nat>, f: multiset<Entry>, e: Entry)
    requires FrontierOk(net, start, dir, best, f) && e in f
    ensures FrontierOk(net, start, dir, best, f - multiset{e})
    ensures ValidEntry(net, start, dir, e) && Settled(net, dir, best, e) && Distinct(e.path)
  {
    forall g | g in f - multiset{e} ensures ValidEntry(net, start, dir, g) && Settled(net, dir, best, g) && Distinct(g.path) {
      assert g in f;
    }
  }

  lemma PopWitnessed(best: map<CompId, nat>, f: multiset<Entry>, done: set<Entry>, e: Entry)
    requires Witnessed(best, f, done) && e in f
    ensures Witnessed(best, f - multiset{e}, done + {e})
  {
    forall v | v in best ensures exists g :: (g in f - multiset{e} || g in done + {e}) && g.vertex == v && g.distance == best[v] {
      var g :| (g in f || g in done) && g.vertex == v && g.distance == best[v];
      if g != e && g in f {
        assert g in f - multiset{e};
      }
    }
  }

  lemma PopOrdered(f: multiset<Entry>, done: set<Entry>, e: Entry)
    requires Ordered(f, done) && IsMin(f, e)
    ensures Ordered(f - multiset{e}, done + {e})
    ensures forall g :: g in done ==> g.distance <= e.distance
  {
    forall d, g | d in done + {e} && g in f - multiset{e} ensures d.distance <= g.distance {
      assert g in f;
    }
  }

  /** Popping a minimum entry that is not at the destination starts the inner loop. */
  lemma PopInv(net: Network, start: CompId, dir: Direction, dest: Option<CompId>,
               f: multiset<Entry>, done: set<Entry>, best: map<CompId, nat>, e: Entry)
    requires SearchInv(net, start, dir, dest, f, done, best)
    requires IsMin(f, e) && Some(e.vertex) != dest
    ensures |e.path| > 0
    ensures InnerInv(net, start, dir, dest, f - multiset{e}, done, best, e,
                     ConnectorNext(net, e.vertex, Last(e.path)), best)
  {
    PopFrontier(net, start, dir, best, f, e);
    PopWitnessed(best, f, done, e);
    PopOrdered(f, done, e);
    var seed := Seed(net, start, dir);
    if seed in f && seed != e {
      assert seed in f - multiset{e};
    }
    InnerIntro(net, start, dir, dest, f - multiset{e}, done, best, e, ConnectorNext(net, e.vertex, Last(e.path)), best);
  }

  /** The successor `x` about to be explored is a segment with an end in the travel direction. */
  lemma StepReady(net: Network, start: CompId, dir: Direction, dest: Option<CompId>,
                  f: multiset<Entry>, done: set<Entry>, best: map<CompId, nat>,
                  e: Entry, todo: set<CompId>, best0: map<CompId, nat>, x: CompId)
    requires InnerInv(net, start, dir, dest, f, done, best, e, todo, best0) && x in todo
    ensures IsSegment(net, x) && dir in net.comps[x].seg.connectors
  {
    ExtendValid(net, start, dir, e, x);
  }

  /** A successor whose extension does not improve on the recorded best is already relaxed. */
  lemma StepSkip(net: Network, start: CompId, dir: Direction, dest: Option<CompId>,
                 f: multiset<Entry>, done: set<Entry>, best: map<CompId, nat>,
                 e: Entry, todo: set<CompId>, best0: map<CompId, nat>, x: CompId, next: Entry)
    requires InnerInv(net, start, dir, dest, f, done, best, e, todo, best0) && x in todo
    requires IsSegment(net, x) && dir in net.comps[x].seg.connectors
    requires next == Extend(net, dir, e, x)
    requires !Improves(best, next.vertex, next.distance)
    ensures InnerInv(net, start, dir, dest, f, done, best, e, todo - {x}, best0)
  {
    assert RelaxedEdge(net, dir, best, e, x);
  }

  /** The extension's new segment is not on the path already: otherwise it would not have improved. */
  lemma PushDistinct(net: Network, start: CompId, dir: Direction, best: map<CompId, nat>, e: Entry, x: CompId, next: Entry)
    requires ValidEntry(net, start, dir, e) && Settled(net, dir, best, e) && Distinct(e.path)
    requires IsSegment(net, x) && dir in net.comps[x].seg.connectors && next == Extend(net, dir, e, x)
    requires next.vertex !in best || next.distance < best[next.vertex]
    ensures Distinct(next.path)
  {
    assert forall i :: 0 <= i < |e.path| ==> e.path[i] != x by {
      forall i | 0 <= i < |e.path| ensures e.path[i] != x {
        if e.path[i] == x {
          assert SegNext(net, e.path[i], dir) == Some(next.vertex);
          PathLengthPrefix(net, e.path, i + 1);
          assert false;
        }
      }
    }
    forall i, j | 0 <= i < j < |next.path| ensures next.path[i] != next.path[j] {
      if j < |e.path| {
        assert next.path[i] == e.path[i] && next.path[j] == e.path[j];
      } else {
        assert next.path[i] == e.path[i] && next.path[j] == x;
      }
    }
  }

  lemma PushSettled(net: Network, start: CompId, dir: Direction, best: map<CompId, nat>, e: Entry, x: CompId, next: Entry)
    requires ValidEntry(net, start, dir, e) && Settled(net, dir, best, e)
    requires IsSegment(net, x) && dir in net.comps[x].seg.connectors && next == Extend(net, dir, e, x)
    requires PathLength(net, next.path) == next.distance
    requires next.vertex !in best || next.distance < best[next.vertex]
    ensures Settled(net, dir, best[next.vertex := next.distance], next)
  {
    var b := best[next.vertex := next.distance];
    forall i | 0 <= i < |next.path|
      ensures && SegNext(net, next.path[i], dir).Some?
              && SegNext(net, next.path[i], dir).value in b
              && b[SegNext(net, next.path[i], dir).value] <= PathLength(net, next.path[..i + 1])
    {
      if i < |e.path| {
        assert next.path[i] == e.path[i];
        assert next.path[..i + 1] == e.path[..i + 1];
      } else {
        assert next.path[..i + 1] == next.path;
      }
    }
  }

  lemma PushFrontier(net: Network, start: CompId, dir: Direction, best: map<CompId, nat>, b: map<CompId, nat>,
                     f: multiset<Entry>, next: Entry)
    requires FrontierOk(net, start, dir, best, f) && NoWorse(b, best)
    requires ValidEntry(net, start, dir, next) && Settled(net, dir, b, next) && Distinct(next.path)
    ensures FrontierOk(net, start, dir, b, f + multiset{next})
  {
    forall g | g in f + multiset{next} ensures ValidEntry(net, start, dir, g) && Settled(net, dir, b, g) && Distinct(g.path) {
      if g != next {
        assert g in f;
        SettledMono(net, dir, b, best, g);
      }
    }
  }

  lemma PushWitnessed(best: map<CompId, nat>, f: multiset<Entry>, done: set<Entry>, next: Entry)
    requires Witnessed(best, f, done)
    ensures Witnessed(best[next.vertex := next.distance], f + multiset{next}, done)
  {
    var b := best[next.vertex := next.distance];
    forall v | v in b ensures exists g :: (g in f + multiset{next} || g in done) && g.vertex == v && g.distance == b[v] {
      if v == next.vertex {
        assert next in f + multiset{next};
      } else {
        var g :| (g in f || g in done) && g.vertex == v && g.distance == best[v];
        assert g in f + multiset{next} || g in done;
      }
    }
  }

  lemma PushOrdered(f: multiset<Entry>, done: set<Entry>, e: Entry, next: Entry)
    requires Ordered(f, done + {e}) && (forall c :: c in done ==> c.distance <= e.distance)
    requires e.distance <= next.distance
    ensures Ordered(f + multiset{next}, done + {e})
  {
    forall c, g | c in done + {e} && g in f + multiset{next} ensures c.distance <= g.distance {
      if g != next {
        assert g in f;
      }
    }
  }

  lemma PushRelaxed(net: Network, dir: Direction, best: map<CompId, nat>, e: Entry, todo: set<CompId>, x: CompId, next: Entry)
    requires |e.path| > 0 && x in todo
    requires forall y :: y in ConnectorNext(net, e.vertex, Last(e.path)) && y !in todo ==> RelaxedEdge(net, dir, best, e, y)
    requires SegNext(net, x, dir) == Some(next.vertex) && next.distance == e.distance + CompLength(net, x)
    requires next.vertex !in best || next.distance < best[next.vertex]
    ensures forall y :: y in ConnectorNext(net, e.vertex, Last(e.path)) && y !in todo - {x} ==>
              RelaxedEdge(net, dir, best[next.vertex := next.distance], e, y)
  {
    var b := best[next.vertex := next.distance];
    forall y | y in ConnectorNext(net, e.vertex, Last(e.path)) && y !in todo - {x} ensures RelaxedEdge(net, dir, b, e, y) {
      if y != x {
        assert RelaxedEdge(net, dir, best, e, y);
      }
    }
  }

  /** Each push removes a pair from the unsettled set. */
  lemma PushShrinks(net: Network, start: CompId, dir: Direction, best: map<CompId, nat>, best0: map<CompId, nat>, next: Entry)
    requires WellFormed(net) && ValidEntry(net, start, dir, next) && Distinct(next.path) && NoWorse(best, best0)
    requires next.vertex !in best || next.distance < best[next.vertex]
    ensures Unsettled(net, best[next.vertex := next.distance]) < Unsettled(net, best0)
  {
    assert IsConnector(net, next.vertex);
    assert forall i :: 0 <= i < |next.path| ==> next.path[i] in SegmentIds(net);
    DistinctPathBound(net, next.path, SegmentIds(net));
    UnsettledShrinks(net, best, next.vertex, next.distance);
    UnsettledMono(net, best, best0);
  }

  lemma NoWorseTrans(c: map<CompId, nat>, b: map<CompId, nat>, a: map<CompId, nat>)
    requires NoWorse(c, b) && NoWorse(b, a)
    ensures NoWorse(c, a)
  {
  }

  lemma NoWorseImprove(best: map<CompId, nat>, w: CompId, d: nat)
    requires w !in best || d < best[w]
    ensures NoWorse(best[w := d], best)
  {
  }

  lemma SeedStays(seed: Entry, f: multiset<Entry>, done: set<Entry>, next: Entry)
    requires seed in f || seed in done
    ensures seed in f + multiset{next} || seed in done
  {
    if seed in f {
      assert seed in f + multiset{next};
    }
  }

  /** The queued entries and the expanded ones stay valid after a push. */
  lemma StepPushEntries(net: Network, start: CompId, dir: Direction, dest: Option<CompId>,
                        f: multiset<Entry>, done: set<Entry>, best: map<CompId, nat>,
                        e: Entry, best0: map<CompId, nat>, x: CompId, next: Entry)
    requires WellFormed(net) && ClosedOn(net, dir)
    requires ValidEntry(net, start, dir, e) && Settled(net, dir, best, e) && Distinct(e.path)
    requires x in ConnectorNext(net, e.vertex, Last(e.path))
    requires FrontierOk(net, start, dir, best, f) && DoneOk(net, start, dir, dest, best, done)
    requires NoWorse(best, best0)
    requires IsSegment(net, x) && dir in net.comps[x].seg.connectors
    requires next == Extend(net, dir, e, x)
    requires next.vertex !in best || next.distance < best[next.vertex]
    ensures FrontierOk(net, start, dir, best[next.vertex := next.distance], f + multiset{next})
    ensures DoneOk(net, start, dir, dest, best[next.vertex := next.distance], done)
    ensures Settled(net, dir, best[next.vertex := next.distance], e)
    ensures NoWorse(best[next.vertex := next.distance], best0)
    ensures Unsettled(net, best[next.vertex := next.distance]) < Unsettled(net, best0)
  {
    ExtendValid(net, start, dir, e, x);
    var b := best[next.vertex := next.distance];
    NoWorseImprove(best, next.vertex, next.distance);
    NoWorseTrans(b, best, best0);
    PushDistinct(net, start, dir, best, e, x, next);
    PushSettled(net, start, dir, best, e, x, next);
    PushFrontier(net, start, dir, best, b, f, next);
    DoneOkMono(net, start, dir, dest, b, best, done);
    SettledMono(net, dir, b, best, e);
    PushShrinks(net, start, dir, best, best0, next);
  }

  /** Assembles the inner invariant from its parts. */
  lemma InnerIntro(net: Network, start: CompId, dir: Direction, dest: Option<CompId>,
                   f: multiset<Entry>, done: set<Entry>, best: map<CompId, nat>,
                   e: Entry, todo: set<CompId>, best0: map<CompId, nat>)
    requires WellFormed(net) && ClosedOn(net, dir) && IsSegment(net, start)
    requires ValidEntry(net, start, dir, e) && Settled(net, dir, best, e) && Distinct(e.path)
    requires Some(e.vertex) != dest
    requires todo <= ConnectorNext(net, e.vertex, Last(e.path))
    requires FrontierOk(net, start, dir, best, f)
    requires DoneOk(net, start, dir, dest, best, done)
    requires Witnessed(best, f, done + {e})
    requires Ordered(f, done + {e})
    requires forall g :: g in done ==> g.distance <= e.distance
    requires forall x :: x in ConnectorNext(net, e.vertex, Last(e.path)) && x !in todo ==> RelaxedEdge(net, dir, best, e, x)
    requires Seed(net, start, dir) in f || Seed(net, start, dir) in done + {e}
    requires NoWorse(best, best0)
    ensures InnerInv(net, start, dir, dest, f, done, best, e, todo, best0)
  {
  }

  /** A successor whose extension improves on the recorded best is queued and recorded. */
  lemma StepPush(net: Network, start: CompId, dir: Direction, dest: Option<CompId>,
                 f: multiset<Entry>, done: set<Entry>, best: map<CompId, nat>,
                 e: Entry, todo: set<CompId>, best0: map<CompId, nat>, x: CompId, next: Entry)
    requires InnerInv(net, start, dir, dest, f, done, best, e, todo, best0) && x in todo
    requires IsSegment(net, x) && dir in net.comps[x].seg.connectors
    requires next == Extend(net, dir, e, x)
    requires Improves(best, next.vertex, next.distance)
    ensures InnerInv(net, start, dir, dest, f + multiset{next}, done, best[next.vertex := next.distance],
                     e, todo - {x}, best0)
    ensures Unsettled(net, best[next.vertex := next.distance]) < Unsettled(net, best0)
  {
    StepPushEntries(net, start, dir, dest, f, done, best, e, best0, x, next);
    PushWitnessed(best, f, done + {e}, next);
    PushOrdered(f, done, e, next);
    PushRelaxed(net, dir, best, e, todo, x, next);
    SeedStays(Seed(net, start, dir), f, done + {e}, next);
    InnerIntro(net, start, dir, dest, f + multiset{next}, done, best[next.vertex := next.distance], e, todo - {x}, best0);
  }

  /** With every successor explored, the popped entry joins the expanded ones. */
  lemma FinishInv(net: Network, start: CompId, dir: Direction, dest: Option<CompId>,
                  f: multiset<Entry>, done: set<Entry>, best: map<CompId, nat>,
                  e: Entry, best0: map<CompId, nat>)
    requires InnerInv(net, start, dir, dest, f, done, best, e, {}, best0)
    ensures SearchInv(net, start, dir, dest, f, done + {e}, best)
  {
    DoneAdd(net, start, dir, dest, best, done, e);
  }

  lemma DoneAdd(net: Network, start: CompId, dir: Direction, dest: Option<CompId>,
                best: map<CompId, nat>, done: set<Entry>, e: Entry)
    requires DoneOk(net, start, dir, dest, best, done)
    requires ValidEntry(net, start, dir, e) && Some(e.vertex) != dest
    requires forall x :: x in ConnectorNext(net, e.vertex, Last(e.path)) && x !in {} ==> RelaxedEdge(net, dir, best, e, x)
    ensures DoneOk(net, start, dir, dest, best, done + {e})
  {
    assert EdgesRelaxed(net, dir, best, e);
  }

  /** From a position on route `q` already reached by an expanded entry, some queued entry is no longer than `q`. */
  lemma {:induction false} Climb(net: Network, start: CompId, dir: Direction, dest: Option<CompId>,
                                 f: multiset<Entry>, done: set<Entry>, best: map<CompId, nat>,
                                 q: Path, k: nat, e: Entry)
    requires WellFormed(net) && Linked(net)
    requires DoneOk(net, start, dir, dest, best, done) && Witnessed(best, f, done)
    requires IsRoute(net, start, dir, dest, q)
    requires 1 <= k <= |q| && e in done
    requires SegNext(net, q[k - 1], dir) == Some(e.vertex)
    requires e.distance <= PathLength(net, q[..k])
    ensures exists g :: g in f && g.distance <= PathLength(net, q)
    decreases |q| - k
  {
    assert ValidEntry(net, start, dir, e) && Some(e.vertex) != dest && EdgesRelaxed(net, dir, best, e);
    if k == |q| {
      assert false;
    }
    var a := q[k - 1];
    var x := q[k];
    assert Step(net, dir, a, x);
    ConnectorNextFacts(net, e.vertex, a);
    assert q[..k + 1] == q[..k] + [x];
    PathLengthSnoc(net, q[..k], x);
    if x == Last(e.path) {
      Climb(net, start, dir, dest, f, done, best, q, k + 1, e);
    } else {
      var l := Last(e.path);
      assert IsSegment(net, l) && net.comps[l].seg.connectors[dir] == e.vertex;
      assert l in net.comps[e.vertex].conn.available;
      assert x in ConnectorNext(net, e.vertex, l);
      assert RelaxedEdge(net, dir, best, e, x);
      var w := SegNext(net, x, dir).value;
      var g :| (g in f || g in done) && g.vertex == w && g.distance == best[w];
      if g in f {
        PathLengthPrefix(net, q, k + 1);
      } else {
        Climb(net, start, dir, dest, f, done, best, q, k + 1, g);
      }
    }
  }

  /**
   * The cut property: on a network wired on both sides, every route to the
   * destination is at least as long as some queued entry.
   */
  lemma RouteCrossesFrontier(net: Network, start: CompId, dir: Direction, dest: Option<CompId>,
                             f: multiset<Entry>, done: set<Entry>, best: map<CompId, nat>, q: Path)
    requires SearchInv(net, start, dir, dest, f, done, best) && Linked(net)
    requires IsRoute(net, start, dir, dest, q)
    ensures exists g :: g in f && g.distance <= PathLength(net, q)
  {
    var seed := Seed(net, start, dir);
    assert q[..1] == [start];
    PathLengthPrefix(net, q, 1);
    if seed !in f {
      Climb(net, start, dir, dest, f, done, best, q, 1, seed);
    }
  }

  /** A shortest queued entry at the destination holds a shortest route. */
  lemma AtDestination(net: Network, start: CompId, dir: Direction, dest: Option<CompId>,
                      f: multiset<Entry>, done: set<Entry>, best: map<CompId, nat>, e: Entry)
    requires SearchInv(net, start, dir, dest, f, done, best)
    requires IsMin(f, e) && Some(e.vertex) == dest
    ensures IsRoute(net, start, dir, dest, e.path)
    ensures Linked(net) ==> forall q :: IsRoute(net, start, dir, dest, q) ==> PathLength(net, e.path) <= PathLength(net, q)
  {
    assert ValidEntry(net, start, dir, e);
    forall q | Linked(net) && IsRoute(net, start, dir, dest, q) ensures PathLength(net, e.path) <= PathLength(net, q) {
      RouteCrossesFrontier(net, start, dir, dest, f, done, best, q);
    }
  }

  /** With the queue empty, no route exists on a network wired on both sides. */
  lemma Exhausted(net: Network, start: CompId, dir: Direction, dest: Option<CompId>,
                  done: set<Entry>, best: map<CompId, nat>)
    requires SearchInv(net, start, dir, dest, multiset{}, done, best)
    ensures Linked(net) ==> forall q :: !IsRoute(net, start, dir, dest, q)
  {
    forall q | Linked(net) && IsRoute(net, start, dir, dest, q) ensures false {
      RouteCrossesFrontier(net, start, dir, dest, multiset{}, done, best, q);
    }
  }

  /**
   * Explore every segment beyond the popped entry's connector, in any order:
   * extend the entry over it, and queue the extension when relaxation
   * reports an improvement for the connector it leads to.
   */
  method Expand(net: Network, start: CompId, dir: Direction, dest: Option<CompId>,
                frontier: multiset<Entry>, best: map<CompId, nat>, e: Entry, ghost done: set<Entry>)
    returns (frontier': multiset<Entry>, best': map<CompId, nat>)
    requires |e.path| > 0
    requires InnerInv(net, start, dir, dest, frontier, done, best, e, ConnectorNext(net, e.vertex, Last(e.path)), best)
    ensures SearchInv(net, start, dir, dest, frontier', done + {e}, best')
    ensures NoWorse(best', best)
    ensures Unsettled(net, best') < Unsettled(net, best) || (best' == best && frontier' == frontier)
  {
    frontier' := frontier;
    best' := best;
    var todo := ConnectorNext(net, e.vertex, Last(e.path));
    ghost var pushed := false;
    while todo != {}
      invariant InnerInv(net, start, dir, dest, frontier', done, best', e, todo, best)
      invariant !pushed ==> best' == best && frontier' == frontier
      invariant pushed ==> Unsettled(net, best') < Unsettled(net, best)
      decreases todo
    {
      var x :| x in todo;
      StepReady(net, start, dir, dest, frontier', done, best', e, todo, best, x);
      var next := Extend(net, dir, e, x);
      if Improves(best', next.vertex, next.distance) {
        StepPush(net, start, dir, dest, frontier', done, best', e, todo, best, x, next);
        frontier' := frontier' + multiset{next};
        best' := best'[next.vertex := next.distance];
        pushed := true;
      } else {
        StepSkip(net, start, dir, dest, frontier', done, best', e, todo, best, x, next);
      }
      todo := todo - {x};
    }
    FinishInv(net, start, dir, dest, frontier', done, best', e, best);
  }

  /**
   * Search from `start` in direction `dir` for a route whose last segment
   * leads to `dest`. Pops a shortest queued entry; returns its path when its
   * connector is the destination; otherwise queues each segment beyond that
   * connector whose extended distance beats the best recorded for the
   * connector it leads to. Returns the empty path when the queue runs dry.
   */
  method FindShortestPath(net: Network, start: CompId, dir: Direction, dest: Option<CompId>) returns (path: Path)
    requires WellFormed(net) && ClosedOn(net, dir) && IsSegment(net, start)
    ensures |path| > 0 ==> IsRoute(net, start, dir, dest, path)
    ensures |path| > 0 && Linked(net) ==>
              forall q :: IsRoute(net, start, dir, dest, q) ==> PathLength(net, path) <= PathLength(net, q)
    ensures |path| == 0 && Linked(net) ==> forall q :: !IsRoute(net, start, dir, dest, q)
  {
    var seed := Seed(net, start, dir);
    var best: map<CompId, nat> := map[seed.vertex := seed.distance];
    var frontier: multiset<Entry> := multiset{seed};
    ghost var done: set<Entry> := {};
    StartInv(net, start, dir, dest);
    while |frontier| > 0
      invariant SearchInv(net, start, dir, dest, frontier, done, best)
      decreases Unsettled(net, best), |frontier|
    {
      MinExists(frontier);
      var e :| IsMin(frontier, e);
      if Some(e.vertex) == dest {
        AtDestination(net, start, dir, dest, frontier, done, best, e);
        return e.path;
      }
      PopInv(net, start, dir, dest, frontier, done, best, e);
      frontier, best := Expand(net, start, dir, dest, frontier - multiset{e}, best, e, done);
      done := done + {e};
    }
    assert frontier == multiset{};
    Exhausted(net, start, dir, dest, done, best);
    return [];
  }
}
