/**
 * The graph the path finder searches (src/DjikstraTrafficController.cpp,
 * findShortestPath): walks that keep one travel direction, their lengths,
 * the frontier entries, and the facts the search maintains about them.
 */
module PathGraph {
  import opened Options
  import opened RailDefinitions
  import opened RailNetwork

  /** A path is the sequence of segments a train runs over. */
  type Path = seq<CompId>

  function Last(p: Path): CompId
    requires |p| > 0
  {
    p[|p| - 1]
  }

  /** Total length of the segments on a path. */
  function PathLength(net: Network, p: Path): nat
    decreases |p|
  {
    if |p| == 0 then 0 else PathLength(net, p[..|p| - 1]) + CompLength(net, p[|p| - 1])
  }

  lemma PathLengthSnoc(net: Network, p: Path, x: CompId)
    ensures PathLength(net, p + [x]) == PathLength(net, p) + CompLength(net, x)
  {
    assert (p + [x])[..|p|] == p;
  }

  /** A prefix is never longer than the whole path. */
  lemma {:induction false} PathLengthPrefix(net: Network, p: Path, k: nat)
    requires k <= |p|
    ensures PathLength(net, p[..k]) <= PathLength(net, p)
    decreases |p|
  {
    if k == |p| {
      assert p[..k] == p;
    } else {
      var q := p[..|p| - 1];
      assert q[..k] == p[..k];
      PathLengthPrefix(net, q, k);
      assert PathLength(net, p) == PathLength(net, q) + CompLength(net, p[|p| - 1]);
    }
  }

  /**
   * One step of a direction-consistent walk: from segment `a` through the
   * connector beyond its `dir` end onto `b`, one of the other segments that
   * connector lists.
   */
  predicate Step(net: Network, dir: Direction, a: CompId, b: CompId) {
    SegNext(net, a, dir).Some? && b in ConnectorNext(net, SegNext(net, a, dir).value, a)
  }

  /** A walk over segments from `start` that never changes direction. */
  ghost predicate IsWalk(net: Network, start: CompId, dir: Direction, p: Path) {
    && |p| >= 1 && p[0] == start
    && (forall i :: 0 <= i < |p| ==> IsSegment(net, p[i]))
    && (forall i :: 0 <= i < |p| - 1 ==> Step(net, dir, p[i], p[i + 1]))
  }

  /** A walk whose final segment leads, in direction `dir`, to the destination. */
  ghost predicate IsRoute(net: Network, start: CompId, dir: Direction, dest: Option<CompId>, p: Path) {
    IsWalk(net, start, dir, p) && dest.Some? && SegNext(net, Last(p), dir) == dest
  }

  /** The segments beyond a connector never include `src`, and are segments. */
  lemma ConnectorNextFacts(net: Network, v: CompId, src: CompId)
    requires WellFormed(net)
    ensures forall x :: x in ConnectorNext(net, v, src) ==> IsSegment(net, x) && x != src
    ensures ConnectorNext(net, v, src) != {} ==>
              && IsConnector(net, v) && net.comps[v].Junction?
              && src in net.comps[v].conn.available
              && ConnectorNext(net, v, src) == net.comps[v].conn.available - {src}
  {
    if IsConnector(net, v) && !net.comps[v].Junction? {
      assert TerminatorOk(net, net.comps[v].term);
    }
    if IsConnector(net, v) && net.comps[v].Junction? {
      assert JunctionOk(net, net.comps[v].conn);
    }
  }

  lemma {:induction false} PathLengthSameTopology(a: Network, b: Network, p: Path)
    requires SameTopology(a, b)
    ensures PathLength(a, p) == PathLength(b, p)
    decreases |p|
  {
    SameTopologyPreserves(a, b);
    if |p| > 0 {
      PathLengthSameTopology(a, b, p[..|p| - 1]);
    }
  }

  /** Routes and their lengths are fixed by the topology: switching connectors changes neither. */
  lemma SameTopologyRoutes(a: Network, b: Network, start: CompId, dir: Direction, dest: Option<CompId>, p: Path)
    requires SameTopology(a, b)
    ensures IsRoute(a, start, dir, dest, p) <==> IsRoute(b, start, dir, dest, p)
    ensures PathLength(a, p) == PathLength(b, p)
  {
    SameTopologyPreserves(a, b);
    PathLengthSameTopology(a, b, p);
    assert forall x, y :: Step(a, dir, x, y) == Step(b, dir, x, y);
  }

  /** A frontier entry: accumulated length, the path so far, and the connector beyond its last segment. */
  datatype Entry = Entry(distance: nat, path: Path, vertex: CompId)

  /** An entry describes a walk from `start`: its length and the connector it has reached. */
  ghost predicate ValidEntry(net: Network, start: CompId, dir: Direction, e: Entry) {
    IsWalk(net, start, dir, e.path)
    && e.distance == PathLength(net, e.path)
    && SegNext(net, Last(e.path), dir) == Some(e.vertex)
  }

  /**
   * The initial entry: the start segment alone, its own length as distance,
   * and the connector beyond it in the travel direction.
   */
  function Seed(net: Network, start: CompId, dir: Direction): (e: Entry)
    requires IsSegment(net, start) && dir in net.comps[start].seg.connectors
    ensures e.path == [start] && e.distance == CompLength(net, start)
    ensures SegNext(net, start, dir) == Some(e.vertex)
    ensures ValidEntry(net, start, dir, e)
  {
    var e := Entry(CompLength(net, start), [start], net.comps[start].seg.connectors[dir]);
    assert [start][..0] == [];
    e
  }

  /** Extend an entry over segment `x`, continuing in direction `dir`. */
  function Extend(net: Network, dir: Direction, e: Entry, x: CompId): (r: Entry)
    requires IsSegment(net, x) && dir in net.comps[x].seg.connectors
    ensures r.path == e.path + [x] && r.distance == e.distance + CompLength(net, x)
    ensures SegNext(net, x, dir) == Some(r.vertex)
  {
    Entry(e.distance + CompLength(net, x), e.path + [x], net.comps[x].seg.connectors[dir])
  }

  /** Extending a valid entry by a segment its connector offers gives a valid entry. */
  lemma ExtendValid(net: Network, start: CompId, dir: Direction, e: Entry, x: CompId)
    requires WellFormed(net) && ClosedOn(net, dir) && ValidEntry(net, start, dir, e)
    requires x in ConnectorNext(net, e.vertex, Last(e.path))
    ensures IsSegment(net, x) && dir in net.comps[x].seg.connectors
    ensures ValidEntry(net, start, dir, Extend(net, dir, e, x))
  {
    ConnectorNextFacts(net, e.vertex, Last(e.path));
    var p := e.path + [x];
    assert Step(net, dir, Last(e.path), x);
    assert forall i :: 0 <= i < |p| - 1 ==> Step(net, dir, p[i], p[i + 1]) by {
      forall i | 0 <= i < |p| - 1 ensures Step(net, dir, p[i], p[i + 1]) {
        if i < |e.path| - 1 {
          assert p[i] == e.path[i] && p[i + 1] == e.path[i + 1];
        }
      }
    }
    PathLengthSnoc(net, e.path, x);
  }

  /** No segment occurs twice. */
  ghost predicate Distinct(p: Path) {
    forall i, j :: 0 <= i < j < |p| ==> p[i] != p[j]
  }

  /** Lengths summed over a set of components. */
  ghost function LengthSum(net: Network, k: set<CompId>): nat
    decreases k
  {
    if k == {} then 0 else var y :| y in k; CompLength(net, y) + LengthSum(net, k - {y})
  }

  lemma LengthSumRemove(net: Network, k: set<CompId>, x: CompId)
    requires x in k
    ensures LengthSum(net, k) == CompLength(net, x) + LengthSum(net, k - {x})
    decreases k
  {
    var y :| y in k && LengthSum(net, k) == CompLength(net, y) + LengthSum(net, k - {y});
    if y != x {
      LengthSumRemove(net, k - {y}, x);
      LengthSumRemove(net, k - {x}, y);
      assert k - {y} - {x} == k - {x} - {y};
    }
  }

  /** A path repeating no segment is no longer than all of its candidate segments together. */
  lemma {:induction false} DistinctPathBound(net: Network, p: Path, k: set<CompId>)
    requires Distinct(p) && forall i :: 0 <= i < |p| ==> p[i] in k
    ensures PathLength(net, p) <= LengthSum(net, k)
    decreases |p|
  {
    if |p| > 0 {
      var y := p[|p| - 1];
      var q := p[..|p| - 1];
      assert forall i :: 0 <= i < |q| ==> q[i] in k - {y} by {
        forall i | 0 <= i < |q| ensures q[i] in k - {y} {
          assert q[i] == p[i] && i < |p| - 1;
        }
      }
      DistinctPathBound(net, q, k - {y});
      LengthSumRemove(net, k, y);
    }
  }

  ghost function SegmentIds(net: Network): set<CompId> {
    set id | id in net.comps && net.comps[id].Seg?
  }

  /** The length of every segment together: no duplicate-free path is longer. */
  ghost function Budget(net: Network): nat {
    LengthSum(net, SegmentIds(net))
  }

  /** The recorded best distance of `v`, or `absent` when none is recorded. */
  function BestOr(best: map<CompId, nat>, v: CompId, absent: nat): nat {
    if v in best then best[v] else absent
  }

  /** `b` records every vertex `a` records, at no larger a distance. */
  ghost predicate NoWorse(b: map<CompId, nat>, a: map<CompId, nat>) {
    forall u :: u in a ==> u in b && b[u] <= a[u]
  }

  /**
   * The relaxation test: distance `d` beats the best recorded for `v`, where
   * an unrecorded vertex counts as farther than any distance.
   */
  predicate Improves(best: map<CompId, nat>, v: CompId, d: nat) {
    v !in best || d < best[v]
  }

  /**
   * The distances each vertex may still improve to, up to the budget. Every
   * relaxation that pushes removes at least one pair, so the search ends.
   */
  ghost function Unsettled(net: Network, best: map<CompId, nat>): set<(CompId, nat)> {
    var b := Budget(net);
    set v: CompId, k: nat | v in net.comps && k <= b && k < BestOr(best, v, b + 1) :: (v, k)
  }

  lemma UnsettledMono(net: Network, b: map<CompId, nat>, a: map<CompId, nat>)
    requires NoWorse(b, a)
    ensures Unsettled(net, b) <= Unsettled(net, a)
  {
  }

  lemma UnsettledShrinks(net: Network, best: map<CompId, nat>, w: CompId, d: nat)
    requires w in net.comps && d <= Budget(net)
    requires w !in best || d < best[w]
    ensures Unsettled(net, best[w := d]) < Unsettled(net, best)
  {
    UnsettledMono(net, best[w := d], best);
    assert (w, d) in Unsettled(net, best);
    assert (w, d) !in Unsettled(net, best[w := d]);
  }

  /**
   * Every connector along the entry's path has a recorded best no larger
   * than the length of the path up to it.
   */
  ghost predicate Settled(net: Network, dir: Direction, best: map<CompId, nat>, e: Entry) {
    forall i :: 0 <= i < |e.path| ==>
      && SegNext(net, e.path[i], dir).Some?
      && SegNext(net, e.path[i], dir).value in best
      && best[SegNext(net, e.path[i], dir).value] <= PathLength(net, e.path[..i + 1])
  }

  lemma SettledMono(net: Network, dir: Direction, b: map<CompId, nat>, a: map<CompId, nat>, e: Entry)
    requires NoWorse(b, a) && Settled(net, dir, a, e)
    ensures Settled(net, dir, b, e)
  {
  }

  /** Exploring segment `x` from `e` has been accounted for in `best`. */
  ghost predicate RelaxedEdge(net: Network, dir: Direction, best: map<CompId, nat>, e: Entry, x: CompId) {
    SegNext(net, x, dir).Some?
    && SegNext(net, x, dir).value in best
    && best[SegNext(net, x, dir).value] <= e.distance + CompLength(net, x)
  }

  /** Every segment beyond `e`'s connector has been relaxed. */
  ghost predicate EdgesRelaxed(net: Network, dir: Direction, best: map<CompId, nat>, e: Entry) {
    |e.path| > 0 && forall x :: x in ConnectorNext(net, e.vertex, Last(e.path)) ==> RelaxedEdge(net, dir, best, e, x)
  }

  /** Frontier entries are valid, settled and free of repeated segments. */
  ghost predicate FrontierOk(net: Network, start: CompId, dir: Direction, best: map<CompId, nat>, f: multiset<Entry>) {
    forall e :: e in f ==> ValidEntry(net, start, dir, e) && Settled(net, dir, best, e) && Distinct(e.path)
  }

  /** Expanded entries are valid, are not at the destination, and had all their edges relaxed. */
  ghost predicate DoneOk(net: Network, start: CompId, dir: Direction, dest: Option<CompId>,
                         best: map<CompId, nat>, done: set<Entry>) {
    forall e :: e in done ==> ValidEntry(net, start, dir, e) && Some(e.vertex) != dest && EdgesRelaxed(net, dir, best, e)
  }

  lemma DoneOkMono(net: Network, start: CompId, dir: Direction, dest: Option<CompId>,
                   b: map<CompId, nat>, a: map<CompId, nat>, done: set<Entry>)
    requires NoWorse(b, a) && DoneOk(net, start, dir, dest, a, done)
    ensures DoneOk(net, start, dir, dest, b, done)
  {
    forall e | e in done ensures EdgesRelaxed(net, dir, b, e) {
      assert EdgesRelaxed(net, dir, a, e);
    }
  }

  /** Every recorded best was reached by an entry still queued or already expanded. */
  ghost predicate Witnessed(best: map<CompId, nat>, f: multiset<Entry>, done: set<Entry>) {
    forall v :: v in best ==> exists e :: (e in f || e in done) && e.vertex == v && e.distance == best[v]
  }

  /** Nothing queued is shorter than anything expanded. */
  ghost predicate Ordered(f: multiset<Entry>, done: set<Entry>) {
    forall e, g :: e in done && g in f ==> e.distance <= g.distance
  }

  /** The outer loop's invariant. */
  ghost predicate SearchInv(net: Network, start: CompId, dir: Direction, dest: Option<CompId>,
                            f: multiset<Entry>, done: set<Entry>, best: map<CompId, nat>) {
    && WellFormed(net) && ClosedOn(net, dir) && IsSegment(net, start)
    && FrontierOk(net, start, dir, best, f)
    && DoneOk(net, start, dir, dest, best, done)
    && Witnessed(best, f, done)
    && Ordered(f, done)
    && (Seed(net, start, dir) in f || Seed(net, start, dir) in done)
  }

  /** A minimum-distance entry of the frontier. */
  predicate IsMin(f: multiset<Entry>, e: Entry) {
    e in f && forall g :: g in f ==> e.distance <= g.distance
  }

  lemma {:induction false} MinExists(f: multiset<Entry>)
    requires |f| > 0
    ensures exists e :: IsMin(f, e)
    decreases |f|
  {
    var x :| x in f;
    var rest := f - multiset{x};
    if |rest| == 0 {
      assert rest == multiset{};
      assert f == rest + multiset{x};
      assert IsMin(f, x);
    } else {
      MinExists(rest);
      var m :| IsMin(rest, m);
      if x.distance < m.distance {
        assert forall g :: g in f ==> x.distance <= g.distance by {
          forall g | g in f ensures x.distance <= g.distance {
            if g != x {
              assert g in rest;
            }
          }
        }
        assert IsMin(f, x);
      } else {
        assert forall g :: g in f ==> m.distance <= g.distance by {
          forall g | g in f ensures m.distance <= g.distance {
            if g != x {
              assert g in rest;
            }
          }
        }
        assert IsMin(f, m);
      }
    }
  }

  /** The search state right after seeding. */
  lemma StartInv(net: Network, start: CompId, dir: Direction, dest: Option<CompId>)
    requires WellFormed(net) && ClosedOn(net, dir) && IsSegment(net, start)
    ensures var seed := Seed(net, start, dir);
            SearchInv(net, start, dir, dest, multiset{seed}, {}, map[seed.vertex := seed.distance])
  {
    var seed := Seed(net, start, dir);
    var best := map[seed.vertex := seed.distance];
    assert seed.path[..1] == seed.path;
    assert Settled(net, dir, best, seed);
    assert Distinct(seed.path);
    assert FrontierOk(net, start, dir, best, multiset{seed});
    assert Witnessed(best, multiset{seed}, {}) by {
      forall v | v in best ensures exists e :: (e in multiset{seed} || e in {}) && e.vertex == v && e.distance == best[v] {
        assert seed in multiset{seed};
      }
    }
  }
}
