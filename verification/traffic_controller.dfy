/**
 * DjikstraTrafficController: commits paths to the network (setPath) and
 * serves the running trains in order, caching each train's path
 * (UpdateRailNetwork).
 */
module TrafficController {
  import opened Options
  import opened RailDefinitions
  import opened RailNetwork
  import opened PathGraph
  import opened PathFinder
  import opened Trains

  /** Trains are told apart by identity. */
  type TrainId = nat

  /** Every segment the path routes from, all but the last, has connectors on both ends. */
  predicate Routable(net: Network, path: Path) {
    forall i :: 0 <= i < |path| - 1 ==> CanRoute(net, path[i])
  }

  /** Every consecutive pair of the path is accepted by a connector of its first segment. */
  ghost predicate Commits(net: Network, path: Path)
    requires WellFormed(net) && Routable(net, path)
  {
    forall i :: 0 <= i < |path| - 1 ==> RouteAccepted(net, path[i], path[i + 1])
  }

  /**
   * Where committing the path stops: the index of the first pair no
   * connector accepts, or the index of the last segment when every pair is
   * accepted.
   */
  ghost function FirstReject(net: Network, path: Path): (k: nat)
    requires WellFormed(net) && |path| >= 1 && Routable(net, path)
    ensures k < |path|
    ensures forall i :: 0 <= i < k ==> RouteAccepted(net, path[i], path[i + 1])
    ensures k < |path| - 1 ==> !RouteAccepted(net, path[k], path[k + 1])
    ensures k == |path| - 1 <==> Commits(net, path)
    decreases |path|
  {
    if |path| == 1 || !RouteAccepted(net, path[0], path[1]) then 0
    else
      var tail := path[1..];
      assert forall i :: 0 <= i < |tail| ==> tail[i] == path[i + 1];
      1 + FirstReject(net, tail)
  }

  /** Component `id` is a connector at an end of segment `s`. */
  ghost predicate EndOf(net: Network, s: CompId, id: CompId) {
    CanRoute(net, s) && (id == net.comps[s].seg.connectors[Up] || id == net.comps[s].seg.connectors[Down])
  }

  /** Component `id` is a connector at an end of one of the first `k` segments of the path. */
  ghost predicate RoutedBefore(net: Network, path: Path, k: nat, id: CompId) {
    exists i :: 0 <= i < k && i < |path| && EndOf(net, path[i], id)
  }

  /** Where committing stops does not depend on the selections. */
  lemma FirstRejectKeeps(a: Network, b: Network, path: Path)
    requires WellFormed(a) && WellFormed(b) && SameTopology(a, b) && |path| >= 1 && Routable(a, path)
    ensures Routable(b, path)
    ensures FirstReject(a, path) == FirstReject(b, path)
    ensures forall k, id :: RoutedBefore(a, path, k, id) <==> RoutedBefore(b, path, k, id)
  {
    SameTopologyRouting(a, b);
    assert forall s, id :: EndOf(a, s, id) <==> EndOf(b, s, id);
  }

  /**
   * Commit a path: route each segment to its successor, in order, and stop
   * routing after the first pair that no connector accepts. The result is
   * whether every pair was accepted; a single-segment path commits without
   * routing anything. Only the connectors of the segments routed before the
   * stop may change, and the last segment routed leaves each accepting
   * connector selecting it and its successor.
   */
  function SetPath(net: Network, path: Path): (r: (Network, bool))
    requires WellFormed(net) && |path| >= 1 && Routable(net, path)
    ensures WellFormed(r.0) && SameTopology(net, r.0)
    ensures r.1 <==> Commits(net, path)
    ensures |path| == 1 ==> r == (net, true)
    ensures forall id :: id in net.comps && !RoutedBefore(net, path, FirstReject(net, path), id) ==>
              r.0.comps[id] == net.comps[id]
    ensures LastRouted(net, path, r.0)
    decreases |path|
  {
    if |path| == 1 then (net, true)
    else
      var net1 := RouteSegment(net, path[0], path[1]);
      if RouteAccepted(net, path[0], path[1]) then
        RouteFacts(net, path[0], path[1]);
        SetPathStep(net, net1, path);
        var r := SetPath(net1, path[1..]);
        SetPathCompose(net, net1, path, r);
        r
      else
        RejectedRouteUnchanged(net, path[0], path[1]);
        (net1, false)
  }

  /**
   * When committing stops at index `k` >= 1, segment `path[k - 1]` was routed
   * last: each of its connectors that accepts the pair selects it in `r`.
   */
  ghost predicate LastRouted(net: Network, path: Path, r: Network)
    requires WellFormed(net) && |path| >= 1 && Routable(net, path)
  {
    var k := FirstReject(net, path);
    k >= 1 ==> SwitchedAt(net, r, path[k - 1], path[k], Up) && SwitchedAt(net, r, path[k - 1], path[k], Down)
  }

  /** If the connector on end `e` of `s` accepts (`s`, `d`), it selects that pair in `r`. */
  ghost predicate SwitchedAt(net: Network, r: Network, s: CompId, d: CompId, e: Direction)
    requires WellFormed(net) && CanRoute(net, s) && (e == Up || e == Down)
  {
    var c := net.comps[s].seg.connectors[e];
    AcceptsAt(net, c, s, d) ==>
      c in r.comps && !r.comps[c].Seg?
      && ConnectorPart(r.comps[c]).first == Some(s) && ConnectorPart(r.comps[c]).second == Some(d)
  }

  /** RouteSegment in terms of EndOf and SwitchedAt. */
  lemma RouteFacts(net: Network, src: CompId, dst: CompId)
    requires WellFormed(net) && CanRoute(net, src)
    ensures var r := RouteSegment(net, src, dst);
            && WellFormed(r) && SameTopology(net, r)
            && (forall id :: id in net.comps && !EndOf(net, src, id) ==> r.comps[id] == net.comps[id])
            && SwitchedAt(net, r, src, dst, Up) && SwitchedAt(net, r, src, dst, Down)
  {
  }

  /** How the path's tail relates to the whole once the first pair is routed. */
  lemma SetPathStep(net: Network, net1: Network, path: Path)
    requires WellFormed(net) && |path| >= 2 && Routable(net, path) && RouteAccepted(net, path[0], path[1])
    requires WellFormed(net1) && SameTopology(net, net1)
    ensures Routable(net1, path[1..])
    ensures FirstReject(net, path) == 1 + FirstReject(net1, path[1..])
  {
    var tail := path[1..];
    assert forall i :: 0 <= i < |tail| ==> tail[i] == path[i + 1];
    assert Routable(net, tail);
    assert FirstReject(net, path) == 1 + FirstReject(net, tail);
    FirstRejectKeeps(net, net1, tail);
  }

  /** SetPath's contract for the whole path from its contract for the tail. */
  lemma SetPathCompose(net: Network, net1: Network, path: Path, r: (Network, bool))
    requires WellFormed(net) && |path| >= 2 && Routable(net, path)
    requires RouteAccepted(net, path[0], path[1])
    requires WellFormed(net1) && SameTopology(net, net1)
    requires forall id :: id in net.comps && !EndOf(net, path[0], id) ==> net1.comps[id] == net.comps[id]
    requires SwitchedAt(net, net1, path[0], path[1], Up) && SwitchedAt(net, net1, path[0], path[1], Down)
    requires Routable(net1, path[1..]) && FirstReject(net, path) == 1 + FirstReject(net1, path[1..])
    requires WellFormed(r.0) && SameTopology(net1, r.0)
    requires r.1 <==> Commits(net1, path[1..])
    requires forall id :: id in net1.comps && !RoutedBefore(net1, path[1..], FirstReject(net1, path[1..]), id) ==>
               r.0.comps[id] == net1.comps[id]
    requires LastRouted(net1, path[1..], r.0)
    ensures SameTopology(net, r.0)
    ensures r.1 <==> Commits(net, path)
    ensures forall id :: id in net.comps && !RoutedBefore(net, path, FirstReject(net, path), id) ==>
              r.0.comps[id] == net.comps[id]
    ensures LastRouted(net, path, r.0)
  {
    SameTopologyTransitive(net, net1, r.0);
    assert FirstReject(net1, path[1..]) == |path[1..]| - 1 <==> Commits(net1, path[1..]);
    ComposeFrame(net, net1, path, r.0);
    ComposeLast(net, net1, path, r.0);
  }

  lemma ComposeFrame(net: Network, net1: Network, path: Path, r: Network)
    requires WellFormed(net) && |path| >= 2 && Routable(net, path)
    requires RouteAccepted(net, path[0], path[1])
    requires WellFormed(net1) && SameTopology(net, net1)
    requires forall id :: id in net.comps && !EndOf(net, path[0], id) ==> net1.comps[id] == net.comps[id]
    requires r.comps.Keys == net1.comps.Keys
    requires Routable(net1, path[1..]) && FirstReject(net, path) == 1 + FirstReject(net1, path[1..])
    requires forall id :: id in net1.comps && !RoutedBefore(net1, path[1..], FirstReject(net1, path[1..]), id) ==>
               r.comps[id] == net1.comps[id]
    ensures forall id :: id in net.comps && !RoutedBefore(net, path, FirstReject(net, path), id) ==>
              r.comps[id] == net.comps[id]
  {
    var tail := path[1..];
    var k := FirstReject(net, path);
    FirstRejectKeeps(net, net1, tail);
    forall id | id in net.comps && !RoutedBefore(net, path, k, id) ensures r.comps[id] == net.comps[id] {
      assert !EndOf(net, path[0], id);
      RoutedBeforeShift(net, path, k, id);
    }
  }

  /** A segment end among the first `k - 1` of the tail is among the first `k` of the path. */
  lemma RoutedBeforeShift(net: Network, path: Path, k: nat, id: CompId)
    requires |path| >= 1 && k >= 1
    ensures RoutedBefore(net, path[1..], k - 1, id) ==> RoutedBefore(net, path, k, id)
  {
    if RoutedBefore(net, path[1..], k - 1, id) {
      var i :| 0 <= i < k - 1 && i < |path[1..]| && EndOf(net, path[1..][i], id);
      assert path[1..][i] == path[i + 1];
      assert EndOf(net, path[i + 1], id);
    }
  }

  lemma ComposeLast(net: Network, net1: Network, path: Path, r: Network)
    requires WellFormed(net) && |path| >= 2 && Routable(net, path)
    requires RouteAccepted(net, path[0], path[1])
    requires WellFormed(net1) && SameTopology(net, net1)
    requires forall id :: id in net.comps && !EndOf(net, path[0], id) ==> net1.comps[id] == net.comps[id]
    requires SwitchedAt(net, net1, path[0], path[1], Up) && SwitchedAt(net, net1, path[0], path[1], Down)
    requires r.comps.Keys == net1.comps.Keys
    requires Routable(net1, path[1..]) && FirstReject(net, path) == 1 + FirstReject(net1, path[1..])
    requires forall id :: id in net1.comps && !RoutedBefore(net1, path[1..], FirstReject(net1, path[1..]), id) ==>
               r.comps[id] == net1.comps[id]
    requires LastRouted(net1, path[1..], r)
    ensures LastRouted(net, path, r)
  {
    var k := FirstReject(net, path);
    if k >= 2 {
      LastDeep(net, net1, path, k, r);
    } else {
      assert forall id :: id in net1.comps ==> r.comps[id] == net1.comps[id];
      assert SwitchedAt(net, r, path[0], path[1], Up);
    }
  }

  /** The last routed pair lies in the tail: its connectors accept the same on both networks. */
  lemma LastDeep(net: Network, net1: Network, path: Path, k: nat, r: Network)
    requires WellFormed(net) && |path| >= 2 && Routable(net, path)
    requires WellFormed(net1) && SameTopology(net, net1)
    requires 2 <= k < |path| && Routable(net1, path[1..])
    requires SwitchedAt(net1, r, path[1..][k - 2], path[1..][k - 1], Up)
    requires SwitchedAt(net1, r, path[1..][k - 2], path[1..][k - 1], Down)
    ensures SwitchedAt(net, r, path[k - 1], path[k], Up) && SwitchedAt(net, r, path[k - 1], path[k], Down)
  {
    assert path[1..][k - 2] == path[k - 1] && path[1..][k - 1] == path[k];
    assert net1.comps[path[k - 1]] == net.comps[path[k - 1]];
    var up := net.comps[path[k - 1]].seg.connectors[Up];
    var down := net.comps[path[k - 1]].seg.connectors[Down];
    assert ConnectorPart(net1.comps[up]).available == ConnectorPart(net.comps[up]).available;
    assert ConnectorPart(net1.comps[down]).available == ConnectorPart(net.comps[down]).available;
  }

  /**
   * Connector `id` accepts a pair routed at some index in [`lo`, `k`): it is
   * at an end of `path[j]` and both `path[j]` and `path[j + 1]` are available
   * on it.
   */
  ghost predicate SelectedBy(net: Network, path: Path, lo: nat, k: nat, id: CompId) {
    exists j :: lo <= j < k && j + 1 < |path| && EndOf(net, path[j], id) && IsConnector(net, id)
                && AcceptsAt(net, id, path[j], path[j + 1])
  }

  /** Every connector that no pair routed before the stop selects is as in `net`. */
  ghost predicate Unselected(net: Network, path: Path, r: Network)
    requires WellFormed(net) && |path| >= 1 && Routable(net, path)
  {
    forall id :: id in net.comps && !SelectedBy(net, path, 0, FirstReject(net, path), id) ==>
      id in r.comps && r.comps[id] == net.comps[id]
  }

  /**
   * Each end of a routed segment `path[i]` that no later routed pair selects
   * is left selecting (`path[i]`, `path[i + 1]`) if it accepts them.
   */
  ghost predicate LastSelections(net: Network, path: Path, r: Network)
    requires WellFormed(net) && |path| >= 1 && Routable(net, path)
  {
    forall i, e :: 0 <= i < FirstReject(net, path) && (e == Up || e == Down) ==>
      (!SelectedBy(net, path, i + 1, FirstReject(net, path), net.comps[path[i]].seg.connectors[e]) ==>
         SwitchedAt(net, r, path[i], path[i + 1], e))
  }

  /**
   * What committing does to each connector. Routing stops at the first
   * rejected pair, and every pair before it is routed in order. A connector
   * that accepts none of the routed pairs keeps its selection, and a connector
   * that accepts some of them is left selecting the last of those. So every
   * connector's final state is fixed.
   */
  lemma {:induction false} SetPathSwitches(net: Network, path: Path)
    requires WellFormed(net) && |path| >= 1 && Routable(net, path)
    ensures Unselected(net, path, SetPath(net, path).0)
    ensures LastSelections(net, path, SetPath(net, path).0)
    decreases |path|
  {
    if |path| > 1 {
      var net1 := RouteSegment(net, path[0], path[1]);
      if !RouteAccepted(net, path[0], path[1]) {
        RejectedRouteUnchanged(net, path[0], path[1]);
        assert SetPath(net, path).0 == net;
      } else {
        RouteFacts(net, path[0], path[1]);
        SetPathStep(net, net1, path);
        SetPathSwitches(net1, path[1..]);
        var r := SetPath(net1, path[1..]).0;
        assert SetPath(net, path).0 == r;
        SwitchesCompose(net, net1, path, r);
      }
    }
  }

  /** The tail's selections, shifted one index, with the first pair's in front. */
  lemma SwitchesCompose(net: Network, net1: Network, path: Path, r: Network)
    requires WellFormed(net) && |path| >= 2 && Routable(net, path) && RouteAccepted(net, path[0], path[1])
    requires net1 == RouteSegment(net, path[0], path[1])
    requires WellFormed(net1) && SameTopology(net, net1)
    requires SwitchedAt(net, net1, path[0], path[1], Up) && SwitchedAt(net, net1, path[0], path[1], Down)
    requires Routable(net1, path[1..]) && FirstReject(net, path) == 1 + FirstReject(net1, path[1..])
    requires Unselected(net1, path[1..], r) && LastSelections(net1, path[1..], r)
    ensures Unselected(net, path, r) && LastSelections(net, path, r)
  {
    ComposeUnselected(net, net1, path, r);
    ComposeSelections(net, net1, path, r);
  }

  lemma ComposeUnselected(net: Network, net1: Network, path: Path, r: Network)
    requires WellFormed(net) && |path| >= 2 && Routable(net, path)
    requires net1 == RouteSegment(net, path[0], path[1])
    requires WellFormed(net1) && SameTopology(net, net1)
    requires Routable(net1, path[1..]) && FirstReject(net, path) == 1 + FirstReject(net1, path[1..])
    requires Unselected(net1, path[1..], r)
    ensures Unselected(net, path, r)
  {
    var k := FirstReject(net, path);
    forall id | id in net.comps && !SelectedBy(net, path, 0, k, id) ensures id in r.comps && r.comps[id] == net.comps[id] {
      SelectedShift(net, net1, path, 0, k - 1, id);
      SelectedMono(net, path, 0, k, id);
      FirstUnselected(net, path, id);
    }
  }

  lemma ComposeSelections(net: Network, net1: Network, path: Path, r: Network)
    requires WellFormed(net) && |path| >= 2 && Routable(net, path)
    requires WellFormed(net1) && SameTopology(net, net1)
    requires SwitchedAt(net, net1, path[0], path[1], Up) && SwitchedAt(net, net1, path[0], path[1], Down)
    requires Routable(net1, path[1..]) && FirstReject(net, path) == 1 + FirstReject(net1, path[1..])
    requires Unselected(net1, path[1..], r) && LastSelections(net1, path[1..], r)
    ensures LastSelections(net, path, r)
  {
    var k := FirstReject(net, path);
    forall i, e | 0 <= i < k && (e == Up || e == Down)
      ensures !SelectedBy(net, path, i + 1, k, net.comps[path[i]].seg.connectors[e]) ==>
                SwitchedAt(net, r, path[i], path[i + 1], e)
    {
      var c := net.comps[path[i]].seg.connectors[e];
      SelectedShift(net, net1, path, i, k - 1, c);
      if !SelectedBy(net, path, i + 1, k, c) {
        if i == 0 {
          assert c in net1.comps && r.comps[c] == net1.comps[c];
        } else {
          SwitchedInTail(net, net1, path, r, i, e);
        }
      }
    }
  }

  /** A tail pair's switch, read back on the whole path. */
  lemma SwitchedInTail(net: Network, net1: Network, path: Path, r: Network, i: nat, e: Direction)
    requires WellFormed(net) && WellFormed(net1) && SameTopology(net, net1) && |path| >= 2
    requires Routable(net1, path[1..]) && 1 <= i < |path| - 1 && (e == Up || e == Down)
    requires LastSelections(net1, path[1..], r) && i - 1 < FirstReject(net1, path[1..])
    requires CanRoute(net, path[i])
    requires !SelectedBy(net1, path[1..], i, FirstReject(net1, path[1..]), net.comps[path[i]].seg.connectors[e])
    ensures SwitchedAt(net, r, path[i], path[i + 1], e)
  {
    var tail := path[1..];
    assert tail[i - 1] == path[i] && tail[i] == path[i + 1];
    assert net1.comps[path[i]] == net.comps[path[i]];
    assert SwitchedAt(net1, r, tail[i - 1], tail[i], e);
    SwitchedKeeps(net, net1, r, path[i], path[i + 1], e);
  }

  /** A connector index 0 does not select is left as it was by routing `path[0]`. */
  lemma FirstUnselected(net: Network, path: Path, id: CompId)
    requires WellFormed(net) && |path| >= 2 && CanRoute(net, path[0]) && id in net.comps
    requires !(EndOf(net, path[0], id) && IsConnector(net, id) && AcceptsAt(net, id, path[0], path[1]))
    ensures RouteSegment(net, path[0], path[1]).comps[id] == net.comps[id]
  {
    var r := RouteSegment(net, path[0], path[1]);
    if id == net.comps[path[0]].seg.connectors[Up] {
      assert !AcceptsAt(net, id, path[0], path[1]);
    } else if id == net.comps[path[0]].seg.connectors[Down] {
      assert !AcceptsAt(net, id, path[0], path[1]);
    }
  }

  /** A selection in the tail is a selection one index later in the whole path. */
  lemma SelectedShift(net: Network, net1: Network, path: Path, lo: nat, k1: nat, id: CompId)
    requires WellFormed(net) && WellFormed(net1) && SameTopology(net, net1) && |path| >= 1
    ensures SelectedBy(net1, path[1..], lo, k1, id) ==> SelectedBy(net, path, lo + 1, k1 + 1, id)
  {
    if SelectedBy(net1, path[1..], lo, k1, id) {
      var j :| lo <= j < k1 && j + 1 < |path[1..]| && EndOf(net1, path[1..][j], id) && IsConnector(net1, id)
               && AcceptsAt(net1, id, path[1..][j], path[1..][j + 1]);
      assert path[1..][j] == path[j + 1] && path[1..][j + 1] == path[j + 2];
      assert net1.comps[path[j + 1]] == net.comps[path[j + 1]];
      assert ConnectorPart(net1.comps[id]).available == ConnectorPart(net.comps[id]).available;
      assert EndOf(net, path[j + 1], id) && AcceptsAt(net, id, path[j + 1], path[j + 2]);
    }
  }

  /** Widening the index range keeps a selection. */
  lemma SelectedMono(net: Network, path: Path, lo: nat, k: nat, id: CompId)
    ensures SelectedBy(net, path, lo + 1, k, id) ==> SelectedBy(net, path, lo, k, id)
  {
  }

  /** SwitchedAt reads acceptance from the topology only. */
  lemma SwitchedKeeps(net: Network, net1: Network, r: Network, s: CompId, d: CompId, e: Direction)
    requires WellFormed(net) && WellFormed(net1) && SameTopology(net, net1)
    requires CanRoute(net, s) && CanRoute(net1, s) && (e == Up || e == Down)
    requires SwitchedAt(net1, r, s, d, e)
    ensures SwitchedAt(net, r, s, d, e)
  {
    var c := net.comps[s].seg.connectors[e];
    assert net1.comps[s] == net.comps[s];
    assert ConnectorPart(net1.comps[c]).available == ConnectorPart(net.comps[c]).available;
  }

  /** The cached paths: each non-empty and routable. */
  ghost predicate CacheOk(net: Network, cache: map<TrainId, Path>) {
    forall id :: id in cache ==> |cache[id]| >= 1 && Routable(net, cache[id])
  }

  /** What the search promises for train `t`: a route to its destination, and a shortest one on a linked network. */
  ghost predicate Found(net: Network, t: Train, p: Path) {
    && IsRoute(net, t.current, t.direction, t.destination, p)
    && (Linked(net) ==>
          forall q :: IsRoute(net, t.current, t.direction, t.destination, q) ==> PathLength(net, p) <= PathLength(net, q))
  }

  /** Why no path could be had for `t`: it is not on a segment, or (on a linked network) no route exists. */
  ghost predicate Unserved(net: Network, t: Train) {
    !IsSegment(net, t.current)
    || (Linked(net) ==> forall q :: !IsRoute(net, t.current, t.direction, t.destination, q))
  }

  /** Routing the network changes neither what the search promises nor why it fails. */
  lemma FoundKeeps(a: Network, b: Network, t: Train, p: Path)
    requires SameTopology(a, b)
    ensures Found(a, t, p) <==> Found(b, t, p)
    ensures Unserved(a, t) <==> Unserved(b, t)
  {
    SameTopologyPreserves(a, b);
    forall q {
      SameTopologyRoutes(a, b, t.current, t.direction, t.destination, q);
    }
  }

  /** Routing the network keeps the cache routable. */
  lemma CacheKeeps(a: Network, b: Network, cache: map<TrainId, Path>)
    requires WellFormed(a) && WellFormed(b) && SameTopology(a, b) && CacheOk(a, cache)
    ensures CacheOk(b, cache)
  {
    SameTopologyRouting(a, b);
  }

  lemma CacheAdd(net: Network, cache: map<TrainId, Path>, id: TrainId, p: Path)
    requires CacheOk(net, cache) && |p| >= 1 && Routable(net, p)
    ensures CacheOk(net, cache[id := p])
  {
  }

  /** On a closed network every route can be routed. */
  lemma RouteRoutable(net: Network, t: Train, p: Path)
    requires Closed(net) && IsRoute(net, t.current, t.direction, t.destination, p)
    ensures Routable(net, p)
  {
  }

  /** The outcome of serving one train: the routed network, the cache, the path used and whether it committed. */
  datatype Served = Served(net: Network, cache: map<TrainId, Path>, path: Path, committed: bool)

  /**
   * Serve one train: take its cached path, or search for one and cache it
   * when non-empty; then commit the path. No result when the train is not
   * cached and either is not on a segment or has no path: the search and
   * the commit of an empty path are undefined there.
   */
  method ServeTrain(net: Network, cache: map<TrainId, Path>, id: TrainId, t: Train) returns (s: Option<Served>)
    requires WellFormed(net) && Closed(net) && CacheOk(net, cache) && Heading(t)
    ensures s.None? ==> id !in cache && Unserved(net, t)
    ensures id in cache ==> s.Some? && s.value.path == cache[id] && s.value.cache == cache
    ensures s.Some? ==>
              && |s.value.path| >= 1 && Routable(net, s.value.path)
              && (s.value.net, s.value.committed) == SetPath(net, s.value.path)
              && (s.value.committed <==> Commits(net, s.value.path))
              && WellFormed(s.value.net) && SameTopology(net, s.value.net)
              && CacheOk(s.value.net, s.value.cache)
    ensures s.Some? && id !in cache ==> s.value.cache == cache[id := s.value.path] && Found(net, t, s.value.path)
  {
    var path: Path;
    var cache' := cache;
    if id in cache {
      path := cache[id];
    } else {
      if !IsSegment(net, t.current) {
        return None;
      }
      path := FindShortestPath(net, t.current, t.direction, t.destination);
      if |path| == 0 {
        return None;
      }
      assert Found(net, t, path);
      RouteRoutable(net, t, path);
      CacheAdd(net, cache, id, path);
      cache' := cache[id := path];
    }
    var (net', committed) := SetPath(net, path);
    CacheKeeps(net, net', cache');
    return Some(Served(net', cache', path, committed));
  }

  /** The outcome of a controller pass: the routed network, the cache, and the train whose path committed. */
  datatype Update = Update(net: Network, cache: map<TrainId, Path>, routed: Option<TrainId>)

  /** The networks trains were served on: the first is the pass's input, all share its topology. */
  ghost predicate NetsOk(net: Network, nets: seq<Network>) {
    && |nets| >= 1 && nets[0] == net
    && forall j :: 0 <= j < |nets| ==> WellFormed(nets[j]) && SameTopology(net, nets[j])
  }

  /** The cache is routable on every one of the networks. */
  ghost predicate CachedEverywhere(nets: seq<Network>, c: map<TrainId, Path>) {
    forall j :: 0 <= j < |nets| ==> CacheOk(nets[j], c)
  }

  /** Cached paths are never replaced or dropped. */
  ghost predicate Extends(cache: map<TrainId, Path>, c: map<TrainId, Path>) {
    forall id :: id in cache ==> id in c && c[id] == cache[id]
  }

  /** The trains served so far. */
  ghost function ServedIds(order: seq<TrainId>, served: nat): set<TrainId>
    requires served <= |order|
  {
    set j | 0 <= j < served :: order[j]
  }

  /** Every path the search added to the cache is what the search promises. */
  ghost predicate FoundAll(net: Network, cache: map<TrainId, Path>, trains: map<TrainId, Train>, order: seq<TrainId>,
                           served: nat, c: map<TrainId, Path>) {
    forall j :: 0 <= j < served && j < |order| && order[j] !in cache && order[j] in trains && order[j] in c ==>
      Found(net, trains[order[j]], c[order[j]])
  }

  /** Setting the path of train `order[j]` on `nets[j]` gave `nets[j + 1]`, and failed except the last when `last` holds. */
  ghost predicate SetsAll(nets: seq<Network>, order: seq<TrainId>, served: nat, c: map<TrainId, Path>, last: bool) {
    forall j :: 0 <= j < served && j + 1 < |nets| && j < |order| ==>
      && order[j] in c
      && WellFormed(nets[j]) && |c[order[j]]| >= 1 && Routable(nets[j], c[order[j]])
      && SetPath(nets[j], c[order[j]]) == (nets[j + 1], last && j == served - 1)
  }

  /**
   * The state of a controller pass after `served` trains: `nets[j]` is the
   * network train `order[j]` was served on and `c` the cache so far.
   */
  ghost predicate PassInv(net: Network, cache: map<TrainId, Path>, trains: map<TrainId, Train>, order: seq<TrainId>,
                          served: nat, nets: seq<Network>, c: map<TrainId, Path>, last: bool) {
    && (forall i :: 0 <= i < |order| ==> order[i] in trains)
    && served <= |order| && |nets| == served + 1
    && NetsOk(net, nets)
    && CachedEverywhere(nets, c)
    && Extends(cache, c)
    && c.Keys == cache.Keys + ServedIds(order, served)
    && FoundAll(net, cache, trains, order, served, c)
    && SetsAll(nets, order, served, c, last)
  }

  lemma PassStart(net: Network, cache: map<TrainId, Path>, trains: map<TrainId, Train>, order: seq<TrainId>)
    requires WellFormed(net) && CacheOk(net, cache)
    requires forall i :: 0 <= i < |order| ==> order[i] in trains
    ensures PassInv(net, cache, trains, order, 0, [net], cache, false)
  {
    assert ServedIds(order, 0) == {};
  }

  lemma SameTopologySymmetric(a: Network, b: Network)
    requires SameTopology(a, b)
    ensures SameTopology(b, a)
  {
  }

  lemma NetsStep(net: Network, nets: seq<Network>, n': Network, c': map<TrainId, Path>)
    requires NetsOk(net, nets) && WellFormed(n') && SameTopology(nets[|nets| - 1], n') && CacheOk(n', c')
    ensures NetsOk(net, nets + [n']) && CachedEverywhere(nets + [n'], c')
  {
    var nets' := nets + [n'];
    SameTopologyTransitive(net, nets[|nets| - 1], n');
    SameTopologySymmetric(net, n');
    CacheKeeps(n', net, c');
    forall j | 0 <= j < |nets'| ensures CacheOk(nets'[j], c') {
      CacheKeeps(net, nets'[j], c');
    }
  }

  lemma CacheStep(cache: map<TrainId, Path>, order: seq<TrainId>, served: nat, c: map<TrainId, Path>,
                  p: Path, c': map<TrainId, Path>)
    requires served < |order| && Extends(cache, c) && c.Keys == cache.Keys + ServedIds(order, served)
    requires order[served] in c ==> c' == c
    requires order[served] !in c ==> c' == c[order[served] := p]
    ensures Extends(cache, c') && c'.Keys == cache.Keys + ServedIds(order, served + 1)
    ensures forall id :: id in c ==> id in c' && c'[id] == c[id]
  {
    assert ServedIds(order, served + 1) == ServedIds(order, served) + {order[served]};
  }

  lemma FoundStep(net: Network, cache: map<TrainId, Path>, trains: map<TrainId, Train>, order: seq<TrainId>,
                  served: nat, c: map<TrainId, Path>, n: Network, p: Path, c': map<TrainId, Path>)
    requires served < |order| && SameTopology(net, n)
    requires FoundAll(net, cache, trains, order, served, c) && c.Keys == cache.Keys + ServedIds(order, served)
    requires forall id :: id in c ==> id in c' && c'[id] == c[id]
    requires order[served] in trains && order[served] in c'
    requires order[served] !in c ==> c'[order[served]] == p && Found(n, trains[order[served]], p)
    ensures FoundAll(net, cache, trains, order, served + 1, c')
  {
    var id := order[served];
    forall j | 0 <= j < served + 1 && order[j] !in cache && order[j] in trains && order[j] in c'
      ensures Found(net, trains[order[j]], c'[order[j]])
    {
      if j == served && id !in c {
        FoundKeeps(net, n, trains[id], p);
      } else if j == served {
        var k :| 0 <= k < served && order[k] == id;
      }
    }
  }

  lemma SetsStep(nets: seq<Network>, order: seq<TrainId>, served: nat, c: map<TrainId, Path>,
                 p: Path, n': Network, c': map<TrainId, Path>, committed: bool)
    requires served < |order| && |nets| == served + 1 && SetsAll(nets, order, served, c, false)
    requires forall id :: id in c ==> id in c' && c'[id] == c[id]
    requires order[served] in c' && c'[order[served]] == p
    requires WellFormed(nets[served]) && |p| >= 1 && Routable(nets[served], p)
    requires SetPath(nets[served], p) == (n', committed)
    ensures SetsAll(nets + [n'], order, served + 1, c', committed)
  {
    var nets' := nets + [n'];
    forall j | 0 <= j < served + 1
      ensures order[j] in c' && WellFormed(nets'[j]) && |c'[order[j]]| >= 1 && Routable(nets'[j], c'[order[j]])
      ensures SetPath(nets'[j], c'[order[j]]) == (nets'[j + 1], committed && j == served)
    {
      if j < served {
        assert nets'[j] == nets[j] && nets'[j + 1] == nets[j + 1];
        assert c'[order[j]] == c[order[j]];
      } else {
        assert nets'[j] == nets[served] && nets'[j + 1] == n';
      }
    }
  }

  /** A train that cannot be served was neither cached before the pass nor served earlier in it. */
  lemma PassStuck(net: Network, cache: map<TrainId, Path>, trains: map<TrainId, Train>, order: seq<TrainId>,
                  served: nat, c: map<TrainId, Path>, n: Network)
    requires served < |order| && order[served] in trains && SameTopology(net, n)
    requires c.Keys == cache.Keys + ServedIds(order, served)
    requires order[served] !in c && Unserved(n, trains[order[served]])
    ensures order[served] !in cache && order[served] !in order[..served]
    ensures Unserved(net, trains[order[served]])
  {
    FoundKeeps(net, n, trains[order[served]], []);
  }

  /** Serving the next train, with path `p` and outcome `committed`, extends the pass. */
  lemma PassStep(net: Network, cache: map<TrainId, Path>, trains: map<TrainId, Train>, order: seq<TrainId>,
                 served: nat, nets: seq<Network>, c: map<TrainId, Path>,
                 p: Path, n': Network, c': map<TrainId, Path>, committed: bool)
    requires PassInv(net, cache, trains, order, served, nets, c, false) && served < |order|
    requires WellFormed(n') && SameTopology(nets[served], n') && CacheOk(n', c')
    requires |p| >= 1 && Routable(nets[served], p) && SetPath(nets[served], p) == (n', committed)
    requires order[served] in c ==> p == c[order[served]] && c' == c
    requires order[served] !in c ==> c' == c[order[served] := p] && Found(nets[served], trains[order[served]], p)
    ensures PassInv(net, cache, trains, order, served + 1, nets + [n'], c', committed)
  {
    NetsStep(net, nets, n', c');
    CacheStep(cache, order, served, c, p, c');
    FoundStep(net, cache, trains, order, served, c, nets[served], p, c');
    SetsStep(nets, order, served, c, p, n', c', committed);
  }

  /** Mid-pass, the next train can be served on the current network. */
  lemma PassReady(net: Network, cache: map<TrainId, Path>, trains: map<TrainId, Train>, order: seq<TrainId>,
                  served: nat, nets: seq<Network>, c: map<TrainId, Path>)
    requires Closed(net) && PassInv(net, cache, trains, order, served, nets, c, false) && served < |order|
    ensures WellFormed(nets[served]) && Closed(nets[served]) && CacheOk(nets[served], c)
  {
    SameTopologyPreserves(net, nets[served]);
  }

  /**
   * One controller pass: serve the trains in `order` until one's path
   * commits. `served` counts the trains whose paths were set, the last of
   * them the routed one if any; `nets[j]` is the network train `order[j]`
   * was served on. A train that cannot be served makes the pass undefined.
   */
  method UpdateRailNetwork(net: Network, cache: map<TrainId, Path>, trains: map<TrainId, Train>, order: seq<TrainId>)
    returns (r: Option<Update>, served: nat, ghost nets: seq<Network>)
    requires WellFormed(net) && Closed(net) && CacheOk(net, cache)
    requires forall i :: 0 <= i < |order| ==> order[i] in trains && Heading(trains[order[i]])
    ensures served <= |order| && |nets| == served + 1 && nets[0] == net
    ensures r.None? ==>
              && served < |order| && order[served] !in cache && order[served] !in order[..served]
              && Unserved(net, trains[order[served]])
    ensures r.Some? ==>
              && PassInv(net, cache, trains, order, served, nets, r.value.cache, r.value.routed.Some?)
              && r.value.net == nets[served]
              && (r.value.routed.None? ==> served == |order|)
              && (r.value.routed.Some? ==> served >= 1 && r.value.routed == Some(order[served - 1]))
  {
    var n := net;
    var c := cache;
    served := 0;
    nets := [net];
    PassStart(net, cache, trains, order);
    while served < |order|
      invariant PassInv(net, cache, trains, order, served, nets, c, false) && nets[served] == n
    {
      var id := order[served];
      PassReady(net, cache, trains, order, served, nets, c);
      var s := ServeTrain(n, c, id, trains[id]);
      if s.None? {
        PassStuck(net, cache, trains, order, served, c, n);
        r := None;
        return;
      }
      PassStep(net, cache, trains, order, served, nets, c, s.value.path, s.value.net, s.value.cache, s.value.committed);
      n := s.value.net;
      c := s.value.cache;
      nets := nets + [n];
      served := served + 1;
      if s.value.committed {
        r := Some(Update(n, c, Some(id)));
        return;
      }
    }
    r := Some(Update(n, c, None));
  }
}
