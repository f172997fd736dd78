/**
 * The network: an arena owning every segment, connector and terminator,
 * with the builder operations and the router (src/RailNetwork.cpp).
 * Component pointers become arena handles; `next` is the next unused handle,
 * so every construction allocates a distinct component.
 */
module RailNetwork {
  import opened Options
  import opened RailDefinitions
  import Connectors
  import Segments
  import Terminators

  /** The component hierarchy as a tagged variant. */
  datatype Component =
    | Seg(seg: Segments.Segment)
    | Junction(conn: Connectors.Connector)
    | Term(term: Terminators.Terminator)

  /** Segments have their own length; connectors and terminators have none. */
  function Length(c: Component): (r: nat)
    ensures !c.Seg? ==> r == Connectors.Length
  {
    if c.Seg? then c.seg.length else Connectors.Length
  }

  /** The connector behaviour of a junction, or the part a terminator inherits. */
  function ConnectorPart(c: Component): Connectors.Connector
    requires !c.Seg?
  {
    if c.Junction? then c.conn else c.term.base
  }

  datatype Network = Network(
    comps: map<CompId, Component>,
    segments: seq<CompId>,
    connectors: seq<CompId>,
    terminators: seq<CompId>,
    next: CompId)

  const Empty: Network := Network(map[], [], [], [], 0)

  predicate IsSegment(net: Network, id: CompId) {
    id in net.comps && net.comps[id].Seg?
  }

  /** A junction or a terminator: something a segment end can lead to. */
  predicate IsConnector(net: Network, id: CompId) {
    id in net.comps && !net.comps[id].Seg?
  }

  /** The length of component `id`, 0 for anything that is not a segment. */
  function CompLength(net: Network, id: CompId): nat {
    if id in net.comps then Length(net.comps[id]) else 0
  }

  /** The connector on end `d` of segment `s` (Segment::GetNext). */
  function SegNext(net: Network, s: CompId, d: Direction): (r: Option<CompId>)
    ensures r.Some? ==> IsSegment(net, s)
  {
    if IsSegment(net, s) then Segments.GetNext(net.comps[s].seg, d) else None
  }

  /** The segments reachable through connector `v` when arriving from `src` (IConnector::GetNext). */
  function ConnectorNext(net: Network, v: CompId, src: CompId): set<CompId> {
    if IsConnector(net, v) then Connectors.GetNext(ConnectorPart(net.comps[v]), src) else {}
  }

  /** Every handle in use is below `next`. */
  ghost predicate HandlesBelowNext(net: Network) {
    forall id :: id in net.comps ==> id < net.next
  }

  /** The registered lists hold components of the right kind. */
  ghost predicate ListsTyped(net: Network) {
    && (forall i :: 0 <= i < |net.segments| ==> IsSegment(net, net.segments[i]))
    && (forall i :: 0 <= i < |net.connectors| ==>
          net.connectors[i] in net.comps && net.comps[net.connectors[i]].Junction?)
    && (forall i :: 0 <= i < |net.terminators| ==>
          net.terminators[i] in net.comps && net.comps[net.terminators[i]].Term?)
  }

  /** A segment end leads to a junction or a terminator. */
  ghost predicate EndsLeadToConnectors(net: Network) {
    forall id, d :: IsSegment(net, id) && d in net.comps[id].seg.connectors ==>
      IsConnector(net, net.comps[id].seg.connectors[d])
  }

  /** A junction lists and selects only segments. */
  ghost predicate JunctionOk(net: Network, c: Connectors.Connector) {
    Connectors.SelectionAvailable(c) && forall s :: s in c.available ==> IsSegment(net, s)
  }

  ghost predicate JunctionsOk(net: Network) {
    forall id :: id in net.comps && net.comps[id].Junction? ==> JunctionOk(net, net.comps[id].conn)
  }

  /** A terminator's inherited part stays empty and it is bound to a segment, if any. */
  ghost predicate TerminatorOk(net: Network, t: Terminators.Terminator) {
    t.base == Connectors.Fresh && (t.bound.Some? ==> IsSegment(net, t.bound.value))
  }

  ghost predicate TerminatorsOk(net: Network) {
    forall id :: id in net.comps && net.comps[id].Term? ==> TerminatorOk(net, net.comps[id].term)
  }

  /**
   * The arena's structural invariant: handles below `next`, registered lists
   * of the right kinds, segment ends leading to connectors, connectors
   * selecting among and listing only segments, and a terminator's inherited
   * connector part never filled.
   */
  ghost predicate WellFormed(net: Network) {
    && HandlesBelowNext(net)
    && ListsTyped(net)
    && EndsLeadToConnectors(net)
    && JunctionsOk(net)
    && TerminatorsOk(net)
  }

  /** Every segment has a connector on both ends: the state the simulation expects. */
  ghost predicate Closed(net: Network) {
    forall id :: IsSegment(net, id) ==> Up in net.comps[id].seg.connectors && Down in net.comps[id].seg.connectors
  }

  /** Every segment has a connector on end `d`. */
  ghost predicate ClosedOn(net: Network, d: Direction) {
    forall id :: IsSegment(net, id) ==> d in net.comps[id].seg.connectors
  }

  /**
   * Both sides wired: every junction a segment end leads to lists that
   * segment among its available ones. The builder only wires the segment
   * side, so this holds only after the connector side is linked explicitly.
   */
  ghost predicate Linked(net: Network) {
    forall id, d :: IsSegment(net, id) && d in net.comps[id].seg.connectors ==>
      var c := net.comps[id].seg.connectors[d];
      c in net.comps && net.comps[c].Junction? ==> id in net.comps[c].conn.available
  }

  /**
   * Same components of the same kinds, same segments and terminators, same
   * connected sets: only junction selections may differ.
   */
  ghost predicate SameTopology(a: Network, b: Network) {
    && a.comps.Keys == b.comps.Keys
    && a.segments == b.segments && a.connectors == b.connectors
    && a.terminators == b.terminators && a.next == b.next
    && forall id :: id in a.comps ==>
         && (a.comps[id].Seg? <==> b.comps[id].Seg?)
         && (a.comps[id].Junction? <==> b.comps[id].Junction?)
         && (a.comps[id].Seg? ==> a.comps[id] == b.comps[id])
         && (a.comps[id].Term? ==> a.comps[id] == b.comps[id])
         && (a.comps[id].Junction? ==> a.comps[id].conn.available == b.comps[id].conn.available)
  }

  /** Everything the path finder and the trains read is fixed by the topology. */
  lemma SameTopologyPreserves(a: Network, b: Network)
    requires SameTopology(a, b)
    ensures Closed(a) ==> Closed(b)
    ensures Linked(a) ==> Linked(b)
    ensures forall id :: IsSegment(a, id) <==> IsSegment(b, id)
    ensures forall id :: CompLength(a, id) == CompLength(b, id)
    ensures forall s, d :: SegNext(a, s, d) == SegNext(b, s, d)
    ensures forall v, s :: ConnectorNext(a, v, s) == ConnectorNext(b, v, s)
  {
    forall v, s ensures ConnectorNext(a, v, s) == ConnectorNext(b, v, s) {
      if IsConnector(a, v) {
        assert ConnectorPart(a.comps[v]).available == ConnectorPart(b.comps[v]).available;
      }
    }
  }

  /** The lists of registered components only grow, by appending. */
  ghost predicate Grows(a: Network, b: Network) {
    a.segments <= b.segments && a.connectors <= b.connectors && a.terminators <= b.terminators
    && a.next <= b.next
    && forall id :: id in a.comps ==> id in b.comps
  }

  /** A component that may join the arena: everything it refers to is already there. */
  ghost predicate ComponentOk(net: Network, k: Component) {
    match k
    case Seg(s) => forall d :: d in s.connectors ==> IsConnector(net, s.connectors[d])
    case Junction(c) => JunctionOk(net, c)
    case Term(t) => TerminatorOk(net, t)
  }

  /** Adding handles never breaks what the old components satisfied. */
  lemma ExtendKeepsOk(net: Network, r: Network)
    requires WellFormed(net)
    requires forall id :: id in net.comps ==> id in r.comps && r.comps[id] == net.comps[id]
    ensures forall id :: IsSegment(net, id) ==> IsSegment(r, id)
    ensures forall id :: IsConnector(net, id) ==> IsConnector(r, id)
    ensures forall id :: id in net.comps ==> ComponentOk(r, r.comps[id])
  {
    forall id | id in net.comps ensures ComponentOk(r, r.comps[id]) {
      match net.comps[id]
      case Seg(s) =>
        assert forall d :: d in s.connectors ==> IsConnector(net, s.connectors[d]);
      case Junction(c) =>
        assert JunctionOk(net, c);
      case Term(t) =>
        assert TerminatorOk(net, t);
    }
  }

  /** Every component of a well-formed arena is acceptable in it. */
  lemma WellFormedComponents(net: Network)
    requires WellFormed(net)
    ensures forall id :: id in net.comps ==> ComponentOk(net, net.comps[id])
  {
    forall id | id in net.comps ensures ComponentOk(net, net.comps[id]) {
      if net.comps[id].Seg? {
        assert IsSegment(net, id);
      }
    }
  }

  /** Well-formedness from per-component acceptability plus the bookkeeping parts. */
  lemma WellFormedFromComponents(net: Network)
    requires HandlesBelowNext(net) && ListsTyped(net)
    requires forall id :: id in net.comps ==> ComponentOk(net, net.comps[id])
    ensures WellFormed(net)
  {
    forall id, d | IsSegment(net, id) && d in net.comps[id].seg.connectors
      ensures IsConnector(net, net.comps[id].seg.connectors[d])
    {
      assert ComponentOk(net, net.comps[id]);
    }
    forall id | id in net.comps && net.comps[id].Junction? ensures JunctionOk(net, net.comps[id].conn) {
      assert ComponentOk(net, net.comps[id]);
    }
    forall id | id in net.comps && net.comps[id].Term? ensures TerminatorOk(net, net.comps[id].term) {
      assert ComponentOk(net, net.comps[id]);
    }
  }

  /**
   * Place component `k` under the unused handle `next` (the factory's `new`).
   * Registration in a list is a separate step.
   */
  function Allocate(net: Network, k: Component): (r: (Network, CompId))
    requires WellFormed(net) && ComponentOk(net, k)
    ensures WellFormed(r.0)
    ensures r.1 == net.next && r.1 !in net.comps
    ensures r.0.comps == net.comps[r.1 := k] && r.0.next == net.next + 1
    ensures r.0.segments == net.segments && r.0.connectors == net.connectors
    ensures r.0.terminators == net.terminators
  {
    var id := net.next;
    var r := net.(comps := net.comps[id := k], next := id + 1);
    AllocateKeepsWellFormed(net, k, r);
    (r, id)
  }

  lemma AllocateKeepsWellFormed(net: Network, k: Component, r: Network)
    requires WellFormed(net) && ComponentOk(net, k)
    requires r == net.(comps := net.comps[net.next := k], next := net.next + 1)
    ensures WellFormed(r)
  {
    assert net.next !in net.comps;
    ExtendKeepsOk(net, r);
    assert ComponentOk(r, k) by {
      match k
      case Seg(s) =>
        assert forall d :: d in s.connectors ==> IsConnector(net, s.connectors[d]);
      case Junction(c) =>
        assert JunctionOk(net, c);
      case Term(t) =>
        assert TerminatorOk(net, t);
    }
    WellFormedFromComponents(r);
  }

  /** Link end `d` of segment `s` to connector `c`, on the segment side only (Segment::Connect). */
  function ConnectEnd(net: Network, s: CompId, c: CompId, d: Direction): (r: Network)
    requires WellFormed(net) && IsSegment(net, s) && IsConnector(net, c)
    ensures WellFormed(r)
    ensures r.comps == net.comps[s := Seg(Segments.Connect(net.comps[s].seg, c, d))]
    ensures r.segments == net.segments && r.connectors == net.connectors
    ensures r.terminators == net.terminators && r.next == net.next
  {
    var r := net.(comps := net.comps[s := Seg(Segments.Connect(net.comps[s].seg, c, d))]);
    ConnectEndKeepsWellFormed(net, s, c, d, r);
    r
  }

  lemma ConnectEndKeepsWellFormed(net: Network, s: CompId, c: CompId, d: Direction, r: Network)
    requires WellFormed(net) && IsSegment(net, s) && IsConnector(net, c)
    requires r == net.(comps := net.comps[s := Seg(Segments.Connect(net.comps[s].seg, c, d))])
    ensures WellFormed(r)
  {
    assert forall id :: IsSegment(net, id) <==> IsSegment(r, id);
    assert forall id :: IsConnector(net, id) <==> IsConnector(r, id);
    WellFormedComponents(net);
    forall id | id in r.comps ensures ComponentOk(r, r.comps[id]) {
      if id == s {
        var seg := r.comps[s].seg;
        forall e | e in seg.connectors ensures IsConnector(r, seg.connectors[e]) {
          if e != d {
            assert e in net.comps[s].seg.connectors;
            assert ComponentOk(net, net.comps[s]);
          }
        }
      } else {
        assert ComponentOk(net, net.comps[id]);
        match net.comps[id]
        case Seg(x) =>
          assert forall e :: e in x.connectors ==> IsConnector(net, x.connectors[e]);
        case Junction(x) =>
          assert JunctionOk(net, x);
        case Term(x) =>
          assert TerminatorOk(net, x);
      }
    }
    WellFormedFromComponents(r);
  }

  /**
   * Allocate a segment outside the registered lists, as the driver does for
   * the first segment of a network (the component factory called directly).
   */
  function NewSegment(net: Network, length: nat): (r: (Network, CompId))
    requires WellFormed(net)
    ensures WellFormed(r.0) && Grows(net, r.0)
    ensures r.1 !in net.comps && IsSegment(r.0, r.1)
    ensures r.0.comps[r.1].seg == Segments.New(length)
    ensures forall id :: id in net.comps ==> r.0.comps[id] == net.comps[id]
    ensures r.0.segments == net.segments && r.0.connectors == net.connectors
    ensures r.0.terminators == net.terminators
  {
    Allocate(net, Seg(Segments.New(length)))
  }

  /** Register segment `id` in the network's segment list. */
  function RegisterSegment(net: Network, id: CompId): (r: Network)
    requires WellFormed(net) && IsSegment(net, id)
    ensures WellFormed(r) && r.comps == net.comps && r.next == net.next
    ensures r.segments == net.segments + [id]
    ensures r.connectors == net.connectors && r.terminators == net.terminators
  {
    net.(segments := net.segments + [id])
  }

  /** Register junction `id` in the network's connector list. */
  function RegisterJunction(net: Network, id: CompId): (r: Network)
    requires WellFormed(net) && id in net.comps && net.comps[id].Junction?
    ensures WellFormed(r) && r.comps == net.comps && r.next == net.next
    ensures r.connectors == net.connectors + [id]
    ensures r.segments == net.segments && r.terminators == net.terminators
  {
    net.(connectors := net.connectors + [id])
  }

  /** Register terminator `id` in the network's terminator list. */
  function RegisterTerminator(net: Network, id: CompId): (r: Network)
    requires WellFormed(net) && id in net.comps && net.comps[id].Term?
    ensures WellFormed(r) && r.comps == net.comps && r.next == net.next
    ensures r.terminators == net.terminators + [id]
    ensures r.segments == net.segments && r.connectors == net.connectors
  {
    net.(terminators := net.terminators + [id])
  }

  /** A fresh junction, registered, with end `d` of `src` leading to it. */
  function NewJunction(net: Network, src: CompId, d: Direction): (r: (Network, CompId))
    requires WellFormed(net) && IsSegment(net, src)
    ensures WellFormed(r.0) && r.1 == net.next && r.1 !in net.comps
    ensures r.0.comps == net.comps[r.1 := Junction(Connectors.Fresh)][src := Seg(Segments.Connect(net.comps[src].seg, r.1, d))]
    ensures r.0.next == net.next + 1 && r.0.connectors == net.connectors + [r.1]
    ensures r.0.segments == net.segments && r.0.terminators == net.terminators
  {
    assert ComponentOk(net, Junction(Connectors.Fresh));
    var (n1, c) := Allocate(net, Junction(Connectors.Fresh));
    var n2 := ConnectEnd(n1, src, c, d);
    (RegisterJunction(n2, c), c)
  }

  /** A new, registered segment whose end opposite `d` leads to connector `c`. */
  function SegmentBeyond(net: Network, c: CompId, d: Direction, length: nat): (r: (Network, CompId))
    requires WellFormed(net) && IsConnector(net, c)
    ensures WellFormed(r.0) && r.1 == net.next && r.1 !in net.comps
    ensures r.0.comps == net.comps[r.1 := Seg(Segments.Connect(Segments.New(length), c, ReverseDirection(d)))]
    ensures r.0.next == net.next + 1 && r.0.segments == net.segments + [r.1]
    ensures r.0.connectors == net.connectors && r.0.terminators == net.terminators
  {
    var created := Segments.Connect(Segments.New(length), c, ReverseDirection(d));
    assert ComponentOk(net, Seg(created));
    var (n1, s) := Allocate(net, Seg(created));
    (RegisterSegment(n1, s), s)
  }

  /**
   * Create a segment of length `length` beyond end `d` of `src`. The
   * connector already on that end is reused; otherwise a new one is created,
   * linked on the segment side and registered. The new segment's opposite end
   * leads to that connector. No connector is told about either segment.
   */
  function AddSegment(net: Network, src: CompId, d: Direction, length: nat): (r: (Network, CompId))
    requires WellFormed(net) && IsSegment(net, src)
    ensures WellFormed(r.0) && Grows(net, r.0)
    ensures r.1 !in net.comps && IsSegment(r.0, r.1) && r.0.comps[r.1].seg.length == length
    ensures r.0.segments == net.segments + [r.1] && r.0.terminators == net.terminators
    ensures forall id :: id in net.comps && id != src ==> r.0.comps[id] == net.comps[id]
  {
    var seg := net.comps[src].seg;
    if d in seg.connectors then SegmentBeyond(net, seg.connectors[d], d, length)
    else
      var (n1, c) := NewJunction(net, src, d);
      SegmentBeyond(n1, c, d, length)
  }

  /**
   * How AddSegment links when end `d` of `src` already has a connector: the
   * new segment's opposite end leads to that connector, its other end is
   * open, and `src` and the registered connectors are untouched.
   */
  lemma AddSegmentReuses(net: Network, src: CompId, d: Direction, length: nat)
    requires WellFormed(net) && IsSegment(net, src) && SegNext(net, src, d).Some?
    ensures var r := AddSegment(net, src, d, length);
            && r.0.comps[src] == net.comps[src] && r.0.connectors == net.connectors
            && SegNext(r.0, r.1, ReverseDirection(d)) == SegNext(net, src, d)
            && (forall e :: e != ReverseDirection(d) ==> SegNext(r.0, r.1, e).None?)
  {
    var c := net.comps[src].seg.connectors[d];
    var r := SegmentBeyond(net, c, d, length);
    assert AddSegment(net, src, d, length) == r;
    assert r.0.comps[r.1].seg == Segments.Connect(Segments.New(length), c, ReverseDirection(d));
  }

  /**
   * How AddSegment links when end `d` of `src` is open: a fresh junction is
   * registered, `src`'s end `d` and the new segment's opposite end both lead
   * to it, the new segment's other end is open, and `src` keeps its length,
   * signals and other end.
   */
  lemma AddSegmentCreates(net: Network, src: CompId, d: Direction, length: nat)
    requires WellFormed(net) && IsSegment(net, src) && SegNext(net, src, d).None?
    ensures var r := AddSegment(net, src, d, length);
            && r.0.connectors == net.connectors + [net.next]
            && net.next !in net.comps
            && r.0.comps[net.next] == Junction(Connectors.Fresh)
            && SegNext(r.0, src, d) == Some(net.next)
            && SegNext(r.0, r.1, ReverseDirection(d)) == Some(net.next)
            && (forall e :: e != ReverseDirection(d) ==> SegNext(r.0, r.1, e).None?)
            && (forall e :: e != d ==> SegNext(r.0, src, e) == SegNext(net, src, e))
            && r.0.comps[src].seg.length == net.comps[src].seg.length
            && r.0.comps[src].seg.signals == net.comps[src].seg.signals
  {
    var j := NewJunction(net, src, d);
    var r := SegmentBeyond(j.0, j.1, d, length);
    assert AddSegment(net, src, d, length) == r;
    assert j.1 == net.next && r.1 == net.next + 1;
    assert r.0.comps[src] == j.0.comps[src];
    assert r.0.comps[r.1].seg == Segments.Connect(Segments.New(length), net.next, ReverseDirection(d));
  }

  /**
   * Create a terminator and link end `d` of `src` to it. An existing link on
   * that end is reported in the original but overwritten all the same.
   */
  function AddTerminator(net: Network, src: CompId, d: Direction): (r: Network)
    requires WellFormed(net) && IsSegment(net, src)
    ensures WellFormed(r) && Grows(net, r)
    ensures r.terminators == net.terminators + [net.next]
    ensures r.segments == net.segments && r.connectors == net.connectors
    ensures net.next !in net.comps && net.next in r.comps && r.comps[net.next] == Term(Terminators.Fresh)
    ensures SegNext(r, src, d) == Some(net.next)
    ensures forall e :: e != d ==> SegNext(r, src, e) == SegNext(net, src, e)
    ensures r.comps[src].seg.length == net.comps[src].seg.length
    ensures forall id :: id in net.comps && id != src ==> r.comps[id] == net.comps[id]
  {
    assert ComponentOk(net, Term(Terminators.Fresh));
    var (n1, t) := Allocate(net, Term(Terminators.Fresh));
    RegisterTerminator(ConnectEnd(n1, src, t, d), t)
  }

  /** Placeholder in the original: the network is left as it is. */
  function SetSignal(net: Network, segment: CompId, d: Direction, state: SignalState): (r: Network)
    ensures r == net
  {
    net
  }

  /** Select (`s1`, `s2`) on connector `c`, a junction or a terminator's inherited part. */
  function SelectAt(net: Network, c: CompId, s1: CompId, s2: CompId): (r: Network)
    requires WellFormed(net) && IsConnector(net, c)
    ensures WellFormed(r) && SameTopology(net, r)
    ensures r.comps.Keys == net.comps.Keys
    ensures forall id :: id in net.comps && id != c ==> r.comps[id] == net.comps[id]
    ensures r.comps[c].Junction? == net.comps[c].Junction? && !r.comps[c].Seg?
    ensures ConnectorPart(r.comps[c]) == Connectors.Select(ConnectorPart(net.comps[c]), s1, s2)
    ensures r.comps[c].Term? ==> r.comps[c].term.bound == net.comps[c].term.bound
    ensures r.segments == net.segments && r.connectors == net.connectors
    ensures r.terminators == net.terminators && r.next == net.next
  {
    var k := net.comps[c];
    var updated :=
      if k.Junction? then Junction(Connectors.Select(k.conn, s1, s2))
      else Term(k.term.(base := Connectors.Select(k.term.base, s1, s2)));
    var r := net.(comps := net.comps[c := updated]);
    SelectAtKeepsWellFormed(net, c, s1, s2, updated, r);
    r
  }

  lemma SelectAtKeepsWellFormed(net: Network, c: CompId, s1: CompId, s2: CompId, updated: Component, r: Network)
    requires WellFormed(net) && IsConnector(net, c)
    requires updated == (if net.comps[c].Junction? then Junction(Connectors.Select(net.comps[c].conn, s1, s2))
                         else Term(net.comps[c].term.(base := Connectors.Select(net.comps[c].term.base, s1, s2))))
    requires r == net.(comps := net.comps[c := updated])
    ensures WellFormed(r) && SameTopology(net, r)
  {
  }

  /** RouteSegment may touch `src`'s connectors: both ends must be linked. */
  predicate CanRoute(net: Network, src: CompId) {
    IsSegment(net, src) && Up in net.comps[src].seg.connectors && Down in net.comps[src].seg.connectors
  }

  /** Whether connector `c` accepts the switch to (`src`, `dst`). */
  predicate AcceptsAt(net: Network, c: CompId, src: CompId, dst: CompId)
    requires IsConnector(net, c)
  {
    Connectors.Accepts(ConnectorPart(net.comps[c]), src, dst)
  }

  /**
   * What RouteSegment reports. The original returns nothing; the traffic
   * controller uses it as a boolean, and the model reads it as "one of the two
   * Select calls switched its connector".
   */
  predicate RouteAccepted(net: Network, src: CompId, dst: CompId)
    requires WellFormed(net) && CanRoute(net, src)
  {
    var s := net.comps[src].seg;
    AcceptsAt(net, s.connectors[Up], src, dst) || AcceptsAt(net, s.connectors[Down], src, dst)
  }

  /**
   * Switch the connectors on both ends of `src` so that trains pass from
   * `src` to `dst`: Select on the Up connector, then Select on the Down
   * connector, both unconditionally.
   */
  function RouteSegment(net: Network, src: CompId, dst: CompId): (r: Network)
    requires WellFormed(net) && CanRoute(net, src)
    ensures WellFormed(r) && SameTopology(net, r)
    ensures forall id ::
              (id in net.comps && id != net.comps[src].seg.connectors[Up]
               && id != net.comps[src].seg.connectors[Down]) ==> r.comps[id] == net.comps[id]
    ensures forall e :: e == Up || e == Down ==>
              var c := net.comps[src].seg.connectors[e];
              if AcceptsAt(net, c, src, dst)
              then ConnectorPart(r.comps[c]).first == Some(src) && ConnectorPart(r.comps[c]).second == Some(dst)
              else r.comps[c] == net.comps[c]
  {
    var up := net.comps[src].seg.connectors[Up];
    var down := net.comps[src].seg.connectors[Down];
    var net1 := SelectAt(net, up, src, dst);
    var net2 := SelectAt(net1, down, src, dst);
    assert ConnectorPart(net1.comps[down]).available == ConnectorPart(net.comps[down]).available;
    net2
  }

  /** A route no connector accepts leaves the network exactly as it was. */
  lemma RejectedRouteUnchanged(net: Network, src: CompId, dst: CompId)
    requires WellFormed(net) && CanRoute(net, src) && !RouteAccepted(net, src, dst)
    ensures RouteSegment(net, src, dst) == net
  {
    var r := RouteSegment(net, src, dst);
    assert forall id :: id in net.comps ==> r.comps[id] == net.comps[id];
    assert r.comps == net.comps;
  }

  lemma SameTopologyTransitive(a: Network, b: Network, c: Network)
    requires SameTopology(a, b) && SameTopology(b, c)
    ensures SameTopology(a, c)
  {
  }

  /** Whether a segment can be routed, and whether a route is accepted, depend only on the topology. */
  lemma SameTopologyRouting(a: Network, b: Network)
    requires WellFormed(a) && WellFormed(b) && SameTopology(a, b)
    ensures forall s :: CanRoute(a, s) <==> CanRoute(b, s)
    ensures forall s, d :: CanRoute(a, s) ==> (RouteAccepted(a, s, d) <==> RouteAccepted(b, s, d))
  {
    forall s, d | CanRoute(a, s) ensures RouteAccepted(a, s, d) <==> RouteAccepted(b, s, d) {
      var up := a.comps[s].seg.connectors[Up];
      var down := a.comps[s].seg.connectors[Down];
      assert ConnectorPart(a.comps[up]).available == ConnectorPart(b.comps[up]).available;
      assert ConnectorPart(a.comps[down]).available == ConnectorPart(b.comps[down]).available;
    }
  }

  /** Whether Traverse on component `c` is defined: a segment needs a connector on the departing end. */
  predicate CanTraverse(net: Network, c: CompId, d: Direction) {
    c in net.comps
    && (net.comps[c].Seg? && Segments.GetSignalState(net.comps[c].seg, d) != Red ==> d in net.comps[c].seg.connectors)
  }

  /** Pass through connector `k` from `src`. */
  function ConnectorTraverse(net: Network, k: CompId, src: CompId): CompId
    requires IsConnector(net, k)
  {
    if net.comps[k].Junction? then Connectors.Traverse(net.comps[k].conn, src)
    else Terminators.Traverse(net.comps[k].term, k, src)
  }

  /**
   * IComponent::Traverse dispatched on the kind of `c`. A segment checks the
   * signal on its departing end `d`: Red returns `src`; otherwise it hands
   * over to the connector on that end.
   */
  function Traverse(net: Network, c: CompId, src: CompId, d: Direction): (r: CompId)
    requires WellFormed(net) && CanTraverse(net, c, d)
    ensures r == src || IsSegment(net, r) || (IsConnector(net, r) && net.comps[r].Term?)
    ensures net.comps[c].Seg? && Segments.GetSignalState(net.comps[c].seg, d) == Red ==> r == src
    ensures net.comps[c].Seg? && Segments.GetSignalState(net.comps[c].seg, d) != Red ==>
              r == ConnectorTraverse(net, net.comps[c].seg.connectors[d], src)
  {
    match net.comps[c]
    case Seg(s) =>
      if Segments.GetSignalState(s, d) == Red then src
      else ConnectorTraverse(net, s.connectors[d], src)
    case Junction(j) => Connectors.Traverse(j, src)
    case Term(t) => Terminators.Traverse(t, c, src)
  }

  /**
   * Routing then driving: once RouteSegment has switched the junction on end
   * `e` of `src` to (`src`, `dst`), a train leaving `src` over that end, with
   * no red signal there, arrives on `dst`.
   */
  lemma RouteThenTraverse(net: Network, src: CompId, dst: CompId, e: Direction)
    requires WellFormed(net) && CanRoute(net, src) && (e == Up || e == Down)
    requires src != dst
    requires net.comps[net.comps[src].seg.connectors[e]].Junction?
    requires AcceptsAt(net, net.comps[src].seg.connectors[e], src, dst)
    requires Segments.GetSignalState(net.comps[src].seg, e) != Red
    ensures CanTraverse(RouteSegment(net, src, dst), src, e)
    ensures Traverse(RouteSegment(net, src, dst), src, src, e) == dst
  {
    var r := RouteSegment(net, src, dst);
    var c := net.comps[src].seg.connectors[e];
    assert r.comps[src] == net.comps[src];
    assert ConnectorPart(r.comps[c]).first == Some(src) && ConnectorPart(r.comps[c]).second == Some(dst);
  }

  /**
   * Model-only wiring of the connector side: tell the connector on end `d`
   * of `s` about `s` (IConnector::Connect), which the builder never does.
   */
  function Link(net: Network, s: CompId, d: Direction): (r: Network)
    requires WellFormed(net) && IsSegment(net, s) && d in net.comps[s].seg.connectors
    ensures WellFormed(r)
    ensures r.comps.Keys == net.comps.Keys
    ensures r.segments == net.segments && r.connectors == net.connectors
    ensures r.terminators == net.terminators && r.next == net.next
    ensures forall id :: IsSegment(net, id) ==> r.comps[id] == net.comps[id]
    ensures var c := net.comps[s].seg.connectors[d];
            && (net.comps[c].Junction? ==> r.comps[c] == Junction(Connectors.Connect(net.comps[c].conn, s)))
            && (net.comps[c].Term? ==> r.comps[c] == Term(Terminators.Connect(net.comps[c].term, s)))
            && forall id :: id in net.comps && id != c ==> r.comps[id] == net.comps[id]
  {
    var c := net.comps[s].seg.connectors[d];
    var k := net.comps[c];
    var updated :=
      if k.Junction? then Junction(Connectors.Connect(k.conn, s))
      else Term(Terminators.Connect(k.term, s));
    net.(comps := net.comps[c := updated])
  }

  /** End `d` of segment `id` is wired on both sides: a junction there lists `id`. */
  ghost predicate EndLinked(net: Network, id: CompId, d: Direction) {
    IsSegment(net, id) && d in net.comps[id].seg.connectors ==>
      var c := net.comps[id].seg.connectors[d];
      c in net.comps && net.comps[c].Junction? ==> id in net.comps[c].conn.available
  }

  /** Linking one end wires that end, keeps every end already wired and keeps the network closed. */
  lemma LinkProgress(net: Network, s: CompId, d: Direction)
    requires WellFormed(net) && IsSegment(net, s) && d in net.comps[s].seg.connectors
    ensures EndLinked(Link(net, s, d), s, d)
    ensures forall id, e :: EndLinked(net, id, e) ==> EndLinked(Link(net, s, d), id, e)
    ensures Closed(net) ==> Closed(Link(net, s, d))
  {
    var r := Link(net, s, d);
    var c := net.comps[s].seg.connectors[d];
    forall id, e | EndLinked(net, id, e) ensures EndLinked(r, id, e) {
      if IsSegment(r, id) && e in r.comps[id].seg.connectors {
        assert r.comps[id] == net.comps[id];
        var k := net.comps[id].seg.connectors[e];
        if k == c && net.comps[c].Junction? {
          assert r.comps[c].conn.available == net.comps[c].conn.available + {s};
        }
      }
    }
    if Closed(net) {
      forall id | IsSegment(r, id) ensures Up in r.comps[id].seg.connectors && Down in r.comps[id].seg.connectors {
        assert IsSegment(net, id);
      }
    }
  }

  /**
   * A two-segment line built the way the driver builds networks: segment 0
   * of length 10, segment 2 of length 5 beyond its Up end through the fresh
   * junction 1, and terminators 3 and 4 on the two open ends.
   */
  function Line(): (r: Network)
    ensures WellFormed(r)
  {
    LineOf(10, 5)
  }

  /** The line with segments of lengths `l1` and `l2`. */
  function LineOf(l1: nat, l2: nat): (r: Network)
    ensures WellFormed(r)
  {
    var (n1, a) := NewSegment(Empty, l1);
    AddSegmentCreates(n1, a, Up, l2);
    var (n2, b) := AddSegment(n1, a, Up, l2);
    var n3 := AddTerminator(n2, a, Down);
    assert IsSegment(n3, b);
    AddTerminator(n3, b, Up)
  }

  /** The line with the junction told about both of its segments. */
  function LinkedLine(): (r: Network)
    ensures WellFormed(r)
  {
    LineShape();
    Link(Link(Line(), 0, Up), 2, Down)
  }

  /** The shape of the line: which handle is what and where each segment end leads. */
  ghost predicate LineShaped(n: Network) {
    && n.comps.Keys == {0, 1, 2, 3, 4}
    && IsSegment(n, 0) && IsSegment(n, 2)
    && n.comps[1] == Junction(Connectors.Fresh)
    && n.comps[3].Term? && n.comps[4].Term?
    && n.comps[0].seg.connectors == map[Up := 1, Down := 3]
    && n.comps[2].seg.connectors == map[Down := 1, Up := 4]
  }

  lemma LineShape()
    ensures LineShaped(Line())
  {
    LineOfShape(10, 5);
  }

  lemma LineOfShape(l1: nat, l2: nat)
    ensures LineShaped(LineOf(l1, l2))
  {
    var (n1, a) := NewSegment(Empty, l1);
    assert a == 0 && n1.comps == map[0 := Seg(Segments.New(l1))] && n1.next == 1;
    LineJunction(n1, l1, l2);
    var (n2, b) := AddSegment(n1, a, Up, l2);
    FirstTerminator(n2, l1, l2);
    var n3 := AddTerminator(n2, a, Down);
    SecondTerminator(n3, l1, l2);
    assert LineOf(l1, l2) == AddTerminator(n3, b, Up);
  }

  /** Terminator 3 closes the Down end of segment 0. */
  lemma FirstTerminator(n2: Network, l1: nat, l2: nat)
    requires WellFormed(n2) && n2.next == 3
    requires n2.comps == map[0 := Seg(Segments.Connect(Segments.New(l1), 1, Up)), 1 := Junction(Connectors.Fresh), 2 := Seg(Segments.Connect(Segments.New(l2), 1, Down))]
    ensures var n3 := AddTerminator(n2, 0, Down);
            && WellFormed(n3) && n3.next == 4 && n3.comps.Keys == {0, 1, 2, 3}
            && n3.comps[0] == Seg(Segments.Segment(l1, map[Up := 1, Down := 3], map[]))
            && n3.comps[1] == Junction(Connectors.Fresh)
            && n3.comps[2] == Seg(Segments.Segment(l2, map[Down := 1], map[]))
            && n3.comps[3] == Term(Terminators.Fresh)
  {
    AddTerminatorComps(n2, 0, Down);
  }

  /** Terminator 4 closes the Up end of segment 2, which gives the line its shape. */
  lemma SecondTerminator(n3: Network, l1: nat, l2: nat)
    requires WellFormed(n3) && n3.next == 4 && n3.comps.Keys == {0, 1, 2, 3}
    requires n3.comps[0] == Seg(Segments.Segment(l1, map[Up := 1, Down := 3], map[]))
    requires n3.comps[1] == Junction(Connectors.Fresh)
    requires n3.comps[2] == Seg(Segments.Segment(l2, map[Down := 1], map[]))
    requires n3.comps[3] == Term(Terminators.Fresh)
    ensures LineShaped(AddTerminator(n3, 2, Up))
  {
    AddTerminatorComps(n3, 2, Up);
  }

  lemma LineJunction(n1: Network, l1: nat, l2: nat)
    requires WellFormed(n1) && n1.comps == map[0 := Seg(Segments.New(l1))] && n1.next == 1
    ensures var (n2, b) := AddSegment(n1, 0, Up, l2);
            && b == 2 && n2.next == 3
            && n2.comps == map[0 := Seg(Segments.Connect(Segments.New(l1), 1, Up)), 1 := Junction(Connectors.Fresh), 2 := Seg(Segments.Connect(Segments.New(l2), 1, Down))]
  {
    var (j, c) := NewJunction(n1, 0, Up);
    assert c == 1;
    var r := SegmentBeyond(j, c, Up, l2);
    assert AddSegment(n1, 0, Up, l2) == r;
  }

  /** AddTerminator allocates the terminator at `next` and changes nothing else but end `d` of `src`. */
  lemma AddTerminatorComps(net: Network, src: CompId, d: Direction)
    requires WellFormed(net) && IsSegment(net, src)
    ensures var r := AddTerminator(net, src, d);
            && r.next == net.next + 1
            && r.comps == net.comps[net.next := Term(Terminators.Fresh)][src := Seg(Segments.Connect(net.comps[src].seg, net.next, d))]
  {
  }

  /** Linked is EndLinked at every end. */
  lemma LinkedByEnds(net: Network)
    ensures Linked(net) <==> forall id, e :: EndLinked(net, id, e)
  {
    if Linked(net) {
      forall id, e ensures EndLinked(net, id, e) {
      }
    }
    if forall id, e :: EndLinked(net, id, e) {
      forall id, d | IsSegment(net, id) && d in net.comps[id].seg.connectors
        ensures var c := net.comps[id].seg.connectors[d];
                c in net.comps && net.comps[c].Junction? ==> id in net.comps[c].conn.available
      {
        assert EndLinked(net, id, d);
      }
    }
  }

  lemma ShapedUnlinked(n: Network)
    requires LineShaped(n)
    ensures Closed(n) && !Linked(n) && ConnectorNext(n, 1, 0) == {}
  {
    assert !EndLinked(n, 0, Up);
    LinkedByEnds(n);
    forall id | IsSegment(n, id) ensures Up in n.comps[id].seg.connectors && Down in n.comps[id].seg.connectors {
      assert id == 0 || id == 2;
    }
  }

  /** The line after linking: the same shape with the junction listing both segments. */
  ghost predicate LinkedShaped(r: Network) {
    && r.comps.Keys == {0, 1, 2, 3, 4}
    && IsSegment(r, 0) && IsSegment(r, 2)
    && r.comps[1].Junction? && r.comps[1].conn.available == {0, 2}
    && r.comps[3].Term? && r.comps[4].Term?
    && r.comps[0].seg.connectors == map[Up := 1, Down := 3]
    && r.comps[2].seg.connectors == map[Down := 1, Up := 4]
  }

  lemma LinkShape(n: Network)
    requires WellFormed(n) && LineShaped(n)
    ensures LinkedShaped(Link(Link(n, 0, Up), 2, Down))
  {
    var m := Link(n, 0, Up);
    assert m.comps[1] == Junction(Connectors.Connect(Connectors.Fresh, 0));
    assert m.comps[2] == n.comps[2] && m.comps[0] == n.comps[0];
    var r := Link(m, 2, Down);
    assert r.comps[1] == Junction(Connectors.Connect(m.comps[1].conn, 2));
    assert r.comps[0] == n.comps[0] && r.comps[2] == n.comps[2];
  }

  lemma LinkedShapeFacts(r: Network)
    requires LinkedShaped(r)
    ensures Closed(r) && Linked(r) && ConnectorNext(r, 1, 0) == {2} && ConnectorNext(r, 1, 2) == {0}
  {
    LinkedByEnds(r);
    forall id, e ensures EndLinked(r, id, e) {
      if IsSegment(r, id) && e in r.comps[id].seg.connectors {
        assert id == 0 || id == 2;
      }
    }
    forall id | IsSegment(r, id) ensures Up in r.comps[id].seg.connectors && Down in r.comps[id].seg.connectors {
      assert id == 0 || id == 2;
    }
  }

  /**
   * As built, the line is closed but not linked: the junction lists neither
   * segment, so it offers a train on segment 0 nowhere to go.
   */
  lemma BuiltLineUnlinked()
    ensures WellFormed(Line()) && Closed(Line()) && !Linked(Line())
    ensures ConnectorNext(Line(), 1, 0) == {}
  {
    LineShape();
    ShapedUnlinked(Line());
  }

  /**
   * Linking the junction's two ends makes the line linked, and the junction
   * then leads from segment 0 to segment 2 and back.
   */
  lemma LinkingReachesLinked()
    ensures WellFormed(LinkedLine()) && Closed(LinkedLine()) && Linked(LinkedLine())
    ensures ConnectorNext(LinkedLine(), 1, 0) == {2} && ConnectorNext(LinkedLine(), 1, 2) == {0}
  {
    LineShape();
    LinkShape(Line());
    LinkedShapeFacts(LinkedLine());
  }
}
