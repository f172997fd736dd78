/**
 * A train: position (component and offset), direction, destination,
 * metrics and lifecycle state (src/include/Train.h, src/Train.cpp).
 */
module Trains {
  import opened Options
  import opened RailDefinitions
  import opened RailNetwork

  datatype State = Running | Crashed | Success

  /**
   * `offset` is the zero-based distance into the current component, counted
   * in the direction of travel; `distance` and `stopped` are the metrics.
   * The name is left out.
   */
  datatype Train = Train(
    current: CompId,
    destination: Option<CompId>,
    direction: Direction,
    offset: nat,
    distance: nat,
    stopped: nat,
    state: State)

  /** A new train on `start` heading `direction`: running, at offset 0, nothing recorded, no destination. */
  function New(start: CompId, direction: Direction): (t: Train)
    ensures t.state == Running && t.offset == 0 && t.distance == 0 && t.stopped == 0
    ensures t.current == start && t.direction == direction && t.destination.None?
  {
    Train(start, None, direction, 0, 0, 0, Running)
  }

  /** Turn the train around; nothing but the direction changes. */
  function ReverseDirection(t: Train): (r: Train)
    ensures r.direction != Unknown
    ensures r.direction == Down <==> t.direction == Up
    ensures r == t.(direction := r.direction)
  {
    t.(direction := RailDefinitions.ReverseDirection(t.direction))
  }

  /** Turning around twice restores a train heading Up or Down. */
  lemma ReverseTwice(t: Train)
    requires t.direction != Unknown
    ensures ReverseDirection(ReverseDirection(t)) == t
  {
    RailDefinitions.ReverseInvolution(t.direction);
  }

  /** Set the destination; nothing else changes. */
  function SetDestination(t: Train, destination: CompId): (r: Train)
    ensures r.destination == Some(destination)
    ensures r == t.(destination := r.destination)
  {
    t.(destination := Some(destination))
  }

  /** The position invariant: on a known component, never past its end. */
  ghost predicate Placed(net: Network, t: Train) {
    t.current in net.comps && t.offset <= CompLength(net, t.current)
  }

  /** Conduct is defined: at the end of a component the traversal must be. */
  predicate CanConduct(net: Network, t: Train) {
    t.current in net.comps
    && (t.state == Running && t.offset >= CompLength(net, t.current) ==> CanTraverse(net, t.current, t.direction))
  }

  /**
   * One tick of motion. A train that is not running is left alone. Inside a
   * component it advances one unit. At the end it asks the component to
   * traverse: when that returns the current component the stop is recorded,
   * and in every case the train lands on the returned component at offset 0,
   * succeeding if that is its destination. A blocked train therefore restarts
   * its component from offset 0.
   */
  function Conduct(net: Network, t: Train): (r: Train)
    requires WellFormed(net) && CanConduct(net, t)
    ensures t.state != Running ==> r == t
    ensures t.state == Running && t.offset < CompLength(net, t.current) ==>
              r == t.(offset := t.offset + 1, distance := t.distance + 1)
    ensures t.state == Running && t.offset >= CompLength(net, t.current) ==>
              var next := Traverse(net, t.current, t.current, t.direction);
              && r.offset == 0 && r.current == next && r.distance == t.distance
              && r.stopped == (if next == t.current then t.stopped + 1 else t.stopped)
              && (r.state == Success <==> Some(next) == t.destination)
              && (r.state != Success ==> r.state == Running)
              && r.direction == t.direction && r.destination == t.destination
    ensures r.direction == t.direction && r.destination == t.destination
    ensures r.current in net.comps
    ensures Placed(net, t) ==> Placed(net, r)
  {
    if t.state != Running then t
    else if t.offset < CompLength(net, t.current) then
      t.(offset := t.offset + 1, distance := t.distance + 1)
    else
      var next := Traverse(net, t.current, t.current, t.direction);
      var stopped := if next == t.current then t.stopped + 1 else t.stopped;
      var state := if Some(next) == t.destination then Success else t.state;
      t.(current := next, offset := 0, stopped := stopped, state := state)
  }

  /** A train hit by another is crashed, whatever state it was in. */
  function NotifyCollided(t: Train): (r: Train)
    ensures r.state == Crashed
    ensures r == t.(state := Crashed)
  {
    t.(state := Crashed)
  }

  /**
   * Position on the current component counted in direction `d`: the offset
   * when `d` is the train's own direction, otherwise `length - offset + 1`.
   */
  function Location(net: Network, t: Train, d: Direction): (r: int)
    ensures Placed(net, t) ==> r >= 0
    ensures t.direction == d ==> r == t.offset
    ensures t.direction != d ==> r == CompLength(net, t.current) - t.offset + 1
  {
    if t.direction == d then t.offset else CompLength(net, t.current) - t.offset + 1
  }

  /** Both trains on one component at the same place, measured in `a`'s direction. */
  predicate Collides(net: Network, a: Train, b: Train) {
    a.current == b.current && Location(net, a, a.direction) == Location(net, b, a.direction)
  }

  /**
   * Check `a` against `b`: on a hit both are crashed and true is returned;
   * otherwise neither changes.
   */
  function CheckCollision(net: Network, a: Train, b: Train): (r: (bool, Train, Train))
    ensures r.0 <==> Collides(net, a, b)
    ensures r.0 ==> r.1 == NotifyCollided(a) && r.2 == NotifyCollided(b)
    ensures !r.0 ==> r.1 == a && r.2 == b
  {
    if Collides(net, a, b) then (true, NotifyCollided(a), NotifyCollided(b)) else (false, a, b)
  }

  /**
   * The check does not depend on whose direction it measures in: same
   * direction means equal offsets, differing directions mean offsets that
   * meet at `length + 1`.
   */
  lemma CollisionSymmetric(net: Network, a: Train, b: Train)
    ensures CheckCollision(net, a, b).0 == CheckCollision(net, b, a).0
    ensures a.current == b.current && a.direction == b.direction ==>
              (Collides(net, a, b) <==> a.offset == b.offset)
    ensures a.current == b.current && a.direction != b.direction ==>
              (Collides(net, a, b) <==> a.offset + b.offset == CompLength(net, a.current) + 1)
  {
  }

  /** A real travel direction. */
  predicate Heading(t: Train) {
    t.direction == Up || t.direction == Down
  }

  /** On a closed network a train heading Up or Down can always be conducted. */
  lemma ClosedCanConduct(net: Network, t: Train)
    requires WellFormed(net) && Closed(net) && t.current in net.comps && Heading(t)
    ensures CanConduct(net, t)
  {
  }

  /** `n` ticks of motion on a fixed network. */
  function ConductN(net: Network, t: Train, n: nat): (r: Train)
    requires WellFormed(net) && Closed(net) && t.current in net.comps && Heading(t)
    ensures r.current in net.comps && Heading(r)
    decreases n
  {
    if n == 0 then t
    else
      ClosedCanConduct(net, t);
      ConductN(net, Conduct(net, t), n - 1)
  }

  /**
   * Inside a component a running train advances one unit per tick: `n`
   * ticks that stay within the component add `n` to offset and distance
   * and change nothing else.
   */
  lemma {:induction false} AdvanceWithin(net: Network, t: Train, n: nat)
    requires WellFormed(net) && Closed(net) && t.current in net.comps && Heading(t)
    requires t.state == Running && t.offset + n <= CompLength(net, t.current)
    ensures ConductN(net, t, n) == t.(offset := t.offset + n, distance := t.distance + n)
    decreases n
  {
    if n > 0 {
      ClosedCanConduct(net, t);
      AdvanceWithin(net, Conduct(net, t), n - 1);
    }
  }
}
