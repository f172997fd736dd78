/**
 * The graph primitives: signals, connectors (junctions), segments and
 * terminators (src/include/RailComponents.h, src/RailComponents.cpp).
 * Each class is a module of immutable records; operations that mutate an
 * object in the original return the updated record here.
 */

/** A directional gate on one end of a segment. */
module Signals {
  import opened RailDefinitions

  datatype Signal = Signal(state: SignalState)

  /** A freshly constructed signal shows Disabled. */
  const Fresh: Signal := Signal(Disabled)

  function GetState(s: Signal): SignalState {
    s.state
  }

  /** Setting a state is observed by the next read. */
  function SetState(s: Signal, state: SignalState): (r: Signal)
    ensures GetState(r) == state
  {
    Signal(state)
  }

  /** Only the last write is visible. */
  lemma SetStateOverwrites(s: Signal, a: SignalState, b: SignalState)
    ensures SetState(SetState(s, a), b) == SetState(s, b)
    ensures GetState(Fresh) == Disabled
  {
  }
}

/**
 * A junction joining any number of segments. `available` is every segment
 * ever connected; (`first`, `second`) is the selected through-pair, each slot
 * possibly empty (a null pointer in the original).
 */
module Connectors {
  import opened Options
  import opened RailDefinitions

  datatype Connector = Connector(available: set<CompId>, first: Option<CompId>, second: Option<CompId>)

  /** A newly constructed connector: nothing connected, nothing selected. */
  const Fresh: Connector := Connector({}, None, None)

  /** Connectors have no extent. */
  const Length: nat := 0

  /** `s` occupies one of the two selection slots. */
  predicate Selected(c: Connector, s: CompId) {
    c.first == Some(s) || c.second == Some(s)
  }

  /** The selection only names connected segments. */
  predicate SelectionAvailable(c: Connector) {
    (c.first.Some? ==> c.first.value in c.available)
    && (c.second.Some? ==> c.second.value in c.available)
  }

  /**
   * Passing through the junction from `src`: the partner in the selected
   * pair when there is one, otherwise `src` itself (a switching fault, which
   * the original reports only by printing and returns like a red signal).
   */
  function Traverse(c: Connector, src: CompId): (r: CompId)
    ensures r == src || Selected(c, r)
    ensures r != src ==> Selected(c, src)
    ensures c.first == Some(src) && c.second.Some? ==> r == c.second.value
    ensures c.first != Some(src) && c.second == Some(src) && c.first.Some? ==> r == c.first.value
    ensures !Selected(c, src) ==> r == src
  {
    var target :=
      if c.first == Some(src) then c.second
      else if c.second == Some(src) then c.first
      else None;
    if target.None? then src else target.value
  }

  /** Crossing back from where a traversal led returns to its source. */
  lemma TraverseReverses(c: Connector, src: CompId)
    requires Traverse(c, src) != src
    ensures Traverse(c, Traverse(c, src)) == src
  {
  }

  /**
   * The segments reachable from `src` ignoring the selection: every other
   * connected segment, or nothing when `src` itself is not connected here.
   */
  function GetNext(c: Connector, src: CompId): (r: set<CompId>)
    ensures src !in r
    ensures r <= c.available
    ensures src in c.available ==> c.available == r + {src}
    ensures src !in c.available ==> r == {}
  {
    if src !in c.available then {} else c.available - {src}
  }

  /**
   * Connecting a segment adds it to the available set and drops it into the
   * first empty selection slot, never displacing a selected segment.
   */
  function Connect(c: Connector, t: CompId): (r: Connector)
    ensures r.available == c.available + {t}
    ensures c.first.Some? ==> r.first == c.first
    ensures c.second.Some? ==> r.second == c.second
    ensures c.first.None? ==> r.first == Some(t) && r.second == c.second
    ensures c.first.Some? && c.second.None? ==> r.second == Some(t)
    ensures SelectionAvailable(c) ==> SelectionAvailable(r)
  {
    var sel :=
      if c.first.None? then (Some(t), c.second)
      else if c.second.None? then (c.first, Some(t))
      else (c.first, c.second);
    Connector(c.available + {t}, sel.0, sel.1)
  }

  /** Re-connecting a segment leaves the available set as one connection did. */
  lemma ConnectIdempotentOnAvailable(c: Connector, t: CompId)
    ensures Connect(Connect(c, t), t).available == Connect(c, t).available
    ensures t in c.available ==> Connect(c, t).available == c.available
  {
  }

  /** Select switches only between two connected segments. */
  predicate Accepts(c: Connector, s1: CompId, s2: CompId) {
    s1 in c.available && s2 in c.available
  }

  /**
   * Switch the junction to the pair (`s1`, `s2`) when both are connected;
   * otherwise leave it as it is. The original returns nothing; whether the
   * switch happened is `Accepts`.
   */
  function Select(c: Connector, s1: CompId, s2: CompId): (r: Connector)
    ensures r.available == c.available
    ensures Accepts(c, s1, s2) ==> r.first == Some(s1) && r.second == Some(s2)
    ensures !Accepts(c, s1, s2) ==> r == c
    ensures SelectionAvailable(c) ==> SelectionAvailable(r)
  {
    if s1 !in c.available || s2 !in c.available then c
    else Connector(c.available, Some(s1), Some(s2))
  }

  /** After an accepted switch, a train passes between the two segments. */
  lemma SelectThenTraverse(c: Connector, s1: CompId, s2: CompId)
    requires Accepts(c, s1, s2)
    ensures Traverse(Select(c, s1, s2), s1) == s2
    ensures Traverse(Select(c, s1, s2), s2) == s1
  {
  }

  /** A fresh connector offers no next segment and lets nothing through. */
  lemma FreshIsClosed(src: CompId)
    ensures GetNext(Fresh, src) == {}
    ensures Traverse(Fresh, src) == src
    ensures !Accepts(Fresh, src, src)
  {
  }
}

/**
 * A length of track: its two ends may each lead to a connector and may each
 * carry a signal.
 */
module Segments {
  import opened Options
  import opened RailDefinitions
  import Signals

  datatype Segment = Segment(length: nat, connectors: map<Direction, CompId>, signals: map<Direction, Signals.Signal>)

  /** A new segment of the given length with nothing attached. */
  function New(length: nat): (s: Segment)
    ensures s.length == length
    ensures forall d :: GetNext(s, d).None? && GetSignalState(s, d) == Disabled
  {
    Segment(length, map[], map[])
  }

  /** The aspect on end `d`; Disabled when no signal is installed there. */
  function GetSignalState(s: Segment, d: Direction): (r: SignalState)
    ensures d !in s.signals ==> r == Disabled
  {
    if d !in s.signals then Disabled else Signals.GetState(s.signals[d])
  }

  /** Install a signal on end `d`; it starts Red. Other ends are untouched. */
  function AddSignal(s: Segment, d: Direction): (r: Segment)
    ensures GetSignalState(r, d) == Red
    ensures d in r.signals
    ensures forall e :: e != d ==> GetSignalState(r, e) == GetSignalState(s, e)
    ensures r.length == s.length && r.connectors == s.connectors
  {
    var sig := Signals.SetState(Signals.Fresh, Red);
    s.(signals := s.signals[d := sig])
  }

  /** Change an installed signal; an end without a signal is left alone. */
  function SetSignalState(s: Segment, state: SignalState, d: Direction): (r: Segment)
    ensures d !in s.signals ==> r == s
    ensures d in s.signals ==> GetSignalState(r, d) == state
    ensures forall e :: e != d ==> GetSignalState(r, e) == GetSignalState(s, e)
    ensures r.signals.Keys == s.signals.Keys
    ensures r.length == s.length && r.connectors == s.connectors
  {
    if d !in s.signals then s
    else s.(signals := s.signals[d := Signals.SetState(s.signals[d], state)])
  }

  /** The connector on end `d`, or None when that end is unconnected. */
  function GetNext(s: Segment, d: Direction): (r: Option<CompId>)
    ensures r.Some? <==> d in s.connectors
    ensures r.Some? ==> r.value == s.connectors[d]
  {
    if d in s.connectors then Some(s.connectors[d]) else None
  }

  /** Link end `d` to `target`, replacing any earlier link on that end. */
  function Connect(s: Segment, target: CompId, d: Direction): (r: Segment)
    ensures GetNext(r, d) == Some(target)
    ensures forall e :: e != d ==> GetNext(r, e) == GetNext(s, e)
    ensures r.length == s.length && r.signals == s.signals
  {
    s.(connectors := s.connectors[d := target])
  }
}

/**
 * The end of the line: a connector bound to one segment. It keeps the
 * connector part it inherits (`base`); its own Connect never fills that
 * part, so the inherited GetNext and Select see an empty available set.
 */
module Terminators {
  import opened Options
  import opened RailDefinitions
  import Connectors

  datatype Terminator = Terminator(base: Connectors.Connector, bound: Option<CompId>)

  const Fresh: Terminator := Terminator(Connectors.Fresh, None)

  /** Bind the first segment offered; later offers are ignored. */
  function Connect(t: Terminator, target: CompId): (r: Terminator)
    ensures r.bound.Some?
    ensures t.bound.Some? ==> r == t
    ensures t.bound.None? ==> r.bound == Some(target)
    ensures r.base == t.base
  {
    if t.bound.Some? then t else t.(bound := Some(target))
  }

  /**
   * Entering the terminator `self` from `src`: the terminator itself when
   * `src` is the bound segment, otherwise `src` (refused).
   */
  function Traverse(t: Terminator, self: CompId, src: CompId): (r: CompId)
    ensures r == self || r == src
    ensures t.bound == Some(src) ==> r == self
    ensures t.bound != Some(src) ==> r == src
  {
    if t.bound != Some(src) then src else self
  }

  /** Only the first binding counts, and it is the one entry accepted. */
  lemma FirstBindingWins(self: CompId, a: CompId, b: CompId, other: CompId)
    requires other != a && other != self
    ensures Connect(Connect(Fresh, a), b).bound == Some(a)
    ensures Traverse(Connect(Connect(Fresh, a), b), self, a) == self
    ensures Traverse(Connect(Connect(Fresh, a), b), self, other) == other
  {
  }
}
