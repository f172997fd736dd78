/**
 * The simulation (src/TrainSimulator.cpp): each tick the traffic
 * controller routes the network, every running train is conducted one step
 * and checked for collisions, and trains that are no longer running move to
 * the finished list.
 */
module Simulator {
  import opened Options
  import opened RailDefinitions
  import opened RailNetwork
  import opened PathGraph
  import opened Trains
  import opened TrafficController

  /** No train is listed twice. */
  predicate NoDuplicates(ids: seq<TrainId>) {
    forall i, j :: 0 <= i < j < |ids| ==> ids[i] != ids[j]
  }

  /** Every listed train is known, sits on a component of `net` and heads Up or Down. */
  ghost predicate TrainsOk(net: Network, trains: map<TrainId, Train>, ids: seq<TrainId>) {
    forall i :: 0 <= i < |ids| ==> ids[i] in trains && trains[ids[i]].current in net.comps && Heading(trains[ids[i]])
  }

  /** The simulator: the network, the trains by identity, the running and finished lists, and the controller's cache. */
  datatype Sim = Sim(
    net: Network,
    trains: map<TrainId, Train>,
    running: seq<TrainId>,
    finished: seq<TrainId>,
    cache: map<TrainId, Path>)

  /** A simulation that can be ticked: a closed network, placed trains, each train on one list at most once. */
  ghost predicate SimOk(s: Sim) {
    && WellFormed(s.net) && Closed(s.net) && CacheOk(s.net, s.cache)
    && TrainsOk(s.net, s.trains, s.running)
    && (forall i :: 0 <= i < |s.finished| ==> s.finished[i] in s.trains)
    && NoDuplicates(s.running + s.finished)
  }

  /** `other` is another train that train `id` has hit. */
  predicate Hits(net: Network, trains: map<TrainId, Train>, id: TrainId, other: TrainId)
    requires id in trains && other in trains
  {
    other != id && Collides(net, trains[id], trains[other])
  }

  /** Both trains crashed, nothing else changed. */
  function Crash(trains: map<TrainId, Train>, a: TrainId, b: TrainId): map<TrainId, Train>
    requires a in trains && b in trains
  {
    trains[a := NotifyCollided(trains[a])][b := NotifyCollided(trains[b])]
  }

  /**
   * Check train `id` against the running trains from position `from` on,
   * stopping at the first other train it hits: both are crashed and true is
   * returned. Trains already finished this tick are still checked.
   */
  function CheckTrainCollision(net: Network, trains: map<TrainId, Train>, running: seq<TrainId>, id: TrainId, from: nat)
    : (r: (bool, map<TrainId, Train>))
    requires id in trains && forall i :: 0 <= i < |running| ==> running[i] in trains
    ensures r.0 <==> exists i :: from <= i < |running| && Hits(net, trains, id, running[i])
    ensures r.0 ==> exists i :: from <= i < |running| && Hits(net, trains, id, running[i])
                               && (forall j :: from <= j < i ==> !Hits(net, trains, id, running[j]))
                               && r.1 == Crash(trains, id, running[i])
    ensures !r.0 ==> r.1 == trains
    decreases |running| - from
  {
    if from >= |running| then (false, trains)
    else
      var other := running[from];
      var hit := if other != id then CheckCollision(net, trains[id], trains[other]) else (false, trains[id], trains[other]);
      if hit.0 then (true, trains[id := hit.1][other := hit.2])
      else CheckTrainCollision(net, trains, running, id, from + 1)
  }

  /** `b` is `a`, or `a` crashed: a collision scan's only effect on a train. */
  predicate CrashedAtMost(a: Train, b: Train) {
    b == a || b == NotifyCollided(a)
  }

  /**
   * `b` is what train `a` can be after its turn in a pass: conducted, then
   * possibly crashed by a later scan; or crashed by an earlier scan before
   * its turn, so that its own Conduct left it where it was.
   */
  ghost predicate TookTurn(net: Network, a: Train, b: Train) {
    && WellFormed(net) && CanConduct(net, a)
    && (b == Conduct(net, a) || b == NotifyCollided(Conduct(net, a)) || b == NotifyCollided(a))
  }

  /** Motion keeps direction and destination and never decreases the metrics; a stopped train stays stopped. */
  predicate Moved(a: Train, b: Train) {
    && a.direction == b.direction && a.destination == b.destination
    && a.distance <= b.distance && a.stopped <= b.stopped
    && (a.state != Running ==> b.state != Running)
  }

  /**
   * Every train that crashed between `before` and `after` shares its
   * component with another crashed train of the running list: a collision
   * scan only crashes a pair of distinct trains on one component.
   */
  ghost predicate CrashesPaired(before: map<TrainId, Train>, after: map<TrainId, Train>, running: seq<TrainId>) {
    forall x :: x in before && x in after && after[x].state == Crashed && before[x].state != Crashed ==>
      exists j :: 0 <= j < |running| && running[j] != x && running[j] in after
                  && after[running[j]].state == Crashed && after[running[j]].current == after[x].current
  }

  /**
   * Conduct the running trains from position `from` on, in order, each
   * followed by its collision check.
   */
  function ConductPass(net: Network, trains: map<TrainId, Train>, running: seq<TrainId>, from: nat): (r: map<TrainId, Train>)
    requires WellFormed(net) && Closed(net) && TrainsOk(net, trains, running) && from <= |running|
    ensures r.Keys == trains.Keys && TrainsOk(net, r, running)
    ensures forall x :: x in trains ==> Moved(trains[x], r[x])
    ensures forall x :: x in trains && x !in running[from..] ==> CrashedAtMost(trains[x], r[x])
    ensures forall x :: x in trains && x !in running ==> r[x] == trains[x]
    ensures NoDuplicates(running) ==>
              forall i :: from <= i < |running| ==> TookTurn(net, trains[running[i]], r[running[i]])
    ensures forall x :: x in trains && trains[x].state == Crashed ==> r[x] == trains[x]
    ensures CrashesPaired(trains, r, running)
    decreases |running| - from
  {
    if from == |running| then trains
    else
      var id := running[from];
      ClosedCanConduct(net, trains[id]);
      StepMoved(net, trains[id]);
      var moved := trains[id := Conduct(net, trains[id])];
      var checked := CheckTrainCollision(net, moved, running, id, 0).1;
      CollisionOnlyCrashes(net, moved, running, id, 0);
      PassFacts(net, trains, running, from, Conduct(net, trains[id]), moved, checked);
      var r := ConductPass(net, checked, running, from + 1);
      PassCompose(trains, checked, r, running, from);
      TurnCompose(net, trains, running, from, Conduct(net, trains[id]), checked, r);
      ConductKeepsCrash(net, trains[id]);
      ScanPairs(net, moved, running, id);
      CrashStep(trains, running, from, Conduct(net, trains[id]), checked, r);
      r
  }

  /** A scan leaves the trains alone or crashes one pair of distinct trains on one component. */
  ghost predicate ScanOutcome(moved: map<TrainId, Train>, running: seq<TrainId>, id: TrainId, checked: map<TrainId, Train>)
    requires id in moved && forall i :: 0 <= i < |running| ==> running[i] in moved
  {
    || checked == moved
    || exists i :: 0 <= i < |running| && running[i] != id && moved[id].current == moved[running[i]].current
                   && checked == Crash(moved, id, running[i])
  }

  lemma ScanPairs(net: Network, moved: map<TrainId, Train>, running: seq<TrainId>, id: TrainId)
    requires id in moved && forall i :: 0 <= i < |running| ==> running[i] in moved
    ensures ScanOutcome(moved, running, id, CheckTrainCollision(net, moved, running, id, 0).1)
  {
  }

  /** Conduct neither crashes a train nor touches a crashed one. */
  lemma ConductKeepsCrash(net: Network, t: Train)
    requires WellFormed(net) && CanConduct(net, t)
    ensures Conduct(net, t).state == Crashed <==> t.state == Crashed
    ensures t.state == Crashed ==> Conduct(net, t) == t
  {
  }

  /** Crashes of one train's turn come in pairs, and so do the rest of the pass's. */
  lemma CrashStep(trains: map<TrainId, Train>, running: seq<TrainId>, from: nat, t: Train,
                  checked: map<TrainId, Train>, r: map<TrainId, Train>)
    requires from < |running| && forall i :: 0 <= i < |running| ==> running[i] in trains
    requires t.state == Crashed <==> trains[running[from]].state == Crashed
    requires trains[running[from]].state == Crashed ==> t == trains[running[from]]
    requires ScanOutcome(trains[running[from] := t], running, running[from], checked)
    requires r.Keys == checked.Keys
    requires forall x :: x in checked && checked[x].state == Crashed ==> r[x] == checked[x]
    requires CrashesPaired(checked, r, running)
    ensures forall x :: x in trains && trains[x].state == Crashed ==> r[x] == trains[x]
    ensures CrashesPaired(trains, r, running)
  {
    var id := running[from];
    var moved := trains[id := t];
    if checked != moved {
      var i :| 0 <= i < |running| && running[i] != id && moved[id].current == moved[running[i]].current
               && checked == Crash(moved, id, running[i]);
      CrashPairStep(trains, moved, running, from, i, r);
    }
  }

  /** The pair one scan crashed: each is the other's partner on their shared component. */
  lemma CrashPairStep(trains: map<TrainId, Train>, moved: map<TrainId, Train>, running: seq<TrainId>,
                      from: nat, i: nat, r: map<TrainId, Train>)
    requires from < |running| && i < |running| && running[i] != running[from]
    requires moved.Keys == trains.Keys && running[from] in moved && running[i] in moved
    requires moved[running[from]].current == moved[running[i]].current
    requires forall x :: x in trains ==> (moved[x].state == Crashed <==> trains[x].state == Crashed)
    requires forall x :: x in trains && trains[x].state == Crashed ==> moved[x] == trains[x]
    requires var checked := Crash(moved, running[from], running[i]);
             && r.Keys == checked.Keys
             && (forall x :: x in checked && checked[x].state == Crashed ==> r[x] == checked[x])
             && CrashesPaired(checked, r, running)
    ensures forall x :: x in trains && trains[x].state == Crashed ==> r[x] == trains[x]
    ensures CrashesPaired(trains, r, running)
  {
    var id, other := running[from], running[i];
    var checked := Crash(moved, id, other);
    assert checked[id] == NotifyCollided(moved[id]) && checked[other] == NotifyCollided(moved[other]);
    assert forall x :: x in moved && x != id && x != other ==> checked[x] == moved[x];
    assert r[id] == checked[id] && r[other] == checked[other];
    forall x | x in trains && x in r && r[x].state == Crashed && trains[x].state != Crashed
      ensures exists j :: 0 <= j < |running| && running[j] != x && running[j] in r
                          && r[running[j]].state == Crashed && r[running[j]].current == r[x].current
    {
      if x == id {
        assert running[i] != x && r[running[i]].current == r[x].current;
      } else if x == other {
        assert running[from] != x && r[running[from]].current == r[x].current;
      } else {
        assert checked[x] == moved[x];
      }
    }
  }

  /** A train alone on the running list never crashes: a scan needs another train to hit. */
  lemma LoneTrainUnhurt(net: Network, trains: map<TrainId, Train>, id: TrainId)
    requires WellFormed(net) && Closed(net) && TrainsOk(net, trains, [id])
    ensures ConductPass(net, trains, [id], 0)[id] == Conduct(net, trains[id])
  {
    var r := ConductPass(net, trains, [id], 0);
    assert TookTurn(net, trains[[id][0]], r[[id][0]]);
  }

  /** One train's step keeps it placed, and moving or crashing it is motion. */
  lemma StepMoved(net: Network, t: Train)
    requires WellFormed(net) && CanConduct(net, t) && Heading(t)
    ensures var r := Conduct(net, t);
            && r.current in net.comps && Heading(r) && Moved(t, r) && Moved(t, NotifyCollided(r))
  {
  }

  /** Conducting train `running[from]` and checking it for collisions. */
  lemma PassFacts(net: Network, trains: map<TrainId, Train>, running: seq<TrainId>, from: nat,
                  t: Train, moved: map<TrainId, Train>, checked: map<TrainId, Train>)
    requires TrainsOk(net, trains, running) && from < |running|
    requires t.current in net.comps && Heading(t)
    requires Moved(trains[running[from]], t) && Moved(trains[running[from]], NotifyCollided(t))
    requires moved == trains[running[from] := t]
    requires checked.Keys == moved.Keys
    requires forall x :: x in moved ==> checked[x] == moved[x] || checked[x] == NotifyCollided(moved[x])
    requires forall x :: x in moved && x != running[from] && x !in running ==> checked[x] == moved[x]
    ensures checked.Keys == trains.Keys && TrainsOk(net, checked, running)
    ensures forall x :: x in trains ==> Moved(trains[x], checked[x])
    ensures forall x :: x in trains && x != running[from] ==> CrashedAtMost(trains[x], checked[x])
    ensures forall x :: x in trains && x !in running ==> checked[x] == trains[x]
    ensures checked[running[from]] == t || checked[running[from]] == NotifyCollided(t)
  {
    var id := running[from];
    forall x | x in trains ensures Moved(trains[x], checked[x]) && CrashedAtMost(moved[x], checked[x]) {
      if x == id {
        assert moved[x] == t;
      } else {
        assert moved[x] == trains[x];
      }
    }
    forall i | 0 <= i < |running| ensures checked[running[i]].current in net.comps && Heading(checked[running[i]]) {
      assert CrashedAtMost(moved[running[i]], checked[running[i]]);
    }
  }

  /** The first train's step followed by the rest of the pass. */
  lemma PassCompose(trains: map<TrainId, Train>, checked: map<TrainId, Train>, r: map<TrainId, Train>,
                    running: seq<TrainId>, from: nat)
    requires from < |running|
    requires checked.Keys == trains.Keys && r.Keys == checked.Keys
    requires forall x :: x in trains ==> Moved(trains[x], checked[x])
    requires forall x :: x in trains && x != running[from] ==> CrashedAtMost(trains[x], checked[x])
    requires forall x :: x in trains && x !in running ==> checked[x] == trains[x]
    requires forall x :: x in checked ==> Moved(checked[x], r[x])
    requires forall x :: x in checked && x !in running[from + 1..] ==> CrashedAtMost(checked[x], r[x])
    requires forall x :: x in checked && x !in running ==> r[x] == checked[x]
    ensures forall x :: x in trains ==> Moved(trains[x], r[x])
    ensures forall x :: x in trains && x !in running[from..] ==> CrashedAtMost(trains[x], r[x])
    ensures forall x :: x in trains && x !in running ==> r[x] == trains[x]
  {
    forall x | x in trains && x !in running[from..] ensures CrashedAtMost(trains[x], r[x]) {
      assert running[from] in running[from..];
      assert forall y :: y in running[from + 1..] ==> y in running[from..];
    }
  }

  /** Each train from `from` on took its turn: the first just now, the rest in the remaining pass. */
  lemma TurnCompose(net: Network, trains: map<TrainId, Train>, running: seq<TrainId>, from: nat,
                    t: Train, checked: map<TrainId, Train>, r: map<TrainId, Train>)
    requires WellFormed(net) && Closed(net) && TrainsOk(net, trains, running) && from < |running|
    requires CanConduct(net, trains[running[from]]) && t == Conduct(net, trains[running[from]])
    requires checked.Keys == trains.Keys && r.Keys == checked.Keys
    requires checked[running[from]] == t || checked[running[from]] == NotifyCollided(t)
    requires forall x :: x in trains && x != running[from] ==> CrashedAtMost(trains[x], checked[x])
    requires forall x :: x in checked && x !in running[from + 1..] ==> CrashedAtMost(checked[x], r[x])
    requires NoDuplicates(running) ==>
               forall i :: from + 1 <= i < |running| ==> TookTurn(net, checked[running[i]], r[running[i]])
    ensures NoDuplicates(running) ==>
              forall i :: from <= i < |running| ==> TookTurn(net, trains[running[i]], r[running[i]])
  {
    if NoDuplicates(running) {
      var id := running[from];
      forall i | from <= i < |running| ensures TookTurn(net, trains[running[i]], r[running[i]]) {
        var x := running[i];
        ClosedCanConduct(net, trains[x]);
        if i == from {
          assert x !in running[from + 1..] by {
            forall j | from + 1 <= j < |running| ensures running[j] != x {
            }
          }
        } else {
          assert x != id;
        }
      }
    }
  }

  /** A collision check changes nothing but the states of the checked train and one running train. */
  lemma {:induction false} CollisionOnlyCrashes(net: Network, trains: map<TrainId, Train>, running: seq<TrainId>,
                                                id: TrainId, from: nat)
    requires id in trains && forall i :: 0 <= i < |running| ==> running[i] in trains
    ensures var r := CheckTrainCollision(net, trains, running, id, from).1;
            && r.Keys == trains.Keys
            && (forall x :: x in trains ==> r[x] == trains[x] || r[x] == NotifyCollided(trains[x]))
            && (forall x :: x in trains && x != id && x !in running ==> r[x] == trains[x])
    decreases |running| - from
  {
    if from < |running| && !(running[from] != id && Collides(net, trains[id], trains[running[from]])) {
      CollisionOnlyCrashes(net, trains, running, id, from + 1);
    }
  }

  /** The trains of `ids` that are still running, in order. */
  ghost function StillRunning(trains: map<TrainId, Train>, ids: seq<TrainId>): (r: seq<TrainId>)
    requires forall i :: 0 <= i < |ids| ==> ids[i] in trains
    ensures forall x :: x in r ==> x in trains && trains[x].state == Running
  {
    if |ids| == 0 then []
    else (if trains[ids[0]].state == Running then [ids[0]] else []) + StillRunning(trains, ids[1..])
  }

  /** The trains of `ids` that have crashed or succeeded, in order. */
  ghost function Stopped(trains: map<TrainId, Train>, ids: seq<TrainId>): (r: seq<TrainId>)
    requires forall i :: 0 <= i < |ids| ==> ids[i] in trains
    ensures forall x :: x in r ==> x in trains && trains[x].state != Running
  {
    if |ids| == 0 then []
    else (if trains[ids[0]].state != Running then [ids[0]] else []) + Stopped(trains, ids[1..])
  }

  /** Splitting a list into running and stopped trains loses and adds nothing. */
  lemma {:induction false} SplitFacts(trains: map<TrainId, Train>, ids: seq<TrainId>)
    requires forall i :: 0 <= i < |ids| ==> ids[i] in trains
    ensures multiset(StillRunning(trains, ids)) + multiset(Stopped(trains, ids)) == multiset(ids)
    decreases |ids|
  {
    if |ids| > 0 {
      SplitFacts(trains, ids[1..]);
      assert ids == [ids[0]] + ids[1..];
      assert multiset(ids) == multiset{ids[0]} + multiset(ids[1..]);
    }
  }

  /** Both parts of the split come from the list split. */
  lemma {:induction false} SplitSubset(trains: map<TrainId, Train>, ids: seq<TrainId>)
    requires forall i :: 0 <= i < |ids| ==> ids[i] in trains
    ensures forall x :: x in StillRunning(trains, ids) ==> x in ids
    ensures forall x :: x in Stopped(trains, ids) ==> x in ids
    decreases |ids|
  {
    if |ids| > 0 {
      SplitSubset(trains, ids[1..]);
    }
  }

  lemma {:induction false} RunningSnoc(trains: map<TrainId, Train>, ids: seq<TrainId>, x: TrainId)
    requires forall i :: 0 <= i < |ids| ==> ids[i] in trains
    requires x in trains
    ensures StillRunning(trains, ids + [x]) == StillRunning(trains, ids) + (if trains[x].state == Running then [x] else [])
    decreases |ids|
  {
    if |ids| > 0 {
      assert (ids + [x])[1..] == ids[1..] + [x];
      RunningSnoc(trains, ids[1..], x);
    } else {
      assert ids + [x] == [x];
    }
  }

  lemma {:induction false} StoppedSnoc(trains: map<TrainId, Train>, ids: seq<TrainId>, x: TrainId)
    requires forall i :: 0 <= i < |ids| ==> ids[i] in trains
    requires x in trains
    ensures Stopped(trains, ids + [x]) == Stopped(trains, ids) + (if trains[x].state != Running then [x] else [])
    decreases |ids|
  {
    if |ids| > 0 {
      assert (ids + [x])[1..] == ids[1..] + [x];
      StoppedSnoc(trains, ids[1..], x);
    } else {
      assert ids + [x] == [x];
    }
  }

  /**
   * Move every train that is not running from the running list to the end
   * of the finished list, keeping the order of both.
   */
  method RemoveFinished(trains: map<TrainId, Train>, running: seq<TrainId>, finished: seq<TrainId>)
    returns (running': seq<TrainId>, finished': seq<TrainId>)
    requires forall i :: 0 <= i < |running| ==> running[i] in trains
    ensures running' == StillRunning(trains, running)
    ensures finished' == finished + Stopped(trains, running)
    ensures forall i :: 0 <= i < |running'| ==> running'[i] in trains && trains[running'[i]].state == Running
    ensures forall i :: |finished| <= i < |finished'| ==> finished'[i] in trains && trains[finished'[i]].state != Running
    ensures multiset(running') + multiset(finished') == multiset(running) + multiset(finished)
  {
    running' := [];
    finished' := finished;
    var i := 0;
    while i < |running|
      invariant 0 <= i <= |running|
      invariant forall j :: 0 <= j < i ==> running[..i][j] in trains
      invariant running' == StillRunning(trains, running[..i])
      invariant finished' == finished + Stopped(trains, running[..i])
    {
      RunningSnoc(trains, running[..i], running[i]);
      StoppedSnoc(trains, running[..i], running[i]);
      assert running[..i + 1] == running[..i] + [running[i]];
      if trains[running[i]].state != Running {
        finished' := finished' + [running[i]];
      } else {
        running' := running' + [running[i]];
      }
      i := i + 1;
    }
    assert running[..i] == running;
    SplitOutcome(trains, running, finished);
  }

  /** What the split promises about the two lists it produces. */
  lemma SplitOutcome(trains: map<TrainId, Train>, running: seq<TrainId>, finished: seq<TrainId>)
    requires forall i :: 0 <= i < |running| ==> running[i] in trains
    ensures var running', finished' := StillRunning(trains, running), finished + Stopped(trains, running);
            && (forall i :: 0 <= i < |running'| ==> running'[i] in trains && trains[running'[i]].state == Running)
            && (forall i :: |finished| <= i < |finished'| ==> finished'[i] in trains && trains[finished'[i]].state != Running)
            && multiset(running') + multiset(finished') == multiset(running) + multiset(finished)
  {
    SplitFacts(trains, running);
    var stopped := Stopped(trains, running);
    forall i | |finished| <= i < |finished| + |stopped| ensures (finished + stopped)[i] in stopped {
      assert (finished + stopped)[i] == stopped[i - |finished|];
    }
  }

  lemma {:induction false} DistinctCounts(a: seq<TrainId>)
    requires NoDuplicates(a)
    ensures forall x :: multiset(a)[x] <= 1
    decreases |a|
  {
    if |a| > 0 {
      assert NoDuplicates(a[1..]) by {
        forall i, j | 0 <= i < j < |a[1..]| ensures a[1..][i] != a[1..][j] {
          assert a[1..][i] == a[i + 1] && a[1..][j] == a[j + 1];
        }
      }
      DistinctCounts(a[1..]);
      assert a == [a[0]] + a[1..];
      assert a[0] !in a[1..];
    }
  }

  lemma RepeatCounts(b: seq<TrainId>, i: nat, j: nat)
    requires i < j < |b| && b[i] == b[j]
    ensures multiset(b)[b[i]] >= 2
  {
    assert b == b[..j] + [b[j]] + b[j + 1..];
    assert b[i] in b[..j];
  }

  /** Rearranging a list without duplicates gives none. */
  lemma SameTrainsDistinct(a: seq<TrainId>, b: seq<TrainId>)
    requires NoDuplicates(a) && multiset(a) == multiset(b)
    ensures NoDuplicates(b)
  {
    DistinctCounts(a);
    forall i, j | 0 <= i < j < |b| ensures b[i] != b[j] {
      if b[i] == b[j] {
        RepeatCounts(b, i, j);
      }
    }
  }

  lemma DisjointLists(a: seq<TrainId>, b: seq<TrainId>)
    requires NoDuplicates(a + b)
    ensures forall x :: x in b ==> x !in a
  {
    forall i, j | 0 <= i < |a| && 0 <= j < |b| ensures a[i] != b[j] {
      assert (a + b)[i] == a[i] && (a + b)[|a| + j] == b[j];
    }
  }

  /**
   * Whatever happens over any number of ticks: the same trains on a network
   * of the same topology, trains leave the running list only for the end of
   * the finished list, a finished train's record is final, motion only
   * accumulates, and cached paths stay.
   */
  ghost predicate Later(s: Sim, s': Sim) {
    && s'.trains.Keys == s.trains.Keys
    && SameTopology(s.net, s'.net)
    && s.finished <= s'.finished
    && multiset(s'.running) + multiset(s'.finished) == multiset(s.running) + multiset(s.finished)
    && (forall i :: 0 <= i < |s.finished| && s.finished[i] in s.trains ==> s'.trains[s.finished[i]] == s.trains[s.finished[i]])
    && (forall x :: x in s.trains ==> Moved(s.trains[x], s'.trains[x]))
    && Extends(s.cache, s'.cache)
  }

  lemma LaterTransitive(a: Sim, b: Sim, c: Sim)
    requires Later(a, b) && Later(b, c)
    ensures Later(a, c)
  {
    SameTopologyTransitive(a.net, b.net, c.net);
    forall i | 0 <= i < |a.finished| && a.finished[i] in a.trains
      ensures c.trains[a.finished[i]] == a.trains[a.finished[i]]
    {
      assert a.finished[i] == b.finished[i];
    }
  }

  /**
   * One tick from `s` to `s'`: the running trains are moved and then split,
   * in order, into those still running and those appended to the finished
   * list.
   */
  ghost predicate Ticked(s: Sim, s': Sim) {
    && Later(s, s')
    && (forall i :: 0 <= i < |s.running| ==> s.running[i] in s'.trains)
    && (forall x :: x in s.trains && x !in s.running ==> s'.trains[x] == s.trains[x])
    && s'.running == StillRunning(s'.trains, s.running)
    && s'.finished == s.finished + Stopped(s'.trains, s.running)
  }

  /** What the controller pass gives the rest of the tick. */
  lemma ControlledNetwork(s: Sim, u: Update, served: nat, nets: seq<Network>)
    requires SimOk(s)
    requires |nets| == served + 1 && u.net == nets[served]
    requires PassInv(s.net, s.cache, s.trains, s.running, served, nets, u.cache, u.routed.Some?)
    ensures WellFormed(u.net) && Closed(u.net) && SameTopology(s.net, u.net) && CacheOk(u.net, u.cache)
    ensures TrainsOk(u.net, s.trains, s.running) && Extends(s.cache, u.cache)
  {
    SameTopologyPreserves(s.net, u.net);
  }

  lemma SplitDistinct(before: seq<TrainId>, running: seq<TrainId>, finished: seq<TrainId>)
    requires NoDuplicates(before) && multiset(running) + multiset(finished) == multiset(before)
    ensures NoDuplicates(running + finished)
  {
    assert multiset(running + finished) == multiset(before);
    SameTrainsDistinct(before, running + finished);
  }

  /** The lists after a split are well formed. */
  lemma SplitListsOk(s: Sim, net: Network, trains: map<TrainId, Train>, running: seq<TrainId>, finished: seq<TrainId>)
    requires NoDuplicates(s.running + s.finished) && (forall i :: 0 <= i < |s.finished| ==> s.finished[i] in trains)
    requires TrainsOk(net, trains, s.running)
    requires running == StillRunning(trains, s.running) && finished == s.finished + Stopped(trains, s.running)
    requires multiset(running) + multiset(finished) == multiset(s.running + s.finished)
    ensures NoDuplicates(running + finished) && TrainsOk(net, trains, running)
    ensures forall i :: 0 <= i < |finished| ==> finished[i] in trains
  {
    SplitDistinct(s.running + s.finished, running, finished);
    SplitSubset(trains, s.running);
    forall i | 0 <= i < |running| ensures running[i] in trains && trains[running[i]].current in net.comps && Heading(trains[running[i]]) {
      assert running[i] in s.running;
      var k :| 0 <= k < |s.running| && s.running[k] == running[i];
    }
    forall i | 0 <= i < |finished| ensures finished[i] in trains {
      if i >= |s.finished| {
        assert finished[i] == Stopped(trains, s.running)[i - |s.finished|];
      }
    }
  }

  /** Conducting and splitting the running trains keeps the simulation well formed and is one tick. */
  lemma TickOutcome(s: Sim, net: Network, cache: map<TrainId, Path>, trains: map<TrainId, Train>,
                    running: seq<TrainId>, finished: seq<TrainId>)
    requires SimOk(s)
    requires WellFormed(net) && Closed(net) && SameTopology(s.net, net) && CacheOk(net, cache) && Extends(s.cache, cache)
    requires trains.Keys == s.trains.Keys && TrainsOk(net, trains, s.running)
    requires forall x :: x in s.trains ==> Moved(s.trains[x], trains[x])
    requires forall x :: x in s.trains && x !in s.running ==> trains[x] == s.trains[x]
    requires running == StillRunning(trains, s.running) && finished == s.finished + Stopped(trains, s.running)
    requires multiset(running) + multiset(finished) == multiset(s.running) + multiset(s.finished)
    ensures SimOk(Sim(net, trains, running, finished, cache))
    ensures Ticked(s, Sim(net, trains, running, finished, cache))
  {
    assert multiset(s.running + s.finished) == multiset(s.running) + multiset(s.finished);
    SplitListsOk(s, net, trains, running, finished);
    DisjointLists(s.running, s.finished);
    assert s.finished <= finished;
  }

  /**
   * `net` and `cache` are what one controller pass over the running trains of
   * `s` gives: trains served in order on successive networks, every set path
   * failing but possibly the last, and all trains served unless the last one
   * committed.
   */
  ghost predicate Controlled(s: Sim, net: Network, cache: map<TrainId, Path>) {
    exists served: nat, nets: seq<Network>, last: bool ::
      && PassInv(s.net, s.cache, s.trains, s.running, served, nets, cache, last)
      && nets[served] == net
      && (!last ==> served == |s.running|)
  }

  /**
   * `s'` is the tick after `s`: the controller pass gave its network and
   * cache, the pass over the running trains its trains, and the split of the
   * running list its lists.
   */
  ghost predicate TickOf(s: Sim, s': Sim) {
    && Ticked(s, s')
    && Controlled(s, s'.net, s'.cache)
    && WellFormed(s'.net) && Closed(s'.net) && TrainsOk(s'.net, s.trains, s.running)
    && s'.trains == ConductPass(s'.net, s.trains, s.running, 0)
  }

  /** Some running train is neither cached nor servable: the controller pass is undefined. */
  ghost predicate Stuck(s: Sim) {
    exists i :: 0 <= i < |s.running| && s.running[i] in s.trains && s.running[i] !in s.cache
                && Unserved(s.net, s.trains[s.running[i]])
  }

  /**
   * One tick of the simulation: the controller routes the network for the
   * running trains, each running train is conducted and checked for
   * collisions, and trains no longer running are moved to the finished
   * list. No result when the controller cannot serve a train.
   */
  method Tick(s: Sim) returns (r: Option<Sim>)
    requires SimOk(s)
    ensures r.None? ==> Stuck(s)
    ensures r.Some? ==> SimOk(r.value) && TickOf(s, r.value)
    ensures r.Some? ==> forall i :: 0 <= i < |r.value.running| ==> r.value.trains[r.value.running[i]].state == Running
  {
    var u: Option<Update>;
    var served: nat;
    ghost var nets: seq<Network>;
    u, served, nets := UpdateRailNetwork(s.net, s.cache, s.trains, s.running);
    if u.None? {
      assert s.running[served] in s.trains;
      return None;
    }
    ControlledNetwork(s, u.value, served, nets);
    assert PassInv(s.net, s.cache, s.trains, s.running, served, nets, u.value.cache, u.value.routed.Some?);
    var net := u.value.net;
    var trains := ConductPass(net, s.trains, s.running, 0);
    var running, finished := RemoveFinished(trains, s.running, s.finished);
    TickOutcome(s, net, u.value.cache, trains, running, finished);
    return Some(Sim(net, trains, running, finished, u.value.cache));
  }

  /** Each state of `trace` is the tick after the one before it. */
  ghost predicate TickChain(trace: seq<Sim>) {
    forall i :: 0 <= i < |trace| - 1 ==> TickOf(trace[i], trace[i + 1])
  }

  /** A chain of ticks extended by one more. */
  lemma TraceSnoc(trace: seq<Sim>, next: Sim)
    requires |trace| >= 1 && TickChain(trace)
    requires TickOf(trace[|trace| - 1], next)
    ensures TickChain(trace + [next])
  {
    var t := trace + [next];
    forall i | 0 <= i < |t| - 1 ensures TickOf(t[i], t[i + 1]) {
      if i < |trace| - 1 {
        assert t[i] == trace[i] && t[i + 1] == trace[i + 1];
      }
    }
  }

  /** One more tick of a run from `s` that has reached `cur` through `trace`. */
  method RunStep(s: Sim, cur: Sim, ghost trace: seq<Sim>) returns (next: Option<Sim>, ghost trace': seq<Sim>)
    requires SimOk(cur) && Later(s, cur)
    requires |trace| >= 1 && trace[|trace| - 1] == cur
    requires TickChain(trace)
    ensures next.None? ==> Stuck(cur) && trace' == trace
    ensures next.Some? ==>
              && SimOk(next.value) && Later(s, next.value)
              && trace' == trace + [next.value]
              && TickChain(trace')
              && forall i :: 0 <= i < |next.value.running| ==> next.value.trains[next.value.running[i]].state == Running
  {
    trace' := trace;
    next := Tick(cur);
    if next.Some? {
      LaterTransitive(s, cur, next.value);
      TraceSnoc(trace, next.value);
      trace' := trace + [next.value];
    }
  }

  /**
   * Tick while trains are running, at most `fuel` times. `ticks` counts the
   * ticks taken and `trace` the states passed through, each the tick after
   * the one before; fewer than `fuel` ticks means every train finished or
   * the controller got stuck.
   */
  method Run(s: Sim, fuel: nat) returns (r: Option<Sim>, ticks: nat, ghost trace: seq<Sim>)
    requires SimOk(s)
    ensures ticks <= fuel && |trace| == ticks + 1 && trace[0] == s
    ensures TickChain(trace)
    ensures r.Some? ==> r.value == trace[ticks] && SimOk(r.value) && Later(s, r.value)
    ensures r.None? ==> ticks < fuel && |trace[ticks].running| > 0 && Stuck(trace[ticks])
    ensures r.Some? && ticks < fuel ==> |r.value.running| == 0
    ensures r.Some? && ticks > 0 ==> forall i :: 0 <= i < |r.value.running| ==> r.value.trains[r.value.running[i]].state == Running
  {
    var cur := s;
    ticks := 0;
    trace := [s];
    assert Later(s, s);
    while ticks < fuel && |cur.running| > 0
      invariant ticks <= fuel && SimOk(cur) && Later(s, cur)
      invariant |trace| == ticks + 1 && trace[0] == s && trace[ticks] == cur
      invariant TickChain(trace)
      invariant ticks > 0 ==> forall i :: 0 <= i < |cur.running| ==> cur.trains[cur.running[i]].state == Running
    {
      var next;
      next, trace := RunStep(s, cur, trace);
      if next.None? {
        return None, ticks, trace;
      }
      cur := next.value;
      ticks := ticks + 1;
    }
    return Some(cur), ticks, trace;
  }

  /** The finished trains in `ids` all succeeded: the conjunction taken in list order. */
  function AllSucceeded(trains: map<TrainId, Train>, ids: seq<TrainId>): (r: bool)
    requires forall i :: 0 <= i < |ids| ==> ids[i] in trains
    ensures r <==> forall i :: 0 <= i < |ids| ==> trains[ids[i]].state == Success
    decreases |ids|
  {
    |ids| == 0 || (AllSucceeded(trains, ids[..|ids| - 1]) && trains[ids[|ids| - 1]].state == Success)
  }

  /** The simulation succeeded: every finished train reached its destination and none is still running. */
  function ValidateResults(s: Sim): (r: bool)
    requires forall i :: 0 <= i < |s.finished| ==> s.finished[i] in s.trains
    ensures r <==> |s.running| == 0 && forall i :: 0 <= i < |s.finished| ==> s.trains[s.finished[i]].state == Success
  {
    AllSucceeded(s.trains, s.finished) && |s.running| == 0
  }
}
