/** The port allocator: pinned ports by name, and a queue of shared ports handed out first in, first out. */
module Ports {

  datatype Assigned = Port(port: nat) | AlreadyInUse | NoPortsLeft

  /**
   `initial` is the shuffled seed of the shared queue; `handed` and `returned` record the shared
   ports given out and taken back, in order.
   */
  datatype State = State(pinned: map<string, nat>, shared: seq<nat>, inUse: map<string, nat>,
                         initial: seq<nat>, handed: seq<nat>, returned: seq<nat>)

  datatype Event = Assign(name: string) | Retain(name: string)

  function Assigns(s: State, name: string): Assigned
  {
    if name in s.inUse then AlreadyInUse
    else if name in s.pinned then Port(s.pinned[name])
    else if s.shared == [] then NoPortsLeft
    else Port(s.shared[0])
  }

  /** A failed call changes nothing. */
  function Step(s: State, e: Event): State
  {
    match e
    case Assign(name) =>
      (match Assigns(s, name)
       case Port(port) =>
         var t := s.(inUse := s.inUse[name := port]);
         if name in s.pinned then t else t.(shared := s.shared[1..], handed := s.handed + [port])
       case _ => s)
    case Retain(name) =>
      if name !in s.inUse then s
      else
        var t := s.(inUse := s.inUse - {name});
        if name in s.pinned then t
        else t.(shared := s.shared + [s.inUse[name]], returned := s.returned + [s.inUse[name]])
  }

  // ---------------------------------------------------------------------------
  // Conservation.

  /** The names, not pinned, that hold a port. */
  function Holders(s: State, port: nat): set<string>
  {
    set name | name in s.inUse && name !in s.pinned && s.inUse[name] == port
  }

  /** A port is out as often as it was handed out and not returned. */
  predicate Balanced(s: State, port: nat)
  {
    multiset(s.handed)[port] == multiset(s.returned)[port] + |Holders(s, port)|
  }

  /** Order: the ports handed out, then the free ones, are the initial ones, then those returned. */
  predicate Queued(s: State)
  {
    s.initial + s.returned == s.handed + s.shared
  }

  lemma HandedOut(s: State, name: string, port: nat)
    requires Balanced(s, port) && name !in s.inUse && name !in s.pinned && s.shared != []
    ensures Balanced(Step(s, Assign(name)), port)
  {
    var q := s.shared[0];
    assert multiset(s.handed + [q]) == multiset(s.handed) + multiset{q};
    HolderAdded(s, Step(s, Assign(name)), name, q, port);
  }

  lemma HolderAdded(s: State, t: State, name: string, q: nat, port: nat)
    requires name !in s.inUse && name !in s.pinned && t.pinned == s.pinned && t.inUse == s.inUse[name := q]
    ensures |Holders(t, port)| == |Holders(s, port)| + if q == port then 1 else 0
  {
    assert Holders(t, port) == if q == port then Holders(s, port) + {name} else Holders(s, port);
  }

  lemma TakenBack(s: State, name: string, port: nat)
    requires Balanced(s, port) && name in s.inUse && name !in s.pinned
    ensures Balanced(Step(s, Retain(name)), port)
  {
    var q := s.inUse[name];
    assert multiset(s.returned + [q]) == multiset(s.returned) + multiset{q};
    assert Holders(Step(s, Retain(name)), port) == if q == port then Holders(s, port) - {name} else Holders(s, port);
  }

  lemma StepBalanced(s: State, e: Event, port: nat)
    requires Balanced(s, port)
    ensures Balanced(Step(s, e), port)
  {
    if e.name in s.pinned {
      assert Holders(Step(s, e), port) == Holders(s, port);
    } else if e.Assign? && e.name !in s.inUse && s.shared != [] {
      HandedOut(s, e.name, port);
    } else if e.Retain? && e.name in s.inUse {
      TakenBack(s, e.name, port);
    }
  }

  lemma StepQueued(s: State, e: Event)
    requires Queued(s)
    ensures Queued(Step(s, e))
  {
    var t := Step(s, e);
    if e.Assign? && s.shared != [] {
      assert s.handed + s.shared == s.handed + [s.shared[0]] + s.shared[1..];
    } else if e.Retain? && e.name in s.inUse {
      var q := s.inUse[e.name];
      assert s.initial + (s.returned + [q]) == s.initial + s.returned + [q];
      assert s.handed + (s.shared + [q]) == s.handed + s.shared + [q];
    }
  }

  function Start(pinned: map<string, nat>, seed: seq<nat>): State
  {
    State(pinned, seed, map[], seed, [], [])
  }

  ghost predicate IsRun(pinned: map<string, nat>, seed: seq<nat>, states: seq<State>, events: seq<Event>)
  {
    && |states| == |events| + 1 && states[0] == Start(pinned, seed)
    && forall i | 0 <= i < |events| :: states[i + 1] == Step(states[i], events[i])
  }

  lemma {:induction false} RunsKeep(pinned: map<string, nat>, seed: seq<nat>, states: seq<State>, events: seq<Event>,
                                    k: nat, port: nat)
    requires IsRun(pinned, seed, states, events) && k < |states|
    ensures Queued(states[k]) && Balanced(states[k], port) && states[k].initial == seed && states[k].pinned == pinned
  {
    if k > 0 {
      RunsKeep(pinned, seed, states, events, k - 1, port);
      assert states[k - 1 + 1] == Step(states[k - 1], events[k - 1]);
      StepQueued(states[k - 1], events[k - 1]);
      StepBalanced(states[k - 1], events[k - 1], port);
    } else {
      assert Holders(states[0], port) == {};
    }
  }

  /**
   Conservation over every run: every port is as often free or held by an unpinned name as it was
   in the initial queue.
   */
  lemma PortConservation(pinned: map<string, nat>, seed: seq<nat>, states: seq<State>, events: seq<Event>, k: nat,
                         port: nat)
    requires IsRun(pinned, seed, states, events) && k < |states|
    ensures multiset(states[k].shared)[port] + |Holders(states[k], port)| == multiset(seed)[port]
  {
    RunsKeep(pinned, seed, states, events, k, port);
    var s := states[k];
    assert multiset(s.initial + s.returned)[port] == multiset(s.handed + s.shared)[port];
  }

  /** So with a real range, no two unpinned names ever hold the same port, and no port held is free. */
  lemma NoPortTwice(pinned: map<string, nat>, seed: seq<nat>, states: seq<State>, events: seq<Event>, k: nat, a: string,
                    b: string)
    requires IsRun(pinned, seed, states, events) && k < |states|
    requires forall port | port in seed :: multiset(seed)[port] == 1
    requires a in states[k].inUse && a !in pinned && b in states[k].inUse && b !in pinned
    ensures states[k].inUse[a] !in states[k].shared
    ensures a != b ==> states[k].inUse[a] != states[k].inUse[b]
  {
    var s := states[k];
    var port := s.inUse[a];
    PortConservation(pinned, seed, states, events, k, port);
    RunsKeep(pinned, seed, states, events, k, port);
    assert a in Holders(s, port);
    assert |Holders(s, port)| >= 1 by { assert Holders(s, port) != {}; }
    assert multiset(seed)[port] == 1;
    if a != b && s.inUse[b] == port {
      assert {a, b} <= Holders(s, port);
      SubsetSize({a, b}, Holders(s, port));
    }
  }

  lemma {:induction false} SubsetSize(a: set<string>, b: set<string>)
    requires a <= b
    ensures |a| <= |b|
  {
    if a != {} {
      var x :| x in a;
      SubsetSize(a - {x}, b - {x});
    }
  }

  lemma {:induction false} Extends(pinned: map<string, nat>, seed: seq<nat>, states: seq<State>, events: seq<Event>,
                                   i: nat, j: nat)
    requires IsRun(pinned, seed, states, events) && i <= j < |states|
    ensures states[i].handed <= states[j].handed && states[i].returned <= states[j].returned
  {
    if i < j {
      Extends(pinned, seed, states, events, i, j - 1);
      assert states[j - 1 + 1] == Step(states[j - 1], events[j - 1]);
    }
  }

  /**
   Reuse is last: when an unpinned port is retained, the shared ports handed out from then on are
   first all those that were free at that moment, in order, and only then that port.
   */
  lemma ReusedLast(pinned: map<string, nat>, seed: seq<nat>, states: seq<State>, events: seq<Event>, i: nat, j: nat,
                   name: string)
    requires IsRun(pinned, seed, states, events) && i < j < |states|
    requires events[i] == Retain(name) && name in states[i].inUse && name !in states[i].pinned
    ensures states[i].handed <= states[j].handed
    ensures FirstThen(states[j].handed[|states[i].handed|..], states[i].shared, states[i].inUse[name])
  {
    var s, t := states[i], states[j];
    assert states[i + 1] == Step(states[i], events[i]);
    RunsKeep(pinned, seed, states, events, i, 0);
    RunsKeep(pinned, seed, states, events, j, 0);
    Extends(pinned, seed, states, events, i, j);
    Extends(pinned, seed, states, events, i + 1, j);
    ReleasedOrder(s, t, s.inUse[name]);
  }

  /** `since` starts with `free`, as far as it goes, and continues with `port`. */
  predicate FirstThen(since: seq<nat>, free: seq<nat>, port: nat)
  {
    if |since| <= |free| then since <= free else free + [port] <= since
  }

  lemma ReleasedOrder(s: State, t: State, port: nat)
    requires Queued(s) && Queued(t) && s.initial == t.initial
    requires s.handed <= t.handed && s.returned + [port] <= t.returned
    ensures FirstThen(t.handed[|s.handed|..], s.shared, port)
  {
    var queue := s.shared + [port];
    var all := t.initial + t.returned;
    var later := t.returned[|s.returned| + 1..];
    assert t.returned == s.returned + [port] + later;
    assert all == s.initial + s.returned + [port] + later;
    assert all == s.handed + (queue + later);
    assert all == t.handed + t.shared;
    var n := |s.handed|;
    assert all[n..] == queue + later;
    assert all[n..] == t.handed[n..] + t.shared;
    var since := t.handed[n..];
    assert since == (queue + later)[..|since|];
  }

  /**
   Assignment succeeds exactly for a free name that is pinned or finds a shared port, and releasing
   the name again restores the names in use and moves the port to the end of the queue.
   */
  lemma AssignThenRetain(s: State, name: string)
    ensures Assigns(s, name).Port? <==> name !in s.inUse && (name in s.pinned || s.shared != [])
    ensures Assigns(s, name).Port? ==>
              var held := Step(s, Assign(name)); var t := Step(held, Retain(name));
              && name in held.inUse && held.inUse[name] == Assigns(s, name).port
              && t.inUse == s.inUse
              && t.shared == if name in s.pinned then s.shared else s.shared[1..] + [s.shared[0]]
  {
    if Assigns(s, name).Port? {
      assert s.inUse[name := Assigns(s, name).port] - {name} == s.inUse;
    }
  }

  // ---------------------------------------------------------------------------
  // Who holds what, over runs.

  /** Which answer an assignment gives, and the port it hands out. */
  lemma AnswerExact(s: State, name: string)
    ensures Assigns(s, name) == AlreadyInUse <==> name in s.inUse
    ensures Assigns(s, name) == NoPortsLeft <==> name !in s.inUse && name !in s.pinned && s.shared == []
    ensures name !in s.inUse && name in s.pinned ==> Assigns(s, name) == Port(s.pinned[name])
    ensures name !in s.inUse && name !in s.pinned && s.shared != [] ==> Assigns(s, name) == Port(s.shared[0])
  {
  }

  /** The assignment at `i` gave the name this port, and nobody has released it since. */
  ghost predicate GivenAt(states: seq<State>, events: seq<Event>, name: string, port: nat, i: int, k: int)
  {
    && 0 <= i < k <= |events| < |states| && events[i] == Assign(name) && Assigns(states[i], name) == Port(port)
    && forall j | i < j < k :: events[j] != Retain(name)
  }

  ghost predicate Given(states: seq<State>, events: seq<Event>, name: string, port: nat, k: int)
  {
    exists i :: GivenAt(states, events, name, port, i, k)
  }

  /** What one event does to the name it is about, and that it leaves all others alone. */
  lemma StepHolds(s: State, e: Event, name: string, port: nat)
    ensures var t := Step(s, e);
            (name in t.inUse && t.inUse[name] == port) <==>
            || (name in s.inUse && s.inUse[name] == port && e != Retain(name))
            || (e == Assign(name) && Assigns(s, name) == Port(port))
  {
  }

  /** A name holds a port exactly since an assignment that gave it and was not followed by a release. */
  lemma {:induction false} HeldSinceAssigned(pinned: map<string, nat>, seed: seq<nat>, states: seq<State>,
                                             events: seq<Event>, k: nat, name: string, port: nat)
    requires IsRun(pinned, seed, states, events) && k < |states|
    ensures name in states[k].inUse && states[k].inUse[name] == port <==>
            Given(states, events, name, port, k)
  {
    if k > 0 {
      HeldSinceAssigned(pinned, seed, states, events, k - 1, name, port);
      assert states[k - 1 + 1] == Step(states[k - 1], events[k - 1]);
      StepHolds(states[k - 1], events[k - 1], name, port);
      GivenStep(states, events, name, port, k);
    }
  }

  lemma GivenStep(states: seq<State>, events: seq<Event>, name: string, port: nat, k: nat)
    requires 0 < k <= |events| < |states|
    ensures Given(states, events, name, port, k) <==>
            || (events[k - 1] != Retain(name) && Given(states, events, name, port, k - 1))
            || (events[k - 1] == Assign(name) && Assigns(states[k - 1], name) == Port(port))
  {
    if events[k - 1] != Retain(name) && Given(states, events, name, port, k - 1) {
      var i :| GivenAt(states, events, name, port, i, k - 1);
      assert GivenAt(states, events, name, port, i, k);
    }
    if events[k - 1] == Assign(name) && Assigns(states[k - 1], name) == Port(port) {
      assert GivenAt(states, events, name, port, k - 1, k);
    }
    if Given(states, events, name, port, k) {
      var i :| GivenAt(states, events, name, port, i, k);
      if i < k - 1 { assert GivenAt(states, events, name, port, i, k - 1); }
    }
  }

  /** The names in use that are not pinned. */
  function Sharers(s: State): set<string>
  {
    set name | name in s.inUse && name !in s.pinned
  }

  ghost predicate Counted(s: State)
  {
    && |Sharers(s)| + |s.shared| == |s.initial|
    && forall name | name in s.inUse && name in s.pinned :: s.inUse[name] == s.pinned[name]
  }

  lemma StepCounted(s: State, e: Event)
    requires Counted(s)
    ensures Counted(Step(s, e))
  {
    var t := Step(s, e);
    if e.name in s.pinned {
      assert Sharers(t) == Sharers(s);
    } else if e.Assign? && e.name !in s.inUse && s.shared != [] {
      assert Sharers(t) == Sharers(s) + {e.name};
    } else if e.Retain? && e.name in s.inUse {
      assert Sharers(t) == Sharers(s) - {e.name};
    }
  }

  /**
   Over every run: a pinned name in use holds exactly its pinned port, an unpinned one a port of the
   seed; and an assignment finds no port exactly when the name is free and not pinned and as many
   unpinned names hold ports as there were in the seed.
   */
  lemma {:induction false} PinnedAndShared(pinned: map<string, nat>, seed: seq<nat>, states: seq<State>,
                                           events: seq<Event>, k: nat, name: string)
    requires IsRun(pinned, seed, states, events) && k < |states|
    ensures Counted(states[k]) && states[k].pinned == pinned && states[k].initial == seed
    ensures name in states[k].inUse && name in pinned ==> states[k].inUse[name] == pinned[name]
    ensures name in states[k].inUse && name !in pinned ==> states[k].inUse[name] in seed
    ensures Assigns(states[k], name) == NoPortsLeft <==>
            name !in states[k].inUse && name !in pinned && |Sharers(states[k])| == |seed|
  {
    var s := states[k];
    if k > 0 {
      PinnedAndShared(pinned, seed, states, events, k - 1, name);
      assert states[k - 1 + 1] == Step(states[k - 1], events[k - 1]);
      StepCounted(states[k - 1], events[k - 1]);
    } else {
      assert Sharers(s) == {};
    }
    if name in s.inUse && name !in pinned {
      var port := s.inUse[name];
      PortConservation(pinned, seed, states, events, k, port);
      RunsKeep(pinned, seed, states, events, k, port);
      assert name in Holders(s, port);
      assert multiset(seed)[port] > 0;
    }
  }

  // ---------------------------------------------------------------------------
  // The mapper object.

  const ANONYMOUS: nat := 65535

  /** The ports to share: a half-open range, or as many zeroes when the range is not a real one. */
  function Seed(minimum: nat, maximum: nat): (r: seq<nat>)
    ensures maximum > minimum ==> |r| == maximum - minimum && forall i | 0 <= i < |r| :: r[i] == minimum + i
    ensures maximum <= minimum ==> |r| == ANONYMOUS && forall i | 0 <= i < |r| :: r[i] == 0
  {
    if maximum <= minimum then seq(ANONYMOUS, _ => 0)
    else seq(maximum - minimum, i requires 0 <= i => minimum + i)
  }

  /** A real range shares each of its ports once; its upper end is never shared. */
  lemma RealRange(minimum: nat, maximum: nat, port: nat)
    requires minimum < maximum
    ensures port in Seed(minimum, maximum) <==> minimum <= port < maximum
    ensures minimum <= port < maximum ==> multiset(Seed(minimum, maximum))[port] == 1
  {
    var r := Seed(minimum, maximum);
    if minimum <= port < maximum {
      var i := port - minimum;
      assert r == r[..i] + [r[i]] + r[i + 1..];
      assert port !in r[..i] && port !in r[i + 1..];
    }
  }

  /** Without a real range there are 65535 shares of port 0, to be chosen by the system. */
  lemma NoRange(minimum: nat, maximum: nat)
    requires maximum <= minimum
    ensures Seed(minimum, maximum) == seq(65535, _ => 0)
  {
  }

  class PortMapping {
    const pinned: map<string, nat>
    var shared: seq<nat>
    var inUse: map<string, nat>

    ghost var initial: seq<nat>
    ghost var handed: seq<nat>
    ghost var returned: seq<nat>

    ghost function Model(): State
      reads this
    {
      State(pinned, shared, inUse, initial, handed, returned)
    }

    /** `shuffled` is the seed in the order the random engine put it. */
    constructor (pinned: map<string, nat>, minimum: nat, maximum: nat, shuffled: seq<nat>)
      requires multiset(shuffled) == multiset(Seed(minimum, maximum))
      ensures Model() == Start(pinned, shuffled)
    {
      this.pinned := pinned;
      shared, inUse := shuffled, map[];
      initial, handed, returned := shuffled, [], [];
    }

    method AssignPort(name: string) returns (r: Assigned)
      modifies this
      ensures r == Assigns(old(Model()), name) && Model() == Step(old(Model()), Assign(name))
      ensures r.Port? ==> name in inUse && inUse[name] == r.port
    {
      if name in inUse {
        return AlreadyInUse;
      }
      if name in pinned {
        inUse := inUse[name := pinned[name]];
        return Port(inUse[name]);
      }
      if shared == [] {
        return NoPortsLeft;
      }
      var port := shared[0];
      shared := shared[1..];
      inUse := inUse[name := port];
      handed := handed + [port];
      r := Port(inUse[name]);
    }

    method RetainPort(name: string) returns (ok: bool)
      modifies this
      ensures (ok <==> name in old(inUse)) && Model() == Step(old(Model()), Retain(name))
    {
      if name !in inUse {
        return false;
      }
      if name !in pinned {
        shared := shared + [inUse[name]];
        returned := returned + [inUse[name]];
      }
      inUse := inUse - {name};
      ok := true;
    }
  }
}
