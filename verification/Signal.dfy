/**
 The retroactive signal: events are delivered to the subscribers of the moment and recorded, and a
 late subscriber is first given the record. Some event kinds are not recorded.
 */
module Signal {
  import opened Common

  /** `recorded` is a property of the event's kind. */
  datatype Event = Event(kind: nat, payload: nat, recorded: bool)

  type Slot = nat

  /**
   Which kinds of events a slot has a handler for at some moment; the others are passed over in
   silence. Handlers may come and go between one access and the next.
   */
  type Handles = (Slot, nat) -> bool

  /** Filtering by `q` what was filtered by `p`, for a `q` that keeps all or nothing of it. */
  lemma {:induction false} FilterOfFilter(p: Event -> bool, q: Event -> bool, events: seq<Event>)
    ensures (forall e :: p(e) ==> q(e)) ==> Filter(q, Filter(p, events)) == Filter(p, events)
    ensures (forall e :: p(e) ==> !q(e)) ==> Filter(q, Filter(p, events)) == []
  {
    if events != [] {
      var n := |events| - 1;
      FilterOfFilter(p, q, events[..n]);
      if p(events[n]) { FilterGrows(q, Filter(p, events[..n]), events[n]); }
    }
  }

  predicate IsRecorded(e: Event)
  {
    e.recorded
  }

  predicate IsUnrecorded(e: Event)
  {
    !e.recorded
  }

  function Recorded(events: seq<Event>): seq<Event>
  {
    Filter(IsRecorded, events)
  }

  function Unrecorded(events: seq<Event>): seq<Event>
  {
    Filter(IsUnrecorded, events)
  }

  function Wanted(handles: Handles, slot: Slot): Event -> bool
  {
    (e: Event) => handles(slot, e.kind)
  }

  function Handled(handles: Handles, slot: Slot, events: seq<Event>): seq<Event>
  {
    Filter(Wanted(handles, slot), events)
  }

  /** An event and the handlers there were when it was invoked. */
  datatype Invocation = Invocation(event: Event, handles: Handles)

  function Events(s: seq<Invocation>): (r: seq<Event>)
    ensures |r| == |s|
    ensures forall i | 0 <= i < |r| :: r[i] == s[i].event
  {
    seq(|s|, i requires 0 <= i < |s| => s[i].event)
  }

  /** The invocations that a slot had a handler for at the time. */
  function Taken(slot: Slot): Invocation -> bool
  {
    (v: Invocation) => v.handles(slot, v.event.kind)
  }

  /**
   Subscriptions are numbered; `slots` and `posts` hold the slot of each and the events posted to it,
   `sinces` how many events had been invoked before it, `givens` the handlers there were when it was
   made. `subscribers` lists those not yet erased. `invoked` are all invocations.
   */
  datatype State = State(history: seq<Event>, subscribers: seq<nat>, slots: seq<Slot>, posts: seq<seq<Event>>,
                         dead: set<Slot>, sinces: seq<nat>, givens: seq<Handles>, invoked: seq<Invocation>)

  datatype Action = Listen(slot: Slot, handles: Handles) | Invoke(event: Event, handles: Handles) | Expire(slot: Slot)

  predicate Alive(s: State, j: nat)
    requires j < |s.slots|
  {
    s.slots[j] !in s.dead
  }

  predicate WellFormed(s: State)
  {
    && |s.posts| == |s.slots| == |s.sinces| == |s.givens|
    && Ascending(s.subscribers, |s.slots|)
  }

  predicate Enabled(s: State, a: Action)
  {
    a.Listen? ==> a.slot !in s.dead
  }

  /** The subscribers whose slot is still alive, in order. */
  function Survivors(slots: seq<Slot>, dead: set<Slot>, list: seq<nat>): seq<nat>
  {
    if list == [] then []
    else
      var n := |list| - 1;
      Survivors(slots, dead, list[..n]) + (if list[n] < |slots| && slots[list[n]] !in dead then [list[n]] else [])
  }

  /** A list of subscriptions, each once and in the order they were made. */
  predicate Ascending(list: seq<nat>, bound: nat)
  {
    && (forall i | 0 <= i < |list| :: list[i] < bound)
    && (forall i, j | 0 <= i < j < |list| :: list[i] < list[j])
  }

  function Post(handles: Handles, slot: Slot, posts: seq<Event>, e: Event): seq<Event>
  {
    if handles(slot, e.kind) then posts + [e] else posts
  }

  /** One more event in the posts of every subscriber that is alive and handles it. */
  function Delivered(handles: Handles, subscribers: seq<nat>, slots: seq<Slot>, dead: set<Slot>, posts: seq<seq<Event>>,
                     e: Event): (r: seq<seq<Event>>)
    requires |posts| == |slots|
    ensures |r| == |posts|
    ensures forall j | 0 <= j < |r| ::
              r[j] == if j in subscribers && slots[j] !in dead then Post(handles, slots[j], posts[j], e) else posts[j]
  {
    seq(|posts|, j requires 0 <= j < |posts| =>
          if j in subscribers && slots[j] !in dead then Post(handles, slots[j], posts[j], e) else posts[j])
  }

  function Invokes(s: State, e: Event, handles: Handles): State
    requires WellFormed(s)
  {
    s.(subscribers := Survivors(s.slots, s.dead, s.subscribers),
       posts := Delivered(handles, s.subscribers, s.slots, s.dead, s.posts, e),
       history := if e.recorded then s.history + [e] else s.history,
       invoked := s.invoked + [Invocation(e, handles)])
  }

  function Step(s: State, a: Action): State
    requires WellFormed(s)
  {
    match a
    case Listen(slot, handles) =>
      s.(subscribers := s.subscribers + [|s.slots|],
         slots := s.slots + [slot], sinces := s.sinces + [|s.invoked|], givens := s.givens + [handles],
         posts := s.posts + [Handled(handles, slot, s.history)])
    case Invoke(e, handles) => Invokes(s, e, handles)
    case Expire(slot) => s.(dead := s.dead + {slot})
  }

  function Live(slot: Slot, rest: seq<Invocation>): seq<Event>
  {
    Events(Filter(Taken(slot), rest))
  }

  lemma LiveGrows(slot: Slot, rest: seq<Invocation>, v: Invocation)
    ensures Live(slot, rest + [v]) == Post(v.handles, slot, Live(slot, rest), v.event)
  {
    FilterGrows(Taken(slot), rest, v);
    var live := Filter(Taken(slot), rest);
    assert Events(live + [v]) == Events(live) + [v.event];
  }

  /**
   What a subscription that stays alive is owed: of the record of its past what it handled when it
   subscribed, then every event it handled when that was invoked.
   */
  function Owed(given: Handles, slot: Slot, past: seq<Invocation>, rest: seq<Invocation>): seq<Event>
  {
    Handled(given, slot, Recorded(Events(past))) + Live(slot, rest)
  }

  lemma OwedGrows(given: Handles, slot: Slot, past: seq<Invocation>, rest: seq<Invocation>, v: Invocation)
    ensures Owed(given, slot, past, rest + [v]) == Post(v.handles, slot, Owed(given, slot, past, rest), v.event)
  {
    LiveGrows(slot, rest, v);
  }

  /** A subscription has been posted what it is owed. */
  predicate Paid(s: State, j: nat)
    requires j < |s.slots| == |s.posts| == |s.sinces| == |s.givens| && s.sinces[j] <= |s.invoked|
  {
    s.posts[j] == Owed(s.givens[j], s.slots[j], s.invoked[..s.sinces[j]], s.invoked[s.sinces[j]..])
  }

  ghost predicate Settled(s: State, j: nat)
    requires j < |s.slots| == |s.posts| == |s.sinces| == |s.givens|
  {
    && s.sinces[j] <= |s.invoked|
    && (Alive(s, j) ==> j in s.subscribers && Paid(s, j))
  }

  ghost predicate Inv(s: State)
  {
    && WellFormed(s) && s.history == Recorded(Events(s.invoked))
    && forall j | 0 <= j < |s.slots| :: Settled(s, j)
  }

  lemma {:induction false} SurvivorsMembers(slots: seq<Slot>, dead: set<Slot>, list: seq<nat>, x: nat)
    ensures x in Survivors(slots, dead, list) <==> x in list && x < |slots| && slots[x] !in dead
  {
    if list != [] {
      var n := |list| - 1;
      SurvivorsMembers(slots, dead, list[..n], x);
      assert list == list[..n] + [list[n]];
    }
  }

  lemma {:induction false} SurvivorsAscend(slots: seq<Slot>, dead: set<Slot>, list: seq<nat>)
    requires Ascending(list, |slots|)
    ensures Ascending(Survivors(slots, dead, list), |slots|)
  {
    if list != [] {
      var n := |list| - 1;
      SurvivorsAscend(slots, dead, list[..n]);
      var front := Survivors(slots, dead, list[..n]);
      forall i | 0 <= i < |front| ensures front[i] < list[n] {
        assert front[i] in front;
        SurvivorsMembers(slots, dead, list[..n], front[i]);
      }
    }
  }

  lemma SliceGrows(s: seq<Invocation>, v: Invocation, n: nat)
    requires n <= |s|
    ensures (s + [v])[..n] == s[..n] && (s + [v])[n..] == s[n..] + [v]
  {
  }

  lemma InvokePays(s: State, e: Event, handles: Handles, j: nat)
    requires WellFormed(s) && j < |s.slots| && s.sinces[j] <= |s.invoked| && Paid(s, j)
    requires j in s.subscribers && Alive(s, j)
    ensures Paid(Step(s, Invoke(e, handles)), j)
  {
    var n, v := s.sinces[j], Invocation(e, handles);
    SliceGrows(s.invoked, v, n);
    OwedGrows(s.givens[j], s.slots[j], s.invoked[..n], s.invoked[n..], v);
  }

  lemma InvokeWellFormed(s: State, e: Event, handles: Handles)
    requires Inv(s)
    ensures var t := Step(s, Invoke(e, handles)); WellFormed(t) && t.history == Recorded(Events(t.invoked))
  {
    SurvivorsAscend(s.slots, s.dead, s.subscribers);
    assert Events(s.invoked + [Invocation(e, handles)]) == Events(s.invoked) + [e];
    FilterGrows(IsRecorded, Events(s.invoked), e);
  }

  lemma InvokeSettles(s: State, e: Event, handles: Handles, j: nat)
    requires WellFormed(s) && j < |s.slots| && Settled(s, j)
    ensures Settled(Step(s, Invoke(e, handles)), j)
  {
    SurvivorsMembers(s.slots, s.dead, s.subscribers, j);
    if Alive(s, j) { InvokePays(s, e, handles, j); }
  }

  lemma InvokeKeeps(s: State, e: Event, handles: Handles)
    requires Inv(s)
    ensures Inv(Step(s, Invoke(e, handles)))
  {
    InvokeWellFormed(s, e, handles);
    forall j | 0 <= j < |s.slots| ensures Settled(Step(s, Invoke(e, handles)), j) {
      InvokeSettles(s, e, handles, j);
    }
  }

  lemma ListenKeeps(s: State, slot: Slot, handles: Handles)
    requires Inv(s)
    ensures Inv(Step(s, Listen(slot, handles)))
  {
    var t := Step(s, Listen(slot, handles));
    forall j | 0 <= j < |t.slots| ensures Settled(t, j) {
      if j < |s.slots| {
        assert Settled(s, j);
      } else {
        assert t.subscribers[|s.subscribers|] == j;
        assert s.invoked[..|s.invoked|] == s.invoked && s.invoked[|s.invoked|..] == [];
        assert Events([]) == [];
      }
    }
  }

  lemma StepKeeps(s: State, a: Action)
    requires Inv(s) && Enabled(s, a)
    ensures Inv(Step(s, a))
  {
    match a
    case Listen(slot, handles) => ListenKeeps(s, slot, handles);
    case Invoke(e, handles) => InvokeKeeps(s, e, handles);
    case Expire(slot) =>
      forall j | 0 <= j < |s.slots| ensures Settled(Step(s, a), j) {
        assert Settled(s, j);
      }
  }

  function Start(): State
  {
    State([], [], [], [], {}, [], [], [])
  }

  ghost predicate Takes(s: State, a: Action, t: State)
  {
    WellFormed(s) && Enabled(s, a) && t == Step(s, a)
  }

  ghost predicate IsRun(states: seq<State>, actions: seq<Action>)
  {
    && |states| == |actions| + 1 && states[0] == Start()
    && forall i | 0 <= i < |actions| :: Takes(states[i], actions[i], states[i + 1])
  }

  lemma TakesKeeps(s: State, a: Action, t: State)
    requires Inv(s) && Takes(s, a, t)
    ensures Inv(t)
  {
    StepKeeps(s, a);
  }

  lemma StartSettled(s: State)
    requires s == Start()
    ensures Inv(s)
  {
    assert Events([]) == [];
  }

  lemma {:induction false} RunsKeep(states: seq<State>, actions: seq<Action>, k: nat)
    requires IsRun(states, actions) && k < |states|
    ensures Inv(states[k])
  {
    if k > 0 {
      RunsKeep(states, actions, k - 1);
      assert Takes(states[k - 1], actions[k - 1], states[k - 1 + 1]);
      TakesKeeps(states[k - 1], actions[k - 1], states[k]);
    } else {
      StartSettled(states[0]);
    }
  }

  /**
   Delivery in every interleaving, whatever handlers come and go: a subscription that is still alive
   has been posted, in order and once each, the recorded events of its past that it handled when it
   subscribed and the later events, recorded or not, that it handled when each was invoked.
   */
  lemma DeliveryByMoment(states: seq<State>, actions: seq<Action>, k: nat, j: nat)
    requires IsRun(states, actions) && k < |states|
    requires j < |states[k].slots| && Alive(states[k], j)
    ensures var s := states[k];
            && WellFormed(s) && s.sinces[j] <= |s.invoked|
            && var past, rest := s.invoked[..s.sinces[j]], s.invoked[s.sinces[j]..];
               s.posts[j] == Owed(s.givens[j], s.slots[j], past, rest)
  {
    RunsKeep(states, actions, k);
    assert Settled(states[k], j);
  }

  ghost predicate Agree(a: Handles, b: Handles, slot: Slot)
  {
    forall kind :: a(slot, kind) == b(slot, kind)
  }

  /** The handlers of a slot never changed. */
  ghost predicate Steady(s: State, j: nat, handles: Handles)
    requires j < |s.slots| == |s.givens|
  {
    && Agree(s.givens[j], handles, s.slots[j])
    && (forall v | v in s.invoked :: Agree(v.handles, handles, s.slots[j]))
  }

  lemma HandledGrows(handles: Handles, slot: Slot, rest: seq<Invocation>, v: Invocation)
    requires Agree(v.handles, handles, slot) && Live(slot, rest) == Handled(handles, slot, Events(rest))
    ensures Live(slot, rest + [v]) == Handled(handles, slot, Events(rest + [v]))
  {
    LiveGrows(slot, rest, v);
    FilterGrows(Wanted(handles, slot), Events(rest), v.event);
    assert Events(rest + [v]) == Events(rest) + [v.event];
  }

  lemma {:induction false} SteadyTaken(handles: Handles, slot: Slot, s: seq<Invocation>)
    requires forall v | v in s :: Agree(v.handles, handles, slot)
    ensures Live(slot, s) == Handled(handles, slot, Events(s))
  {
    if s != [] {
      var n := |s| - 1;
      SteadyTaken(handles, slot, s[..n]);
      assert s[..n] + [s[n]] == s && s[n] in s;
      HandledGrows(handles, slot, s[..n], s[n]);
    }
  }

  /**
   Retroactive delivery: a living subscription whose handlers never changed has been posted every
   recorded event it handles exactly once and in invocation order, whenever it subscribed, and of the
   unrecorded ones exactly those invoked after it subscribed.
   */
  lemma RetroactiveDelivery(states: seq<State>, actions: seq<Action>, k: nat, j: nat, handles: Handles)
    requires IsRun(states, actions) && k < |states| && j < |states[k].slots| && Alive(states[k], j)
    requires j < |states[k].slots| == |states[k].givens| && Steady(states[k], j, handles)
    ensures var s := states[k]; var slot := s.slots[j];
            && j < |s.posts| && j < |s.sinces| && s.sinces[j] <= |s.invoked|
            && Recorded(s.posts[j]) == Handled(handles, slot, Recorded(Events(s.invoked)))
            && Unrecorded(s.posts[j]) == Handled(handles, slot, Unrecorded(Events(s.invoked[s.sinces[j]..])))
  {
    DeliveryByMoment(states, actions, k, j);
    var s := states[k];
    var slot, past, rest := s.slots[j], s.invoked[..s.sinces[j]], s.invoked[s.sinces[j]..];
    assert past + rest == s.invoked && Events(past) + Events(rest) == Events(s.invoked);
    SteadyOwed(handles, s.givens[j], slot, past, rest, Events(past), Events(rest), s.posts[j]);
  }

  lemma SteadyOwed(handles: Handles, given: Handles, slot: Slot, past: seq<Invocation>, rest: seq<Invocation>,
                   before: seq<Event>, since: seq<Event>, owed: seq<Event>)
    requires Agree(given, handles, slot)
    requires forall v | v in rest :: Agree(v.handles, handles, slot)
    requires before == Events(past) && since == Events(rest) && owed == Owed(given, slot, past, rest)
    ensures Recorded(owed) == Handled(handles, slot, Recorded(before + since))
    ensures Unrecorded(owed) == Handled(handles, slot, Unrecorded(since))
  {
    SteadyFilter(handles, given, slot, past, rest);
    OwedRecorded(Wanted(handles, slot), before, since, owed);
  }

  lemma SteadyFilter(handles: Handles, given: Handles, slot: Slot, past: seq<Invocation>, rest: seq<Invocation>)
    requires Agree(given, handles, slot)
    requires forall v | v in rest :: Agree(v.handles, handles, slot)
    ensures Owed(given, slot, past, rest) == Filter(Wanted(handles, slot), Recorded(Events(past)) + Events(rest))
  {
    var record := Recorded(Events(past));
    SteadyTaken(handles, slot, rest);
    SameHandled(handles, given, slot, record);
    FilterSplits(Wanted(handles, slot), record, Events(rest));
  }

  lemma SameHandled(handles: Handles, given: Handles, slot: Slot, events: seq<Event>)
    requires Agree(given, handles, slot)
    ensures Handled(given, slot, events) == Handled(handles, slot, events)
  {
    var p, q := Wanted(given, slot), Wanted(handles, slot);
    forall e | e in events ensures p(e) == q(e) {
      assert given(slot, e.kind) == handles(slot, e.kind);
    }
    FilterSame(p, q, events);
  }

  // The state as a function of the actions.

  function Invocations(actions: seq<Action>): seq<Invocation>
  {
    if actions == [] then []
    else
      var n := |actions| - 1;
      Invocations(actions[..n]) +
      (if actions[n].Invoke? then [Invocation(actions[n].event, actions[n].handles)] else [])
  }

  /** The subscriptions made: the slot, its handlers, and how many invocations went before. */
  function Subscriptions(actions: seq<Action>): seq<(Slot, Handles, nat)>
  {
    if actions == [] then []
    else
      var n := |actions| - 1;
      Subscriptions(actions[..n]) +
      (if actions[n].Listen? then [(actions[n].slot, actions[n].handles, |Invocations(actions[..n])|)] else [])
  }

  /** The slots that are gone are those that expired. */
  predicate Expired(actions: seq<Action>, slot: Slot)
  {
    exists i :: 0 <= i < |actions| && actions[i] == Expire(slot)
  }

  ghost predicate Recounts(s: State, actions: seq<Action>)
  {
    && s.invoked == Invocations(actions) && |s.slots| == |Subscriptions(actions)| == |s.givens| == |s.sinces|
    && (forall j | 0 <= j < |s.slots| :: Subscriptions(actions)[j] == (s.slots[j], s.givens[j], s.sinces[j]))
    && (forall slot :: slot in s.dead <==> Expired(actions, slot))
  }

  lemma StepRecounts(s: State, a: Action, t: State, actions: seq<Action>)
    requires Takes(s, a, t) && Recounts(s, actions)
    ensures Recounts(t, actions + [a])
  {
    var more := actions + [a];
    assert more[..|actions|] == actions && more[|actions|] == a;
    forall slot ensures slot in t.dead <==> Expired(more, slot) {
      if Expired(actions, slot) {
        var i :| 0 <= i < |actions| && actions[i] == Expire(slot);
        assert more[i] == Expire(slot);
      }
      if Expired(more, slot) {
        var i :| 0 <= i < |more| && more[i] == Expire(slot);
        if i < |actions| { assert actions[i] == Expire(slot); }
      }
    }
  }

  /** Invocations, subscriptions and expiries are those of the actions. */
  lemma {:induction false} StateIsActions(states: seq<State>, actions: seq<Action>, k: nat)
    requires IsRun(states, actions) && k < |states|
    ensures Recounts(states[k], actions[..k])
  {
    if k > 0 {
      StateIsActions(states, actions, k - 1);
      assert Takes(states[k - 1], actions[k - 1], states[k - 1 + 1]);
      StepRecounts(states[k - 1], actions[k - 1], states[k], actions[..k - 1]);
      assert actions[..k] == actions[..k - 1] + [actions[k - 1]];
    }
  }

  /** What one step keeps of a subscription: whose it is, that its slot is gone, and then what it got. */
  ghost predicate Keeps(s: State, t: State, j: nat)
  {
    && j < |s.slots| <= |t.slots| && |s.posts| == |s.slots| && |t.posts| == |t.slots| && t.slots[j] == s.slots[j]
    && (s.slots[j] in s.dead ==> t.slots[j] in t.dead && t.posts[j] == s.posts[j])
    && (j !in s.subscribers ==> j !in t.subscribers)
  }

  lemma StepSilent(s: State, a: Action, t: State, j: nat)
    requires Takes(s, a, t) && j < |s.slots|
    ensures Keeps(s, t, j)
    ensures s.slots[j] in s.dead && a.Invoke? ==> j !in t.subscribers
  {
    if a.Invoke? { SurvivorsMembers(s.slots, s.dead, s.subscribers, j); }
  }

  lemma RunSilent(states: seq<State>, actions: seq<Action>, k: nat, j: nat)
    requires IsRun(states, actions) && k < |actions| && j < |states[k].slots|
    ensures Keeps(states[k], states[k + 1], j)
    ensures states[k].slots[j] in states[k].dead && actions[k].Invoke? ==> j !in states[k + 1].subscribers
  {
    assert Takes(states[k], actions[k], states[k + 1]);
    StepSilent(states[k], actions[k], states[k + 1], j);
  }

  lemma KeepsOn(s: State, t: State, u: State, j: nat)
    requires Keeps(s, t, j) && Keeps(t, u, j)
    ensures Keeps(s, u, j)
  {
  }

  /** From the moment its slot is gone a subscription gets nothing more. */
  lemma {:induction false} ExpiredIsSilent(states: seq<State>, actions: seq<Action>, i: nat, k: nat, j: nat)
    requires IsRun(states, actions) && i < k < |states| && j < |states[i].slots|
    ensures Keeps(states[i], states[k], j)
    ensures states[i].slots[j] in states[i].dead ==> states[k].posts[j] == states[i].posts[j]
  {
    if i < k - 1 {
      ExpiredIsSilent(states, actions, i, k - 1, j);
      RunSilent(states, actions, k - 1, j);
      KeepsOn(states[i], states[k - 1], states[k], j);
    } else {
      RunSilent(states, actions, i, j);
    }
  }

  /** And the next invocation takes it off the list for good. */
  lemma ExpiredIsErased(states: seq<State>, actions: seq<Action>, i: nat, m: nat, k: nat, j: nat)
    requires IsRun(states, actions) && i <= m < k < |states| && actions[m].Invoke?
    requires j < |states[i].slots| && states[i].slots[j] in states[i].dead
    ensures j !in states[k].subscribers
  {
    if i < m { ExpiredIsSilent(states, actions, i, m, j); }
    RunSilent(states, actions, m, j);
    if m + 1 < k { ExpiredIsSilent(states, actions, m + 1, k, j); }
  }

  lemma OwedRecorded(wanted: Event -> bool, past: seq<Event>, rest: seq<Event>, owed: seq<Event>)
    requires owed == Filter(wanted, Recorded(past) + rest)
    ensures Recorded(owed) == Filter(wanted, Recorded(past + rest))
              && Unrecorded(owed) == Filter(wanted, Unrecorded(rest))
  {
    FiltersCommute(IsRecorded, wanted, Recorded(past) + rest);
    FiltersCommute(IsUnrecorded, wanted, Recorded(past) + rest);
    FilterSplits(IsRecorded, Recorded(past), rest);
    FilterSplits(IsUnrecorded, Recorded(past), rest);
    FilterSplits(IsRecorded, past, rest);
    FilterOfFilter(IsRecorded, IsRecorded, past);
    FilterOfFilter(IsRecorded, IsUnrecorded, past);
    assert [] + Unrecorded(rest) == Unrecorded(rest);
  }

  // ---------------------------------------------------------------------------
  // The signal object.

  class RetroactiveSignal {
    var history: seq<Event>
    var subscribers: seq<nat>
    var slots: seq<Slot>

    // The environment: events posted to each subscription, and the slots that are gone.
    var posts: seq<seq<Event>>
    var dead: set<Slot>

    ghost var sinces: seq<nat>
    ghost var givens: seq<Handles>
    ghost var invoked: seq<Invocation>

    ghost function Model(): State
      reads this
    {
      State(history, subscribers, slots, posts, dead, sinces, givens, invoked)
    }

    ghost predicate Valid()
      reads this
    {
      Inv(Model())
    }

    constructor ()
      ensures Valid() && Model() == Start()
    {
      history, subscribers, slots, posts, dead := [], [], [], [], {};
      sinces, givens, invoked := [], [], [];
    }

    method ListenTo(slot: Slot, handles: Handles)
      requires Valid() && slot !in dead
      modifies this
      ensures Valid() && Model() == Step(old(Model()), Listen(slot, handles))
    {
      StepKeeps(Model(), Listen(slot, handles));
      var given := Replay(handles, slot, history);
      posts := posts + [given];
      subscribers := subscribers + [|slots|];
      slots := slots + [slot];
      sinces, givens := sinces + [|invoked|], givens + [handles];
    }

    method InvokeEvent(e: Event, handles: Handles)
      requires Valid()
      modifies this
      ensures Valid() && Model() == Step(old(Model()), Invoke(e, handles))
    {
      StepKeeps(Model(), Invoke(e, handles));
      subscribers, posts := Deliver(handles, subscribers, slots, dead, posts, e);
      if e.recorded {
        history := history + [e];
      }
      invoked := invoked + [Invocation(e, handles)];
    }
  }

  /** Walks the subscribers, erasing the expired ones and posting to the others. */
  method Deliver(handles: Handles, subscribers: seq<nat>, slots: seq<Slot>, dead: set<Slot>, posts: seq<seq<Event>>,
                 e: Event)
    returns (kept: seq<nat>, after: seq<seq<Event>>)
    requires |posts| == |slots| && Ascending(subscribers, |slots|)
    ensures kept == Survivors(slots, dead, subscribers)
    ensures after == Delivered(handles, subscribers, slots, dead, posts, e)
  {
    kept, after := [], posts;
    for i := 0 to |subscribers|
      invariant kept == Survivors(slots, dead, subscribers[..i])
      invariant after == Delivered(handles, subscribers[..i], slots, dead, posts, e)
    {
      var j := subscribers[i];
      NextSurvivor(slots, dead, subscribers, i);
      NextDelivery(handles, subscribers, slots, dead, posts, e, i);
      if slots[j] in dead {
        continue;
      }
      after := after[j := Post(handles, slots[j], after[j], e)];
      kept := kept + [j];
    }
    assert subscribers[..|subscribers|] == subscribers;
  }

  lemma NextSurvivor(slots: seq<Slot>, dead: set<Slot>, subscribers: seq<nat>, i: nat)
    requires i < |subscribers| && subscribers[i] < |slots|
    ensures var kept := Survivors(slots, dead, subscribers[..i]);
            Survivors(slots, dead, subscribers[..i + 1]) ==
            if slots[subscribers[i]] in dead then kept else kept + [subscribers[i]]
  {
    assert subscribers[..i + 1][..i] == subscribers[..i];
  }

  lemma NextDelivery(handles: Handles, subscribers: seq<nat>, slots: seq<Slot>, dead: set<Slot>,
                     posts: seq<seq<Event>>, e: Event, i: nat)
    requires |posts| == |slots| && Ascending(subscribers, |slots|) && i < |subscribers|
    ensures var j := subscribers[i];
            var after := Delivered(handles, subscribers[..i], slots, dead, posts, e);
            Delivered(handles, subscribers[..i + 1], slots, dead, posts, e) ==
            if slots[j] in dead then after else after[j := Post(handles, slots[j], after[j], e)]
  {
    assert subscribers[..i + 1] == subscribers[..i] + [subscribers[i]];
    assert subscribers[i] !in subscribers[..i];
  }

  method Replay(handles: Handles, slot: Slot, history: seq<Event>) returns (given: seq<Event>)
    ensures given == Handled(handles, slot, history)
  {
    given := [];
    for i := 0 to |history|
      invariant given == Handled(handles, slot, history[..i])
    {
      assert history[..i + 1] == history[..i] + [history[i]];
      FilterGrows(Wanted(handles, slot), history[..i], history[i]);
      given := Post(handles, slot, given, history[i]);
    }
    assert history[..|history|] == history;
  }
}
