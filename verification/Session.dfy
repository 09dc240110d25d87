/**
 Virtual channels of a session: incoming messages open channels or continue them, local calls fork
 them, and they leave by the end of their dispatch graph, by revocation, or when the session is
 detached from its transport. Every step is one critical section or one atomic access of the code,
 so that runs are all interleavings of the message pump with other threads.
 */
module Session {
  import opened Common

  type Dispatch = nat

  datatype Code = NoError | RevokedChannel | UnboundDispatch | UncaughtError | Other(value: int)

  const MAX_ID: nat := 0xffff_ffff_ffff_ffff

  /** How a channel left the mapping: with a dispatch still bound or without. */
  datatype Fate = Mapped | Left(bound: bool)

  /**
   A shared channel object. It may outlive its entry in the mapping, because the message being
   handled holds it too. `discards` are the codes its dispatch was discarded with.
   */
  datatype Channel = Channel(id: nat, dispatch: Option<Dispatch>, discards: seq<Code>, fate: Fate)

  /** Where the message pump is. */
  datatype Phase =
    | Idle
    | Admitted                        // past the test of the transport, not yet at the channels
    | Processing(slot: nat)           // inside the dispatch, which may call back into the session
    | Ending(slot: nat)               // the dispatch graph has ended; the channel is to be tested
    | Revoking(slot: nat)             // somebody else holds the channel; the revocation is to come
    | Failing(code: Code)             // an exception on its way to the detaching handler

  datatype Transport = Attached | Detached(code: Code)

  /**
   `objects` holds every channel ever made; `channels` maps ids to positions in it. `clearing` is
   set between the two halves of the detach that found the transport.
   */
  datatype State = State(channels: map<nat, nat>, objects: seq<Channel>, maxId: nat,
                         transport: Transport, clearing: Option<Code>, phase: Phase)

  /** What a dispatch returns from processing a message. */
  datatype Result = Same | Next(dispatch: Option<Dispatch>) | Throw(code: Code)

  /** What preparing a new channel comes to: a dispatch for it, or an exception. */
  datatype Opening = Selects(dispatch: Dispatch) | Raises(code: Code)

  datatype Event =
    | Admit                           // the pump has a message and looks for the transport
    | Receive(id: nat, opening: Opening)
    | Return(result: Result)
    | Test
    | Finish
    | Abandon                         // the pump detaches after an exception
    | Fork(dispatch: Option<Dispatch>)
    | Revoke(rid: nat, code: Code)
    | Detach(code: Code)              // the first half: the transport is swapped out
    | Clear                           // the second half, by whoever got the transport

  predicate Enabled(s: State, e: Event)
  {
    match e
    case Admit => s.phase.Idle?
    case Receive(id, _) => s.phase.Admitted? && id <= MAX_ID
    case Return(_) => s.phase.Processing?
    case Test => s.phase.Ending?
    case Finish => s.phase.Revoking?
    case Abandon => s.phase.Failing?
    case Clear => s.clearing.Some?
    case _ => true
  }

  // ---------------------------------------------------------------------------
  // Opening a channel.

  /**
   The dispatch of a new channel, after the trace has been extracted or has thrown. The timer of the
   message type is looked up before the dispatch is selected, in a table with the prototype's keys.
   */
  function Open(kind: nat, root: map<int, string>, traceFailure: Option<Code>, prototype: Dispatch,
                service: Dispatch): Opening
  {
    if traceFailure.Some? then Raises(traceFailure.value)
    else if ToInt(kind) !in root then Raises(UncaughtError)
    else if kind < |root| then Selects(prototype)
    else Selects(service)
  }

  // Message types are enumerated in 16 bits: a protocol's own from below, the control messages from above.
  const TYPES: nat := 0x1_0000
  const CONTROLS: nat := 4
  const PING: nat := 65533

  /** A key of the root of a protocol with `n` messages of its own and `controls` control messages. */
  predicate RootKey(k: int, n: nat, controls: nat)
  {
    0 <= k < n || TYPES - controls <= k < TYPES
  }

  ghost predicate RootOf(root: map<int, string>, n: nat, controls: nat)
  {
    n + controls <= TYPES && |root| == n + controls && forall k :: k in root <==> RootKey(k, n, controls)
  }

  /**
   What becomes of a message type on a new channel: what a failed trace raised is passed on; otherwise
   it raises an uncaught error exactly when its low 32 bits are no key of the root; the prototype takes
   the keys below the size of the root; the service dispatch takes the other keys, which are the control
   messages, and the types above 32 bits that are keys when narrowed.
   */
  lemma OpeningIff(kind: nat, root: map<int, string>, n: nat, controls: nat, prototype: Dispatch, service: Dispatch)
    requires RootOf(root, n, controls) && prototype != service
    ensures var opening := Open(kind, root, None, prototype, service); var low := kind % 0x1_0000_0000;
            && (opening.Raises? <==> !RootKey(low, n, controls))
            && (opening.Raises? ==> opening.code == UncaughtError)
            && (opening == Selects(prototype) <==> RootKey(kind, n, controls) && kind < n + controls)
            && (opening == Selects(service) <==>
                  && kind >= n + controls
                  && (TYPES - controls <= kind < TYPES || (kind > low && RootKey(low, n, controls))))
    ensures forall code :: Open(kind, root, Some(code), prototype, service) == Raises(code)
  {
  }

  /**
   For the prototype of a service, which has the four control messages and its own `n` below them:
   the control messages reach the service dispatch as intended, the four types behind its own raise
   although they are below the size of the root, and so does every other type of 32 bits.
   */
  lemma PrototypeOpenings(kind: nat, root: map<int, string>, n: nat, prototype: Dispatch, service: Dispatch)
    requires RootOf(root, n, CONTROLS) && n + 2 * CONTROLS <= TYPES && prototype != service && kind < 0x1_0000_0000
    ensures var opening := Open(kind, root, None, prototype, service);
            && (opening == Selects(prototype) <==> kind < n)
            && (opening == Selects(service) <==> TYPES - CONTROLS <= kind < TYPES)
            && (n <= kind < n + CONTROLS ==> kind < |root| && opening.Raises?)
  {
    OpeningIff(kind, root, n, CONTROLS, prototype, service);
  }

  function TwoMethods(): map<int, string>
  {
    map[0 := "method1", 1 := "method2", 65532 := "goaway", 65533 := "ping", 65534 := "settings", 65535 := "revoke"]
  }

  lemma TwoMethodsIsRoot()
    ensures RootOf(TwoMethods(), 2, CONTROLS)
  {
  }

  /** On a protocol with two messages: a ping, a type that is narrowed, and one just behind the two. */
  lemma PingOpens(prototype: Dispatch, service: Dispatch)
    requires prototype != service
    ensures Open(PING, TwoMethods(), None, prototype, service) == Selects(service)
    ensures Open(0x1_0000_0001, TwoMethods(), None, prototype, service) == Selects(service)
    ensures Open(2, TwoMethods(), None, prototype, service).Raises?
  {
    var root := TwoMethods();
    TwoMethodsIsRoot();
    OpeningIff(PING, root, 2, CONTROLS, prototype, service);
    OpeningIff(0x1_0000_0001, root, 2, CONTROLS, prototype, service);
    OpeningIff(2, root, 2, CONTROLS, prototype, service);
  }

  // ---------------------------------------------------------------------------
  // Steps.

  function Leave(c: Channel, code: Code): Channel
  {
    c.(discards := if c.dispatch.Some? then c.discards + [code] else c.discards, fate := Left(c.dispatch.Some?))
  }

  predicate HasSlot(phase: Phase)
  {
    phase.Processing? || phase.Ending? || phase.Revoking?
  }

  /** Positions in the mapping stay within the objects and agree on the id. */
  predicate WellFormed(s: State)
  {
    && (forall id | id in s.channels :: s.channels[id] < |s.objects| && s.objects[s.channels[id]].id == id)
    && (HasSlot(s.phase) ==> s.phase.slot < |s.objects|)
    && s.maxId <= MAX_ID
    && (s.clearing.Some? ==> s.transport == Detached(s.clearing.value))
  }

  function RevokeId(s: State, id: nat, code: Code): State
    requires WellFormed(s)
  {
    if id !in s.channels then s
    else
      var slot := s.channels[id];
      s.(channels := s.channels - {id}, objects := s.objects[slot := Leave(s.objects[slot], code)])
  }

  predicate InMapping(s: State, slot: nat)
    requires slot < |s.objects|
  {
    s.objects[slot].id in s.channels && s.channels[s.objects[slot].id] == slot
  }

  /** Only the detach that finds a transport goes on to clear the mapping. */
  function Swap(s: State, code: Code): State
  {
    if s.transport.Detached? then s else s.(transport := Detached(code), clearing := Some(code))
  }

  function ClearWith(s: State, code: Code): State
    requires WellFormed(s)
  {
    s.(channels := map[], clearing := None,
       objects := seq(|s.objects|, k requires 0 <= k < |s.objects| =>
                        if InMapping(s, k) then Leave(s.objects[k], code) else s.objects[k]))
  }

  function Insert(s: State, id: nat, dispatch: Dispatch): State
  {
    s.(channels := s.channels[id := |s.objects|],
       objects := s.objects + [Channel(id, Some(dispatch), [], Mapped)], maxId := id)
  }

  /** The locked half of `handle`; it does not look at the transport again. */
  function Receives(s: State, id: nat, opening: Opening): State
    requires WellFormed(s)
  {
    if id in s.channels then
      var slot := s.channels[id];
      s.(phase := if s.objects[slot].dispatch.None? then Failing(UnboundDispatch) else Processing(slot))
    else if id <= s.maxId then s.(phase := Failing(RevokedChannel))
    else if opening.Raises? then s.(phase := Failing(opening.code))
    else Insert(s, id, opening.dispatch).(phase := Processing(|s.objects|))
  }

  function Returns(s: State, result: Result): State
    requires WellFormed(s) && s.phase.Processing?
  {
    var slot := s.phase.slot;
    match result
    case Throw(code) => s.(phase := Failing(code))
    case Same =>
      s.(phase := if s.objects[slot].dispatch.None? then Ending(slot) else Idle)
    case Next(dispatch) =>
      s.(objects := s.objects[slot := s.objects[slot].(dispatch := dispatch)],
         phase := if dispatch.None? then Ending(slot) else Idle)
  }

  function Forks(s: State, dispatch: Option<Dispatch>): State
  {
    var id := if s.maxId == MAX_ID then 0 else s.maxId + 1;
    if dispatch.None? || id in s.channels then s.(maxId := id) else Insert(s, id, dispatch.value)
  }

  function Step(s: State, e: Event): State
    requires WellFormed(s) && Enabled(s, e)
  {
    match e
    case Admit => if s.transport.Attached? then s.(phase := Admitted) else s
    case Receive(id, opening) => Receives(s, id, opening)
    case Return(result) => Returns(s, result)
    case Test => s.(phase := if InMapping(s, s.phase.slot) then Revoking(s.phase.slot) else Idle)
    case Finish => RevokeId(s, s.objects[s.phase.slot].id, NoError).(phase := Idle)
    case Abandon => Swap(s, s.phase.code).(phase := Idle)
    case Fork(dispatch) => Forks(s, dispatch)
    case Revoke(id, code) => RevokeId(s, id, code)
    case Detach(code) => Swap(s, code)
    case Clear => ClearWith(s, s.clearing.value)
  }

  // ---------------------------------------------------------------------------
  // Discard accounting.

  /** The pump has taken the dispatch off channel `k` and is about to take the channel out. */
  predicate Closing(s: State, k: nat)
  {
    s.phase == Ending(k) || s.phase == Revoking(k)
  }

  /** The books of one channel object. */
  predicate Accounted(s: State, k: nat)
    requires k < |s.objects|
  {
    var c := s.objects[k];
    && (c.fate.Mapped? <==> InMapping(s, k))
    && |c.discards| == (if c.fate == Left(true) then 1 else 0)
    && (c.fate.Mapped? ==> c.dispatch.Some? || Closing(s, k))
    && (Closing(s, k) ==> c.dispatch.None?)
  }

  ghost predicate Inv(s: State)
  {
    && WellFormed(s)
    && forall k | 0 <= k < |s.objects| :: Accounted(s, k)
  }

  lemma ClearKeeps(s: State, code: Code)
    requires Inv(s)
    ensures Inv(ClearWith(s, code))
  {
    var t := ClearWith(s, code);
    forall k | 0 <= k < |t.objects| ensures Accounted(t, k) { assert Accounted(s, k); }
  }

  lemma RevokeKeeps(s: State, id: nat, code: Code)
    requires Inv(s)
    ensures Inv(RevokeId(s, id, code))
  {
    var t := RevokeId(s, id, code);
    forall k | 0 <= k < |t.objects| ensures Accounted(t, k) { assert Accounted(s, k); }
  }

  lemma InsertKeeps(s: State, id: nat, dispatch: Dispatch)
    requires Inv(s) && id !in s.channels && id <= MAX_ID
    ensures Inv(Insert(s, id, dispatch))
  {
    var t := Insert(s, id, dispatch);
    forall k | 0 <= k < |t.objects| ensures Accounted(t, k) {
      if k < |s.objects| { assert Accounted(s, k); }
    }
  }

  lemma ReturnKeeps(s: State, result: Result)
    requires Inv(s) && s.phase.Processing?
    ensures Inv(Returns(s, result))
  {
    var t := Returns(s, result);
    forall k | 0 <= k < |t.objects| ensures Accounted(t, k) { assert Accounted(s, k); }
  }

  /** Moving on is fine unless a closing channel would be left behind in the mapping. */
  lemma PhaseKeeps(s: State, phase: Phase)
    requires Inv(s) && (HasSlot(phase) ==> phase.slot < |s.objects|)
    requires phase.Ending? || phase.Revoking? ==> s.phase.Ending? && s.phase.slot == phase.slot
    requires Closing(s.(phase := phase), if HasSlot(s.phase) then s.phase.slot else 0) ||
             ((s.phase.Ending? || s.phase.Revoking?) ==> !InMapping(s, s.phase.slot))
    ensures Inv(s.(phase := phase))
  {
    var t := s.(phase := phase);
    forall k | 0 <= k < |t.objects| ensures Accounted(t, k) { assert Accounted(s, k); }
  }

  lemma SwapKeeps(s: State, code: Code)
    requires Inv(s)
    ensures Inv(Swap(s, code))
  {
    var t := Swap(s, code);
    forall k | 0 <= k < |t.objects| ensures Accounted(t, k) { assert Accounted(s, k); }
  }

  lemma ReceiveKeeps(s: State, id: nat, opening: Opening)
    requires Inv(s) && s.phase.Admitted? && id <= MAX_ID
    ensures Inv(Receives(s, id, opening))
  {
    if id !in s.channels && id > s.maxId && opening.Selects? {
      InsertKeeps(s, id, opening.dispatch);
      PhaseKeeps(Insert(s, id, opening.dispatch), Processing(|s.objects|));
    } else {
      PhaseKeeps(s, Receives(s, id, opening).phase);
    }
  }

  /** Every step keeps the books, whatever runs inside a dispatch or on other threads. */
  lemma StepKeeps(s: State, e: Event)
    requires Inv(s) && Enabled(s, e)
    ensures Inv(Step(s, e))
  {
    match e
    case Admit => PhaseKeeps(s, Step(s, e).phase);
    case Receive(id, opening) => ReceiveKeeps(s, id, opening);
    case Return(result) => ReturnKeeps(s, result);
    case Test => PhaseKeeps(s, Step(s, e).phase);
    case Finish =>
      RevokeKeeps(s, s.objects[s.phase.slot].id, NoError);
      PhaseKeeps(RevokeId(s, s.objects[s.phase.slot].id, NoError), Idle);
    case Abandon =>
      SwapKeeps(s, s.phase.code);
      PhaseKeeps(Swap(s, s.phase.code), Idle);
    case Fork(dispatch) => ForkKeeps(s, dispatch);
    case Revoke(id, code) => RevokeKeeps(s, id, code);
    case Detach(code) => SwapKeeps(s, code);
    case Clear => ClearKeeps(s, s.clearing.value);
  }

  lemma ForkKeeps(s: State, dispatch: Option<Dispatch>)
    requires Inv(s)
    ensures Inv(Forks(s, dispatch))
  {
    var id := if s.maxId == MAX_ID then 0 else s.maxId + 1;
    if dispatch.None? || id in s.channels {
      var t := s.(maxId := id);
      forall k | 0 <= k < |t.objects| ensures Accounted(t, k) { assert Accounted(s, k); }
    } else {
      InsertKeeps(s, id, dispatch.value);
    }
  }

  function Fresh(): State
  {
    State(map[], [], 0, Attached, None, Idle)
  }

  predicate Takes(s: State, e: Event, t: State)
  {
    WellFormed(s) && Enabled(s, e) && t == Step(s, e)
  }

  ghost predicate IsRun(states: seq<State>, events: seq<Event>)
  {
    && |states| == |events| + 1 && states[0] == Fresh()
    && forall i | 0 <= i < |events| :: Takes(states[i], events[i], states[i + 1])
  }

  /** The events lead from a fresh session to this state. */
  ghost predicate Reaches(events: seq<Event>, s: State)
  {
    exists states :: IsRun(states, events) && states[|events|] == s
  }

  lemma ReachStep(events: seq<Event>, s: State, e: Event, t: State)
    requires Reaches(events, s) && Takes(s, e, t)
    ensures Reaches(events + [e], t)
  {
    var states :| IsRun(states, events) && states[|events|] == s;
    var more, longer := states + [t], events + [e];
    forall i | 0 <= i < |longer| ensures Takes(more[i], longer[i], more[i + 1]) {
      if i < |events| { assert Takes(states[i], events[i], states[i + 1]); }
    }
    assert IsRun(more, longer);
  }

  lemma ReachFresh()
    ensures Reaches([], Fresh())
  {
    assert IsRun([Fresh()], []);
  }

  lemma {:induction false} RunsKeep(states: seq<State>, events: seq<Event>, k: nat)
    requires IsRun(states, events) && k < |states|
    ensures Inv(states[k])
  {
    if k > 0 {
      RunsKeep(states, events, k - 1);
      assert Takes(states[k - 1], events[k - 1], states[k - 1 + 1]);
      StepKeeps(states[k - 1], events[k - 1]);
    }
  }

  /**
   Discard accounting at every point of every run: a mapped channel has not been discarded, a
   channel that left with a dispatch bound was discarded exactly once, one whose dispatch graph had
   ended not at all; and every mapped channel but the one being closed has a dispatch.
   */
  lemma DiscardAccounting(states: seq<State>, events: seq<Event>, n: nat, k: nat)
    requires IsRun(states, events) && n < |states| && k < |states[n].objects|
    ensures var s := states[n]; var c := s.objects[k];
            && (c.fate.Mapped? <==> c.id in s.channels && s.channels[c.id] == k)
            && (c.fate.Mapped? ==> c.discards == [])
            && (c.fate == Left(true) ==> |c.discards| == 1)
            && (c.fate == Left(false) ==> c.discards == [])
            && (c.fate.Mapped? && !Closing(s, k) ==> c.dispatch.Some?)
  {
    RunsKeep(states, events, n);
    assert Accounted(states[n], k);
  }

  // ---------------------------------------------------------------------------
  // What single messages and revocations do.

  /**
   Routing: an admitted message is processed exactly when its channel is mapped or may be opened,
   by the bound dispatch of the channel with its id, the selected one if new; otherwise it touches
   no channel and fails as revoked, or with what opening raised.
   */
  lemma MessageRouting(s: State, id: nat, opening: Opening)
    requires Inv(s) && Enabled(s, Receive(id, opening))
    ensures var t := Step(s, Receive(id, opening));
            && (t.phase.Processing? <==> id in s.channels || (id > s.maxId && opening.Selects?))
            && (t.phase.Processing? ==>
                  && t.phase.slot < |t.objects| && InMapping(t, t.phase.slot)
                  && var c := t.objects[t.phase.slot];
                     && c.id == id && c.dispatch.Some?
                     && (id in s.channels || (c.dispatch == Some(opening.dispatch) && t.maxId == id)))
            && (!t.phase.Processing? ==>
                  t == s.(phase := Failing(if id <= s.maxId then RevokedChannel else opening.code)))
            && (forall other | other != id :: other in s.channels <==> other in t.channels)
            && t.transport == s.transport && t.clearing == s.clearing
  {
    if id in s.channels { assert Accounted(s, s.channels[id]); }
  }

  /** Revocation takes one channel out, discards it once if bound, and touches no other. */
  lemma RevocationEffect(s: State, id: nat, code: Code, k: nat)
    requires Inv(s) && k < |s.objects|
    ensures var t := Step(s, Revoke(id, code)); var c, d := s.objects[k], t.objects[k];
            && t.channels == s.channels - {id} && t.phase == s.phase && t.transport == s.transport
            && (c.id != id || !c.fate.Mapped? ==> d == c)
            && (c.id == id && c.fate.Mapped? ==>
                  d.fate == Left(c.dispatch.Some?) && d.discards == if c.dispatch.Some? then [code] else [])
  {
    assert Accounted(s, k);
    if id in s.channels { assert Accounted(s, s.channels[id]); }
  }

  /** The end of a dispatch graph takes a mapped channel out without a discard. */
  lemma GraphEnd(s: State)
    requires Inv(s) && s.phase.Processing? && InMapping(s, s.phase.slot)
    ensures var k := s.phase.slot; var mid := Step(s, Return(Next(None)));
            && Inv(mid) && mid.phase == Ending(k)
            && var next := Step(mid, Test);
               && Inv(next) && next.phase == Revoking(k)
               && var t := Step(next, Finish);
                  && t.phase.Idle? && t.channels == s.channels - {s.objects[k].id}
                  && t.objects[k].fate == Left(false) && t.objects[k].discards == []
  {
    StepKeeps(s, Return(Next(None)));
    StepKeeps(Step(s, Return(Next(None))), Test);
    assert Accounted(s, s.phase.slot);
  }

  /** What the end of a message does: the result is stored, and decides how the pump goes on. */
  lemma ReturnEffect(s: State, result: Result, k: nat)
    requires Inv(s) && s.phase.Processing? && k < |s.objects|
    ensures var t := Step(s, Return(result)); var slot, c, d := s.phase.slot, s.objects[k], t.objects[k];
            && t.channels == s.channels && t.maxId == s.maxId && t.transport == s.transport && t.clearing == s.clearing
            && (k != slot ==> d == c)
            && (d.id == c.id && d.discards == c.discards && d.fate == c.fate)
            && (k == slot ==> d.dispatch == if result.Next? then result.dispatch else c.dispatch)
            && (result.Throw? ==> t.phase == Failing(result.code))
            && (k == slot && !result.Throw? ==> t.phase == if d.dispatch.None? then Ending(slot) else Idle)
  {
  }

  /** The id of a fork is the next one in 64 bits; a channel is made for it exactly with a dispatch and a free id. */
  lemma ForkEffect(s: State, dispatch: Option<Dispatch>)
    requires WellFormed(s)
    ensures var t := Step(s, Fork(dispatch)); var id := (s.maxId + 1) % 0x1_0000_0000_0000_0000;
            && t.maxId == id && t.phase == s.phase && t.transport == s.transport && t.clearing == s.clearing
            && s.objects <= t.objects
            && (|t.objects| > |s.objects| <==> dispatch.Some? && id !in s.channels)
            && (|t.objects| > |s.objects| ==>
                  && t.objects == s.objects + [Channel(id, dispatch, [], Mapped)]
                  && t.channels == s.channels[id := |s.objects|])
            && (|t.objects| == |s.objects| ==> t.channels == s.channels)
  {
  }

  /** The other steps of the pump: admission exactly while attached, and the test whether the channel is mapped. */
  lemma PumpEffect(s: State, e: Event)
    requires WellFormed(s) && Enabled(s, e)
    ensures e.Admit? ==> Step(s, e) == if s.transport.Attached? then s.(phase := Admitted) else s
    ensures e.Test? ==>
              var c := s.objects[s.phase.slot]; var mapped := c.id in s.channels && s.channels[c.id] == s.phase.slot;
              Step(s, e) == s.(phase := if mapped then Revoking(s.phase.slot) else Idle)
    ensures e.Fork? || e.Revoke? || e.Detach? || e.Clear? ==> Step(s, e).phase == s.phase
  {
  }

  /** The pump's last step is a revocation by id, whatever channel has that id by then. */
  lemma FinishIsRevocation(s: State)
    requires WellFormed(s) && s.phase.Revoking?
    ensures Step(s, Finish) == Step(s, Revoke(s.objects[s.phase.slot].id, NoError)).(phase := Idle)
  {
  }

  // ---------------------------------------------------------------------------
  // Which dispatch a channel is bound to, and which handles a message.

  /** The dispatch with which an event makes a channel. */
  function MadeWith(e: Event): Option<Dispatch>
  {
    match e
    case Receive(_, Selects(dispatch)) => Some(dispatch)
    case Fork(dispatch) => dispatch
    case _ => None
  }

  /**
   The dispatch given to a channel last: by its latest result that was a dispatch or the end of the
   graph, or else when it was made.
   */
  function BoundLast(states: seq<State>, events: seq<Event>, k: nat, slot: nat): Option<Dispatch>
    requires k < |states| == |events| + 1
  {
    if k == 0 then None
    else if slot >= |states[k - 1].objects| then MadeWith(events[k - 1])
    else if states[k - 1].phase == Processing(slot) && events[k - 1].Return? && events[k - 1].result.Next?
    then events[k - 1].result.dispatch
    else BoundLast(states, events, k - 1, slot)
  }

  lemma StepBinds(s: State, e: Event, t: State, slot: nat)
    requires Takes(s, e, t) && slot < |t.objects|
    ensures t.objects[slot].dispatch ==
            if slot >= |s.objects| then MadeWith(e)
            else if s.phase == Processing(slot) && e.Return? && e.result.Next? then e.result.dispatch
            else s.objects[slot].dispatch
  {
  }

  /** At every point of every run, a channel is bound to the dispatch given to it last. */
  lemma {:induction false} BoundToLast(states: seq<State>, events: seq<Event>, k: nat, slot: nat)
    requires IsRun(states, events) && k < |states| && slot < |states[k].objects|
    ensures states[k].objects[slot].dispatch == BoundLast(states, events, k, slot)
  {
    if k > 0 {
      var s, e, t := states[k - 1], events[k - 1], states[k];
      assert Takes(states[k - 1], events[k - 1], states[k - 1 + 1]);
      StepBinds(s, e, t, slot);
      if slot < |s.objects| { BoundToLast(states, events, k - 1, slot); }
    }
  }

  /** The position of the message being handled: the last one taken to the channels. */
  function LastMessage(events: seq<Event>): int
  {
    if events == [] then -1
    else if events[|events| - 1].Receive? then |events| - 1
    else LastMessage(events[..|events| - 1])
  }

  /** Where the message at position `i` went: to the channel its id was mapped to once it was taken. */
  ghost predicate WentTo(states: seq<State>, events: seq<Event>, i: int, slot: nat)
  {
    && 0 <= i < |events| < |states| && events[i].Receive?
    && events[i].id in states[i + 1].channels && states[i + 1].channels[events[i].id] == slot
  }

  /** While the pump is inside a dispatch or closing a channel, it is with the last message taken. */
  lemma {:induction false} PumpIsWithLast(states: seq<State>, events: seq<Event>, k: nat)
    requires IsRun(states, events) && k < |states| && HasSlot(states[k].phase)
    ensures WentTo(states, events, LastMessage(events[..k]), states[k].phase.slot)
  {
    if k > 0 {
      assert Takes(states[k - 1], events[k - 1], states[k - 1 + 1]);
      RunsKeep(states, events, k - 1);
      assert events[..k][..k - 1] == events[..k - 1];
      if !events[k - 1].Receive? { PumpIsWithLast(states, events, k - 1); }
    }
  }

  /**
   Routing over runs: a message on a mapped channel is processed by the dispatch given to that
   channel last, and one that opens a channel by the dispatch selected for it.
   */
  lemma HandledBy(states: seq<State>, events: seq<Event>, k: nat)
    requires IsRun(states, events) && k < |events| && events[k].Receive? && states[k + 1].phase.Processing?
    ensures var id, slot := events[k].id, states[k + 1].phase.slot;
            && WentTo(states, events, k, slot)
            && states[k + 1].objects[slot].dispatch == BoundLast(states, events, k + 1, slot)
            && (id in states[k].channels ==>
                  && slot == states[k].channels[id] < |states[k].objects|
                  && states[k + 1].objects[slot].dispatch == BoundLast(states, events, k, slot))
            && (id !in states[k].channels ==> states[k + 1].objects[slot].dispatch == MadeWith(events[k]))
            && states[k + 1].objects[slot].dispatch.Some?
  {
    assert Takes(states[k], events[k], states[k + 1]);
    RunsKeep(states, events, k);
    MessageRouting(states[k], events[k].id, events[k].opening);
    BoundToLast(states, events, k + 1, states[k + 1].phase.slot);
  }

  // ---------------------------------------------------------------------------
  // Detaching.

  /** The detach that found the transport empties the mapping and discards each bound channel with its code. */
  lemma ClearDiscards(s: State, k: nat)
    requires Inv(s) && s.clearing.Some? && k < |s.objects|
    ensures var t := Step(s, Clear); var c, d := s.objects[k], t.objects[k];
            && t.channels == map[] && t.transport == s.transport == Detached(s.clearing.value) && !d.fate.Mapped?
            && (c.fate.Mapped? ==> d.discards == if c.dispatch.Some? then [s.clearing.value] else [])
            && (!c.fate.Mapped? ==> d == c)
  {
    assert Accounted(s, k);
  }

  /** A failing pump detaches with its code if nobody did before. */
  lemma FailureDetaches(s: State)
    requires WellFormed(s) && s.phase.Failing?
    ensures var t := Step(s, Abandon);
            && t.phase.Idle? && t.channels == s.channels && t.objects == s.objects
            && (s.transport.Attached? ==> t.transport == Detached(s.phase.code) && t.clearing == Some(s.phase.code))
            && (s.transport.Detached? ==> t.transport == s.transport && t.clearing == s.clearing)
  {
  }

  /** Both halves of the one effective detach are behind. */
  predicate Cleared(s: State)
  {
    s.transport.Detached? && s.clearing.None?
  }

  /** Detachment is for good: no step brings the transport back, and no second clearing follows. */
  lemma DetachedStep(s: State, e: Event)
    requires WellFormed(s) && Enabled(s, e) && s.transport.Detached?
    ensures Step(s, e).transport == s.transport
    ensures Cleared(s) ==> Cleared(Step(s, e))
    ensures e.Detach? || e.Admit? ==> Step(s, e) == s
    ensures !s.phase.Admitted? ==> !Step(s, e).phase.Admitted?
  {
  }

  lemma DetachedTakes(s: State, e: Event, t: State)
    requires Takes(s, e, t) && s.transport.Detached?
    ensures t.transport == s.transport && (Cleared(s) ==> Cleared(t))
    ensures e.Detach? || e.Admit? ==> t == s
    ensures t.phase.Admitted? ==> s.phase.Admitted?
  {
    DetachedStep(s, e);
  }

  lemma {:induction false} StaysDetached(states: seq<State>, events: seq<Event>, i: nat, j: nat)
    requires IsRun(states, events) && i <= j < |states| && states[i].transport.Detached?
    ensures states[j].transport == states[i].transport && (Cleared(states[i]) ==> Cleared(states[j]))
    ensures states[j].phase.Admitted? ==> forall m | i <= m <= j :: states[m].phase.Admitted?
  {
    if i < j {
      StaysDetached(states, events, i, j - 1);
      assert Takes(states[j - 1], events[j - 1], states[j - 1 + 1]);
      DetachedTakes(states[j - 1], events[j - 1], states[j]);
    }
  }

  /**
   In every run, once the transport is gone it stays gone, later detaches and later messages have no
   effect, and the only message still handled is the one admitted before: until then the pump waits.
   */
  lemma DetachedForGood(states: seq<State>, events: seq<Event>, i: nat, j: nat)
    requires IsRun(states, events) && i <= j < |states| && states[i].transport.Detached?
    ensures states[j].transport == states[i].transport
    ensures Cleared(states[i]) ==> Cleared(states[j])
    ensures j < |events| && (events[j].Detach? || events[j].Admit?) ==> states[j + 1] == states[j]
    ensures states[j].phase.Admitted? ==> forall m | i <= m <= j :: states[m].phase.Admitted?
  {
    StaysDetached(states, events, i, j);
    if j < |events| {
      assert Takes(states[j], events[j], states[j + 1]);
      DetachedTakes(states[j], events[j], states[j + 1]);
    }
  }

  /** The code a step of the pump fails with, if it does. */
  function Failure(s: State, e: Event): Option<Code>
  {
    match e
    case Return(Throw(code)) => Some(code)
    case Receive(id, opening) =>
      if id in s.channels then None
      else if id <= s.maxId then Some(RevokedChannel)
      else if opening.Raises? then Some(opening.code) else None
    case _ => None
  }

  /** The code a step tries to detach with: its own, or that of the failure the pump is in. */
  function DetachesWith(s: State, e: Event): Option<Code>
  {
    match e
    case Detach(code) => Some(code)
    case Abandon => if s.phase.Failing? then Some(s.phase.code) else None
    case _ => None
  }

  /** The pump is failing exactly since a step that failed with this code. */
  ghost predicate FailedAt(states: seq<State>, events: seq<Event>, i: int, k: int, code: Code)
  {
    && 0 <= i < k <= |events| < |states| && Failure(states[i], events[i]) == Some(code)
    && forall j | i < j < k :: !events[j].Abandon?
  }

  ghost predicate FailedSince(states: seq<State>, events: seq<Event>, k: int, code: Code)
  {
    exists i :: FailedAt(states, events, i, k, code)
  }

  lemma StepFails(s: State, e: Event, t: State, code: Code)
    requires Inv(s) && Takes(s, e, t)
    ensures t.phase == Failing(code) <==>
            (s.phase == Failing(code) && !e.Abandon?) || Failure(s, e) == Some(code)
  {
    if e.Receive? && e.id in s.channels { assert Accounted(s, s.channels[e.id]); }
  }

  /** In every run the pump is failing with a code exactly since a step raised it and until it is abandoned. */
  lemma {:induction false} FailingSince(states: seq<State>, events: seq<Event>, k: nat, code: Code)
    requires IsRun(states, events) && k < |states|
    ensures states[k].phase == Failing(code) <==> FailedSince(states, events, k, code)
  {
    if k > 0 {
      FailingSince(states, events, k - 1, code);
      RunsKeep(states, events, k - 1);
      assert Takes(states[k - 1], events[k - 1], states[k - 1 + 1]);
      StepFails(states[k - 1], events[k - 1], states[k], code);
      FailedStep(states, events, k, code);
    }
  }

  lemma FailedStep(states: seq<State>, events: seq<Event>, k: nat, code: Code)
    requires 0 < k <= |events| < |states|
    ensures FailedSince(states, events, k, code) <==>
            || (FailedSince(states, events, k - 1, code) && !events[k - 1].Abandon?)
            || Failure(states[k - 1], events[k - 1]) == Some(code)
  {
    if FailedSince(states, events, k - 1, code) && !events[k - 1].Abandon? {
      var i :| FailedAt(states, events, i, k - 1, code);
      assert FailedAt(states, events, i, k, code);
    }
    if Failure(states[k - 1], events[k - 1]) == Some(code) { assert FailedAt(states, events, k - 1, k, code); }
    if FailedSince(states, events, k, code) {
      var i :| FailedAt(states, events, i, k, code);
      if i < k - 1 { assert FailedAt(states, events, i, k - 1, code); }
    }
  }

  /** The first detach of a run: nobody tried before. */
  ghost predicate FirstDetach(states: seq<State>, events: seq<Event>, i: int, k: int, code: Code)
  {
    && 0 <= i < k <= |events| < |states| && DetachesWith(states[i], events[i]) == Some(code)
    && forall j | 0 <= j < i :: DetachesWith(states[j], events[j]).None?
  }

  ghost predicate Tried(states: seq<State>, events: seq<Event>, k: int)
    requires k <= |events| < |states|
  {
    exists j :: 0 <= j < k && DetachesWith(states[j], events[j]).Some?
  }

  /** The session is detached exactly once somebody tried to, and with the code of the first who did. */
  lemma {:induction false} DetachedByFirst(states: seq<State>, events: seq<Event>, k: nat)
    requires IsRun(states, events) && k < |states|
    ensures states[k].transport.Detached? <==> Tried(states, events, k)
    ensures states[k].transport.Detached? ==> exists i :: FirstDetach(states, events, i, k, states[k].transport.code)
  {
    if k > 0 {
      DetachedByFirst(states, events, k - 1);
      var s, e, t := states[k - 1], events[k - 1], states[k];
      assert Takes(states[k - 1], events[k - 1], states[k - 1 + 1]);
      StepDetaches(s, e, t);
      if s.transport.Detached? {
        var i :| FirstDetach(states, events, i, k - 1, s.transport.code);
        assert FirstDetach(states, events, i, k, t.transport.code);
      } else if DetachesWith(s, e).Some? {
        assert FirstDetach(states, events, k - 1, k, t.transport.code);
      }
    }
  }

  lemma StepDetaches(s: State, e: Event, t: State)
    requires Takes(s, e, t)
    ensures t.transport == if s.transport.Attached? && DetachesWith(s, e).Some? then Detached(DetachesWith(s, e).value)
                           else s.transport
  {
  }

  /** A step that puts a channel into the mapping. */
  predicate Opens(s: State, e: Event)
  {
    || (e.Fork? && e.dispatch.Some? && (if s.maxId == MAX_ID then 0 else s.maxId + 1) !in s.channels)
    || (e.Receive? && e.id !in s.channels && e.id > s.maxId && e.opening.Selects?)
  }

  lemma EmptyUntilOpened(s: State, e: Event)
    requires WellFormed(s) && Enabled(s, e) && s.channels == map[]
    ensures Step(s, e).channels == map[] <==> !Opens(s, e)
  {
  }

  /** After the clearing: a fork with a dispatch, or the one message that was admitted before the detach. */
  ghost predicate Late(states: seq<State>, events: seq<Event>, i: nat, m: nat)
    requires |states| == |events| + 1
  {
    && i <= m < |events| && Opens(states[m], events[m])
    && (events[m].Fork? || (events[m].Receive? && forall k | i <= k <= m :: states[k].phase.Admitted?))
  }

  /**
   In every run, after both halves of a detach an empty mapping stays empty until a channel is
   forked with a dispatch or opened by the message admitted before the detach.
   */
  lemma {:induction false} EmptyAfterDetach(states: seq<State>, events: seq<Event>, i: nat, j: nat)
    requires IsRun(states, events) && i <= j < |states| && Cleared(states[i]) && states[i].channels == map[]
    ensures states[j].channels == map[] || exists m: nat :: m < j && Late(states, events, i, m)
  {
    if i < j {
      EmptyAfterDetach(states, events, i, j - 1);
      if states[j - 1].channels == map[] {
        assert Takes(states[j - 1], events[j - 1], states[j - 1 + 1]);
        EmptyUntilOpened(states[j - 1], events[j - 1]);
        DetachedForGood(states, events, i, j - 1);
        if Opens(states[j - 1], events[j - 1]) { assert Late(states, events, i, j - 1); }
      }
    }
  }

  /** A channel in the mapping after the clearing leaves it by its revocation alone, never by a detach. */
  lemma LeavesOnlyRevoked(s: State, e: Event, k: nat)
    requires Inv(s) && Enabled(s, e) && Cleared(s) && k < |s.objects| && s.objects[k].fate.Mapped?
    ensures var id := s.objects[k].id;
            InMapping(Step(s, e), k) <==>
            !((e.Revoke? && e.rid == id) || (e.Finish? && s.objects[s.phase.slot].id == id))
  {
    assert Accounted(s, k);
  }

  /** Such channels exist: a message admitted before the detach opens one that no detach will discard. */
  lemma AdmittedOpensLate(code: Code, id: nat, dispatch: Dispatch) returns (s: State)
    requires 0 < id <= MAX_ID
    ensures Reaches([Admit, Detach(code), Clear, Receive(id, Selects(dispatch))], s)
    ensures Cleared(s) && s.channels == map[id := 0] && s.objects == [Channel(id, Some(dispatch), [], Mapped)]
  {
    var gone := State(map[], [], 0, Detached(code), None, Admitted);
    s := State(map[id := 0], [Channel(id, Some(dispatch), [], Mapped)], id, Detached(code), None, Processing(0));
    AdmittedThenDetached(code, gone);
    ReachStep([Admit, Detach(code), Clear], gone, Receive(id, Selects(dispatch)), s);
    assert [Admit, Detach(code), Clear] + [Receive(id, Selects(dispatch))] ==
           [Admit, Detach(code), Clear, Receive(id, Selects(dispatch))];
  }

  lemma AdmittedThenDetached(code: Code, gone: State)
    requires gone == State(map[], [], 0, Detached(code), None, Admitted)
    ensures Reaches([Admit, Detach(code), Clear], gone)
  {
    var swapped := gone.(clearing := Some(code));
    AdmittedFirst(Fresh().(phase := Admitted));
    ReachStep([Admit], Fresh().(phase := Admitted), Detach(code), swapped);
    assert [Admit] + [Detach(code)] == [Admit, Detach(code)];
    ReachStep([Admit, Detach(code)], swapped, Clear, gone);
    assert [Admit, Detach(code)] + [Clear] == [Admit, Detach(code), Clear];
  }

  lemma AdmittedFirst(s: State)
    requires s == Fresh().(phase := Admitted)
    ensures Reaches([Admit], s)
  {
    ReachFresh();
    ReachStep([], Fresh(), Admit, s);
    assert [] + [Admit] == [Admit];
  }

  // ---------------------------------------------------------------------------
  // Freshness of channel ids.

  /** No id belongs to two channels, and none is above the maximum. */
  ghost predicate Distinct(s: State)
  {
    && (forall k | 0 <= k < |s.objects| :: 0 < s.objects[k].id <= s.maxId)
    && (forall j, k | 0 <= j < k < |s.objects| :: s.objects[j].id != s.objects[k].id)
  }

  /** The one step that wraps the counter around. */
  predicate Wraps(s: State, e: Event)
  {
    e.Fork? && s.maxId == MAX_ID
  }

  lemma ObjectIds(s: State, e: Event)
    requires WellFormed(s) && Enabled(s, e)
    ensures var t := Step(s, e);
            && |s.objects| <= |t.objects| <= |s.objects| + 1
            && (forall k | 0 <= k < |s.objects| :: t.objects[k].id == s.objects[k].id)
            && (|t.objects| > |s.objects| ==> t.objects[|s.objects|].id == t.maxId)
            && (|t.objects| == |s.objects| && !e.Fork? ==> t.maxId == s.maxId)
  {
  }

  /** The maximum goes down in exactly one case, and otherwise ids stay distinct. */
  lemma StepFresh(s: State, e: Event)
    requires WellFormed(s) && Enabled(s, e) && Distinct(s)
    ensures Step(s, e).maxId >= s.maxId <==> !Wraps(s, e)
    ensures !Wraps(s, e) ==> Distinct(Step(s, e))
    ensures !Wraps(s, e) && |Step(s, e).objects| > |s.objects| ==> Step(s, e).maxId > s.maxId
  {
    ObjectIds(s, e);
  }

  lemma {:induction false} RunsFresh(states: seq<State>, events: seq<Event>, k: nat)
    requires IsRun(states, events) && k < |states|
    requires forall i | 0 <= i < k :: !Wraps(states[i], events[i])
    ensures Distinct(states[k]) && WellFormed(states[k])
  {
    RunsKeep(states, events, k);
    if k > 0 {
      RunsFresh(states, events, k - 1);
      assert Takes(states[k - 1], events[k - 1], states[k - 1 + 1]);
      StepFresh(states[k - 1], events[k - 1]);
    }
  }

  /**
   Freshness over every run in which the counter does not wrap: no id is ever used for two channels,
   and a message on a channel that left the mapping is refused, closing the session as revoked.
   */
  lemma RemovedStaysRevoked(states: seq<State>, events: seq<Event>, n: nat, k: nat, opening: Opening)
    requires IsRun(states, events) && n < |states| && k < |states[n].objects|
    requires forall i | 0 <= i < n :: !Wraps(states[i], events[i])
    requires var s := states[n]; !s.objects[k].fate.Mapped? && s.phase.Admitted?
    ensures var s := states[n]; var id := s.objects[k].id;
            && (forall j | 0 <= j < |s.objects| && s.objects[j].id == id :: j == k)
            && WellFormed(s) && Enabled(s, Receive(id, opening))
            && Step(s, Receive(id, opening)) == s.(phase := Failing(RevokedChannel))
  {
    var s := states[n];
    RunsKeep(states, events, n);
    RunsFresh(states, events, n);
    assert Accounted(s, k);
  }

  /** Maximum over a run: it never goes down without a wrap. */
  lemma {:induction false} MaximumGrows(states: seq<State>, events: seq<Event>, i: nat, j: nat)
    requires IsRun(states, events) && i <= j < |states|
    requires forall k | 0 <= k < j :: !Wraps(states[k], events[k])
    ensures states[i].maxId <= states[j].maxId
  {
    if i < j {
      MaximumGrows(states, events, i, j - 1);
      RunsFresh(states, events, j - 1);
      assert Takes(states[j - 1], events[j - 1], states[j - 1 + 1]);
      StepFresh(states[j - 1], events[j - 1]);
    }
  }

  /** A wrap forgets every removed id above the restarted counter: a message on it opens it again. */
  lemma WrapForgets(s: State, k: nat, dispatch: Dispatch)
    requires Inv(s) && Distinct(s) && s.maxId == MAX_ID && s.phase.Admitted?
    requires k < |s.objects| && !s.objects[k].fate.Mapped?
    ensures var t := Step(s, Fork(None)); var id := s.objects[k].id;
            && Inv(t) && t.maxId == 0 < id
            && Enabled(t, Receive(id, Selects(dispatch)))
            && Step(t, Receive(id, Selects(dispatch))) == Insert(t, id, dispatch).(phase := Processing(|t.objects|))
  {
    StepKeeps(s, Fork(None));
    assert Accounted(s, k);
  }

  /** Such a state is reached when a peer uses the largest id: channel 7 opens and ends before that. */
  lemma LargestIdReachesWrap() returns (events: seq<Event>, s: State)
    ensures Reaches(events, s) && s.maxId == MAX_ID && s.transport.Attached? && s.phase.Admitted?
    ensures |s.objects| == 2 && s.objects[0].id == 7 && s.objects[0].fate == Left(false)
  {
    var ended := Channel(7, None, [], Left(false));
    var none := State(map[], [ended], 7, Attached, None, Idle);
    var two := State(map[MAX_ID := 1], [ended, Channel(MAX_ID, Some(1), [], Mapped)], MAX_ID, Attached, None, Idle);
    events := SevenOpensAndEnds(none);
    ReachStep(events, none, Admit, none.(phase := Admitted));
    events := events + [Admit];
    ReachStep(events, none.(phase := Admitted), Receive(MAX_ID, Selects(1)), two.(phase := Processing(1)));
    events := events + [Receive(MAX_ID, Selects(1))];
    ReachStep(events, two.(phase := Processing(1)), Return(Same), two);
    events := events + [Return(Same)];
    s := two.(phase := Admitted);
    ReachStep(events, two, Admit, s);
    events := events + [Admit];
  }

  lemma SevenOpensAndEnds(none: State) returns (events: seq<Event>)
    requires none == State(map[], [Channel(7, None, [], Left(false))], 7, Attached, None, Idle)
    ensures Reaches(events, none)
  {
    var c := Channel(7, None, [], Mapped);
    var one := State(map[7 := 0], [c], 7, Attached, None, Ending(0));
    events := SevenOpens(one);
    ReachStep(events, one, Test, one.(phase := Revoking(0)));
    events := events + [Test];
    assert one.channels - {7} == map[];
    ReachStep(events, one.(phase := Revoking(0)), Finish, none);
    events := events + [Finish];
  }

  lemma SevenOpens(one: State) returns (events: seq<Event>)
    requires one == State(map[7 := 0], [Channel(7, None, [], Mapped)], 7, Attached, None, Ending(0))
    ensures Reaches(events, one)
  {
    var bound := one.(objects := [Channel(7, Some(1), [], Mapped)], phase := Processing(0));
    AdmittedFirst(Fresh().(phase := Admitted));
    events := [Admit];
    ReachStep(events, Fresh().(phase := Admitted), Receive(7, Selects(1)), bound);
    events := events + [Receive(7, Selects(1))];
    ReachStep(events, bound, Return(Next(None)), one);
    events := events + [Return(Next(None))];
  }

  // ---------------------------------------------------------------------------
  // The session object.

  class SessionObject {
    var channels: map<nat, nat>
    var objects: seq<Channel>
    var maxChannelId: nat
    var transport: Transport
    var clearing: Option<Code>
    var phase: Phase

    ghost function Model(): State
      reads this
    {
      State(channels, objects, maxChannelId, transport, clearing, phase)
    }

    ghost predicate Valid()
      reads this
    {
      Inv(Model())
    }

    constructor ()
      ensures Valid() && Model() == Fresh()
    {
      channels, objects, maxChannelId, transport, clearing, phase := map[], [], 0, Attached, None, Idle;
    }

    /** A message is in: the pump looks for the transport, without the channel lock. */
    method AdmitMessage()
      requires Valid() && phase.Idle?
      modifies this`phase
      ensures Valid() && Model() == Step(old(Model()), Admit)
    {
      StepKeeps(Model(), Admit);
      if transport.Attached? {
        phase := Admitted;
      }
    }

    /** The message at the channels, up to the call of the dispatch or an exception. */
    method HandleMessage(id: nat, opening: Opening)
      requires Valid() && Enabled(Model(), Receive(id, opening))
      modifies this`channels, this`objects, this`maxChannelId, this`phase
      ensures Valid() && Model() == Step(old(Model()), Receive(id, opening))
    {
      StepKeeps(Model(), Receive(id, opening));
      if id !in channels {
        if id <= maxChannelId {
          phase := Failing(RevokedChannel);
          return;
        }
        if opening.Raises? {
          phase := Failing(opening.code);
          return;
        }
        channels := channels[id := |objects|];
        objects := objects + [Channel(id, Some(opening.dispatch), [], Mapped)];
        maxChannelId := id;
      }
      var slot := channels[id];
      if objects[slot].dispatch.None? {
        phase := Failing(UnboundDispatch);
        return;
      }
      phase := Processing(slot);
    }

    /** The dispatch is back; in the meantime any other method may have run. */
    method DispatchReturned(result: Result)
      requires Valid() && phase.Processing?
      modifies this`objects, this`phase
      ensures Valid() && Model() == Step(old(Model()), Return(result))
    {
      StepKeeps(Model(), Return(result));
      var slot := phase.slot;
      match result {
        case Throw(code) =>
          phase := Failing(code);
          return;
        case Same =>
        case Next(dispatch) =>
          objects := objects[slot := objects[slot].(dispatch := dispatch)];
      }
      phase := if objects[slot].dispatch.None? then Ending(slot) else Idle;
    }

    /** After the last message: is the channel held by the mapping still? */
    method TestShared()
      requires Valid() && phase.Ending?
      modifies this`phase
      ensures Valid() && Model() == Step(old(Model()), Test)
    {
      StepKeeps(Model(), Test);
      var id := objects[phase.slot].id;
      phase := if id in channels && channels[id] == phase.slot then Revoking(phase.slot) else Idle;
    }

    /** The revocation after the last message, by id. */
    method FinishHandling()
      requires Valid() && phase.Revoking?
      modifies this`channels, this`objects, this`phase
      ensures Valid() && Model() == Step(old(Model()), Finish)
    {
      StepKeeps(Model(), Finish);
      RevokeChannel(objects[phase.slot].id, NoError);
      phase := Idle;
    }

    /** The pump's handler of exceptions begins to detach. */
    method AbandonMessage()
      requires Valid() && phase.Failing?
      modifies this`transport, this`clearing, this`phase
      ensures Valid() && Model() == Step(old(Model()), Abandon)
    {
      StepKeeps(Model(), Abandon);
      SwapTransport(phase.code);
      phase := Idle;
    }

    method RevokeChannel(id: nat, code: Code)
      requires Valid()
      modifies this`channels, this`objects
      ensures Valid() && Model() == Step(old(Model()), Revoke(id, code))
    {
      StepKeeps(Model(), Revoke(id, code));
      if id !in channels {
        return;
      }
      var slot := channels[id];
      objects := objects[slot := Leave(objects[slot], code)];
      channels := channels - {id};
    }

    method ForkChannel(dispatch: Option<Dispatch>) returns (id: nat)
      requires Valid()
      modifies this`channels, this`objects, this`maxChannelId
      ensures Valid() && Model() == Step(old(Model()), Fork(dispatch)) && id == maxChannelId
    {
      StepKeeps(Model(), Fork(dispatch));
      maxChannelId := if maxChannelId == MAX_ID then 0 else maxChannelId + 1;
      id := maxChannelId;
      if dispatch.Some? && id !in channels {
        channels := channels[id := |objects|];
        objects := objects + [Channel(id, dispatch, [], Mapped)];
      }
    }

    /** The first half of `detach`: whoever gets the transport goes on. */
    method SwapTransport(code: Code)
      requires Valid()
      modifies this`transport, this`clearing
      ensures Valid() && Model() == Step(old(Model()), Detach(code))
    {
      StepKeeps(Model(), Detach(code));
      if transport.Attached? {
        transport := Detached(code);
        clearing := Some(code);
      }
    }

    /** The second half: walks the mapping, discarding whatever is bound, and then clears it. */
    method ClearChannels()
      requires Valid() && clearing.Some?
      modifies this`channels, this`objects, this`clearing
      ensures Valid() && Model() == Step(old(Model()), Clear)
    {
      StepKeeps(Model(), Clear);
      var after := DiscardAll(channels, objects, clearing.value);
      objects := after;
      channels := map[];
      clearing := None;
      assert objects == ClearWith(old(Model()), old(clearing).value).objects;
    }

    /** Both halves, when no other thread comes between them. */
    method DetachSession(code: Code)
      requires Valid()
      modifies this`channels, this`objects, this`transport, this`clearing
      ensures Valid()
      ensures old(transport).Detached? ==> Model() == old(Model())
      ensures old(transport).Attached? ==>
                var mid := Step(old(Model()), Detach(code));
                WellFormed(mid) && mid.clearing.Some? && Model() == Step(mid, Clear)
    {
      var found := transport.Attached?;
      SwapTransport(code);
      if found {
        ClearChannels();
      }
    }
  }

  method DiscardAll(channels: map<nat, nat>, objects: seq<Channel>, code: Code) returns (after: seq<Channel>)
    requires forall id | id in channels :: channels[id] < |objects| && objects[channels[id]].id == id
    ensures |after| == |objects|
    ensures forall k | 0 <= k < |objects| ::
              after[k] == if objects[k].id in channels && channels[objects[k].id] == k
                          then Leave(objects[k], code) else objects[k]
  {
    after := objects;
    var todo := channels.Keys;
    while todo != {}
      invariant todo <= channels.Keys && |after| == |objects|
      invariant forall k | 0 <= k < |objects| ::
                  after[k] == if objects[k].id in channels.Keys - todo && channels[objects[k].id] == k
                              then Leave(objects[k], code) else objects[k]
      decreases todo
    {
      var id :| id in todo;
      after := after[channels[id] := Leave(after[channels[id]], code)];
      todo := todo - {id};
    }
  }
}
