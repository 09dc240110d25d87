/**
 Outgoing streams of a slot: calls are queued until an upstream is attached, then replayed, and
 from there on sent directly.
 */
module Streams {

  datatype Kind = Chunk(value: nat) | Error(code: int, reason: string) | Choke

  datatype Operation = Operation(headers: seq<nat>, kind: Kind)

  datatype Answer = Accepted | ClosedUpstream | NotConnected

  datatype Attachment = Detached | Attached | Failed   // Failed: the upstream died during the replay

  /**
   `accepted` records every operation let through while the stream was open;
   `sent` is what the upstream has seen.
   */
  datatype State = State(open: bool, queue: seq<Operation>, attachment: Attachment, live: bool,
                         sent: seq<Operation>, accepted: seq<Operation>)

  datatype Event =
    | Call(operation: Operation)
    | Attach(survived: nat)           // how many replayed operations get out before the upstream dies
    | Die

  predicate Terminal(op: Operation)
  {
    !op.kind.Chunk?
  }

  predicate Enabled(s: State, e: Event)
  {
    e.Attach? ==> s.attachment.Detached? && e.survived <= |s.queue|
  }

  function Answers(s: State, op: Operation): Answer
  {
    if !s.open then ClosedUpstream
    else if s.attachment.Attached? && !s.live then NotConnected
    else Accepted
  }

  function Calls(s: State, op: Operation): State
  {
    if !s.open then s
    else
      var t := s.(open := !Terminal(op), accepted := s.accepted + [op]);
      if !s.attachment.Attached? then t.(queue := s.queue + [op])
      else if s.live then t.(sent := s.sent + [op])
      else t
  }

  function Attaches(s: State, survived: nat): State
    requires survived <= |s.queue|
  {
    if s.live && survived == |s.queue| then s.(attachment := Attached, queue := [], sent := s.sent + s.queue)
    else if !s.live && s.queue == [] then s.(attachment := Attached)
    else if !s.live then s.(attachment := Failed)
    else s.(attachment := Failed, live := false, sent := s.sent + s.queue[..survived])
  }

  function Step(s: State, e: Event): State
    requires Enabled(s, e)
  {
    match e
    case Call(op) => Calls(s, op)
    case Attach(survived) => Attaches(s, survived)
    case Die => s.(live := false)
  }

  /** Chunks, then at most one terminal operation. */
  ghost predicate WellEnded(ops: seq<Operation>)
  {
    forall i | 0 <= i < |ops| :: Terminal(ops[i]) ==> i == |ops| - 1
  }

  ghost predicate Inv(s: State)
  {
    && WellEnded(s.accepted)
    && (s.open <==> forall i | 0 <= i < |s.accepted| :: !Terminal(s.accepted[i]))
    && s.sent <= s.accepted
    && (s.attachment.Detached? ==> s.sent == [] && s.queue == s.accepted)
    && (s.attachment.Attached? && s.live ==> s.sent == s.accepted)
    && (s.attachment.Failed? ==> !s.live && s.queue == s.accepted)
  }

  lemma StepKeeps(s: State, e: Event)
    requires Inv(s) && Enabled(s, e)
    ensures Inv(Step(s, e))
  {
    if e.Call? && s.open {
      var more := s.accepted + [e.operation];
      assert more[|s.accepted|] == e.operation;
      assert forall i | 0 <= i < |s.accepted| :: more[i] == s.accepted[i];
    }
  }

  function Start(): State
  {
    State(true, [], Detached, true, [], [])
  }

  predicate Takes(s: State, e: Event, t: State)
  {
    Enabled(s, e) && t == Step(s, e)
  }

  ghost predicate IsRun(states: seq<State>, events: seq<Event>)
  {
    && |states| == |events| + 1 && states[0] == Start()
    && forall i | 0 <= i < |events| :: Takes(states[i], events[i], states[i + 1])
  }

  lemma {:induction false} RunsKeep(states: seq<State>, events: seq<Event>, k: nat)
    requires IsRun(states, events) && k < |states|
    ensures Inv(states[k])
  {
    if k > 0 {
      RunsKeep(states, events, k - 1);
      assert Takes(states[k - 1], events[k - 1], states[k - 1 + 1]);
      StepKeeps(states[k - 1], events[k - 1]);
    }
  }

  /** The calls a stream lets through: all up to and including the first terminal one. */
  function LetThrough(events: seq<Event>): seq<Operation>
  {
    if events == [] then []
    else if !events[0].Call? then LetThrough(events[1..])
    else if Terminal(events[0].operation) then [events[0].operation]
    else [events[0].operation] + LetThrough(events[1..])
  }

  lemma {:induction false} AcceptedIsLetThrough(states: seq<State>, events: seq<Event>, k: nat)
    requires IsRun(states, events) && k < |states|
    ensures states[k].accepted == LetThrough(events[..k])
    ensures states[k].open <==> forall op | op in LetThrough(events[..k]) :: !Terminal(op)
  {
    if k > 0 {
      AcceptedIsLetThrough(states, events, k - 1);
      assert Takes(states[k - 1], events[k - 1], states[k - 1 + 1]);
      LetThroughGrows(events[..k - 1], events[k - 1]);
      assert events[..k] == events[..k - 1] + [events[k - 1]];
    }
  }

  lemma {:induction false} LetThroughGrows(events: seq<Event>, e: Event)
    ensures LetThrough(events + [e]) ==
            if e.Call? && (forall op | op in LetThrough(events) :: !Terminal(op))
              then LetThrough(events) + [e.operation]
            else LetThrough(events)
  {
    if events == [] {
      assert events + [e] == [e];
      assert [e][1..] == [];
    } else {
      assert (events + [e])[1..] == events[1..] + [e];
      LetThroughGrows(events[1..], e);
      var rest := LetThrough(events[1..]);
      if events[0].Call? && !Terminal(events[0].operation) {
        assert LetThrough(events) == [events[0].operation] + rest;
        assert (forall op | op in LetThrough(events) :: !Terminal(op)) <==> forall op | op in rest :: !Terminal(op);
      } else if events[0].Call? {
        assert events[0].operation in LetThrough(events);
      }
    }
  }

  /**
   The protocol over every run: the upstream sees a prefix of the calls let through, in call order,
   which are chunks followed by at most one terminal message; and all of them while it is attached
   and alive, no matter when it was attached.
   */
  lemma StreamProtocol(states: seq<State>, events: seq<Event>, k: nat)
    requires IsRun(states, events) && k < |states|
    ensures var s := states[k]; var calls := LetThrough(events[..k]);
            && s.sent <= calls && WellEnded(calls)
            && (s.attachment.Attached? && s.live ==> s.sent == calls)
            && (s.attachment.Detached? ==> s.sent == [] && s.queue == calls)
            && (s.attachment.Failed? ==> s.queue == calls)
  {
    RunsKeep(states, events, k);
    AcceptedIsLetThrough(states, events, k);
  }

  // What gets out, and the answers, as functions of the events alone.

  function FirstAttach(events: seq<Event>): (i: nat)
    ensures i <= |events|
    ensures i < |events| ==> events[i].Attach?
    ensures forall j | 0 <= j < i :: !events[j].Attach?
  {
    if events == [] || events[0].Attach? then 0 else 1 + FirstAttach(events[1..])
  }

  function FirstDie(events: seq<Event>): (i: nat)
    ensures i <= |events|
    ensures i < |events| ==> events[i].Die?
    ensures forall j | 0 <= j < i :: !events[j].Die?
  {
    if events == [] || events[0].Die? then 0 else 1 + FirstDie(events[1..])
  }

  /** The calls waiting when the upstream was attached, and how many of them it outlived. */
  function Waiting(events: seq<Event>): seq<Operation>
  {
    LetThrough(events[..FirstAttach(events)])
  }

  /** The attachment came to grief: the upstream was dead already or died during the replay. */
  predicate Broke(events: seq<Event>)
  {
    var i := FirstAttach(events);
    i < |events| && Waiting(events) != [] && (FirstDie(events) < i || events[i].survived < |Waiting(events)|)
  }

  function Attachments(events: seq<Event>): Attachment
  {
    if FirstAttach(events) == |events| then Detached else if Broke(events) then Failed else Attached
  }

  /**
   What the upstream got: nothing before it is attached or if it was dead by then, the part of the
   waiting calls it outlived if it died during the replay, and otherwise all calls up to its death.
   */
  function GotOut(events: seq<Event>): seq<Operation>
  {
    var i, d := FirstAttach(events), FirstDie(events);
    if i == |events| || d < i then []
    else if events[i].survived < |Waiting(events)| then Waiting(events)[..events[i].survived]
    else LetThrough(events[..d])
  }

  predicate Lives(events: seq<Event>)
  {
    FirstDie(events) == |events| && !Broke(events)
  }

  lemma AttachGrows(events: seq<Event>, e: Event)
    ensures FirstAttach(events + [e]) ==
            if FirstAttach(events) < |events| || e.Attach? then FirstAttach(events) else |events| + 1
  {
    var more := events + [e];
    assert more[|events|] == e && forall j | 0 <= j < |events| :: more[j] == events[j];
    var i := FirstAttach(more);
    if i < |more| { assert more[i].Attach?; }
  }

  lemma DieGrows(events: seq<Event>, e: Event)
    ensures FirstDie(events + [e]) == if FirstDie(events) < |events| || e.Die? then FirstDie(events) else |events| + 1
  {
    var more := events + [e];
    assert more[|events|] == e && forall j | 0 <= j < |events| :: more[j] == events[j];
    var d := FirstDie(more);
    if d < |more| { assert more[d].Die?; }
  }

  lemma WaitingGrows(events: seq<Event>, e: Event)
    ensures FirstAttach(events) < |events| || e.Attach? ==> Waiting(events + [e]) == Waiting(events)
    ensures FirstAttach(events) == |events| && !e.Attach? ==> Waiting(events + [e]) == LetThrough(events + [e])
  {
    AttachGrows(events, e);
    SameFront(events, e, FirstAttach(events));
  }

  lemma SameFront(events: seq<Event>, e: Event, i: nat)
    requires i <= |events|
    ensures (events + [e])[..i] == events[..i] && (events + [e])[..|events| + 1] == events + [e]
    ensures i < |events| ==> (events + [e])[i] == events[i]
  {
  }

  /** The state says what the events say. */
  ghost predicate Told(s: State, events: seq<Event>)
  {
    && s.attachment == Attachments(events) && s.sent == GotOut(events) && s.live == Lives(events)
    && s.accepted == LetThrough(events) && (s.open <==> forall op | op in LetThrough(events) :: !Terminal(op))
    && (!s.attachment.Attached? ==> s.queue == LetThrough(events))
    && (s.attachment.Attached? ==> s.queue == [])
  }

  lemma CallTold(s: State, events: seq<Event>, op: Operation)
    requires Told(s, events)
    ensures Told(Step(s, Call(op)), events + [Call(op)])
  {
    var e := Call(op);
    AttachGrows(events, e);
    DieGrows(events, e);
    WaitingGrows(events, e);
    LetThroughGrows(events, e);
    var i, d := FirstAttach(events), FirstDie(events);
    assert events[..|events|] == events && (events + [e])[..|events| + 1] == events + [e];
    if i < |events| { assert (events + [e])[i] == events[i]; }
    if d < |events| { assert (events + [e])[..d] == events[..d]; }
  }

  lemma AttachTold(s: State, events: seq<Event>, survived: nat)
    requires Told(s, events) && Enabled(s, Attach(survived))
    ensures Told(Step(s, Attach(survived)), events + [Attach(survived)])
  {
    var e := Attach(survived);
    AttachGrows(events, e);
    DieGrows(events, e);
    WaitingGrows(events, e);
    LetThroughGrows(events, e);
    var d := FirstDie(events);
    assert events[..|events|] == events && (events + [e])[..|events| + 1] == events + [e];
    if d < |events| { assert (events + [e])[..d] == events[..d]; }
    assert Waiting(events) == s.queue && (events + [e])[|events|] == e;
  }

  lemma DieTold(s: State, events: seq<Event>)
    requires Told(s, events)
    ensures Told(Step(s, Die), events + [Die])
  {
    var e := Die;
    AttachGrows(events, e);
    DieGrows(events, e);
    WaitingGrows(events, e);
    LetThroughGrows(events, e);
    var i, d := FirstAttach(events), FirstDie(events);
    assert events[..|events|] == events && (events + [e])[..|events|] == events;
    if i < |events| { assert (events + [e])[i] == events[i]; }
    if d < |events| { assert (events + [e])[..d] == events[..d]; }
  }

  lemma {:induction false} RunsTold(states: seq<State>, events: seq<Event>, k: nat)
    requires IsRun(states, events) && k < |states|
    ensures Told(states[k], events[..k])
  {
    if k > 0 {
      RunsTold(states, events, k - 1);
      var s, past := states[k - 1], events[..k - 1];
      assert Takes(states[k - 1], events[k - 1], states[k - 1 + 1]);
      assert events[..k] == past + [events[k - 1]];
      match events[k - 1]
      case Call(op) => CallTold(s, past, op);
      case Attach(survived) => AttachTold(s, past, survived);
      case Die => DieTold(s, past);
    }
  }

  /**
   Exactly what gets out, in every run: nothing before the attachment or if the upstream was dead by
   then, as much of the waiting calls as it outlived if it died during the replay, and otherwise
   every call up to its death; a failed replay leaves all calls waiting. A call is refused exactly
   after a terminal one, and finds no connection exactly if the attached upstream is dead.
   */
  lemma GetsOutExactly(states: seq<State>, events: seq<Event>, k: nat, op: Operation)
    requires IsRun(states, events) && k < |states|
    ensures var s, past := states[k], events[..k];
            && s.sent == GotOut(past) && s.attachment == Attachments(past) && s.live == Lives(past)
            && s.queue == (if Attachments(past).Attached? then [] else LetThrough(past))
            && (Answers(s, op) == ClosedUpstream <==> exists t :: t in LetThrough(past) && Terminal(t))
            && (Answers(s, op) == NotConnected <==>
                  (forall t | t in LetThrough(past) :: !Terminal(t)) && Attachments(past).Attached? && !Lives(past))
  {
    RunsTold(states, events, k);
  }

  /** Two runs with the same calls end with the same messages sent, whenever each was attached. */
  lemma AttachTimeIrrelevant(states1: seq<State>, events1: seq<Event>, states2: seq<State>, events2: seq<Event>)
    requires IsRun(states1, events1) && IsRun(states2, events2)
    requires LetThrough(events1) == LetThrough(events2)
    requires states1[|events1|].attachment.Attached? && states1[|events1|].live
    requires states2[|events2|].attachment.Attached? && states2[|events2|].live
    ensures states1[|events1|].sent == states2[|events2|].sent
  {
    StreamProtocol(states1, events1, |events1|);
    StreamProtocol(states2, events2, |events2|);
    assert events1[..|events1|] == events1 && events2[..|events2|] == events2;
  }

  /** Once a terminal call was let through, every later call is refused and sends nothing. */
  lemma ClosedForGood(states: seq<State>, events: seq<Event>, k: nat, op: Operation)
    requires IsRun(states, events) && k < |states|
    ensures (exists t :: t in LetThrough(events[..k]) && Terminal(t)) <==> Answers(states[k], op) == ClosedUpstream
    ensures Answers(states[k], op) == ClosedUpstream ==> Step(states[k], Call(op)) == states[k]
  {
    AcceptedIsLetThrough(states, events, k);
  }

  // ---------------------------------------------------------------------------
  // The stream object over its queue.

  class Upstream {
    var sent: seq<Operation>
    var live: bool

    constructor ()
      ensures sent == [] && live
    {
      sent, live := [], true;
    }

    method Send(op: Operation) returns (ok: bool)
      modifies this`sent
      ensures ok == live && sent == if live then old(sent) + [op] else old(sent)
    {
      if live {
        sent := sent + [op];
      }
      ok := live;
    }
  }

  class StreamedSlot {
    var open: bool
    var operations: seq<Operation>
    var upstream: Upstream?
    ghost var failed: bool            // an attachment was tried and raised

    constructor ()
      ensures open && operations == [] && upstream == null && !failed
    {
      open, operations, upstream, failed := true, [], null, false;
    }

    /** The state, given the upstream that is, or is to be, attached. */
    ghost function Model(u: Upstream, accepted: seq<Operation>): State
      reads this, u
    {
      State(open, operations, if failed then Failed else if upstream == null then Detached else Attached,
            u.live, u.sent, accepted)
    }

    /** `message_queue::append`. */
    method Append(op: Operation) returns (a: Answer)
      modifies this`operations, upstream
      ensures upstream == old(upstream)
      ensures upstream == null ==> a == Accepted && operations == old(operations) + [op]
      ensures upstream != null ==>
                && operations == old(operations) && upstream.live == old(upstream.live)
                && a == (if upstream.live then Accepted else NotConnected)
                && upstream.sent == if upstream.live then old(upstream.sent) + [op] else old(upstream.sent)
    {
      if upstream == null {
        operations := operations + [op];
        return Accepted;
      }
      var ok := upstream.Send(op);
      a := if ok then Accepted else NotConnected;
    }

    /** `write`, `abort` and `close`: the state is closed before a terminal operation is appended. */
    method Perform(op: Operation, u: Upstream, ghost accepted: seq<Operation>) returns (a: Answer)
      requires (upstream == null || upstream == u) && (failed ==> upstream == null)
      modifies this`open, this`operations, u
      ensures a == Answers(old(Model(u, accepted)), op)
      ensures Model(u, if old(open) then accepted + [op] else accepted) == Step(old(Model(u, accepted)), Call(op))
    {
      var was := open;
      if Terminal(op) {
        open := false;
      }
      if !was {
        return ClosedUpstream;
      }
      a := Append(op);
    }

    /**
     Replays the queue into an upstream that dies after `survived` more messages. An error leaves
     the queue and the missing upstream as they were.
     */
    method AttachTo(u: Upstream, survived: nat, ghost accepted: seq<Operation>) returns (ok: bool)
      requires upstream == null && !failed && survived <= |operations|
      modifies this`operations, this`upstream, this`failed, u
      ensures Model(u, accepted) == Step(old(Model(u, accepted)), Attach(survived))
      ensures ok <==> upstream == u
    {
      for i := 0 to |operations|
        modifies u, this`failed
        invariant !failed && (i <= survived || survived == |operations|)
        invariant u.sent == old(u.sent) + operations[..i] && u.live == old(u.live) && (i > 0 ==> u.live)
      {
        if i == survived {
          u.live := false;
        }
        var sent := u.Send(operations[i]);
        if !sent {
          assert operations[..0] == [] && old(u.sent) + [] == old(u.sent);
          failed := true;
          return false;
        }
        assert operations[..i + 1] == operations[..i] + [operations[i]];
      }
      assert operations[..|operations|] == operations;
      operations := [];
      upstream := u;
      ok := true;
    }
  }
}
