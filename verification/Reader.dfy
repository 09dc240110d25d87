/**
 The buffered readable stream: a window of unparsed bytes in a ring that is compacted before every
 socket read and doubled when the window fills half of it.
 */
module Reader {
  import opened Common
  import opened Bytes
  import opened Hpack
  import opened Frames

  // ---------------------------------------------------------------------------
  // The simple form: all bytes received, how many are consumed, and the messages delivered.

  datatype Phase = Ready | Waiting | Failed(error: Error) | Closed

  datatype State = State(received: seq<byte>, consumed: nat, delivered: seq<Received>, entries: seq<Header>,
                         phase: Phase)

  /** A frame decoder: header table and bytes to an outcome. */
  type DecodeFn = (seq<Header>, seq<byte>) -> Outcome

  /** The laws of a decoder: a frame is not empty, and a decision does not depend on later bytes. */
  ghost predicate Lawful(decode: DecodeFn)
  {
    && (forall e, s {:trigger decode(e, s)} :: decode(e, s).Decoded? ==> 0 < decode(e, s).size <= |s|)
    && (forall e, s, t :: Lasting(decode, e, s, t))
  }

  ghost predicate Lasting(decode: DecodeFn, e: seq<Header>, s: seq<byte>, t: seq<byte>)
  {
    !decode(e, s).Insufficient? ==> decode(e, s + t) == decode(e, s)
  }

  function DecodeWith(statics: Statics): DecodeFn
  {
    (entries, s) => Decode(statics, entries, s)
  }

  lemma DecoderIsLawful(statics: Statics)
    ensures Lawful(DecodeWith(statics))
  {
    var decode := DecodeWith(statics);
    forall e, s, t ensures Lasting(decode, e, s, t) {
      if !decode(e, s).Insufficient? {
        DecodeExtends(statics, e, s, t);
      }
    }
  }

  predicate Consistent(r: State)
  {
    r.consumed <= |r.received|
  }

  function Window(r: State): seq<byte>
    requires Consistent(r)
  {
    r.received[r.consumed..]
  }

  function After(r: State, outcome: Outcome): State
  {
    match outcome
    case Decoded(m, n, next) =>
      r.(consumed := r.consumed + n, delivered := r.delivered + [m], entries := next, phase := Ready)
    case Insufficient => r.(phase := Waiting)
    case Broken(error) => r.(phase := Failed(error))
  }

  /** One `read`: a message, a wait for bytes, or an error. */
  function ReadStep(decode: DecodeFn, r: State): State
    requires Consistent(r)
  {
    After(r, decode(r.entries, Window(r)))
  }

  function Arrived(r: State, chunk: seq<byte>): State
  {
    r.(received := r.received + chunk, phase := Ready)
  }

  datatype Event = Read | Fill(chunk: seq<byte>) | Hangup

  predicate Enabled(r: State, e: Event)
  {
    match e
    case Read => r.phase.Ready?
    case Fill(_) => r.phase.Waiting?
    case Hangup => r.phase.Waiting?
  }

  function Step(decode: DecodeFn, r: State, e: Event): State
    requires Consistent(r)
  {
    match e
    case Read => ReadStep(decode, r)
    case Fill(chunk) => ReadStep(decode, Arrived(r, chunk))
    case Hangup => r.(phase := Closed)
  }

  // ---------------------------------------------------------------------------
  // Decoding a whole byte string at once.

  datatype Drained = Drained(messages: seq<Received>, consumed: nat, entries: seq<Header>, verdict: Option<Error>)

  function Drain(decode: DecodeFn, entries: seq<Header>, s: seq<byte>): (d: Drained)
    ensures d.consumed <= |s|
    decreases |s|
  {
    match decode(entries, s)
    case Insufficient => Drained([], 0, entries, None)
    case Broken(error) => Drained([], 0, entries, Some(error))
    case Decoded(m, n, next) =>
      if 0 < n <= |s| then Precede(m, n, Drain(decode, next, s[n..])) else Drained([], 0, entries, None)
  }

  function Precede(m: Received, n: nat, d: Drained): Drained
  {
    d.(messages := [m] + d.messages, consumed := n + d.consumed)
  }

  function Join(a: Drained, b: Drained): Drained
  {
    b.(messages := a.messages + b.messages, consumed := a.consumed + b.consumed)
  }

  lemma DrainFirst(decode: DecodeFn, entries: seq<Header>, s: seq<byte>, m: Received, n: nat, next: seq<Header>)
    requires decode(entries, s) == Decoded(m, n, next) && 0 < n <= |s|
    ensures Drain(decode, entries, s) == Precede(m, n, Drain(decode, next, s[n..]))
  {
  }

  /** What more bytes make of a drained prefix. */
  function Extended(decode: DecodeFn, d: Drained, s: seq<byte>, t: seq<byte>): Drained
    requires d.consumed <= |s|
  {
    if d.verdict.None? then Join(d, Drain(decode, d.entries, s[d.consumed..] + t)) else d
  }

  lemma ExtendedFirst(decode: DecodeFn, d: Drained, s: seq<byte>, t: seq<byte>, m: Received, n: nat)
    requires n <= |s| && d.consumed <= |s| - n
    ensures Extended(decode, Precede(m, n, d), s, t) == Precede(m, n, Extended(decode, d, s[n..], t))
  {
    assert s[n..][d.consumed..] == s[n + d.consumed..];
    PrecedeJoin(m, n, d, Drain(decode, d.entries, s[n..][d.consumed..] + t));
  }

  /** More bytes extend what was decoded; after an error they change nothing. */
  lemma {:induction false} DrainExtends(decode: DecodeFn, entries: seq<Header>, s: seq<byte>, t: seq<byte>)
    requires Lawful(decode)
    ensures Drain(decode, entries, s + t) == Extended(decode, Drain(decode, entries, s), s, t)
    decreases |s|
  {
    assert Lasting(decode, entries, s, t);
    match decode(entries, s)
    case Insufficient =>
      assert s[0..] == s;
    case Broken(_) =>
    case Decoded(m, n, next) =>
      DrainFirst(decode, entries, s, m, n, next);
      DrainFirst(decode, entries, s + t, m, n, next);
      assert (s + t)[n..] == s[n..] + t;
      DrainExtends(decode, next, s[n..], t);
      ExtendedFirst(decode, Drain(decode, next, s[n..]), s, t, m, n);
  }

  lemma PrecedeJoin(m: Received, n: nat, a: Drained, b: Drained)
    ensures Join(Precede(m, n, a), b) == Precede(m, n, Join(a, b))
  {
  }

  function Start(): State
  {
    State([], 0, [], [], Ready)
  }

  /** What `r` has done so far is a beginning of decoding everything it has received. */
  ghost predicate OnTrack(decode: DecodeFn, r: State)
  {
    && Consistent(r)
    && Drain(decode, [], r.received) ==
       Join(Drained(r.delivered, r.consumed, r.entries, None), Drain(decode, r.entries, Window(r)))
    && (r.phase.Waiting? || r.phase.Closed? ==> decode(r.entries, Window(r)).Insufficient?)
    && (r.phase.Failed? ==> decode(r.entries, Window(r)) == Broken(r.phase.error))
  }

  lemma StartsOnTrack(decode: DecodeFn, r: State)
    requires r == Start()
    ensures OnTrack(decode, r)
  {
    var d := Drain(decode, r.entries, Window(r));
    assert Join(Drained(r.delivered, r.consumed, r.entries, None), d) == d;
  }

  lemma OnTrackFacts(decode: DecodeFn, r: State)
    requires OnTrack(decode, r)
    ensures var d := Drain(decode, [], r.received);
            && r.delivered <= d.messages && r.consumed <= d.consumed
            && (!r.phase.Ready? ==> r.delivered == d.messages && r.consumed == d.consumed && r.entries == d.entries)
            && (r.phase.Failed? <==> !r.phase.Ready? && d.verdict.Some?)
            && (r.phase.Failed? ==> d.verdict == Some(r.phase.error))
  {
  }

  lemma ReadStaysOnTrack(decode: DecodeFn, r: State)
    requires Lawful(decode) && OnTrack(decode, r)
    ensures OnTrack(decode, ReadStep(decode, r)) && ReadStep(decode, r).received == r.received
  {
  }

  lemma ArrivalStaysOnTrack(decode: DecodeFn, r: State, chunk: seq<byte>)
    requires Lawful(decode) && OnTrack(decode, r) && r.phase.Waiting?
    ensures OnTrack(decode, Arrived(r, chunk))
  {
    DrainExtends(decode, [], r.received, chunk);
    var d := Drain(decode, [], r.received);
    assert d == Drained(r.delivered, r.consumed, r.entries, None);
    assert Window(Arrived(r, chunk)) == r.received[r.consumed..] + chunk;
  }

  lemma StepStaysOnTrack(decode: DecodeFn, r: State, e: Event)
    requires Lawful(decode) && OnTrack(decode, r) && Enabled(r, e)
    ensures OnTrack(decode, Step(decode, r, e))
  {
    match e
    case Read => ReadStaysOnTrack(decode, r);
    case Fill(chunk) =>
      ArrivalStaysOnTrack(decode, r, chunk);
      ReadStaysOnTrack(decode, Arrived(r, chunk));
    case Hangup =>
  }

  // Runs.

  predicate Takes(decode: DecodeFn, r: State, e: Event, next: State)
  {
    Consistent(r) && Enabled(r, e) && next == Step(decode, r, e)
  }

  ghost predicate IsRun(decode: DecodeFn, states: seq<State>, events: seq<Event>)
  {
    && |states| == |events| + 1 && states[0] == Start()
    && forall i | 0 <= i < |events| :: Takes(decode, states[i], events[i], states[i + 1])
  }

  lemma {:induction false} RunsStayOnTrack(decode: DecodeFn, states: seq<State>, events: seq<Event>, k: nat)
    requires Lawful(decode) && IsRun(decode, states, events) && k < |states|
    ensures OnTrack(decode, states[k])
  {
    if k == 0 {
      StartsOnTrack(decode, states[0]);
    } else {
      RunsStayOnTrack(decode, states, events, k - 1);
      assert Takes(decode, states[k - 1], events[k - 1], states[k - 1 + 1]);
      StepStaysOnTrack(decode, states[k - 1], events[k - 1]);
    }
  }

  /**
   Chunking independence: at every point of every run, the messages delivered are an initial part
   of decoding the received bytes in one go, and all of it once the reader has to wait or fails.
   */
  lemma DeliveryIsDrain(decode: DecodeFn, states: seq<State>, events: seq<Event>, k: nat)
    requires Lawful(decode) && IsRun(decode, states, events) && k < |states|
    ensures var r := states[k]; var d := Drain(decode, [], r.received);
            && r.consumed <= d.consumed && r.delivered <= d.messages
            && (!r.phase.Ready? ==> r.delivered == d.messages && r.consumed == d.consumed && r.entries == d.entries)
            && (r.phase.Failed? ==> d.verdict == Some(r.phase.error))
  {
    RunsStayOnTrack(decode, states, events, k);
    OnTrackFacts(decode, states[k]);
  }

  /** The bytes the socket handed over, in order. */
  function Chunks(events: seq<Event>): seq<byte>
  {
    if events == [] then []
    else
      var n := |events| - 1;
      Chunks(events[..n]) + (if events[n].Fill? then events[n].chunk else [])
  }

  /** What a reader has received is what the socket handed over. */
  lemma {:induction false} ReceivedIsChunks(decode: DecodeFn, states: seq<State>, events: seq<Event>, k: nat)
    requires IsRun(decode, states, events) && k < |states|
    ensures states[k].received == Chunks(events[..k])
  {
    if k > 0 {
      ReceivedIsChunks(decode, states, events, k - 1);
      assert Takes(decode, states[k - 1], events[k - 1], states[k - 1 + 1]);
      assert events[..k][..k - 1] == events[..k - 1];
    }
  }

  /** A hangup ends the run and changes nothing of what was delivered; a reader fails with the decoder's error. */
  lemma HangupIsLast(decode: DecodeFn, states: seq<State>, events: seq<Event>, k: nat)
    requires Lawful(decode) && IsRun(decode, states, events) && k < |events|
    ensures events[k].Hangup? ==> k == |events| - 1 && states[k + 1] == states[k].(phase := Closed)
    ensures states[k + 1].phase.Failed? ==>
              && k == |events| - 1 && Consistent(states[k + 1])
              && decode(states[k + 1].entries, Window(states[k + 1])) == Broken(states[k + 1].phase.error)
  {
    assert Takes(decode, states[k], events[k], states[k + 1]);
    if k + 1 < |events| { assert Takes(decode, states[k + 1], events[k + 1], states[k + 1 + 1]); }
    RunsStayOnTrack(decode, states, events, k + 1);
  }

  /** Two runs over the same bytes, however split, agree whenever neither can go on. */
  lemma ChunkingIndependence(decode: DecodeFn, states1: seq<State>, events1: seq<Event>, states2: seq<State>,
                             events2: seq<Event>)
    requires Lawful(decode) && IsRun(decode, states1, events1) && IsRun(decode, states2, events2)
    requires var r1, r2 := states1[|events1|], states2[|events2|];
             r1.received == r2.received && !r1.phase.Ready? && !r2.phase.Ready?
    ensures var r1, r2 := states1[|events1|], states2[|events2|];
            && r1.delivered == r2.delivered && r1.consumed == r2.consumed && r1.entries == r2.entries
            && (r1.phase.Failed? <==> r2.phase.Failed?) && (r1.phase.Failed? ==> r1.phase == r2.phase)
  {
    RunsStayOnTrack(decode, states1, events1, |events1|);
    RunsStayOnTrack(decode, states2, events2, |events2|);
    OnTrackFacts(decode, states1[|events1|]);
    OnTrackFacts(decode, states2[|events2|]);
  }

  /** The message pump: read again after every message, until there is nothing to read. */
  function Pump(decode: DecodeFn, r: State): State
    requires Consistent(r)
    decreases |r.received| - r.consumed
  {
    if !r.phase.Ready? then r
    else
      var next := ReadStep(decode, r);
      if r.consumed < next.consumed <= |r.received| && next.received == r.received then Pump(decode, next) else next
  }

  /** It stops, and then every complete message among the bytes received has been delivered. */
  lemma {:induction false} PumpDeliversAll(decode: DecodeFn, r: State)
    requires Lawful(decode) && OnTrack(decode, r)
    ensures var p := Pump(decode, r); var d := Drain(decode, [], r.received);
            && OnTrack(decode, p) && !p.phase.Ready? && p.received == r.received
            && p.delivered == d.messages && p.consumed == d.consumed
    decreases |r.received| - r.consumed
  {
    if r.phase.Ready? {
      ReadStaysOnTrack(decode, r);
      if decode(r.entries, Window(r)).Decoded? {
        PumpDeliversAll(decode, ReadStep(decode, r));
      }
    }
  }

  // ---------------------------------------------------------------------------
  // The stream object.

  const INITIAL_RING: nat := 65536

  function Max(a: nat, b: nat): nat
  {
    if a < b then b else a
  }

  /** Ring size: a doubling of the initial one, within four times the largest window that had to wait. */
  ghost predicate RingSize(size: nat, peak: nat)
  {
    INITIAL_RING <= size <= Max(INITIAL_RING, 4 * peak) && IsDoubling(INITIAL_RING, size)
  }

  /** Moves a window to the front; the two ranges may overlap. */
  method Compact(ring: array<byte>, from: nat, n: nat)
    requires from + n <= ring.Length
    modifies ring
    ensures ring[0..n] == old(ring[from..from + n])
  {
    forall i | 0 <= i < n {
      ring[i] := ring[from + i];
    }
  }

  method Grown(ring: array<byte>, n: nat) returns (grown: array<byte>)
    requires n <= ring.Length
    ensures fresh(grown) && grown.Length == 2 * ring.Length && grown[0..n] == ring[0..n]
  {
    grown := new byte[ring.Length * 2](_ => 0);
    forall i | 0 <= i < ring.Length {
      grown[i] := ring[i];
    }
  }

  /** The stream is parametric in its decoder, as a function of the decoder's header table. */
  class ReadableStream {
    const decode: DecodeFn
    var entries: seq<Header>
    var ring: array<byte>
    var rd: nat
    var rx: nat

    // What the session has been given.
    var delivered: seq<Received>
    var phase: Phase

    ghost var model: State
    ghost var peak: nat

    ghost predicate Valid()
      reads this, ring
    {
      && rx <= rd <= ring.Length && RingSize(ring.Length, peak) && Lawful(decode)
      && Consistent(model) && model == model.(delivered := delivered, phase := phase, entries := entries)
      && ring[rx..rd] == Window(model)
      && (phase.Waiting? ==> rx == 0 && 2 * rd <= ring.Length)
    }

    constructor (decode: DecodeFn)
      requires Lawful(decode)
      ensures Valid() && model == Start() && this.decode == decode && fresh(ring) && ring.Length == 65536
    {
      this.decode := decode;
      ring := new byte[INITIAL_RING](_ => 0);
      rd, rx, entries := 0, 0, [];
      delivered, phase := [], Ready;
      model, peak := Start(), 0;
      new;
      assert ring.Length == Doubled(INITIAL_RING, 0);
    }

    /** Compaction and growth: at least half of the ring becomes free for the socket to read into. */
    method MakeRoom()
      requires rx <= rd <= ring.Length && RingSize(ring.Length, peak)
      modifies this`ring, this`rd, this`rx, this`peak, ring
      ensures rx == 0 && 2 * rd <= ring.Length && RingSize(ring.Length, peak)
      ensures ring[rx..rd] == old(ring[rx..rd]) && (ring == old(ring) || fresh(ring))
      ensures peak == Max(old(peak), rd)
      ensures ring.Length == if 2 * rd >= old(ring.Length) then 2 * old(ring.Length) else old(ring.Length)
    {
      var bytesPending := rd - rx;
      if rx > 0 {
        Compact(ring, rx, bytesPending);
        rd, rx := bytesPending, 0;
      }
      peak := Max(peak, bytesPending);
      if bytesPending * 2 >= ring.Length {
        DoublingDoubles(INITIAL_RING, ring.Length);
        ring := Grown(ring, rd);
      }
    }

    /** The decoder took `n` bytes off the front of the window. */
    method Deliver(m: Received, n: nat, next: seq<Header>)
      requires Valid() && n <= |Window(model)|
      modifies this`rx, this`entries, this`delivered, this`phase, this`model
      ensures Valid() && model == After(old(model), Decoded(m, n, next))
    {
      ghost var window := Window(model);
      model := After(model, Decoded(m, n, next));
      assert ring[rx + n..rd] == window[n..] == Window(model);
      rx := rx + n;
      entries, delivered, phase := next, delivered + [m], Ready;
    }

    /** The decoder needs more bytes. */
    method Await()
      requires Valid()
      modifies this`ring, this`rd, this`rx, this`peak, this`phase, this`model, ring
      ensures Valid() && (ring == old(ring) || fresh(ring))
      ensures model == After(old(model), Insufficient) && peak == Max(old(peak), |Window(model)|)
    {
      model := After(model, Insufficient);
      phase := Waiting;
      MakeRoom();
    }

    method Read()
      requires Valid() && phase.Ready?
      modifies this, ring
      ensures Valid() && (ring == old(ring) || fresh(ring))
      ensures model == Step(decode, old(model), Event.Read)
      ensures peak == if phase.Waiting? then Max(old(peak), |Window(model)|) else old(peak)
    {
      match decode(entries, ring[rx..rd]) {
        case Decoded(m, n, next) => Deliver(m, n, next);
        case Broken(error) =>
          phase := Failed(error);
          model := model.(phase := phase);
        case Insufficient => Await();
      }
    }

    /** Completion of a socket read into the free part of the ring. */
    method Fill(chunk: seq<byte>)
      requires Valid() && phase.Waiting? && |chunk| <= ring.Length - rd
      modifies this, ring
      ensures Valid() && (ring == old(ring) || fresh(ring))
      ensures model == Step(decode, old(model), Event.Fill(chunk))
      ensures peak == if phase.Waiting? then Max(old(peak), |Window(model)|) else old(peak)
    {
      forall i | 0 <= i < |chunk| {
        ring[rd + i] := chunk[i];
      }
      assert ring[rx..rd + |chunk|] == old(ring[rx..rd]) + chunk;
      rd := rd + |chunk|;
      phase := Ready;
      model := Arrived(model, chunk);
      Read();
    }

    /** Completion of a socket read with an error other than cancellation. */
    method FillError()
      requires Valid() && phase.Waiting?
      modifies this
      ensures Valid() && model == Step(decode, old(model), Hangup)
    {
      phase := Closed;
      model := model.(phase := Closed);
    }

    method Pressure() returns (n: nat)
      requires Valid()
      ensures n == ring.Length && RingSize(n, peak) && |Window(model)| <= n
      ensures phase.Waiting? ==> 2 * |Window(model)| <= n
    {
      n := ring.Length;
    }
  }
}
