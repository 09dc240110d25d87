/** A writable stream, a socket and a readable stream: one direction of a connection. */
module Pipeline {
  import opened Common
  import opened Bytes
  import opened MsgPack
  import opened Hpack
  import opened Frames
  import Writer
  import Reader

  // ---------------------------------------------------------------------------
  // Codecs.

  type Table = seq<Header>

  /**
   Both ends of a framing: what is sent for a message when the sender's header table is `e`, the
   sender's next table, and what the peer should see. `table` holds of every table that comes up.
   */
  datatype Codec = Codec(decode: Reader.DecodeFn, frame: (Table, Message) -> seq<byte>,
                         next: (Table, Message) -> Table, seen: Message -> Received,
                         sendable: Message -> bool, table: Table -> bool)

  ghost predicate RoundTrips(c: Codec, e: Table, m: Message, rest: seq<byte>)
  {
    c.decode(e, c.frame(e, m) + rest) == Decoded(c.seen(m), |c.frame(e, m)|, c.next(e, m))
  }

  ghost predicate AsksForMore(c: Codec, e: Table, m: Message, k: nat)
  {
    k < |c.frame(e, m)| ==> c.decode(e, c.frame(e, m)[..k]).Insufficient?
  }

  /**
   The laws of a codec: a frame is not empty, no proper prefix of it decodes, and the whole decodes,
   against the sender's table, to what was sent and the sender's next table.
   */
  ghost predicate Framing(c: Codec)
  {
    && c.table([])
    && (forall e :: c.decode(e, []).Insufficient?)
    && (forall e, m | c.table(e) && c.sendable(m) :: |c.frame(e, m)| > 0 && c.table(c.next(e, m)))
    && (forall e, m, rest | c.table(e) && c.sendable(m) :: RoundTrips(c, e, m, rest))
    && (forall e, m, k | c.table(e) && c.sendable(m) :: AsksForMore(c, e, m, k))
  }

  /** The live transport: literal headers, so that the table stays as it is. */
  function Live(statics: Statics): Codec
  {
    Codec(Reader.DecodeWith(statics), (e, m) => Frame(m), (e, m) => e, Seen, Sendable, e => true)
  }

  lemma TransportFraming(statics: Statics)
    ensures Framing(Live(statics))
  {
    var c := Live(statics);
    forall e, m, rest | c.sendable(m) ensures RoundTrips(c, e, m, rest) {
      FrameRoundTrip(statics, e, m, rest);
    }
    forall e, m, k: nat | c.sendable(m) ensures AsksForMore(c, e, m, k) {
      if k < |Frame(m)| { FramePrefixInsufficient(statics, e, m, k); }
    }
  }

  /** A rule for sending header lists: the wire for a list, and the table afterwards. */
  type Rule = (Table, seq<Header>) -> (seq<Object>, Table)

  predicate Fits(e: Table)
  {
    DataSize(e) <= CAPACITY
  }

  ghost predicate Denoting(statics: Statics, rule: Rule)
  {
    forall e, headers | Fits(e) :: Sends(statics, e, headers, rule(e, headers).0, rule(e, headers).1)
  }

  /** The transport with another rule for headers. */
  function Ruled(statics: Statics, rule: Rule): Codec
  {
    Codec(Reader.DecodeWith(statics),
          (e: Table, m: Message) => Pack(Packaged(m, rule(e, Outgoing(m.headers, m.trace)).0)),
          (e: Table, m: Message) => rule(e, Outgoing(m.headers, m.trace)).1,
          Seen, Sendable, Fits)
  }

  lemma RuleFraming(statics: Statics, rule: Rule)
    requires Denoting(statics, rule)
    ensures Framing(Ruled(statics, rule))
  {
    var c := Ruled(statics, rule);
    forall e, m | Fits(e) && Sendable(m)
      ensures |c.frame(e, m)| > 0 && c.table(c.next(e, m))
      ensures forall rest :: RoundTrips(c, e, m, rest)
      ensures forall k: nat :: AsksForMore(c, e, m, k)
    {
      RuleFrames(statics, rule, c, e, m);
    }
  }

  lemma RuleFrames(statics: Statics, rule: Rule, c: Codec, e: Table, m: Message)
    requires Denoting(statics, rule) && c == Ruled(statics, rule) && Fits(e) && Sendable(m)
    ensures |c.frame(e, m)| > 0 && c.table(c.next(e, m))
    ensures forall rest :: RoundTrips(c, e, m, rest)
    ensures forall k: nat :: AsksForMore(c, e, m, k)
  {
    var out := Outgoing(m.headers, m.trace);
    var (wire, last) := rule(e, out);
    assert Sends(statics, e, out, wire, last);
    OutgoingPackable(m);
    SentPackable(statics, e, out, wire, last);
    forall rest ensures RoundTrips(c, e, m, rest) {
      SentRoundTrip(statics, e, m, wire, last, rest);
    }
    forall k: nat ensures AsksForMore(c, e, m, k) {
      if k < |Pack(Packaged(m, wire))| { SentPrefixInsufficient(statics, e, m, wire, last, k); }
    }
  }

  /** The indexed sender's rule. */
  function Indexed(statics: Statics): Rule
  {
    (e, headers) => PackIndexedAll(statics, e, headers)
  }

  lemma IndexedIsDenoting(statics: Statics)
    ensures Denoting(statics, Indexed(statics))
  {
    forall e, headers | Fits(e)
      ensures Sends(statics, e, headers, Indexed(statics)(e, headers).0, Indexed(statics)(e, headers).1)
    {
      IndexedRoundTrip(statics, e, headers);
    }
  }

  // ---------------------------------------------------------------------------
  // Streams of frames.

  function SeenAll(seen: Message -> Received, messages: seq<Message>): (r: seq<Received>)
    ensures |r| == |messages|
    ensures forall i | 0 <= i < |r| :: r[i] == seen(messages[i])
  {
    seq(|messages|, i requires 0 <= i < |messages| => seen(messages[i]))
  }

  /** The sender's table after these messages. */
  function After(c: Codec, e: Table, messages: seq<Message>): Table
    decreases |messages|
  {
    if messages == [] then e else After(c, c.next(e, messages[0]), messages[1..])
  }

  /** The log of the writer holds the frames of the messages, each made with the table of its moment. */
  ghost predicate Carries(c: Codec, e: Table, messages: seq<Message>, log: seq<Writer.Entry>)
    decreases |messages|
  {
    if messages == [] then log == []
    else
      && log != [] && c.sendable(messages[0]) && log[0].frame == c.frame(e, messages[0])
      && Carries(c, c.next(e, messages[0]), messages[1..], log[1..])
  }

  lemma {:induction false} CarriesGrows(c: Codec, e: Table, messages: seq<Message>, log: seq<Writer.Entry>,
                                        m: Message, entry: Writer.Entry)
    requires Carries(c, e, messages, log) && c.sendable(m) && entry.frame == c.frame(After(c, e, messages), m)
    ensures Carries(c, e, messages + [m], log + [entry])
    decreases |messages|
  {
    if messages == [] {
      assert ([] + [m])[1..] == [] && ([] + [entry])[1..] == [];
    } else {
      CarriesGrows(c, c.next(e, messages[0]), messages[1..], log[1..], m, entry);
      assert (messages + [m])[1..] == messages[1..] + [m] && (log + [entry])[1..] == log[1..] + [entry];
    }
  }

  lemma {:induction false} CarriesSize(c: Codec, e: Table, messages: seq<Message>, log: seq<Writer.Entry>)
    requires Carries(c, e, messages, log)
    ensures |log| == |messages|
    decreases |messages|
  {
    if messages != [] { CarriesSize(c, c.next(e, messages[0]), messages[1..], log[1..]); }
  }

  lemma DrainFirst(c: Codec, e: Table, m: Message, rest: seq<byte>)
    requires Framing(c) && c.table(e) && c.sendable(m)
    ensures var f := c.frame(e, m);
            Reader.Drain(c.decode, e, f + rest) ==
            Reader.Precede(c.seen(m), |f|, Reader.Drain(c.decode, c.next(e, m), rest))
  {
    var f := c.frame(e, m);
    assert RoundTrips(c, e, m, rest);
    assert (f + rest)[|f|..] == rest;
  }

  lemma DrainPartial(c: Codec, e: Table, m: Message, n: nat)
    requires Framing(c) && c.table(e) && c.sendable(m) && n < |c.frame(e, m)|
    ensures Reader.Drain(c.decode, e, c.frame(e, m)[..n]) == Reader.Drained([], 0, e, None)
  {
    assert AsksForMore(c, e, m, n);
  }

  lemma SeenFirst(seen: Message -> Received, messages: seq<Message>, k: nat)
    requires 0 < k <= |messages|
    ensures SeenAll(seen, messages[..k]) == [seen(messages[0])] + SeenAll(seen, messages[1..][..k - 1])
  {
  }

  lemma AfterFirst(c: Codec, e: Table, messages: seq<Message>, k: nat)
    requires 0 < k <= |messages|
    ensures After(c, e, messages[..k]) == After(c, c.next(e, messages[0]), messages[1..][..k - 1])
  {
    assert messages[..k][1..] == messages[1..][..k - 1];
  }

  /** What decoding the first `n` bytes of the frames should give. */
  ghost predicate DrainsTo(c: Codec, e: Table, messages: seq<Message>, log: seq<Writer.Entry>, n: nat)
    requires n <= |Writer.Stream(log)|
  {
    var k := Writer.Complete(log, n);
    && k <= |messages|
    && Reader.Drain(c.decode, e, Writer.Stream(log)[..n]) ==
       Reader.Drained(SeenAll(c.seen, messages[..k]), |Writer.Stream(log[..k])|, After(c, e, messages[..k]), None)
  }

  /** Decoding any prefix of the stream of frames gives the complete ones, and then asks for more. */
  lemma {:induction false} DrainOfPrefix(c: Codec, e: Table, messages: seq<Message>, log: seq<Writer.Entry>, n: nat)
    requires Framing(c) && c.table(e) && Carries(c, e, messages, log) && n <= |Writer.Stream(log)|
    ensures DrainsTo(c, e, messages, log, n)
    decreases |log|
  {
    var s := Writer.Stream(log)[..n];
    if log == [] {
      assert s == [] && c.decode(e, []).Insufficient?;
    } else if n < |log[0].frame| {
      assert s == c.frame(e, messages[0])[..n];
      DrainPartial(c, e, messages[0], n);
    } else {
      var f := log[0].frame;
      var rest := Writer.Stream(log[1..])[..n - |f|];
      assert s == f + rest;
      DrainFirst(c, e, messages[0], rest);
      DrainOfPrefix(c, c.next(e, messages[0]), messages[1..], log[1..], n - |f|);
      DrainStep(c, e, messages, log, n);
    }
  }

  lemma DrainStep(c: Codec, e: Table, messages: seq<Message>, log: seq<Writer.Entry>, n: nat)
    requires messages != [] && log != [] && |log[0].frame| <= n <= |Writer.Stream(log)|
    requires var f := log[0].frame; var e' := c.next(e, messages[0]);
             && DrainsTo(c, e', messages[1..], log[1..], n - |f|)
             && Reader.Drain(c.decode, e, Writer.Stream(log)[..n]) ==
                Reader.Precede(c.seen(messages[0]), |f|, Reader.Drain(c.decode, e', Writer.Stream(log[1..])[..n - |f|]))
    ensures DrainsTo(c, e, messages, log, n)
  {
    var k := Writer.Complete(log, n);
    SeenFirst(c.seen, messages, k);
    AfterFirst(c, e, messages, k);
    assert log[..k][1..] == log[1..][..k - 1];
  }

  // ---------------------------------------------------------------------------
  // Runs of the whole pipeline.

  datatype Pipe = Pipe(messages: seq<Message>, writer: Writer.State, reader: Reader.State)

  datatype Event =
    | Send(message: Message, handler: Writer.Handler, accepted: nat)
    | Sent(event: Writer.Event)       // progress or failure of the outstanding write
    | Receive(count: nat)             // the socket hands over the next bytes, as many as it likes
    | Read
    | Hangup

  function Undelivered(p: Pipe): int
  {
    p.writer.sent - |p.reader.received|
  }

  /** The writer's event for a message: its frame, made with the table after all messages so far. */
  function Written(c: Codec, p: Pipe, m: Message, h: Writer.Handler, n: nat): Writer.Event
  {
    Writer.Write(Writer.Entry(c.frame(After(c, [], p.messages), m), h), n)
  }

  ghost predicate Enabled(c: Codec, p: Pipe, e: Event)
  {
    match e
    case Send(m, h, n) => c.sendable(m) && Writer.Enabled(p.writer, Written(c, p, m, h, n))
    case Sent(w) => !w.Write? && Writer.Enabled(p.writer, w)
    case Receive(n) => p.reader.phase.Waiting? && n <= Undelivered(p)
    case Read => Reader.Enabled(p.reader, Reader.Read)
    case Hangup => Reader.Enabled(p.reader, Reader.Hangup)
  }

  ghost function Step(c: Codec, p: Pipe, e: Event): Pipe
    requires Writer.Consistent(p.writer) && Reader.Consistent(p.reader)
  {
    match e
    case Send(m, h, n) => p.(messages := p.messages + [m], writer := Writer.Step(p.writer, Written(c, p, m, h, n)))
    case Sent(w) => p.(writer := Writer.Step(p.writer, w))
    case Receive(n) =>
      if 0 <= n <= Undelivered(p) then
        var at := |p.reader.received|;
        p.(reader := Reader.Step(c.decode, p.reader, Reader.Fill(Writer.Wire(p.writer)[at..at + n])))
      else p
    case Read => p.(reader := Reader.Step(c.decode, p.reader, Reader.Read))
    case Hangup => p.(reader := Reader.Step(c.decode, p.reader, Reader.Hangup))
  }

  /** A property of readers that holds at all times once it holds. */
  ghost predicate Kept(decode: Reader.DecodeFn, track: Reader.State -> bool)
  {
    && (forall r | track(r) :: Reader.Consistent(r))
    && (forall r, e {:trigger Reader.Step(decode, r, e)} | track(r) && Reader.Enabled(r, e) ::
          track(Reader.Step(decode, r, e)))
  }

  ghost predicate Invariant(c: Codec, track: Reader.State -> bool, p: Pipe)
  {
    && Writer.Consistent(p.writer) && track(p.reader)
    && Carries(c, [], p.messages, p.writer.log)
    && p.reader.received <= Writer.Wire(p.writer)
  }

  lemma WriterStepKeeps(c: Codec, track: Reader.State -> bool, p: Pipe, w: Writer.Event, messages: seq<Message>)
    requires Invariant(c, track, p) && Writer.Enabled(p.writer, w)
    requires Carries(c, [], messages, Writer.Step(p.writer, w).log)
    ensures Invariant(c, track, p.(messages := messages, writer := Writer.Step(p.writer, w)))
  {
    Writer.StepKeeps(p.writer, w);
  }

  lemma SendKeeps(c: Codec, track: Reader.State -> bool, p: Pipe, m: Message, h: Writer.Handler, n: nat)
    requires Kept(c.decode, track) && Invariant(c, track, p) && Enabled(c, p, Send(m, h, n))
    ensures Invariant(c, track, Step(c, p, Send(m, h, n)))
  {
    var w := Written(c, p, m, h, n);
    CarriesGrows(c, [], p.messages, p.writer.log, m, w.entry);
    WriterStepKeeps(c, track, p, w, p.messages + [m]);
  }

  lemma StepKeeps(c: Codec, track: Reader.State -> bool, p: Pipe, e: Event)
    requires Kept(c.decode, track) && Invariant(c, track, p) && Enabled(c, p, e)
    ensures Invariant(c, track, Step(c, p, e))
  {
    match e
    case Send(m, h, n) => SendKeeps(c, track, p, m, h, n);
    case Sent(w) => WriterStepKeeps(c, track, p, w, p.messages);
    case Receive(n) =>
      var at := |p.reader.received|;
      var chunk := Writer.Wire(p.writer)[at..at + n];
      assert p.reader.received + chunk == Writer.Wire(p.writer)[..at + n];
    case Read =>
    case Hangup =>
  }

  function Start(): Pipe
  {
    Pipe([], Writer.Fresh(), Reader.Start())
  }

  ghost predicate Takes(c: Codec, p: Pipe, e: Event, next: Pipe)
  {
    && Writer.Consistent(p.writer) && Reader.Consistent(p.reader)
    && Enabled(c, p, e) && next == Step(c, p, e)
  }

  lemma TakesKeeps(c: Codec, track: Reader.State -> bool, p: Pipe, e: Event, next: Pipe)
    requires Kept(c.decode, track) && Invariant(c, track, p) && Takes(c, p, e, next)
    ensures Invariant(c, track, next)
  {
    StepKeeps(c, track, p, e);
  }

  ghost predicate IsRun(c: Codec, pipes: seq<Pipe>, events: seq<Event>)
  {
    && |pipes| == |events| + 1 && pipes[0] == Start()
    && forall i | 0 <= i < |events| :: Takes(c, pipes[i], events[i], pipes[i + 1])
  }

  lemma {:induction false} RunsKeep(c: Codec, track: Reader.State -> bool, pipes: seq<Pipe>, events: seq<Event>, k: nat)
    requires Kept(c.decode, track) && track(Reader.Start()) && IsRun(c, pipes, events) && k < |pipes|
    ensures Invariant(c, track, pipes[k])
  {
    if k > 0 {
      RunsKeep(c, track, pipes, events, k - 1);
      assert Takes(c, pipes[k - 1], events[k - 1], pipes[k - 1 + 1]);
      TakesKeeps(c, track, pipes[k - 1], events[k - 1], pipes[k]);
    }
  }

  /** What every reachable pipe satisfies: exactly-once, in-order delivery of what was sent. */
  ghost predicate Faithful(c: Codec, p: Pipe)
  {
    var arrived := Writer.Complete(p.writer.log, |p.reader.received|);
    && arrived <= |p.messages|
    // Delivered messages are the first ones sent, in order, none twice, and no more than arrived.
    && |p.reader.delivered| <= arrived
    && p.reader.delivered == SeenAll(c.seen, p.messages[..|p.reader.delivered|])
    // A reader that waits has delivered every message whose bytes are all in, and its header table is
    // the one the sender had after those.
    && (p.reader.phase.Waiting? ==>
          |p.reader.delivered| == arrived && p.reader.entries == After(c, [], p.messages[..arrived]))
    // The decoder never complains about the peer's own frames.
    && !p.reader.phase.Failed?
    // Once the writer is idle and the socket is drained, a waiting reader has delivered everything.
    && (Writer.Idle(p.writer) && Undelivered(p) == 0 && p.reader.phase.Waiting? ==>
          p.reader.delivered == SeenAll(c.seen, p.messages))
  }

  lemma FaithfulFrom(c: Codec, p: Pipe, d: Reader.Drained)
    requires Writer.Consistent(p.writer) && |p.messages| == |p.writer.log| && |p.reader.received| <= p.writer.sent
    requires var arrived := Writer.Complete(p.writer.log, |p.reader.received|);
             d.messages == SeenAll(c.seen, p.messages[..arrived]) && d.entries == After(c, [], p.messages[..arrived])
    requires p.reader.delivered <= d.messages
    requires !p.reader.phase.Ready? ==> p.reader.delivered == d.messages && p.reader.entries == d.entries
    requires !p.reader.phase.Failed?
    ensures Faithful(c, p)
  {
    var n := |p.reader.received|;
    assert p.reader.delivered == SeenAll(c.seen, p.messages[..|p.reader.delivered|]);
    if Writer.Idle(p.writer) && Undelivered(p) == 0 {
      Writer.CompleteIsExact(p.writer.log, n, |p.messages|);
      assert p.writer.log[..|p.messages|] == p.writer.log;
      assert p.messages[..|p.messages|] == p.messages;
    }
  }

  ghost function Track(decode: Reader.DecodeFn): Reader.State -> bool
  {
    r => Reader.OnTrack(decode, r)
  }

  lemma TrackIsKept(decode: Reader.DecodeFn)
    requires Reader.Lawful(decode)
    ensures Kept(decode, Track(decode)) && Track(decode)(Reader.Start())
  {
    forall r, e | Reader.OnTrack(decode, r) && Reader.Enabled(r, e)
      ensures Reader.OnTrack(decode, Reader.Step(decode, r, e))
    {
      Reader.StepStaysOnTrack(decode, r, e);
    }
    Reader.StartsOnTrack(decode, Reader.Start());
  }

  lemma InvariantIsFaithful(c: Codec, p: Pipe)
    requires Framing(c) && Invariant(c, Track(c.decode), p)
    ensures Faithful(c, p)
  {
    var n := |p.reader.received|;
    assert p.reader.received == Writer.Stream(p.writer.log)[..n];
    CarriesSize(c, [], p.messages, p.writer.log);
    DrainOfPrefix(c, [], p.messages, p.writer.log, n);
    Reader.OnTrackFacts(c.decode, p.reader);
    FaithfulFrom(c, p, Reader.Drain(c.decode, [], p.reader.received));
  }

  /** The messages sent, in order. */
  function SentMessages(events: seq<Event>): seq<Message>
  {
    if events == [] then []
    else
      var n := |events| - 1;
      SentMessages(events[..n]) + (if events[n].Send? then [events[n].message] else [])
  }

  /** The bytes the sender's socket has taken. */
  function TakenBytes(events: seq<Event>): nat
  {
    if events == [] then 0
    else
      var n := |events| - 1;
      TakenBytes(events[..n]) + match events[n]
                                case Send(_, _, accepted) => accepted
                                case Sent(Flush(count)) => count
                                case _ => 0
  }

  /** The bytes the receiver's socket has handed over. */
  function HandedBytes(events: seq<Event>): nat
  {
    if events == [] then 0
    else
      var n := |events| - 1;
      HandedBytes(events[..n]) + if events[n].Receive? then events[n].count else 0
  }

  /** The ends of the pipe are what the events say. */
  lemma {:induction false} PipeIsEvents(c: Codec, pipes: seq<Pipe>, events: seq<Event>, k: nat)
    requires IsRun(c, pipes, events) && k < |pipes|
    ensures pipes[k].messages == SentMessages(events[..k])
    ensures pipes[k].writer.sent == TakenBytes(events[..k]) && |pipes[k].reader.received| == HandedBytes(events[..k])
  {
    if k > 0 {
      PipeIsEvents(c, pipes, events, k - 1);
      assert events[..k][..k - 1] == events[..k - 1];
      assert Takes(c, pipes[k - 1], events[k - 1], pipes[k - 1 + 1]);
      StepCounts(c, pipes[k - 1], events[k - 1], pipes[k]);
    }
  }

  lemma StepCounts(c: Codec, p: Pipe, e: Event, q: Pipe)
    requires Takes(c, p, e, q)
    ensures q.messages == p.messages + (if e.Send? then [e.message] else [])
    ensures q.writer.sent == p.writer.sent + match e
                                             case Send(_, _, accepted) => accepted
                                             case Sent(Flush(count)) => count
                                             case _ => 0
    ensures |q.reader.received| == |p.reader.received| + if e.Receive? then e.count else 0
  {
  }

  /**
   For every codec that obeys the laws, every sequence of writes, every schedule of partial socket
   writes, failures and cancellations, and every chunking of reads, delivery is faithful at every
   point of the run.
   */
  lemma FaithfulDelivery(c: Codec, pipes: seq<Pipe>, events: seq<Event>, k: nat)
    requires Framing(c) && Reader.Lawful(c.decode) && IsRun(c, pipes, events) && k < |pipes|
    ensures Faithful(c, pipes[k]) && pipes[k].messages == SentMessages(events[..k])
  {
    PipeIsEvents(c, pipes, events, k);
    TrackIsKept(c.decode);
    RunsKeep(c, Track(c.decode), pipes, events, k);
    InvariantIsFaithful(c, pipes[k]);
  }

  /** End to end, for the live transport. */
  lemma EndToEnd(statics: Statics, pipes: seq<Pipe>, events: seq<Event>, k: nat)
    requires IsRun(Live(statics), pipes, events) && k < |pipes|
    ensures Faithful(Live(statics), pipes[k]) && pipes[k].messages == SentMessages(events[..k])
  {
    Reader.DecoderIsLawful(statics);
    TransportFraming(statics);
    FaithfulDelivery(Live(statics), pipes, events, k);
  }

  /**
   End to end with header compression: whatever denotations the sender picks, the bytes carry the
   headers and keep the two tables equal.
   */
  lemma EndToEndCompressed(statics: Statics, rule: Rule, pipes: seq<Pipe>, events: seq<Event>, k: nat)
    requires Denoting(statics, rule) && IsRun(Ruled(statics, rule), pipes, events) && k < |pipes|
    ensures Faithful(Ruled(statics, rule), pipes[k]) && pipes[k].messages == SentMessages(events[..k])
  {
    Reader.DecoderIsLawful(statics);
    RuleFraming(statics, rule);
    FaithfulDelivery(Ruled(statics, rule), pipes, events, k);
  }

  /** So for the indexed sender. */
  lemma EndToEndIndexed(statics: Statics, pipes: seq<Pipe>, events: seq<Event>, k: nat)
    requires IsRun(Ruled(statics, Indexed(statics)), pipes, events) && k < |pipes|
    ensures Faithful(Ruled(statics, Indexed(statics)), pipes[k]) && pipes[k].messages == SentMessages(events[..k])
  {
    IndexedIsDenoting(statics);
    EndToEndCompressed(statics, Indexed(statics), pipes, events, k);
  }
}
