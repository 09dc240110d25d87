/**
 The buffered writable stream. Frames that the socket does not take at once wait in three deques
 (buffer views, encoded frames, completion handlers) and leave them as asynchronous writes report
 progress.
 */
module Writer {
  import opened Bytes
  import Frames

  type Handler = nat

  datatype Code = Success | Failure(value: int)

  type Error = c: Code | c.Failure? witness Failure(0)

  datatype Post = Post(handler: Handler, code: Code)

  datatype Entry = Entry(frame: seq<byte>, handler: Handler)

  // ---------------------------------------------------------------------------
  // The simple form: everything ever written, and how many of its bytes are out.

  datatype Status =
    | Live
    | Failed(upto: nat, code: Error)   // the first `upto` entries were answered with the code
    | Aborted                         // the pending operation was cancelled

  datatype State = State(log: seq<Entry>, sent: nat, status: Status)

  function FrameOf(e: Entry): seq<byte>
  {
    e.frame
  }

  function Stream(log: seq<Entry>): seq<byte>
  {
    ConcatMap(FrameOf, log)
  }

  ghost predicate NonEmptyFrames(log: seq<Entry>)
  {
    forall i | 0 <= i < |log| :: |log[i].frame| > 0
  }

  lemma StreamSplits(log: seq<Entry>, k: nat)
    requires k <= |log|
    ensures Stream(log) == Stream(log[..k]) + Stream(log[k..])
  {
    assert log == log[..k] + log[k..];
    ConcatMapSplits(FrameOf, log[..k], log[k..]);
  }

  lemma StreamGrows(log: seq<Entry>, k: nat)
    requires k < |log|
    ensures Stream(log[..k + 1]) == Stream(log[..k]) + log[k].frame
  {
    assert log[..k + 1] == log[..k] + [log[k]];
    ConcatMapGrows(FrameOf, log[..k], log[k]);
  }

  /** How many leading frames lie entirely within the first `n` bytes. */
  function Complete(log: seq<Entry>, n: nat): (k: nat)
    ensures k <= |log|
  {
    if log == [] || n < |log[0].frame| then 0 else 1 + Complete(log[1..], n - |log[0].frame|)
  }

  /** The frames counted are those that end by byte `n`, and no other. */
  lemma {:induction false} CompleteIsExact(log: seq<Entry>, n: nat, k: nat)
    requires NonEmptyFrames(log) && k <= |log|
    ensures k <= Complete(log, n) <==> |Stream(log[..k])| <= n
  {
    if log != [] && k > 0 {
      assert log[..k][1..] == log[1..][..k - 1];
      if |log[0].frame| <= n { CompleteIsExact(log[1..], n - |log[0].frame|, k - 1); }
    }
  }

  lemma CompleteAt(log: seq<Entry>, n: nat, k: nat)
    requires NonEmptyFrames(log) && k <= |log|
    requires |Stream(log[..k])| <= n && (k < |log| ==> n < |Stream(log[..k + 1])|)
    ensures Complete(log, n) == k
  {
    CompleteIsExact(log, n, k);
    if k < |log| { CompleteIsExact(log, n, k + 1); }
  }

  /** The answers to the first `upto` entries: success for the first `done` of them, then the code. */
  function Posted(log: seq<Entry>, done: nat, upto: nat, code: Code): (r: seq<Post>)
    requires upto <= |log|
    ensures |r| == upto
    ensures forall i | 0 <= i < upto :: r[i] == Post(log[i].handler, if i < done then Success else code)
  {
    seq(upto, i requires 0 <= i < upto => Post(log[i].handler, if i < done then Success else code))
  }

  predicate Consistent(w: State)
  {
    && (forall i | 0 <= i < |w.log| :: |w.log[i].frame| > 0)
    && w.sent <= |Stream(w.log)|
    && (w.status.Failed? ==> Complete(w.log, w.sent) <= w.status.upto <= |w.log|)
  }

  /** The bytes the peer can have seen. */
  function Wire(w: State): seq<byte>
    requires Consistent(w)
  {
    Stream(w.log)[..w.sent]
  }

  /** The handler invocations so far, in order. */
  function Posts(w: State): seq<Post>
    requires Consistent(w)
  {
    var done := Complete(w.log, w.sent);
    if w.status.Failed? then Posted(w.log, done, w.status.upto, w.status.code) else Posted(w.log, done, done, Success)
  }

  predicate Idle(w: State)
  {
    w.status.Live? && w.sent == |Stream(w.log)|
  }

  datatype Event =
    | Write(entry: Entry, accepted: nat)
    | Flush(count: nat)
    | Fail(code: Error)
    | Abort

  /** What the socket may do: it takes no more than it is given, and answers one write at a time. */
  predicate Enabled(w: State, e: Event)
  {
    match e
    case Write(entry, n) => |entry.frame| > 0 && n <= |entry.frame| && (n > 0 ==> Idle(w))
    case Flush(n) => w.status.Live? && !Idle(w) && w.sent + n <= |Stream(w.log)|
    case Fail(_) => w.status.Live? && !Idle(w)
    case Abort => w.status.Live? && !Idle(w)
  }

  function Step(w: State, e: Event): State
  {
    match e
    case Write(entry, n) => w.(log := w.log + [entry], sent := w.sent + n)
    case Flush(n) => w.(sent := w.sent + n)
    case Fail(code) => w.(status := Failed(|w.log|, code))
    case Abort => w.(status := Aborted)
  }

  lemma {:induction false} CompleteAppend(log: seq<Entry>, n: nat, e: Entry)
    requires NonEmptyFrames(log) && n <= |Stream(log)|
    ensures |e.frame| > 0 ==> Complete(log + [e], n) == Complete(log, n)
  {
    if |e.frame| > 0 {
      var k := Complete(log, n);
      var more := log + [e];
      CompleteIsExact(log, n, k);
      assert more[..k] == log[..k];
      if k < |log| {
        CompleteIsExact(log, n, k + 1);
        assert more[..k + 1] == log[..k + 1];
      } else {
        assert log[..k] == log && more[..k + 1] == more;
        ConcatMapGrows(FrameOf, log, e);
      }
      CompleteAt(more, n, k);
    }
  }

  /**
   One step of the stream: bytes already out and handlers already run are never taken back, a
   failed stream sends and answers nothing more, and a stream is idle exactly when it is live and
   everything written is out.
   */
  lemma StepKeeps(w: State, e: Event)
    requires Consistent(w) && Enabled(w, e)
    ensures Extends(w, Step(w, e))
  {
    StepConsistent(w, e);
    match e
    case Write(entry, n) => WriteExtends(w, entry, n);
    case Flush(n) => FlushExtends(w, n);
    case Fail(_) =>
    case Abort =>
  }

  lemma FlushExtends(w: State, n: nat)
    requires Consistent(w) && Enabled(w, Flush(n))
    ensures Extends(w, Step(w, Flush(n)))
  {
    CompleteMonotone(w.log, w.sent, w.sent + n);
  }

  lemma WriteExtends(w: State, entry: Entry, n: nat)
    requires Consistent(w) && Enabled(w, Write(entry, n))
    ensures Extends(w, Step(w, Write(entry, n)))
  {
    var log := w.log + [entry];
    StepConsistent(w, Write(entry, n));
    ConcatMapGrows(FrameOf, w.log, entry);
    CompleteAppend(w.log, w.sent, entry);
    CompleteMonotone(log, w.sent, w.sent + n);
  }

  predicate Extends(w: State, v: State)
  {
    && Consistent(w) && Consistent(v)
    && Wire(w) <= Wire(v) && Posts(w) <= Posts(v)
    && (!w.status.Live? ==> !v.status.Live? && Wire(w) == Wire(v) && Posts(w) == Posts(v))
  }

  lemma StepConsistent(w: State, e: Event)
    requires Consistent(w) && Enabled(w, e)
    ensures Consistent(Step(w, e))
  {
    if e.Write? {
      ConcatMapGrows(FrameOf, w.log, e.entry);
      CompleteAppend(w.log, w.sent, e.entry);
    }
  }

  lemma ExtendsTransitive(u: State, v: State, w: State)
    requires Extends(u, v) && Extends(v, w)
    ensures Extends(u, w)
  {
  }

  lemma {:induction false} CompleteMonotone(log: seq<Entry>, m: nat, n: nat)
    requires m <= n
    ensures Complete(log, m) <= Complete(log, n)
  {
    if log != [] && m >= |log[0].frame| { CompleteMonotone(log[1..], m - |log[0].frame|, n - |log[0].frame|); }
  }

  // Runs.

  function Run(w: State, events: seq<Event>): State
    decreases |events|
  {
    if events == [] then w else Run(Step(w, events[0]), events[1..])
  }

  predicate Allowed(w: State, events: seq<Event>)
    decreases |events|
  {
    events == [] || (Enabled(w, events[0]) && Allowed(Step(w, events[0]), events[1..]))
  }

  function Fresh(): State
  {
    State([], 0, Live)
  }

  function Writes(events: seq<Event>): seq<Entry>
  {
    if events == [] then []
    else (if events[0].Write? then [events[0].entry] else []) + Writes(events[1..])
  }

  lemma {:induction false} RunLog(w: State, events: seq<Event>)
    requires Consistent(w) && Allowed(w, events)
    ensures Consistent(Run(w, events)) && Run(w, events).log == w.log + Writes(events)
    decreases |events|
  {
    if events != [] {
      StepConsistent(w, events[0]);
      RunLog(Step(w, events[0]), events[1..]);
    }
  }

  /** Over a run, too, nothing is taken back, and a stream that is no longer live stays silent. */
  lemma {:induction false} RunKeeps(w: State, events: seq<Event>)
    requires Consistent(w) && Allowed(w, events)
    ensures Extends(w, Run(w, events))
    decreases |events|
  {
    if events != [] {
      StepKeeps(w, events[0]);
      RunKeeps(Step(w, events[0]), events[1..]);
      ExtendsTransitive(w, Step(w, events[0]), Run(w, events));
    }
  }

  /** The bytes the socket has taken, in all. */
  function Taken(events: seq<Event>): nat
  {
    if events == [] then 0
    else (match events[0]
          case Write(_, n) => n
          case Flush(n) => n
          case _ => 0) + Taken(events[1..])
  }

  lemma {:induction false} RunSent(w: State, events: seq<Event>)
    ensures Run(w, events).sent == w.sent + Taken(events)
    decreases |events|
  {
    if events != [] { RunSent(Step(w, events[0]), events[1..]); }
  }

  /**
   Conservation over every run: what is out is a prefix of the concatenation of all frames written,
   as many bytes as the socket took, and all of it when the stream is idle.
   */
  lemma WriterConservation(events: seq<Event>)
    requires Allowed(Fresh(), events)
    ensures var w := Run(Fresh(), events);
            && Consistent(w) && Wire(w) <= Stream(Writes(events)) && |Wire(w)| == Taken(events)
            && (Idle(w) ==> Wire(w) == Stream(Writes(events)))
  {
    RunSent(Fresh(), events);
    RunLog(Fresh(), events);
    assert Run(Fresh(), events).log == Writes(events);
  }

  /**
   The handlers run with success are exactly those of the frames that are out entirely, in write
   order and once each; before an error no other handler runs.
   */
  lemma HandlersFollowBytes(w: State, k: nat)
    requires Consistent(w) && k <= |w.log| && !w.status.Failed?
    ensures |Posts(w)| <= |w.log| && Posts(w) == Posted(w.log, |Posts(w)|, |Posts(w)|, Success)
    ensures k <= |Posts(w)| <==> |Stream(w.log[..k])| <= |Wire(w)|
  {
    CompleteIsExact(w.log, w.sent, k);
  }

  /** An error came after the `k`-th write. */
  ghost predicate ErrorFollows(events: seq<Event>, k: nat)
  {
    exists j :: FailsAfter(events, j, k)
  }

  predicate FailsAfter(events: seq<Event>, j: int, k: nat)
  {
    0 <= j < |events| && events[j].Fail? && k < |Writes(events[..j])|
  }

  /** Where a run fails: at its one error, with everything written by then answered. */
  lemma {:induction false} FailureIsAt(w: State, events: seq<Event>, j: nat)
    requires Consistent(w) && Allowed(w, events) && j < |events| && events[j].Fail?
    ensures w.status.Live? && Run(w, events).status == Failed(|w.log| + |Writes(events[..j])|, events[j].code)
    decreases |events|
  {
    var v := Step(w, events[0]);
    StepConsistent(w, events[0]);
    if j == 0 {
      StatusKept(v, events[1..]);
    } else {
      FailureIsAt(v, events[1..], j - 1);
      assert events[..j][1..] == events[1..][..j - 1];
    }
  }

  lemma {:induction false} StatusKept(w: State, events: seq<Event>)
    requires Allowed(w, events) && !w.status.Live?
    ensures Run(w, events).status == w.status
    decreases |events|
  {
    if events != [] { StatusKept(Step(w, events[0]), events[1..]); }
  }

  lemma {:induction false} FailureHasCause(w: State, events: seq<Event>) returns (j: nat)
    requires Allowed(w, events) && !w.status.Failed? && Run(w, events).status.Failed?
    ensures j < |events| && events[j].Fail?
    decreases |events|
  {
    if events[0].Fail? {
      j := 0;
    } else {
      var i := FailureHasCause(Step(w, events[0]), events[1..]);
      j := i + 1;
    }
  }

  /** A stream has failed past entry `k` exactly when an error followed the `k`-th write. */
  lemma FailedIffErrorFollows(events: seq<Event>, k: nat)
    requires Allowed(Fresh(), events)
    ensures var w := Run(Fresh(), events);
            ErrorFollows(events, k) <==> w.status.Failed? && k < w.status.upto
  {
    var w := Run(Fresh(), events);
    if w.status.Failed? {
      var j := FailureHasCause(Fresh(), events);
      FailureIsAt(Fresh(), events, j);
      if k < w.status.upto { assert FailsAfter(events, j, k); }
    }
    if ErrorFollows(events, k) {
      var j :| FailsAfter(events, j, k);
      FailureIsAt(Fresh(), events, j);
    }
  }

  /** Which handlers have run in a state, and with what. */
  lemma AnsweredIff(w: State, k: nat)
    requires Consistent(w) && k < |w.log|
    ensures var out := |Stream(w.log[..k + 1])| <= |Wire(w)|;
            && (k < |Posts(w)| <==> out || (w.status.Failed? && k < w.status.upto))
            && (k < |Posts(w)| ==> Posts(w)[k].handler == w.log[k].handler && (Posts(w)[k].code == Success <==> out))
            && (k < |Posts(w)| && !out ==> w.status.Failed? && Posts(w)[k].code == w.status.code)
  {
    CompleteIsExact(w.log, w.sent, k + 1);
  }

  /**
   When a handler runs, in every run: exactly when its frame is out entirely or an error followed
   its write, with success exactly in the first case and the error otherwise. Cancellation answers
   nobody.
   */
  lemma HandlersAnsweredIff(events: seq<Event>, k: nat)
    requires Allowed(Fresh(), events) && k < |Writes(events)|
    ensures var w := Run(Fresh(), events);
            && Consistent(w) && w.log == Writes(events)
            && var out := |Stream(w.log[..k + 1])| <= |Wire(w)|;
               && (k < |Posts(w)| <==> out || ErrorFollows(events, k))
               && (k < |Posts(w)| ==> Posts(w)[k].handler == w.log[k].handler && (Posts(w)[k].code == Success <==> out))
               && (k < |Posts(w)| && !out ==>
                     exists j :: FailsAfter(events, j, k) && Posts(w)[k].code == events[j].code)
  {
    var w := Run(Fresh(), events);
    RunLog(Fresh(), events);
    assert [] + Writes(events) == Writes(events);
    FailedIffErrorFollows(events, k);
    AnsweredIff(w, k);
    if ErrorFollows(events, k) {
      var j :| FailsAfter(events, j, k);
      FailureIsAt(Fresh(), events, j);
    }
  }

  /** A write error answers every waiting handler, once and in order. */
  lemma FailureAnswersRest(w: State, code: Error)
    requires Consistent(w) && Enabled(w, Fail(code))
    ensures var v := Step(w, Fail(code));
            Consistent(v) && Posts(w) <= Posts(v) && Posts(v) == Posted(w.log, |Posts(w)|, |w.log|, code)
  {
  }

  /**
   It also leaves the stream refusing to notice later writes: whatever follows, no byte of them is
   sent and no handler of theirs ever runs.
   */
  lemma SilentAfterFailure(w: State, code: Error, later: seq<Event>)
    requires Consistent(w) && Enabled(w, Fail(code)) && Allowed(Step(w, Fail(code)), later)
    ensures var v := Step(w, Fail(code)); var u := Run(v, later);
            && Consistent(v) && Consistent(u) && u.log == w.log + Writes(later)
            && Posts(u) == Posts(v) && Wire(u) == Wire(w)
  {
    var v := Step(w, Fail(code));
    StepConsistent(w, Fail(code));
    RunKeeps(v, later);
    RunLog(v, later);
  }

  // ---------------------------------------------------------------------------
  // The stream object.

  datatype Mode = IdleMode | Flushing

  /** A constant buffer: the part of the frame beside it that is still to be sent. */
  datatype View = View(offset: nat, size: nat)

  function Slice(frame: seq<byte>, view: View): seq<byte>
  {
    if view.offset + view.size <= |frame| then frame[view.offset..view.offset + view.size] else []
  }

  /** The bytes of a buffer sequence, as a gathering write would take them. */
  function Gather(views: seq<View>, frames: seq<seq<byte>>): seq<byte>
  {
    if views == [] || frames == [] then [] else Slice(frames[0], views[0]) + Gather(views[1..], frames[1..])
  }

  /** One place of the deques: the rest of the frame of an entry, not empty, and its handler. */
  predicate Stands(view: View, frame: seq<byte>, handler: Handler, entry: Entry)
  {
    && frame == entry.frame && handler == entry.handler
    && view.size > 0 && view.offset + view.size == |frame|
  }

  /** The deques in lock step with the last entries of the log; only the front view may be cut. */
  predicate Queued(views: seq<View>, frames: seq<seq<byte>>, handlers: seq<Handler>, log: seq<Entry>, base: nat)
  {
    && |views| == |frames| == |handlers| && base + |views| == |log|
    && (forall i | 0 <= i < |views| :: Stands(views[i], frames[i], handlers[i], log[base + i]))
    && (forall i | 0 < i < |views| :: views[i].offset == 0)
  }

  function Cut(views: seq<View>): nat
  {
    if views == [] then 0 else views[0].offset
  }

  lemma PopFront(views: seq<View>, frames: seq<seq<byte>>, handlers: seq<Handler>, log: seq<Entry>, base: nat)
    requires Queued(views, frames, handlers, log, base) && views != []
    ensures base < |log| && Stands(views[0], frames[0], handlers[0], log[base])
    ensures Queued(views[1..], frames[1..], handlers[1..], log, base + 1) && Cut(views[1..]) == 0
  {
  }

  lemma {:induction false} GatherAll(views: seq<View>, frames: seq<seq<byte>>, handlers: seq<Handler>, log: seq<Entry>,
                                     base: nat)
    requires Queued(views, frames, handlers, log, base) && Cut(views) == 0
    ensures Gather(views, frames) == Stream(log[base..])
    decreases |views|
  {
    if views != [] {
      PopFront(views, frames, handlers, log, base);
      GatherAll(views[1..], frames[1..], handlers[1..], log, base + 1);
      assert log[base..][1..] == log[base + 1..];
    }
  }

  lemma GatherIsRest(views: seq<View>, frames: seq<seq<byte>>, handlers: seq<Handler>, log: seq<Entry>, base: nat)
    requires Queued(views, frames, handlers, log, base)
    ensures Cut(views) <= |Stream(log[base..])| && Gather(views, frames) == Stream(log[base..])[Cut(views)..]
  {
    if views != [] {
      PopFront(views, frames, handlers, log, base);
      GatherAll(views[1..], frames[1..], handlers[1..], log, base + 1);
      assert log[base..][1..] == log[base + 1..];
      var rest := Stream(log[base + 1..]);
      assert (log[base].frame + rest)[Cut(views)..] == log[base].frame[Cut(views)..] + rest;
    }
  }

  lemma CutFront(views: seq<View>, frames: seq<seq<byte>>, handlers: seq<Handler>, log: seq<Entry>, base: nat, n: nat)
    requires Queued(views, frames, handlers, log, base) && views != [] && n < views[0].size
    ensures Queued([View(views[0].offset + n, views[0].size - n)] + views[1..], frames, handlers, log, base)
  {
  }

  lemma PushBack(views: seq<View>, frames: seq<seq<byte>>, handlers: seq<Handler>, log: seq<Entry>, base: nat,
                 view: View, entry: Entry)
    requires Queued(views, frames, handlers, log, base)
    requires view.size > 0 && view.offset + view.size == |entry.frame| && (views != [] ==> view.offset == 0)
    ensures Queued(views + [view], frames + [entry.frame], handlers + [entry.handler], log + [entry], base)
  {
  }

  /** Bookkeeping: mode, outstanding operation and position of the front view against the simple form. */
  predicate Settled(views: seq<View>, mode: Mode, inflight: bool, w: State)
    requires |views| <= |w.log|
  {
    var base := |w.log| - |views|;
    match w.status
    case Live =>
      && |Stream(w.log[..base])| + Cut(views) == w.sent
      && (mode == IdleMode <==> views == []) && (inflight <==> mode == Flushing)
    case Failed(upto, _) => base == upto && mode == Flushing && !inflight
    case Aborted => mode == Flushing && !inflight
  }

  /** The fields of a stream object, and what the environment has been given. */
  datatype Fields = Fields(views: seq<View>, frames: seq<seq<byte>>, handlers: seq<Handler>, mode: Mode,
                           wire: seq<byte>, posted: seq<Post>, inflight: bool)

  /** The deques, the bookkeeping and the outputs stand for the simple state `w`. */
  predicate Represents(o: Fields, w: State)
  {
    && |o.views| <= |w.log| && Consistent(w)
    && Queued(o.views, o.frames, o.handlers, w.log, |w.log| - |o.views|)
    && o.wire == Wire(w) && o.posted == Posts(w)
    && Settled(o.views, o.mode, o.inflight, w)
  }

  lemma SettledFacts(views: seq<View>, frames: seq<seq<byte>>, handlers: seq<Handler>, mode: Mode, inflight: bool,
                     w: State)
    requires Consistent(w) && |views| <= |w.log| && Settled(views, mode, inflight, w)
    requires Queued(views, frames, handlers, w.log, |w.log| - |views|)
    ensures mode == IdleMode <==> Idle(w)
    ensures w.status.Live? ==>
              Complete(w.log, w.sent) == |w.log| - |views| && Gather(views, frames) == Stream(w.log)[w.sent..]
  {
    if w.status.Live? {
      var base := |w.log| - |views|;
      GatherIsRest(views, frames, handlers, w.log, base);
      StreamSplits(w.log, base);
      if views != [] { PopFront(views, frames, handlers, w.log, base); } else { assert w.log[..base] == w.log; }
      Drained(w.log, base, Cut(views), w.sent);
    }
  }

  lemma Drained(log: seq<Entry>, base: nat, cut: nat, sent: nat)
    requires NonEmptyFrames(log) && base <= |log| && |Stream(log[..base])| + cut == sent
    requires if base == |log| then cut == 0 else cut < |log[base].frame|
    ensures Complete(log, sent) == base && sent <= |Stream(log)|
    ensures base < |log| ==> sent < |Stream(log)|
  {
    if base < |log| {
      StreamGrows(log, base);
      StreamSplits(log, base + 1);
    } else {
      assert log[..base] == log;
    }
    CompleteAt(log, sent, base);
  }

  lemma IdleIsComplete(w: State)
    requires Consistent(w) && Idle(w)
    ensures Complete(w.log, w.sent) == |w.log| && Wire(w) == Stream(w.log)
  {
    assert w.log[..|w.log|] == w.log;
    CompleteAt(w.log, w.sent, |w.log|);
  }

  lemma WrittenAtOnce(w: State, entry: Entry)
    requires Consistent(w) && Idle(w) && |entry.frame| > 0
    ensures var v := Step(w, Write(entry, |entry.frame|));
            Consistent(v) && Wire(v) == Wire(w) + entry.frame && Posts(v) == Posts(w) + [Post(entry.handler, Success)]
            && Settled([], IdleMode, false, v)
  {
    var v := Step(w, Write(entry, |entry.frame|));
    ConcatMapGrows(FrameOf, w.log, entry);
    IdleIsComplete(w);
    IdleIsComplete(v);
    assert v.log[..|v.log|] == v.log;
  }

  lemma WrittenLater(w: State, entry: Entry, n: nat)
    requires Consistent(w) && n < |entry.frame| && (n > 0 ==> Idle(w))
    ensures var v := Step(w, Write(entry, n));
            Consistent(v) && Posts(v) == Posts(w) && Wire(v) == Wire(w) + entry.frame[..n]
  {
    var v := Step(w, Write(entry, n));
    ConcatMapGrows(FrameOf, w.log, entry);
    CompleteAppend(w.log, w.sent, entry);
    if n > 0 {
      assert v.log[..|w.log|] == w.log && v.log[..|w.log| + 1] == v.log;
      IdleIsComplete(w);
      CompleteAt(v.log, v.sent, |w.log|);
    }
  }

  lemma StillSettled(views: seq<View>, mode: Mode, inflight: bool, w: State, entry: Entry, n: nat, running: bool)
    requires Consistent(w) && |views| <= |w.log| && Settled(views, mode, inflight, w)
    requires n < |entry.frame| && (mode == IdleMode <==> Idle(w)) && (n > 0 ==> Idle(w))
    requires running <==> inflight || mode == IdleMode
    ensures Settled(views + [View(n, |entry.frame| - n)], Flushing, running, Step(w, Write(entry, n)))
  {
    var base := |w.log| - |views|;
    assert (w.log + [entry])[..base] == w.log[..base];
    if views == [] { assert w.log[..base] == w.log; }
  }

  /** The fields after queueing a frame of which the socket took `n` octets. */
  function Queueing(o: Fields, entry: Entry, n: nat): Fields
    requires n < |entry.frame|
  {
    Fields(o.views + [View(n, |entry.frame| - n)], o.frames + [entry.frame], o.handlers + [entry.handler], Flushing,
           o.wire + entry.frame[..n], o.posted, o.inflight || o.mode == IdleMode)
  }

  lemma EnqueueQueued(o: Fields, w: State, entry: Entry, n: nat, q: Fields, v: State)
    requires Represents(o, w) && n < |entry.frame| && (n > 0 ==> o.mode == IdleMode)
    requires q == Queueing(o, entry, n) && v == Step(w, Write(entry, n))
    ensures |q.views| <= |v.log| && Queued(q.views, q.frames, q.handlers, v.log, |v.log| - |q.views|)
  {
    SettledFacts(o.views, o.frames, o.handlers, o.mode, o.inflight, w);
    PushBack(o.views, o.frames, o.handlers, w.log, |w.log| - |o.views|, View(n, |entry.frame| - n), entry);
  }

  lemma EnqueueShows(o: Fields, w: State, entry: Entry, n: nat, q: Fields, v: State)
    requires Represents(o, w) && n < |entry.frame| && (n > 0 ==> o.mode == IdleMode)
    requires q == Queueing(o, entry, n) && v == Step(w, Write(entry, n))
    ensures Consistent(v) && q.wire == Wire(v) && q.posted == Posts(v)
    ensures |q.views| <= |v.log| && Settled(q.views, q.mode, q.inflight, v)
  {
    SettledFacts(o.views, o.frames, o.handlers, o.mode, o.inflight, w);
    WrittenLater(w, entry, n);
    StillSettled(o.views, o.mode, o.inflight, w, entry, n, q.inflight);
  }

  lemma EnqueueRepresents(o: Fields, w: State, entry: Entry, n: nat, q: Fields, v: State)
    requires Represents(o, w) && n < |entry.frame| && (n > 0 ==> o.mode == IdleMode)
    requires q == Queueing(o, entry, n) && v == Step(w, Write(entry, n))
    ensures Represents(q, v)
  {
    EnqueueQueued(o, w, entry, n, q, v);
    EnqueueShows(o, w, entry, n, q, v);
  }

  /** The fields after a frame the socket took at once. */
  function Sending(o: Fields, entry: Entry): Fields
  {
    o.(wire := o.wire + entry.frame, posted := o.posted + [Post(entry.handler, Success)])
  }

  lemma SendRepresents(o: Fields, w: State, entry: Entry)
    requires Represents(o, w) && o.mode == IdleMode && |entry.frame| > 0
    ensures Represents(Sending(o, entry), Step(w, Write(entry, |entry.frame|)))
  {
    SettledFacts(o.views, o.frames, o.handlers, o.mode, o.inflight, w);
    WrittenAtOnce(w, entry);
  }

  /** Answers everything queued: the error loop. */
  method AnswerAll(views: seq<View>, frames: seq<seq<byte>>, handlers: seq<Handler>, posted: seq<Post>, code: Code,
                   ghost log: seq<Entry>, ghost base: nat)
    returns (v: seq<View>, f: seq<seq<byte>>, h: seq<Handler>, p: seq<Post>)
    requires Queued(views, frames, handlers, log, base) && posted == Posted(log, base, base, Success)
    ensures v == [] && f == [] && h == [] && p == Posted(log, base, |log|, code)
  {
    v, f, h, p := views, frames, handlers, posted;
    ghost var k := base;
    while h != []
      invariant base <= k <= |log| && Queued(v, f, h, log, k) && p == Posted(log, base, k, code)
      decreases |h|
    {
      PopFront(v, f, h, log, k);
      p := p + [Post(h[0], code)];
      v, h, f := v[1..], h[1..], f[1..];
      k := k + 1;
    }
  }

  /** Walks over the deques by the bytes the socket took: the progress loop. */
  method Advance(views: seq<View>, frames: seq<seq<byte>>, handlers: seq<Handler>, posted: seq<Post>, count: nat,
                 ghost log: seq<Entry>)
    returns (v: seq<View>, f: seq<seq<byte>>, h: seq<Handler>, p: seq<Post>)
    requires |views| <= |log| && Queued(views, frames, handlers, log, |log| - |views|)
    requires |Stream(log[..|log| - |views|])| + Cut(views) + count <= |Stream(log)|
    requires posted == Posted(log, |log| - |views|, |log| - |views|, Success)
    ensures |v| <= |log| && Queued(v, f, h, log, |log| - |v|) && p == Posted(log, |log| - |v|, |log| - |v|, Success)
    ensures |Stream(log[..|log| - |v|])| + Cut(v) == |Stream(log[..|log| - |views|])| + Cut(views) + count
  {
    v, f, h, p := views, frames, handlers, posted;
    var bytesWritten := count;
    ghost var base := |log| - |views|;
    ghost var sent := |Stream(log[..base])| + Cut(views) + count;
    while bytesWritten > 0
      invariant base == |log| - |v| >= 0 && Queued(v, f, h, log, base) && p == Posted(log, base, base, Success)
      invariant |Stream(log[..base])| + Cut(v) + bytesWritten == sent
    {
      FrontOfQueue(v, f, h, log, base, bytesWritten);
      assert v != [] && h != [];
      var messageSize := v[0].size;
      if messageSize > bytesWritten {
        v := [View(v[0].offset + bytesWritten, messageSize - bytesWritten)] + v[1..];
        break;
      }
      bytesWritten := bytesWritten - messageSize;
      p := p + [Post(h[0], Success)];
      v, h, f := v[1..], h[1..], f[1..];
      base := base + 1;
    }
  }

  /** While bytes are left to account for, there is a front entry; it is either cut or done with. */
  lemma FrontOfQueue(views: seq<View>, frames: seq<seq<byte>>, handlers: seq<Handler>, log: seq<Entry>, base: nat,
                     n: nat)
    requires Queued(views, frames, handlers, log, base)
    requires 0 < n && |Stream(log[..base])| + Cut(views) + n <= |Stream(log)|
    ensures views != [] && handlers != [] && frames != [] && handlers[0] == log[base].handler
    ensures n < views[0].size ==>
              Queued([View(views[0].offset + n, views[0].size - n)] + views[1..], frames, handlers, log, base)
    ensures Queued(views[1..], frames[1..], handlers[1..], log, base + 1) && Cut(views[1..]) == 0
    ensures |Stream(log[..base + 1])| == |Stream(log[..base])| + Cut(views) + views[0].size
  {
    assert views != [] by { assert log[..|log|] == log; }
    PopFront(views, frames, handlers, log, base);
    StreamGrows(log, base);
    if n < views[0].size { CutFront(views, frames, handlers, log, base, n); }
  }

  lemma AdvanceRepresents(o: Fields, w: State, n: nat)
    requires Consistent(w) && w.status.Live? && w.sent + n <= |Stream(w.log)|
    requires |o.views| <= |w.log| && Queued(o.views, o.frames, o.handlers, w.log, |w.log| - |o.views|)
    requires |Stream(w.log[..|w.log| - |o.views|])| + Cut(o.views) == w.sent + n
    requires o.wire == Stream(w.log)[..w.sent + n]
    requires o.posted == Posted(w.log, |w.log| - |o.views|, |w.log| - |o.views|, Success)
    requires (o.mode == IdleMode <==> o.views == []) && (o.inflight <==> o.mode == Flushing)
    ensures Represents(o, Step(w, Flush(n)))
  {
    var base := |w.log| - |o.views|;
    if o.views != [] { PopFront(o.views, o.frames, o.handlers, w.log, base); }
    Drained(w.log, base, Cut(o.views), w.sent + n);
  }

  lemma TakeMore(s: seq<byte>, m: nat, n: nat)
    requires m + n <= |s|
    ensures s[..m] + s[m..][..n] == s[..m + n]
  {
  }

  /** What a stream with a write outstanding has: the rest of the bytes, and answers to all before. */
  lemma Outstanding(o: Fields, w: State, count: nat)
    requires Represents(o, w) && o.inflight && count <= |Gather(o.views, o.frames)|
    ensures w.status.Live? && o.mode == Flushing && w.sent + count <= |Stream(w.log)|
    ensures |o.views| <= |w.log| && |Stream(w.log[..|w.log| - |o.views|])| + Cut(o.views) == w.sent
    ensures o.posted == Posted(w.log, |w.log| - |o.views|, |w.log| - |o.views|, Success)
    ensures o.wire + Gather(o.views, o.frames)[..count] == Stream(w.log)[..w.sent + count]
  {
    SettledFacts(o.views, o.frames, o.handlers, o.mode, o.inflight, w);
    TakeMore(Stream(w.log), w.sent, count);
  }

  /** The bytes leave, the deques advance, and another write is started unless nothing is left. */
  method Progress(o: Fields, count: nat, ghost w: State) returns (after: Fields)
    requires Represents(o, w) && o.inflight && count <= |Gather(o.views, o.frames)|
    ensures Represents(after, Step(w, Flush(count)))
  {
    Outstanding(o, w, count);
    var v, f, h, p := Advance(o.views, o.frames, o.handlers, o.posted, count, w.log);
    var drained := v == [] && o.mode == Flushing;
    var bytes := Gather(o.views, o.frames)[..count];
    after := Fields(v, f, h, if drained then IdleMode else o.mode, o.wire + bytes, p, !drained);
    AdvanceRepresents(after, w, count);
  }

  lemma FailShows(w: State, code: Error, v: State)
    requires Consistent(w) && w.status.Live? && v == Step(w, Fail(code))
    ensures Consistent(v) && Wire(v) == Wire(w) && Posts(v) == Posted(w.log, Complete(w.log, w.sent), |w.log|, code)
  {
  }

  lemma FailRepresents(o: Fields, w: State, code: Error, after: Fields, v: State)
    requires Represents(o, w) && o.inflight && v == Step(w, Fail(code))
    requires after == Fields([], [], [], o.mode, o.wire, Posted(w.log, |w.log| - |o.views|, |w.log|, code), false)
    ensures Represents(after, v)
  {
    SettledFacts(o.views, o.frames, o.handlers, o.mode, o.inflight, w);
    FailShows(w, code, v);
  }

  method FailAll(o: Fields, code: Error, ghost w: State) returns (after: Fields)
    requires Represents(o, w) && o.inflight
    ensures Represents(after, Step(w, Fail(code)))
  {
    Outstanding(o, w, 0);
    var v, f, h, p := AnswerAll(o.views, o.frames, o.handlers, o.posted, code, w.log, |w.log| - |o.views|);
    after := Fields(v, f, h, o.mode, o.wire, p, false);
    FailRepresents(o, w, code, after, Step(w, Fail(code)));
  }

  lemma AbortRepresents(o: Fields, w: State)
    requires Represents(o, w) && o.inflight
    ensures Represents(o.(inflight := false), Step(w, Abort))
  {
  }

  lemma FreshRepresents(o: Fields)
    requires o == Fields([], [], [], IdleMode, [], [], false)
    ensures Represents(o, Fresh())
  {
    var w := Fresh();
    assert w.log[|w.log| - |o.views|..] == [] && w.log[..0] == [];
  }

  /** What happens to a stream object is a run of the simple form: its calls are among the enabled events. */
  lemma CallsAreEnabled(o: Fields, w: State, entry: Entry, accepted: nat, count: nat, code: Error)
    requires Represents(o, w)
    ensures |entry.frame| > 0 && accepted <= |entry.frame| ==>
              Enabled(w, Write(entry, if o.mode == IdleMode then accepted else 0))
    ensures o.inflight ==> Enabled(w, Fail(code)) && Enabled(w, Abort)
    ensures o.inflight && count <= |Gather(o.views, o.frames)| ==> Enabled(w, Flush(count))
  {
    SettledFacts(o.views, o.frames, o.handlers, o.mode, o.inflight, w);
  }

  class WritableStream {
    var messages: seq<View>
    var encoded: seq<seq<byte>>
    var handlers: seq<Handler>
    var mode: Mode

    // What the environment has been given: bytes, handler invocations, an outstanding operation.
    var wire: seq<byte>
    var posted: seq<Post>
    var inflight: bool

    ghost var model: State

    function Now(): Fields
      reads this
    {
      Fields(messages, encoded, handlers, mode, wire, posted, inflight)
    }

    ghost predicate Valid()
      reads this
    {
      Represents(Now(), model)
    }

    constructor ()
      ensures Valid() && model == Fresh()
    {
      messages, encoded, handlers, mode := [], [], [], IdleMode;
      wire, posted, inflight := [], [], false;
      model := Fresh();
      new;
      FreshRepresents(Now());
    }

    method SendAtOnce(frame: seq<byte>, handler: Handler)
      requires Valid() && mode == IdleMode && |frame| > 0
      modifies this`wire, this`posted, this`model
      ensures Valid() && model == Step(old(model), Write(Entry(frame, handler), |frame|))
    {
      ghost var entry := Entry(frame, handler);
      SendRepresents(Now(), model, entry);
      wire := wire + frame;
      posted := posted + [Post(handler, Success)];
      model := Step(model, Write(entry, |frame|));
      assert Now() == Sending(old(Now()), entry);
    }

    /** What `write` pushes on the deques, and the operation it starts if none is outstanding. */
    method PushFrame(frame: seq<byte>, handler: Handler, bytesWritten: nat)
      requires bytesWritten < |frame|
      modifies this`messages, this`encoded, this`handlers, this`mode, this`wire, this`inflight
      ensures Now() == Queueing(old(Now()), Entry(frame, handler), bytesWritten)
    {
      messages := messages + [View(bytesWritten, |frame| - bytesWritten)];
      encoded := encoded + [frame];
      handlers := handlers + [handler];
      wire := wire + frame[..bytesWritten];
      if mode == IdleMode {
        mode := Flushing;
        inflight := true;
      }
    }

    /** Queues what the socket did not take, and starts an asynchronous write if none is outstanding. */
    method Enqueue(frame: seq<byte>, handler: Handler, bytesWritten: nat)
      requires Valid() && bytesWritten < |frame| && (bytesWritten > 0 ==> mode == IdleMode)
      modifies this
      ensures Valid() && model == Step(old(model), Write(Entry(frame, handler), bytesWritten))
    {
      ghost var entry := Entry(frame, handler);
      ghost var q, v := Queueing(Now(), entry, bytesWritten), Step(model, Write(entry, bytesWritten));
      EnqueueRepresents(Now(), model, entry, bytesWritten, q, v);
      PushFrame(frame, handler, bytesWritten);
      model := v;
    }

    /** `accepted` is what the socket takes of the frame if it is asked at all. */
    method WriteFrame(frame: seq<byte>, handler: Handler, accepted: nat)
      requires Valid() && |frame| > 0 && accepted <= |frame|
      modifies this
      ensures Valid()
      ensures model == Step(old(model), Write(Entry(frame, handler), if old(mode) == IdleMode then accepted else 0))
    {
      var bytesWritten := if mode == IdleMode then accepted else 0;
      if bytesWritten == |frame| {
        SendAtOnce(frame, handler);
      } else {
        Enqueue(frame, handler, bytesWritten);
      }
    }

    method WriteMessage(message: Frames.Message, handler: Handler, accepted: nat)
      requires Valid() && accepted <= |Frames.Frame(message)|
      modifies this
      ensures Valid()
      ensures var n := if old(mode) == IdleMode then accepted else 0;
              model == Step(old(model), Write(Entry(Frames.Frame(message), handler), n))
    {
      var frame := Frames.Encode(message);
      WriteFrame(frame, handler, accepted);
    }

    /** Completion of the outstanding write by cancellation: nothing happens, and nothing is started. */
    method FlushAborted()
      requires Valid() && inflight
      modifies this`inflight, this`model
      ensures Valid() && model == Step(old(model), Abort)
    {
      AbortRepresents(Now(), model);
      inflight := false;
      model := Step(model, Abort);
    }

    method Become(o: Fields, ghost w: State)
      requires Represents(o, w)
      modifies this
      ensures Valid() && Now() == o && model == w
    {
      messages, encoded, handlers := o.views, o.frames, o.handlers;
      mode, wire, posted, inflight := o.mode, o.wire, o.posted, o.inflight;
      model := w;
      assert Now() == o;
    }

    /** Completion of the outstanding write with any other error. */
    method FlushFailed(code: Error)
      requires Valid() && inflight
      modifies this
      ensures Valid() && model == Step(old(model), Fail(code))
    {
      var after := FailAll(Now(), code, model);
      Become(after, Step(model, Fail(code)));
    }

    /** Completion of the outstanding write: the socket took `count` bytes off the front of the buffers. */
    method FlushBytes(count: nat)
      requires Valid() && inflight && count <= |Gather(messages, encoded)|
      modifies this
      ensures Valid()
      ensures model == Step(old(model), Flush(count))
    {
      var after := Progress(Now(), count, model);
      Become(after, Step(model, Flush(count)));
    }
  }
}
