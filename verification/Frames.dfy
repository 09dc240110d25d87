/**
 Frames: what the encoder puts on the wire for a message, trace headers included, and what the
 decoder makes of the bytes it is given.
 */
module Frames {
  import opened Common
  import opened Bytes
  import opened MsgPack
  import opened Hpack
  import Format

  // ---------------------------------------------------------------------------
  // Trace headers.

  datatype Trace = Trace(traceId: nat, spanId: nat, parentId: nat)

  /** What every constructed trace satisfies: an empty one is all zeroes, a real one has a span. */
  predicate ValidTrace(t: Trace)
  {
    if t.traceId == 0 then t.spanId == 0 && t.parentId == 0 else t.spanId != 0
  }

  predicate Wide(t: Trace)
  {
    t.traceId < TWO_64 && t.spanId < TWO_64 && t.parentId < TWO_64
  }

  const TRACE_ID: seq<byte> := [0x74, 0x72, 0x61, 0x63, 0x65, 0x5f, 0x69, 0x64]
  const SPAN_ID: seq<byte> := [0x73, 0x70, 0x61, 0x6e, 0x5f, 0x69, 0x64]
  const PARENT_ID: seq<byte> := [0x70, 0x61, 0x72, 0x65, 0x6e, 0x74, 0x5f, 0x69, 0x64]
  const TRACE_BIT: seq<byte> := [0x74, 0x72, 0x61, 0x63, 0x65, 0x5f, 0x62, 0x69, 0x74]

  lemma NamesDiffer()
    ensures TRACE_ID != SPAN_ID && TRACE_ID != PARENT_ID && SPAN_ID != PARENT_ID
    ensures TRACE_BIT != TRACE_ID && TRACE_BIT != SPAN_ID && TRACE_BIT != PARENT_ID
    ensures 0 !in TRACE_ID && 0 !in SPAN_ID && 0 !in PARENT_ID && 0 !in TRACE_BIT
  {
  }

  lemma NamesAre()
    ensures TRACE_ID == Ascii("trace_id") && SPAN_ID == Ascii("span_id")
    ensures PARENT_ID == Ascii("parent_id") && TRACE_BIT == Ascii("trace_bit")
  {
  }

  predicate IsTraceName(name: seq<byte>)
  {
    name == TRACE_ID || name == SPAN_ID || name == PARENT_ID
  }

  predicate Kept(h: Header)
  {
    !IsTraceName(h.name)
  }

  lemma FilterNext(keep: Header -> bool, s: seq<Header>, i: nat)
    requires i < |s|
    ensures Filter(keep, s[..i + 1]) == if keep(s[i]) then Filter(keep, s[..i]) + [s[i]] else Filter(keep, s[..i])
  {
    assert s[..i + 1] == s[..i] + [s[i]];
    FilterGrows(keep, s[..i], s[i]);
  }

  /** The headers that survive packing, in order. */
  function NonTrace(headers: seq<Header>): (r: seq<Header>)
  {
    Filter(Kept, headers)
  }

  function TraceHeaders(t: Trace): (r: seq<Header>)
    ensures |r| == 3
  {
    [Header(TRACE_ID, LittleEndian(t.traceId, 8)),
     Header(SPAN_ID, LittleEndian(t.spanId, 8)),
     Header(PARENT_ID, LittleEndian(t.parentId, 8))]
  }

  /** The header list a message carries: the three fresh trace headers, then the sender's own. */
  function Outgoing(headers: seq<Header>, t: Trace): seq<Header>
  {
    TraceHeaders(t) + NonTrace(headers)
  }

  /**
   What goes out, header by header: the fresh trace headers alone for an empty list, and one header
   more for each of the sender's own that is not a trace header.
   */
  lemma OutgoingGrows(headers: seq<Header>, h: Header, t: Trace)
    ensures Outgoing([], t) == [Header(Ascii("trace_id"), LittleEndian(t.traceId, 8)),
                                Header(Ascii("span_id"), LittleEndian(t.spanId, 8)),
                                Header(Ascii("parent_id"), LittleEndian(t.parentId, 8))]
    ensures Outgoing(headers + [h], t) ==
            if h.name == Ascii("trace_id") || h.name == Ascii("span_id") || h.name == Ascii("parent_id")
            then Outgoing(headers, t) else Outgoing(headers, t) + [h]
  {
    NamesAre();
    FilterGrows(Kept, headers, h);
    assert TraceHeaders(t) + [] == TraceHeaders(t);
  }

  /** The octets up to the first zero. */
  function CString(s: seq<byte>): seq<byte>
  {
    if s == [] || s[0] == 0 then [] else [s[0]] + CString(s[1..])
  }

  /** The test made on a header's name: its size against the whole name, its octets against the C string. */
  predicate Named(h: Header, name: seq<byte>)
  {
    |h.name| == |name| && h.name == CString(name)
  }

  lemma {:induction false} CStringWhole(s: seq<byte>)
    ensures |CString(s)| <= |s| && (|CString(s)| == |s| <==> 0 !in s) && (0 !in s ==> CString(s) == s)
  {
    if s != [] {
      CStringWhole(s[1..]);
      assert s == [s[0]] + s[1..];
    }
  }

  /** Names with a zero octet are never found; otherwise the test is equality. */
  lemma NamedIff(h: Header, name: seq<byte>)
    ensures Named(h, name) <==> h.name == name && 0 !in name
  {
    CStringWhole(name);
  }

  function FindFirst(headers: seq<Header>, name: seq<byte>): Option<Header>
  {
    if headers == [] then None
    else if Named(headers[0], name) then Some(headers[0])
    else FindFirst(headers[1..], name)
  }

  /** `h` is the first of its name. */
  ghost predicate IsFirst(headers: seq<Header>, h: Header, i: int)
  {
    0 <= i < |headers| && headers[i] == h && forall k | 0 <= k < i :: headers[k].name != h.name
  }

  /** What is found is the first header of the name; nothing is found only if there is none, or a zero in the name. */
  lemma {:induction false} FindFirstIsFirst(headers: seq<Header>, name: seq<byte>)
    ensures match FindFirst(headers, name)
            case None => 0 in name || forall i | 0 <= i < |headers| :: headers[i].name != name
            case Some(h) => h.name == name && 0 !in name && exists i :: IsFirst(headers, h, i)
  {
    if headers != [] {
      NamedIff(headers[0], name);
      if Named(headers[0], name) {
        assert IsFirst(headers, headers[0], 0);
      } else {
        FindFirstIsFirst(headers[1..], name);
        match FindFirst(headers, name)
        case None =>
        case Some(h) =>
          var i :| IsFirst(headers[1..], h, i);
          assert IsFirst(headers, h, i + 1);
      }
    }
  }

  datatype Extracted = NoTrace | Traced(trace: Trace, verbose: bool, rpc: string) | Throws

  function UnpackId(value: seq<byte>): Option<nat>
  {
    if |value| != 8 then None else Some(FromLittleEndian(value))
  }

  /**
   The session's trace extraction; `root` names the messages of the prototype and `parseBit` is the
   textual conversion of the trace bit. A message type the root does not have, once narrowed to the
   root's keys, throws.
   */
  function ExtractTrace(headers: seq<Header>, kind: nat, root: map<int, string>,
                        parseBit: seq<byte> -> Option<bool>): Extracted
  {
    var trace, span, parent := FindFirst(headers, TRACE_ID), FindFirst(headers, SPAN_ID), FindFirst(headers, PARENT_ID);
    if trace.None? || span.None? || parent.None? then NoTrace
    else
      var bit := FindFirst(headers, TRACE_BIT);
      var verbose := if bit.None? then Some(false) else parseBit(bit.value.value);
      var t, s, p := UnpackId(trace.value.value), UnpackId(span.value.value), UnpackId(parent.value.value);
      if verbose.None? || t.None? || s.None? || p.None? || ToInt(kind) !in root then Throws
      else
        var extracted := Trace(t.value, s.value, p.value);
        if ValidTrace(extracted) then Traced(extracted, verbose.value, root[ToInt(kind)]) else Throws
  }

  /** `h` is the first header of this name. */
  ghost predicate FirstNamed(headers: seq<Header>, name: string, h: Header)
  {
    h.name == Ascii(name) && exists i :: IsFirst(headers, h, i)
  }

  predicate Lacks(headers: seq<Header>, name: string)
  {
    forall i | 0 <= i < |headers| :: headers[i].name != Ascii(name)
  }

  lemma FirstIsFound(headers: seq<Header>, name: string)
    requires 0 !in Ascii(name)
    ensures FindFirst(headers, Ascii(name)).None? <==> Lacks(headers, name)
    ensures forall h :: FindFirst(headers, Ascii(name)) == Some(h) <==> FirstNamed(headers, name, h)
  {
    FindFirstIsFirst(headers, Ascii(name));
    var found := FindFirst(headers, Ascii(name));
    forall h | FirstNamed(headers, name, h) ensures found == Some(h) {
      var i :| IsFirst(headers, h, i);
      assert headers[i].name == Ascii(name);
      var j :| IsFirst(headers, found.value, j);
    }
  }

  /** The three ids of 8 octets make a trace that may exist. */
  predicate Plausible(trace: seq<byte>, span: seq<byte>, parent: seq<byte>)
  {
    && |trace| == |span| == |parent| == 8
    && var t, s, p := FromLittleEndian(trace), FromLittleEndian(span), FromLittleEndian(parent);
       (t == 0 ==> s == 0 && p == 0) && (t != 0 ==> s != 0)
  }

  /**
   Extraction, for every header list: no trace exactly if one of the three headers is missing;
   otherwise the first of each counts, and it throws exactly if they make no plausible trace, the
   narrowed type is not in the root, or there is a trace bit and the first is not a boolean.
   */
  lemma ExtractExact(headers: seq<Header>, kind: nat, root: map<int, string>, parseBit: seq<byte> -> Option<bool>,
                     t: Header, s: Header, p: Header)
    ensures ExtractTrace(headers, kind, root, parseBit).NoTrace? <==>
            Lacks(headers, "trace_id") || Lacks(headers, "span_id") || Lacks(headers, "parent_id")
    ensures FirstNamed(headers, "trace_id", t) && FirstNamed(headers, "span_id", s)
            && FirstNamed(headers, "parent_id", p) ==>
              ExtractTrace(headers, kind, root, parseBit) ==
              ExtractedFrom(t.value, s.value, p.value, BitOf(headers, parseBit), ToInt(kind), root)
  {
    NamesAre();
    NamesDiffer();
    FirstIsFound(headers, "trace_id");
    FirstIsFound(headers, "span_id");
    FirstIsFound(headers, "parent_id");
  }

  /** The first trace bit as a boolean, false if there is none. */
  function BitOf(headers: seq<Header>, parseBit: seq<byte> -> Option<bool>): Option<bool>
  {
    var bit := FindFirst(headers, TRACE_BIT);
    if bit.None? then Some(false) else parseBit(bit.value.value)
  }

  lemma BitExact(headers: seq<Header>, parseBit: seq<byte> -> Option<bool>, h: Header)
    ensures Lacks(headers, "trace_bit") ==> BitOf(headers, parseBit) == Some(false)
    ensures FirstNamed(headers, "trace_bit", h) ==> BitOf(headers, parseBit) == parseBit(h.value)
  {
    NamesAre();
    NamesDiffer();
    FirstIsFound(headers, "trace_bit");
  }

  ghost function ExtractedFrom(trace: seq<byte>, span: seq<byte>, parent: seq<byte>, bit: Option<bool>, kind: int,
                               root: map<int, string>): Extracted
  {
    if Plausible(trace, span, parent) && bit.Some? && kind in root
    then Traced(Trace(FromLittleEndian(trace), FromLittleEndian(span), FromLittleEndian(parent)), bit.value, root[kind])
    else Throws
  }

  lemma {:induction false} FindInNonTrace(headers: seq<Header>, name: seq<byte>)
    requires !IsTraceName(name)
    ensures FindFirst(NonTrace(headers), name) == FindFirst(headers, name)
  {
    if headers != [] {
      FindInNonTrace(headers[1..], name);
      NamedIff(headers[0], name);
      FilterFirst(Kept, headers);
      if Kept(headers[0]) {
        assert NonTrace(headers)[1..] == NonTrace(headers[1..]);
      } else {
        assert NonTrace(headers) == NonTrace(headers[1..]);
      }
    }
  }

  lemma FindInOutgoing(headers: seq<Header>, t: Trace)
    ensures var out := Outgoing(headers, t);
            && FindFirst(out, TRACE_ID) == Some(TraceHeaders(t)[0])
            && FindFirst(out, SPAN_ID) == Some(TraceHeaders(t)[1])
            && FindFirst(out, PARENT_ID) == Some(TraceHeaders(t)[2])
            && FindFirst(out, TRACE_BIT) == FindFirst(headers, TRACE_BIT)
  {
    NamesDiffer();
    FindInNonTrace(headers, TRACE_BIT);
    var out := Outgoing(headers, t);
    var out1 := out[1..];
    var out2 := out1[1..];
    var first := TraceHeaders(t);
    assert out[0] == first[0] && out1[0] == first[1] && out2[0] == first[2] && out2[1..] == NonTrace(headers);
    forall i, name | 0 <= i < 3 ensures Named(first[i], name) <==> first[i].name == name && 0 !in name {
      NamedIff(first[i], name);
    }
    assert FindFirst(out, PARENT_ID) == FindFirst(out1, PARENT_ID) == FindFirst(out2, PARENT_ID);
    assert FindFirst(out, TRACE_BIT) == FindFirst(out1, TRACE_BIT) == FindFirst(out2, TRACE_BIT);
  }

  /**
   The receiver recovers the sender's ids from the fresh headers whatever stale trace headers the
   message had; extraction fails exactly when the narrowed message type is no key of the root or the
   sender's own trace bit is not a boolean.
   */
  lemma TraceRoundTrip(headers: seq<Header>, t: Trace, kind: nat, root: map<int, string>,
                       parseBit: seq<byte> -> Option<bool>)
    requires ValidTrace(t) && Wide(t)
    ensures var bit := FindFirst(headers, TRACE_BIT);
            ExtractTrace(Outgoing(headers, t), kind, root, parseBit) ==
            if ToInt(kind) !in root || (bit.Some? && parseBit(bit.value.value).None?) then Throws
            else Traced(t, bit.Some? && parseBit(bit.value.value).value, root[ToInt(kind)])
  {
    FindInOutgoing(headers, t);
    Pow256Widths();
    LittleEndianRoundTrip(t.traceId, 8);
    LittleEndianRoundTrip(t.spanId, 8);
    LittleEndianRoundTrip(t.parentId, 8);
  }

  // ---------------------------------------------------------------------------
  // Messages and their frames.

  datatype Message = Message(span: nat, kind: nat, args: seq<Object>, headers: seq<Header>, trace: Trace)

  datatype Received = Received(span: nat, kind: nat, args: seq<Object>, headers: seq<Header>)

  predicate PackableHeader(h: Header)
  {
    |h.name| < TWO_32 && |h.value| < TWO_32
  }

  /** Messages within the widths of the source's types. */
  predicate Sendable(m: Message)
  {
    && m.span < TWO_64 && m.kind < TWO_64 && Wide(m.trace)
    && |m.args| < TWO_32 && AllPackable(m.args)
    && |m.headers| + 3 < TWO_32 && forall i | 0 <= i < |m.headers| :: PackableHeader(m.headers[i])
  }

  /** What the peer should see of a message. */
  function Seen(m: Message): Received
  {
    Received(m.span, m.kind, m.args, Outgoing(m.headers, m.trace))
  }

  /** The object sent for a message whose header list goes out as `wire`. */
  function Packaged(m: Message, wire: seq<Object>): Object
  {
    Array([UInt(m.span), UInt(m.kind), Array(m.args), Array(wire)])
  }

  function FrameObject(m: Message): Object
  {
    Packaged(m, Literals(Outgoing(m.headers, m.trace)))
  }

  lemma LiteralsPackable(headers: seq<Header>)
    requires forall i | 0 <= i < |headers| :: PackableHeader(headers[i])
    ensures AllPackable(Literals(headers))
  {
  }

  lemma OutgoingPackable(m: Message)
    requires Sendable(m)
    ensures var out := Outgoing(m.headers, m.trace);
            |out| < TWO_32 && forall i | 0 <= i < |out| :: PackableHeader(out[i])
  {
    FilteredFrom(Kept, m.headers);
    var out := Outgoing(m.headers, m.trace);
    forall i | 0 <= i < |out| ensures PackableHeader(out[i]) {
      if i >= 3 { assert out[i] in NonTrace(m.headers); } else { assert out[i] == TraceHeaders(m.trace)[i]; }
    }
  }

  lemma PackagedPackable(m: Message, wire: seq<Object>)
    requires Sendable(m) && |wire| < TWO_32 && AllPackable(wire)
    ensures Packable(Packaged(m, wire))
  {
    var items := Packaged(m, wire).items;
    assert Packable(items[0]) && Packable(items[1]) && Packable(items[2]) && Packable(items[3]);
  }

  lemma FramePackable(m: Message)
    requires Sendable(m)
    ensures Packable(FrameObject(m))
  {
    OutgoingPackable(m);
    LiteralsPackable(Outgoing(m.headers, m.trace));
    PackagedPackable(m, Literals(Outgoing(m.headers, m.trace)));
  }

  /** A frame, field by field. */
  function Fields(span: nat, kind: nat, args: seq<Object>, headers: seq<Header>): (s: seq<byte>)
  {
    PackArrayHead(4) + PackUInt(span) + PackUInt(kind) + PackArrayHead(|args|) + ConcatMap(Pack, args)
    + PackArrayHead(|headers|) + ConcatMap(PackedLiteral, headers)
  }

  function PackedLiteral(h: Header): seq<byte>
  {
    Pack(PackLiteral(h))
  }

  /** The bytes of a message. */
  function Frame(m: Message): (s: seq<byte>)
    ensures |s| > 0
  {
    Fields(m.span, m.kind, m.args, Outgoing(m.headers, m.trace))
  }

  lemma {:induction false} PackedLiterals(headers: seq<Header>)
    ensures PackAll(Literals(headers)) == ConcatMap(PackedLiteral, headers)
  {
    if headers != [] {
      assert Literals(headers)[1..] == Literals(headers[1..]);
      PackedLiterals(headers[1..]);
    }
  }

  /** The fields in a row are the packing of one object: every declared length is right. */
  lemma FieldsArePackedObject(span: nat, kind: nat, args: seq<Object>, headers: seq<Header>)
    ensures Fields(span, kind, args, headers) ==
            Pack(Array([UInt(span), UInt(kind), Array(args), Array(Literals(headers))]))
  {
    var c, d := Array(args), Array(Literals(headers));
    PackAllIsConcatMap(args);
    PackedLiterals(headers);
    PackAllIsConcatMap([UInt(span), UInt(kind), c, d]);
    ConcatMapFour(Pack, UInt(span), UInt(kind), c, d);
    Associate(PackArrayHead(4), PackUInt(span), PackUInt(kind), PackArrayHead(|args|), PackAll(args),
              PackArrayHead(|headers|), PackAll(Literals(headers)));
  }

  lemma Associate(a: seq<byte>, b: seq<byte>, c: seq<byte>, d: seq<byte>, e: seq<byte>, f: seq<byte>, g: seq<byte>)
    ensures a + b + c + d + e + f + g == a + (b + c + (d + e) + (f + g))
  {
  }

  // ---------------------------------------------------------------------------
  // Decoding.

  datatype Error = ParseError | FrameFormatError | HpackError | UndefinedBehaviour

  datatype Outcome =
    | Decoded(message: Received, size: nat, entries: seq<Header>)
    | Insufficient
    | Broken(error: Error)

  function Classify(statics: Statics, entries: seq<Header>, o: Object, size: nat): Outcome
  {
    if !o.Array? || |o.items| < 3 then Broken(FrameFormatError)
    else if !o.items[0].UInt? || !o.items[1].UInt? || !o.items[2].Array? then Broken(FrameFormatError)
    else if |o.items| > 3 then
      if !o.items[3].Array? then Broken(FrameFormatError)
      else
        match UnpackSeq(statics, entries, o.items[3].items)
        case RejectedAll(_) => Broken(HpackError)
        case UndefinedAll => Broken(UndefinedBehaviour)
        case UnpackedAll(headers, next) =>
          Decoded(Received(o.items[0].n, o.items[1].n, o.items[2].items, headers), size, next)
    else Decoded(Received(o.items[0].n, o.items[1].n, o.items[2].items, []), size, entries)
  }

  function Decode(statics: Statics, entries: seq<Header>, s: seq<byte>): (r: Outcome)
    ensures r.Decoded? ==> 0 < r.size <= |s|
  {
    match Parse(s)
    case Incomplete => Insufficient
    case Malformed => Broken(ParseError)
    case Complete(o, size) => Classify(statics, entries, o, size)
  }

  /** The shape of a frame: span, type and arguments, and a list of headers if there is a fourth element. */
  predicate Framed(o: Object)
  {
    && o.Array? && |o.items| >= 3 && o.items[0].UInt? && o.items[1].UInt? && o.items[2].Array?
    && (|o.items| > 3 ==> o.items[3].Array?)
  }

  /** The object stands for the message, and leaves the table `next`. */
  ghost predicate Conveys(statics: Statics, entries: seq<Header>, o: Object, m: Received, next: seq<Header>)
  {
    && o.Array? && |o.items| >= 3
    && o.items[0] == UInt(m.span) && o.items[1] == UInt(m.kind) && o.items[2] == Array(m.args)
    && if |o.items| == 3 then m.headers == [] && next == entries
       else o.items[3].Array? && Sends(statics, entries, m.headers, o.items[3].items, next)
  }

  /** The header list of the object is given up at some position. */
  ghost predicate GivenUp(statics: Statics, entries: seq<Header>, o: Object, undefined: bool)
  {
    && Framed(o) && |o.items| > 3
    && exists k: nat, at :: StuckAt(statics, entries, o.items[3].items, k, at, undefined)
  }

  ghost predicate StuckAt(statics: Statics, entries: seq<Header>, wire: seq<Object>, k: nat, at: seq<Header>,
                          undefined: bool)
  {
    && k < |wire| && TakenUpTo(statics, entries, wire, k, at)
    && if undefined then UnpackOne(statics, at, wire[k]).Undefined? else Refused(statics, at, wire[k])
  }

  lemma StuckIff(statics: Statics, entries: seq<Header>, wire: seq<Object>, k: nat, at: seq<Header>, undefined: bool)
    requires StuckAt(statics, entries, wire, k, at, undefined)
    ensures UnpackSeq(statics, entries, wire) == if undefined then UndefinedAll else RejectedAll(at)
  {
    var headers :| Sends(statics, entries, headers, wire[..k], at);
    ReceiverFollows(statics, entries, headers, wire[..k], at);
    StuckBehind(statics, entries, wire, k);
  }

  /** How each object is classified. */
  lemma ClassifyExact(statics: Statics, entries: seq<Header>, o: Object, size: nat, m: Received, next: seq<Header>)
    ensures Classify(statics, entries, o, size) == Decoded(m, size, next) <==> Conveys(statics, entries, o, m, next)
    ensures Classify(statics, entries, o, size) == Broken(FrameFormatError) <==> !Framed(o)
    ensures Classify(statics, entries, o, size) == Broken(HpackError) <==> GivenUp(statics, entries, o, false)
    ensures Classify(statics, entries, o, size) == Broken(UndefinedBehaviour) <==> GivenUp(statics, entries, o, true)
  {
    if Framed(o) && |o.items| > 3 {
      var wire := o.items[3].items;
      AcceptsExactly(statics, entries, wire, m.headers, next);
      if !UnpackSeq(statics, entries, wire).UnpackedAll? {
        var k, at := StopsAt(statics, entries, wire);
        assert StuckAt(statics, entries, wire, k, at, UnpackSeq(statics, entries, wire).UndefinedAll?);
      }
      forall k: nat, at, undefined | StuckAt(statics, entries, wire, k, at, undefined)
        ensures UnpackSeq(statics, entries, wire) == if undefined then UndefinedAll else RejectedAll(at)
      {
        StuckIff(statics, entries, wire, k, at, undefined);
      }
    }
  }

  /**
   The decoder, exactly, for all octets: a message if and only if they start with a form of an array
   of span, type, arguments and, if there is a fourth element, a list denoting its headers; a request
   for more if and only if they begin a longer form; a parse error if and only if they can become no
   form; and the other errors as the object has no frame's shape or its header list is given up.
   */
  lemma DecodesExactly(statics: Statics, entries: seq<Header>, s: seq<byte>, m: Received, n: nat, next: seq<Header>)
    ensures Decode(statics, entries, s) == Decoded(m, n, next) <==>
            exists o :: Format.StartsWith(s, o, n) && Conveys(statics, entries, o, m, next)
    ensures Decode(statics, entries, s).Insufficient? <==> Format.Begins(s)
    ensures Decode(statics, entries, s) == Broken(ParseError) <==>
            !Format.Begins(s) && !exists o, k :: Format.StartsWith(s, o, k)
    ensures Decode(statics, entries, s) == Broken(FrameFormatError) <==>
            exists o, k :: Format.StartsWith(s, o, k) && !Framed(o)
    ensures Decode(statics, entries, s) == Broken(HpackError) <==>
            exists o, k :: Format.StartsWith(s, o, k) && GivenUp(statics, entries, o, false)
    ensures Decode(statics, entries, s) == Broken(UndefinedBehaviour) <==>
            exists o, k :: Format.StartsWith(s, o, k) && GivenUp(statics, entries, o, true)
  {
    forall o, k: nat ensures Format.StartsWith(s, o, k) <==> Parse(s) == Complete(o, k) { Format.ParserExact(s, o, k); }
    Format.ParserExact(s, Nil, 0);
    if Parse(s).Complete? {
      ClassifyExact(statics, entries, Parse(s).value, Parse(s).size, m, next);
    }
  }

  /** The decision on a frame does not depend on the bytes behind it. */
  lemma DecodeExtends(statics: Statics, entries: seq<Header>, s: seq<byte>, t: seq<byte>)
    requires !Decode(statics, entries, s).Insufficient?
    ensures Decode(statics, entries, s + t) == Decode(statics, entries, s)
  {
    ParseExtends(s, t);
  }

  /** A frame with anything behind it gives back the message and the frame's exact size. */
  lemma FrameRoundTrip(statics: Statics, entries: seq<Header>, m: Message, rest: seq<byte>)
    requires Sendable(m)
    ensures Decode(statics, entries, Frame(m) + rest) == Decoded(Seen(m), |Frame(m)|, entries)
  {
    FieldsArePackedObject(m.span, m.kind, m.args, Outgoing(m.headers, m.trace));
    FramePackable(m);
    PackRoundTrip(FrameObject(m));
    LiteralsSend(statics, entries, Outgoing(m.headers, m.trace));
  }

  lemma FramePrefixInsufficient(statics: Statics, entries: seq<Header>, m: Message, k: nat)
    requires Sendable(m) && k < |Frame(m)|
    ensures Decode(statics, entries, Frame(m)[..k]).Insufficient?
  {
    FieldsArePackedObject(m.span, m.kind, m.args, Outgoing(m.headers, m.trace));
    FramePackable(m);
    ProperPrefixIncomplete(FrameObject(m), k);
  }

  // Any other sender: its tables never exceed the capacity, and what it sends can be packed.

  lemma DenotationPackable(statics: Statics, entries: seq<Header>, o: Object, h: Header)
    requires Denotes(statics, entries, o, h) && |entries| <= MAX_ENTRIES && PackableHeader(h)
    ensures Packable(o)
  {
    if o.Array? {
      assert Packable(o.items[0]) && Packable(o.items[1]) && Packable(o.items[2]);
    }
  }

  lemma {:induction false} SentPackable(statics: Statics, entries: seq<Header>, headers: seq<Header>,
                                        wire: seq<Object>, last: seq<Header>)
    requires Sends(statics, entries, headers, wire, last) && DataSize(entries) <= CAPACITY
    requires forall i | 0 <= i < |headers| :: PackableHeader(headers[i])
    ensures |wire| == |headers| && AllPackable(wire) && DataSize(last) <= CAPACITY
    decreases |headers|
  {
    if headers != [] {
      var o, h := wire[0], headers[0];
      EntriesBound(entries, 0);
      DenotationPackable(statics, entries, o, h);
      FitIsLongest([h] + entries, CAPACITY);
      SentPackable(statics, AfterSending(entries, o, h), headers[1..], wire[1..], last);
    }
  }

  /** Whatever denotations a sender picks, a frame gives back message, size and the sender's table. */
  lemma SentRoundTrip(statics: Statics, entries: seq<Header>, m: Message, wire: seq<Object>, last: seq<Header>,
                      rest: seq<byte>)
    requires Sendable(m) && DataSize(entries) <= CAPACITY
    requires Sends(statics, entries, Outgoing(m.headers, m.trace), wire, last)
    ensures Decode(statics, entries, Pack(Packaged(m, wire)) + rest) ==
            Decoded(Seen(m), |Pack(Packaged(m, wire))|, last)
  {
    var out := Outgoing(m.headers, m.trace);
    OutgoingPackable(m);
    SentPackable(statics, entries, out, wire, last);
    PackagedPackable(m, wire);
    PackRoundTrip(Packaged(m, wire));
    ReceiverFollows(statics, entries, out, wire, last);
  }

  lemma SentPrefixInsufficient(statics: Statics, entries: seq<Header>, m: Message, wire: seq<Object>,
                               last: seq<Header>, k: nat)
    requires Sendable(m) && DataSize(entries) <= CAPACITY && k < |Pack(Packaged(m, wire))|
    requires Sends(statics, entries, Outgoing(m.headers, m.trace), wire, last)
    ensures Decode(statics, entries, Pack(Packaged(m, wire))[..k]).Insufficient?
  {
    OutgoingPackable(m);
    SentPackable(statics, entries, Outgoing(m.headers, m.trace), wire, last);
    PackagedPackable(m, wire);
    ProperPrefixIncomplete(Packaged(m, wire), k);
  }

  /** A frame of span 1 and type 0 without arguments, with one header whose name is given by an index. */
  function IndexedNameFrame(index: nat): Object
  {
    Array([UInt(1), UInt(0), Array([]), Array([Array([Bool(false), UInt(index), Raw([])])])])
  }

  /** Whatever the table holds, a peer can refer to the name one past it, and decoding that is undefined. */
  lemma PastEndOnTheWire(statics: Statics, entries: seq<Header>, rest: seq<byte>)
    requires STATIC_SIZE + |entries| < TWO_64
    ensures Decode(statics, entries, Pack(IndexedNameFrame(STATIC_SIZE + |entries|)) + rest) ==
            Broken(UndefinedBehaviour)
  {
    var index := STATIC_SIZE + |entries|;
    IndexedNamePackable(index);
    PackRoundTrip(IndexedNameFrame(index));
    PastEndUndefined(statics, entries, index, |Pack(IndexedNameFrame(index))|);
  }

  lemma IndexedNamePackable(index: nat)
    requires index < TWO_64
    ensures Packable(IndexedNameFrame(index))
  {
    var header := Array([Bool(false), UInt(index), Raw([])]);
    assert Packable(header) && Packable(Array([header])) && Packable(Array([]));
  }

  lemma PastEndUndefined(statics: Statics, entries: seq<Header>, index: nat, size: nat)
    requires index == STATIC_SIZE + |entries|
    ensures Classify(statics, entries, IndexedNameFrame(index), size) == Broken(UndefinedBehaviour)
  {
    var header := Array([Bool(false), UInt(index), Raw([])]);
    UndefinedExactlyPastEnd(statics, entries, header);
    assert UnpackSeq(statics, entries, [header]).UndefinedAll?;
  }

  // ---------------------------------------------------------------------------
  // The encoder's growing buffer and the packing loops.

  const INITIAL_SIZE: nat := 2048

  function Doubled(size: nat, times: nat): nat
  {
    if times == 0 then size else 2 * Doubled(size, times - 1)
  }

  ghost predicate IsDoubling(initial: nat, size: nat)
  {
    exists k: nat :: size == Doubled(initial, k)
  }

  lemma DoublingDoubles(initial: nat, size: nat)
    requires IsDoubling(initial, size)
    ensures IsDoubling(initial, 2 * size)
  {
    var k: nat :| size == Doubled(initial, k);
    assert 2 * size == Doubled(initial, k + 1);
  }

  class EncodedBuffer {
    var vector: seq<byte>
    var offset: nat

    ghost predicate Valid()
      reads this
    {
      && offset <= |vector| && INITIAL_SIZE <= |vector|
      && IsDoubling(INITIAL_SIZE, |vector|)
      && (|vector| == INITIAL_SIZE || |vector| < 2 * offset)
    }

    function Contents(): seq<byte>
      requires Valid()
      reads this
    {
      vector[..offset]
    }

    constructor ()
      ensures Valid() && Contents() == [] && |vector| == 2048
    {
      vector := seq(INITIAL_SIZE, _ => 0);
      offset := 0;
      assert INITIAL_SIZE == Doubled(INITIAL_SIZE, 0);
    }

    /** Appends, doubling the vector as often as needed: never past twice what it holds. */
    method Write(data: seq<byte>)
      requires Valid()
      modifies this
      ensures Valid() && Contents() == old(Contents()) + data
    {
      var newSize := GrownSize(|vector|, offset, |data|);
      vector := vector + seq(newSize - |vector|, _ => 0);
      vector := vector[..offset] + data + vector[offset + |data|..];
      offset := offset + |data|;
    }
  }

  /** The doubling loop: the least doubling with room for `need` more octets. */
  method GrownSize(size: nat, offset: nat, need: nat) returns (newSize: nat)
    requires offset <= size && INITIAL_SIZE <= size && IsDoubling(INITIAL_SIZE, size)
    ensures size <= newSize && offset + need <= newSize && IsDoubling(INITIAL_SIZE, newSize)
    ensures newSize == size || newSize < 2 * (offset + need)
  {
    newSize := size;
    while need > newSize - offset
      invariant size <= newSize && IsDoubling(INITIAL_SIZE, newSize)
      invariant newSize == size || newSize < 2 * (offset + need)
      decreases offset + need - newSize
    {
      DoublingDoubles(INITIAL_SIZE, newSize);
      newSize := newSize * 2;
    }
  }

  method CountDropped(headers: seq<Header>, keep: Header -> bool) returns (skip: nat)
    ensures skip == |headers| - |Filter(keep, headers)|
  {
    skip := 0;
    for i := 0 to |headers|
      invariant skip == i - |Filter(keep, headers[..i])|
    {
      FilterNext(keep, headers, i);
      if !keep(headers[i]) {
        skip := skip + 1;
      }
    }
    assert headers[..|headers|] == headers;
  }

  /**
   Counts the headers to drop, announces the length, then packs the fresh headers and, in a second
   pass, the kept ones.
   */
  method PackHeaders(buffer: EncodedBuffer, first: seq<Header>, headers: seq<Header>, keep: Header -> bool,
                     pack: Header -> seq<byte>)
    requires buffer.Valid()
    modifies buffer
    ensures buffer.Valid()
    ensures var out := first + Filter(keep, headers);
            buffer.Contents() == old(buffer.Contents()) + PackArrayHead(|out|) + ConcatMap(pack, out)
  {
    var skip := CountDropped(headers, keep);
    buffer.Write(PackArrayHead(|headers| + |first| - skip));
    PackEach(buffer, first, pack);
    ghost var so := buffer.Contents();
    PackKept(buffer, headers, keep, pack);
    ghost var kept := Filter(keep, headers);
    ConcatMapSplits(pack, first, kept);
    assert so + ConcatMap(pack, kept) ==
           old(buffer.Contents()) + PackArrayHead(|first + kept|) + (ConcatMap(pack, first) + ConcatMap(pack, kept));
  }

  method PackEach<T>(buffer: EncodedBuffer, items: seq<T>, pack: T -> seq<byte>)
    requires buffer.Valid()
    modifies buffer
    ensures buffer.Valid() && buffer.Contents() == old(buffer.Contents()) + ConcatMap(pack, items)
  {
    ghost var before, bytes := buffer.Contents(), [];
    for i := 0 to |items|
      invariant bytes == ConcatMap(pack, items[..i])
      invariant buffer.Valid() && buffer.Contents() == before + bytes
    {
      assert items[..i + 1] == items[..i] + [items[i]];
      ConcatMapGrows(pack, items[..i], items[i]);
      bytes := WriteBehind(buffer, pack(items[i]), before, bytes);
    }
    assert items[..|items|] == items;
  }

  method PackKept(buffer: EncodedBuffer, headers: seq<Header>, keep: Header -> bool, pack: Header -> seq<byte>)
    requires buffer.Valid()
    modifies buffer
    ensures buffer.Valid() && buffer.Contents() == old(buffer.Contents()) + ConcatMap(pack, Filter(keep, headers))
  {
    ghost var before, bytes := buffer.Contents(), [];
    for i := 0 to |headers|
      invariant bytes == ConcatMap(pack, Filter(keep, headers[..i]))
      invariant buffer.Valid() && buffer.Contents() == before + bytes
    {
      KeptNext(keep, pack, headers, i);
      if keep(headers[i]) {
        bytes := WriteBehind(buffer, pack(headers[i]), before, bytes);
      }
    }
    assert headers[..|headers|] == headers;
  }

  lemma KeptNext(keep: Header -> bool, pack: Header -> seq<byte>, headers: seq<Header>, i: nat)
    requires i < |headers|
    ensures var bytes := ConcatMap(pack, Filter(keep, headers[..i]));
            ConcatMap(pack, Filter(keep, headers[..i + 1])) ==
            if keep(headers[i]) then bytes + pack(headers[i]) else bytes
  {
    FilterNext(keep, headers, i);
    ConcatMapGrows(pack, Filter(keep, headers[..i]), headers[i]);
  }

  method WriteBehind(buffer: EncodedBuffer, data: seq<byte>, ghost before: seq<byte>, ghost bytes: seq<byte>)
    returns (ghost more: seq<byte>)
    requires buffer.Valid() && buffer.Contents() == before + bytes
    modifies buffer
    ensures more == bytes + data && buffer.Valid() && buffer.Contents() == before + more
  {
    buffer.Write(data);
    more := bytes + data;
    assert before + bytes + data == before + more;
  }

  method PackArguments<T>(buffer: EncodedBuffer, args: seq<T>, pack: T -> seq<byte>)
    requires buffer.Valid()
    modifies buffer
    ensures buffer.Valid()
            && buffer.Contents() == old(buffer.Contents()) + PackArrayHead(|args|) + ConcatMap(pack, args)
  {
    buffer.Write(PackArrayHead(|args|));
    PackEach(buffer, args, pack);
  }

  method Tether(head: seq<byte>, args: seq<Object>, first: seq<Header>, headers: seq<Header>,
                keep: Header -> bool, packArgument: Object -> seq<byte>, packHeader: Header -> seq<byte>)
    returns (bytes: seq<byte>)
    ensures var out := first + Filter(keep, headers);
            bytes == head + PackArrayHead(|args|) + ConcatMap(packArgument, args)
                     + PackArrayHead(|out|) + ConcatMap(packHeader, out)
  {
    var buffer := new EncodedBuffer();
    buffer.Write(head);
    assert [] + head == head;
    PackArguments(buffer, args, packArgument);
    PackHeaders(buffer, first, headers, keep, packHeader);
    bytes := buffer.Contents();
  }

  /** The encoder: the fields written one after another make exactly the frame of the message. */
  method Encode(m: Message) returns (bytes: seq<byte>)
    ensures bytes == Frame(m)
  {
    bytes := Tether(PackArrayHead(4) + PackUInt(m.span) + PackUInt(m.kind), m.args,
                    TraceHeaders(m.trace), m.headers, Kept, Pack, PackedLiteral);
  }

  class Decoder {
    const table: HeaderTable

    constructor (statics: Statics)
      ensures table.Valid() && table.headers == [] && table.statics == statics && fresh(table)
    {
      table := new HeaderTable(statics);
    }

    method DecodeFrame(s: seq<byte>) returns (r: Outcome)
      requires table.Valid()
      modifies table
      ensures table.Valid() && r == Decode(table.statics, old(table.headers), s)
      ensures r.Decoded? ==> table.headers == r.entries
      ensures r.Insufficient? || (r.Broken? && (r.error.ParseError? || r.error.FrameFormatError?)) ==>
                table.headers == old(table.headers)
    {
      match Parse(s)
      case Incomplete => return Insufficient;
      case Malformed => return Broken(ParseError);
      case Complete(o, size) =>
        if !o.Array? || |o.items| < 3 {
          return Broken(FrameFormatError);
        } else if !o.items[0].UInt? || !o.items[1].UInt? || !o.items[2].Array? {
          return Broken(FrameFormatError);
        }
        var metadata := [];
        if |o.items| > 3 {
          if !o.items[3].Array? {
            return Broken(FrameFormatError);
          }
          var unpacked := table.UnpackVector(o.items[3].items);
          match unpacked {
            case RejectedAll(_) => return Broken(HpackError);
            case UndefinedAll => return Broken(UndefinedBehaviour);
            case UnpackedAll(headers, _) => metadata := headers;
          }
        }
        r := Decoded(Received(o.items[0].n, o.items[1].n, o.items[2].items, metadata), size, table.headers);
    }
  }
}
