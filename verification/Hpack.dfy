/**
 The header table shared by both ends of a connection, and the header codec over it. A table is a
 fixed static part followed by a bounded dynamic part, newest entry first; indices run through
 both, and index 0 is reserved.
 */
module Hpack {
  import opened Bytes
  import opened MsgPack

  datatype Header = Header(name: seq<byte>, value: seq<byte>)

  const CAPACITY: nat := 4096
  const OVERHEAD: nat := 32
  const MAX_ENTRIES: nat := CAPACITY / OVERHEAD
  const STATIC_SIZE: nat := 83
  // The header count the source derives from an assumed minimum entry of 34 octets.
  const ASSUMED_MAX_ENTRIES: nat := CAPACITY / (OVERHEAD + 2)

  type Statics = s: seq<Header> | |s| == STATIC_SIZE witness seq(STATIC_SIZE, _ => Header([], []))

  function Http2Size(h: Header): nat
  {
    |h.name| + |h.value| + OVERHEAD
  }

  function DataSize(entries: seq<Header>): nat
  {
    if entries == [] then 0 else Http2Size(entries[0]) + DataSize(entries[1..])
  }

  lemma {:induction false} DataSizeSplits(a: seq<Header>, b: seq<Header>)
    ensures DataSize(a + b) == DataSize(a) + DataSize(b)
  {
    if a == [] {
      assert a + b == b;
    } else {
      assert (a + b)[1..] == a[1..] + b;
      DataSizeSplits(a[1..], b);
    }
  }

  /** All names and values, one behind another. */
  function Text(entries: seq<Header>): seq<byte>
  {
    ConcatMap((h: Header) => h.name + h.value, entries)
  }

  /** The size of a table in octets: its text, and 32 for each entry. */
  lemma {:induction false} SizeIsText(entries: seq<Header>)
    ensures DataSize(entries) == |Text(entries)| + 32 * |entries|
  {
    if entries != [] { SizeIsText(entries[1..]); }
  }

  // ---------------------------------------------------------------------------
  // The dynamic table in closed form.

  /** Greedy prefix of `s` that fits into `room` octets. */
  function Fit(s: seq<Header>, room: nat): seq<Header>
  {
    if s == [] || Http2Size(s[0]) > room then [] else [s[0]] + Fit(s[1..], room - Http2Size(s[0]))
  }

  /** `p` is the longest prefix of `s` whose size is within `room`. */
  ghost predicate LongestFitting(s: seq<Header>, room: nat, p: seq<Header>)
  {
    && p <= s
    && DataSize(p) <= room
    && forall k: nat | |p| < k <= |s| :: DataSize(s[..k]) > room
  }

  lemma {:induction false} FitIsLongest(s: seq<Header>, room: nat)
    ensures LongestFitting(s, room, Fit(s, room))
  {
    if s != [] && Http2Size(s[0]) <= room {
      var left := room - Http2Size(s[0]);
      FitIsLongest(s[1..], left);
      var p := Fit(s[1..], left);
      assert Fit(s, room) == [s[0]] + p;
      assert Fit(s, room)[1..] == p;
      assert s == [s[0]] + s[1..];
      forall k: nat | 1 + |p| < k <= |s| ensures DataSize(s[..k]) > room {
        assert s[..k][1..] == s[1..][..k - 1];
      }
    } else if s != [] {
      forall k: nat | 0 < k <= |s| ensures DataSize(s[..k]) > room {
        assert s[..k][0] == s[0];
      }
    }
  }

  lemma LongestFittingUnique(s: seq<Header>, room: nat, p: seq<Header>, q: seq<Header>)
    requires LongestFitting(s, room, p) && LongestFitting(s, room, q)
    ensures p == q
  {
    assert p == s[..|p|] && q == s[..|q|];
  }

  /** What a push makes of the dynamic table. */
  function Pushed(entries: seq<Header>, h: Header): seq<Header>
  {
    Fit([h] + entries, CAPACITY)
  }

  lemma PushKeeps(entries: seq<Header>, h: Header, kept: nat)
    requires kept <= |entries|
    requires Http2Size(h) + DataSize(entries[..kept]) <= CAPACITY
    requires forall k: nat | kept < k <= |entries| :: Http2Size(h) + DataSize(entries[..k]) > CAPACITY
    ensures Pushed(entries, h) == [h] + entries[..kept]
  {
    var s := [h] + entries;
    var p := [h] + entries[..kept];
    assert p[1..] == entries[..kept];
    forall k: nat | |p| < k <= |s| ensures DataSize(s[..k]) > CAPACITY {
      assert s[..k][1..] == entries[..k - 1];
    }
    assert p == s[..kept + 1];
    FitIsLongest(s, CAPACITY);
    LongestFittingUnique(s, CAPACITY, p, Fit(s, CAPACITY));
  }

  /** The dynamic table after pushing `history`, given oldest first, into an empty table. */
  function AfterPushes(history: seq<Header>): seq<Header>
  {
    if history == [] then [] else Pushed(AfterPushes(history[..|history| - 1]), history[|history| - 1])
  }

  function Newest(history: seq<Header>): (r: seq<Header>)
    ensures |r| == |history|
    ensures forall i | 0 <= i < |r| :: r[i] == history[|history| - 1 - i]
  {
    seq(|history|, i requires 0 <= i < |history| => history[|history| - 1 - i])
  }

  lemma {:induction false} FitOfFit(s: seq<Header>, room: nat, less: nat)
    requires less <= room
    ensures Fit(Fit(s, room), less) == Fit(s, less)
  {
    if s != [] && Http2Size(s[0]) <= less {
      var f := Fit(s[1..], room - Http2Size(s[0]));
      assert Fit(s, room) == [s[0]] + f;
      assert Fit(s, room)[1..] == f;
      FitOfFit(s[1..], room - Http2Size(s[0]), less - Http2Size(s[0]));
    } else if s != [] && Http2Size(s[0]) <= room {
      assert Fit(s, room)[0] == s[0];
    }
  }

  /**
   After any pushes the dynamic table is exactly the longest prefix of the newest-first history
   that fits the capacity, even when some header was too large for the table and emptied it.
   */
  lemma {:induction false} TableClosedForm(history: seq<Header>)
    ensures LongestFitting(Newest(history), CAPACITY, AfterPushes(history))
  {
    TableIsFit(history);
    FitIsLongest(Newest(history), CAPACITY);
  }

  lemma {:induction false} TableIsFit(history: seq<Header>)
    ensures AfterPushes(history) == Fit(Newest(history), CAPACITY)
  {
    if history != [] {
      var older, h := history[..|history| - 1], history[|history| - 1];
      TableIsFit(older);
      assert Newest(history) == [h] + Newest(older);
      assert Newest(history)[1..] == Newest(older);
      var t := AfterPushes(older);
      assert ([h] + t)[1..] == t;
      if Http2Size(h) <= CAPACITY {
        FitOfFit(Newest(older), CAPACITY, CAPACITY - Http2Size(h));
      }
    }
  }

  lemma {:induction false} EntriesBound(entries: seq<Header>, least: nat)
    requires forall h | h in entries :: least <= |h.name| + |h.value|
    ensures (OVERHEAD + least) * |entries| <= DataSize(entries)
  {
    if entries != [] {
      EntriesBound(entries[1..], least);
      assert (OVERHEAD + least) * |entries| == (OVERHEAD + least) * |entries[1..]| + (OVERHEAD + least);
    }
  }

  lemma PrefixSizes(s: seq<Header>, n: nat, m: nat)
    requires n <= m <= |s|
    ensures DataSize(s[..n]) <= DataSize(s[..m])
  {
    assert s[..m] == s[..n] + s[n..m];
    DataSizeSplits(s[..n], s[n..m]);
  }

  /** The table holds at least `n` entries exactly when the `n` newest headers fit together. */
  lemma EntriesIff(history: seq<Header>, n: nat)
    ensures |AfterPushes(history)| >= n <==> n <= |history| && DataSize(Newest(history)[..n]) <= CAPACITY
  {
    TableClosedForm(history);
    var newest, t := Newest(history), AfterPushes(history);
    if n <= |t| {
      assert newest[..|t|] == t;
      PrefixSizes(newest, n, |t|);
    }
  }

  /** The same in octets: text plus 32 per entry against 4096. */
  lemma EntriesInOctets(history: seq<Header>, n: nat)
    ensures |AfterPushes(history)| >= n <==> n <= |history| && |Text(Newest(history)[..n])| + 32 * n <= 4096
    ensures AfterPushes(history) <= Newest(history)
  {
    EntriesIff(history, n);
    TableClosedForm(history);
    if n <= |history| { SizeIsText(Newest(history)[..n]); }
  }

  /**
   The size limit holds after any pushes, and with it a bound of 128 on the number of entries. The
   assumed maximum holds exactly unless the 121 newest headers fit together, so whenever each has
   two octets of text.
   */
  lemma TableBounds(history: seq<Header>)
    ensures DataSize(AfterPushes(history)) <= CAPACITY
    ensures |AfterPushes(history)| <= MAX_ENTRIES == 128 && ASSUMED_MAX_ENTRIES == 120
    ensures var n := ASSUMED_MAX_ENTRIES + 1;
            |AfterPushes(history)| <= ASSUMED_MAX_ENTRIES <==>
                |history| < n || DataSize(Newest(history)[..n]) > CAPACITY
    ensures (forall h | h in history :: 2 <= |h.name| + |h.value|) ==> |AfterPushes(history)| <= ASSUMED_MAX_ENTRIES
  {
    TableClosedForm(history);
    EntriesIff(history, ASSUMED_MAX_ENTRIES + 1);
    var t := AfterPushes(history);
    EntriesBound(t, 0);
    if forall h | h in history :: 2 <= |h.name| + |h.value| {
      forall h | h in t ensures 2 <= |h.name| + |h.value| { assert h in Newest(history); }
      EntriesBound(t, 2);
    }
  }

  /** n headers with an empty name and an empty value: the smallest entries there are. */
  function EmptyHeaders(n: nat): (s: seq<Header>)
    ensures |s| == n
    ensures forall i | 0 <= i < n :: s[i] == Header([], [])
  {
    seq(n, _ => Header([], []))
  }

  lemma {:induction false} EmptyHeadersSize(n: nat)
    ensures DataSize(EmptyHeaders(n)) == OVERHEAD * n
  {
    if n > 0 {
      assert EmptyHeaders(n)[1..] == EmptyHeaders(n - 1);
      EmptyHeadersSize(n - 1);
    }
  }

  /** As many empty headers stay in the table together as their overhead leaves room for. */
  lemma EmptyHeadersStay(n: nat)
    requires OVERHEAD * n <= CAPACITY
    ensures |AfterPushes(EmptyHeaders(n))| == n
  {
    var h := EmptyHeaders(n);
    assert Newest(h) == h;
    TableClosedForm(h);
    EmptyHeadersSize(n);
    assert h[..n] == h;
  }

  /** The assumed maximum of 120 is no bound in general: 128 empty headers stay in the table together. */
  lemma AssumedMaximumFails()
    ensures |AfterPushes(EmptyHeaders(MAX_ENTRIES))| == MAX_ENTRIES > ASSUMED_MAX_ENTRIES
  {
    EmptyHeadersStay(MAX_ENTRIES);
  }

  // ---------------------------------------------------------------------------
  // The index space.

  datatype Lookup = Found(header: Header) | OutOfRange | PastEnd

  /**
   `operator[]`. Its guard lets the index equal to the table size through, and the access that
   follows is one past the end.
   */
  function At(statics: Statics, entries: seq<Header>, index: nat): Lookup
  {
    if index == 0 || index > |entries| + STATIC_SIZE then OutOfRange
    else if index < STATIC_SIZE then Found(statics[index])
    else if index - STATIC_SIZE < |entries| then Found(entries[index - STATIC_SIZE])
    else PastEnd
  }

  function FirstMatch(s: seq<Header>, fn: Header -> bool): (i: nat)
    ensures i <= |s|
    ensures i < |s| ==> fn(s[i])
    ensures forall k | 0 <= k < i :: !fn(s[k])
  {
    if s == [] || fn(s[0]) then 0 else 1 + FirstMatch(s[1..], fn)
  }

  /** `find`: the static part first, then the dynamic part; 0 when there is no match. */
  function Find(statics: Statics, entries: seq<Header>, fn: Header -> bool): nat
  {
    var i := FirstMatch(statics, fn);
    if i < STATIC_SIZE then i
    else
      var j := FirstMatch(entries, fn);
      if j < |entries| then STATIC_SIZE + j else 0
  }

  /**
   The two parts form one index space, read without gaps: lookup is indexing of the concatenation
   from slot 1 on, and it is undefined for exactly one index.
   */
  lemma LookupIsConcatenation(statics: Statics, entries: seq<Header>, index: nat)
    ensures 0 < index < |statics + entries| <==> At(statics, entries, index).Found?
    ensures 0 < index < |statics + entries| ==> At(statics, entries, index).header == (statics + entries)[index]
    ensures At(statics, entries, index).PastEnd? <==> index == |statics + entries|
    ensures |statics| == 83
  {
  }

  /**
   A found index is the least one that matches, reserved slot included: a match in slot 0 hides
   every other, and reads as no match.
   */
  lemma FindIsLeast(statics: Statics, entries: seq<Header>, fn: Header -> bool)
    ensures var i := Find(statics, entries, fn); var all := statics + entries;
            if i > 0 then i < |all| && fn(all[i]) && forall k | 0 <= k < i :: !fn(all[k])
            else fn(all[0]) || forall k | 0 <= k < |all| :: !fn(all[k])
  {
  }

  // ---------------------------------------------------------------------------
  // The codec.

  datatype Unpacked = Unpacked(header: Header, entries: seq<Header>) | Rejected | Undefined

  /** The shape test of `unpack_vector`. */
  predicate WellShaped(o: Object)
  {
    || o.UInt?
    || (o.Array? && |o.items| == 3 && o.items[0].Bool? && (o.items[1].UInt? || o.items[1].Raw?) && o.items[2].Raw?)
  }

  function UnpackOne(statics: Statics, entries: seq<Header>, o: Object): Unpacked
  {
    if !WellShaped(o) then Rejected
    else if o.UInt? then
      if o.n >= STATIC_SIZE + |entries| || o.n == 0 then Rejected
      else Unpacked(At(statics, entries, o.n).header, entries)
    else
      var name := if o.items[1].Raw? then Found(Header(o.items[1].bytes, [])) else At(statics, entries, o.items[1].n);
      match name
      case OutOfRange => Rejected
      case PastEnd => Undefined
      case Found(f) =>
        var h := Header(f.name, o.items[2].bytes);
        Unpacked(h, if o.items[0].flag then Pushed(entries, h) else entries)
  }

  datatype UnpackedAll =
    | UnpackedAll(headers: seq<Header>, entries: seq<Header>)
    | RejectedAll(entries: seq<Header>)
    | UndefinedAll

  function UnpackSeq(statics: Statics, entries: seq<Header>, objects: seq<Object>): UnpackedAll
    decreases |objects|
  {
    if objects == [] then UnpackedAll([], entries)
    else
      match UnpackOne(statics, entries, objects[0])
      case Rejected => RejectedAll(entries)
      case Undefined => UndefinedAll
      case Unpacked(h, next) =>
        match UnpackSeq(statics, next, objects[1..])
        case UnpackedAll(hs, last) => UnpackedAll([h] + hs, last)
        case r => r
  }

  /** The object names a header or, in its second place, a name by an index into the whole table. */
  ghost predicate Points(statics: Statics, entries: seq<Header>, o: Object, name: seq<byte>)
  {
    || o == Raw(name)
    || (o.UInt? && 0 < o.n < |statics + entries| && (statics + entries)[o.n].name == name)
  }

  /** The object a sender may put on the wire for `h` when its table holds `entries`. */
  ghost predicate Denotes(statics: Statics, entries: seq<Header>, o: Object, h: Header)
  {
    || (o.UInt? && 0 < o.n < |statics + entries| && (statics + entries)[o.n] == h)
    || (o.Array? && |o.items| == 3 && (o.items[0] == Bool(true) || o.items[0] == Bool(false))
        && Points(statics, entries, o.items[1], h.name) && o.items[2] == Raw(h.value))
  }

  function AfterSending(entries: seq<Header>, o: Object, h: Header): seq<Header>
  {
    if o.Array? && |o.items| == 3 && o.items[0] == Bool(true) then Pushed(entries, h) else entries
  }

  /** The receiver accepts exactly the denotations of a header, and then agrees on the next table. */
  lemma UnpackOneCorrect(statics: Statics, entries: seq<Header>, o: Object, h: Header)
    ensures Denotes(statics, entries, o, h) <==>
            UnpackOne(statics, entries, o) == Unpacked(h, AfterSending(entries, o, h))
  {
  }

  /** A table is missed by the receiver in one case only: a name index equal to the table size. */
  lemma UndefinedExactlyPastEnd(statics: Statics, entries: seq<Header>, o: Object)
    ensures UnpackOne(statics, entries, o).Undefined? <==>
            && o.Array? && |o.items| == 3 && (o.items[0] == Bool(true) || o.items[0] == Bool(false))
            && o.items[1] == UInt(83 + |entries|) && o.items[2].Raw?
  {
  }

  // Senders.

  /** The indexed sender kept in place of the live one. */
  function PackIndexed(statics: Statics, entries: seq<Header>, h: Header): (r: (Object, seq<Header>))
  {
    var full := Find(statics, entries, g => g == h);
    if full != 0 then (UInt(full), entries)
    else
      var named := Find(statics, entries, (g: Header) => g.name == h.name);
      (Array([Bool(true), if named != 0 then UInt(named) else Raw(h.name), Raw(h.value)]), Pushed(entries, h))
  }

  /** The indexed sender for a header type that has a static slot. */
  function PackStatic(statics: Statics, entries: seq<Header>, slot: nat, value: seq<byte>): (r: (Object, seq<Header>))
    requires 0 < slot < STATIC_SIZE
  {
    if statics[slot].value == value then (UInt(slot), entries)
    else
      var h := Header(statics[slot].name, value);
      (Array([Bool(true), UInt(slot), Raw(value)]), Pushed(entries, h))
  }

  /** The live sender: literals only, nothing stored. */
  function PackLiteral(h: Header): Object
  {
    Array([Bool(false), Raw(h.name), Raw(h.value)])
  }

  lemma IndexedDenotes(statics: Statics, entries: seq<Header>, h: Header)
    ensures var (o, next) := PackIndexed(statics, entries, h);
            Denotes(statics, entries, o, h) && next == AfterSending(entries, o, h)
  {
    FindIsLeast(statics, entries, g => g == h);
    FindIsLeast(statics, entries, (g: Header) => g.name == h.name);
  }

  lemma StaticDenotes(statics: Statics, entries: seq<Header>, slot: nat, value: seq<byte>)
    requires 0 < slot < STATIC_SIZE
    ensures var g := Header(statics[slot].name, value);
            var (o, next) := PackStatic(statics, entries, slot, value);
            Denotes(statics, entries, o, g) && next == AfterSending(entries, o, g)
  {
  }

  /**
   The indexed sender sends an index exactly when it finds the header anywhere but in the reserved
   slot, the least such index; otherwise it has the header stored, and the name goes as the least
   index where it is found or else as it is.
   */
  lemma IndexedForm(statics: Statics, entries: seq<Header>, h: Header)
    requires statics[0].name != h.name
    ensures var all := statics + entries; var (o, next) := PackIndexed(statics, entries, h);
            && (o.UInt? <==> h in all)
            && (o.UInt? ==> o.n < |all| && all[o.n] == h && h !in all[..o.n] && next == entries)
            && (!o.UInt? ==>
                  && o.Array? && |o.items| == 3 && o.items[0] == Bool(true) && o.items[2] == Raw(h.value)
                  && next == Pushed(entries, h)
                  && (o.items[1] == Raw(h.name) <==> forall g | g in all :: g.name != h.name)
                  && (o.items[1].UInt? ==>
                        o.items[1].n < |all| && all[o.items[1].n].name == h.name
                        && forall k | 0 <= k < o.items[1].n :: all[k].name != h.name)
                  && (o.items[1].UInt? || o.items[1] == Raw(h.name)))
  {
    var all := statics + entries;
    assert all[0] == statics[0];
    FindIsLeast(statics, entries, g => g == h);
    FindIsLeast(statics, entries, (g: Header) => g.name == h.name);
  }

  /** The sender for a static slot sends the slot alone exactly when its value is the predefined one. */
  lemma StaticForm(statics: Statics, entries: seq<Header>, slot: nat, value: seq<byte>)
    requires 0 < slot < STATIC_SIZE
    ensures var (o, next) := PackStatic(statics, entries, slot, value);
            && (o == UInt(slot) <==> statics[slot].value == value)
            && (o != UInt(slot) ==> o == Array([Bool(true), UInt(slot), Raw(value)])
                                    && next == Pushed(entries, Header(statics[slot].name, value)))
  {
  }

  lemma LiteralDenotes(statics: Statics, entries: seq<Header>, h: Header)
    ensures Denotes(statics, entries, PackLiteral(h), h) && AfterSending(entries, PackLiteral(h), h) == entries
  {
  }

  lemma SendersDenote(statics: Statics, entries: seq<Header>, h: Header, slot: nat)
    requires 0 < slot < STATIC_SIZE
    ensures var (o, next) := PackIndexed(statics, entries, h);
            Denotes(statics, entries, o, h) && next == AfterSending(entries, o, h)
    ensures var g := Header(statics[slot].name, h.value);
            var (o, next) := PackStatic(statics, entries, slot, h.value);
            Denotes(statics, entries, o, g) && next == AfterSending(entries, o, g)
    ensures Denotes(statics, entries, PackLiteral(h), h) && AfterSending(entries, PackLiteral(h), h) == entries
  {
    IndexedDenotes(statics, entries, h);
    StaticDenotes(statics, entries, slot, h.value);
    LiteralDenotes(statics, entries, h);
  }

  /** A sender is any rule that picks a denotation; this is its wire for a header list. */
  ghost predicate Sends(statics: Statics, entries: seq<Header>, headers: seq<Header>, wire: seq<Object>,
                        last: seq<Header>)
    decreases |headers|
  {
    if headers == [] then wire == [] && last == entries
    else
      && wire != []
      && Denotes(statics, entries, wire[0], headers[0])
      && Sends(statics, AfterSending(entries, wire[0], headers[0]), headers[1..], wire[1..], last)
  }

  /** One message: whatever denotations the sender picks, the receiver recovers headers and table. */
  lemma {:induction false} ReceiverFollows(statics: Statics, entries: seq<Header>, headers: seq<Header>,
                                           wire: seq<Object>, last: seq<Header>)
    requires Sends(statics, entries, headers, wire, last)
    ensures UnpackSeq(statics, entries, wire) == UnpackedAll(headers, last)
    decreases |headers|
  {
    if headers != [] {
      UnpackOneCorrect(statics, entries, wire[0], headers[0]);
      ReceiverFollows(statics, AfterSending(entries, wire[0], headers[0]), headers[1..], wire[1..], last);
      assert [headers[0]] + headers[1..] == headers;
    }
  }

  /** The receiver accepts exactly what denotes some list, and recovers it with the sender's table. */
  lemma {:induction false} AcceptsExactly(statics: Statics, entries: seq<Header>, wire: seq<Object>,
                                          headers: seq<Header>, last: seq<Header>)
    ensures UnpackSeq(statics, entries, wire) == UnpackedAll(headers, last) <==>
            Sends(statics, entries, headers, wire, last)
    decreases |wire|
  {
    if Sends(statics, entries, headers, wire, last) { ReceiverFollows(statics, entries, headers, wire, last); }
    if UnpackSeq(statics, entries, wire) == UnpackedAll(headers, last) && wire != [] {
      var first := UnpackOne(statics, entries, wire[0]);
      assert headers[0] == first.header && headers[1..] == UnpackSeq(statics, first.entries, wire[1..]).headers;
      UnpackedDenotes(statics, entries, wire[0]);
      AcceptsExactly(statics, first.entries, wire[1..], headers[1..], last);
    }
  }

  lemma UnpackedDenotes(statics: Statics, entries: seq<Header>, o: Object)
    requires UnpackOne(statics, entries, o).Unpacked?
    ensures var r := UnpackOne(statics, entries, o);
            Denotes(statics, entries, o, r.header) && r.entries == AfterSending(entries, o, r.header)
  {
  }

  /** The objects before position `k` are taken, and leave the table `at`. */
  ghost predicate TakenUpTo(statics: Statics, entries: seq<Header>, wire: seq<Object>, k: nat, at: seq<Header>)
  {
    k <= |wire| && exists headers :: Sends(statics, entries, headers, wire[..k], at)
  }

  /** The object is past repair: it denotes nothing, and is not the one that runs past the table. */
  ghost predicate Refused(statics: Statics, at: seq<Header>, o: Object)
  {
    UnpackOne(statics, at, o).Rejected?
  }

  /** What is refused denotes no header, and does not run past the table. */
  lemma RefusedIff(statics: Statics, entries: seq<Header>, o: Object)
    ensures Refused(statics, entries, o) <==>
            (forall h :: !Denotes(statics, entries, o, h)) && !UnpackOne(statics, entries, o).Undefined?
  {
    forall h ensures Denotes(statics, entries, o, h) ==> !Refused(statics, entries, o) {
      UnpackOneCorrect(statics, entries, o, h);
    }
    if UnpackOne(statics, entries, o).Unpacked? { UnpackedDenotes(statics, entries, o); }
  }

  /**
   Where a list is given up: at the first object that is refused or runs past the table, and the
   table keeps what was stored before it.
   */
  lemma {:induction false} StopsAt(statics: Statics, entries: seq<Header>, wire: seq<Object>)
    returns (k: nat, at: seq<Header>)
    requires !UnpackSeq(statics, entries, wire).UnpackedAll?
    ensures k < |wire| && TakenUpTo(statics, entries, wire, k, at)
    ensures UnpackSeq(statics, entries, wire) == RejectedAll(at) <==> Refused(statics, at, wire[k])
    ensures UnpackSeq(statics, entries, wire).UndefinedAll? <==> UnpackOne(statics, at, wire[k]).Undefined?
    ensures !UnpackOne(statics, at, wire[k]).Unpacked?
    decreases |wire|
  {
    match UnpackOne(statics, entries, wire[0])
    case Unpacked(h, next) =>
      k, at := StopsAt(statics, next, wire[1..]);
      var rest :| Sends(statics, next, rest, wire[1..][..k], at);
      UnpackedDenotes(statics, entries, wire[0]);
      assert wire[..k + 1][1..] == wire[1..][..k] && ([h] + rest)[1..] == rest;
      assert Sends(statics, entries, [h] + rest, wire[..k + 1], at);
      k := k + 1;
    case _ =>
      k, at := 0, entries;
      assert Sends(statics, entries, [], wire[..0], entries);
  }

  lemma {:induction false} StuckBehind(statics: Statics, entries: seq<Header>, wire: seq<Object>, k: nat)
    requires k < |wire| && UnpackSeq(statics, entries, wire[..k]).UnpackedAll?
    requires !UnpackOne(statics, UnpackSeq(statics, entries, wire[..k]).entries, wire[k]).Unpacked?
    ensures var at := UnpackSeq(statics, entries, wire[..k]).entries;
            UnpackSeq(statics, entries, wire) ==
            if UnpackOne(statics, at, wire[k]).Undefined? then UndefinedAll else RejectedAll(at)
    decreases |wire|
  {
    if k > 0 {
      assert wire[..k][1..] == wire[1..][..k - 1];
      StuckBehind(statics, UnpackOne(statics, entries, wire[0]).entries, wire[1..], k - 1);
    }
  }

  // Whole connections.

  datatype Ends = Ends(sender: seq<Header>, receiver: seq<Header>)

  /** A run: messages, the wire of each, and the tables of both ends before each and at the end. */
  ghost predicate Connection(statics: Statics, messages: seq<seq<Header>>, wires: seq<seq<Object>>, ends: seq<Ends>)
  {
    && |wires| == |messages| && |ends| == |messages| + 1
    && forall i | 0 <= i < |messages| ::
         && Sends(statics, ends[i].sender, messages[i], wires[i], ends[i + 1].sender)
         && Receives(statics, ends[i].receiver, wires[i], ends[i + 1].receiver)
  }

  ghost predicate Receives(statics: Statics, before: seq<Header>, wire: seq<Object>, after: seq<Header>)
  {
    var r := UnpackSeq(statics, before, wire);
    r.UnpackedAll? ==> r.entries == after
  }

  /**
   Synchronisation: in every run that starts with equal tables, every message is decoded to the
   headers that were sent and the tables stay equal after every message.
   */
  lemma {:induction false} TablesStaySynchronised(statics: Statics, messages: seq<seq<Header>>, wires: seq<seq<Object>>,
                                                  ends: seq<Ends>, k: nat)
    requires Connection(statics, messages, wires, ends)
    requires ends[0].sender == ends[0].receiver
    requires k <= |messages|
    ensures ends[k].sender == ends[k].receiver
    ensures k < |messages| ==>
              && ends[k + 1].sender == ends[k + 1].receiver
              && UnpackSeq(statics, ends[k].receiver, wires[k]) == UnpackedAll(messages[k], ends[k + 1].receiver)
  {
    if k > 0 { TablesStaySynchronised(statics, messages, wires, ends, k - 1); }
    if k < |messages| {
      ReceiverFollows(statics, ends[k].sender, messages[k], wires[k], ends[k + 1].sender);
      assert Receives(statics, ends[k].receiver, wires[k], ends[k + 1].receiver);
    }
  }

  function PackIndexedAll(statics: Statics, entries: seq<Header>, headers: seq<Header>): (r: (seq<Object>, seq<Header>))
    decreases |headers|
  {
    if headers == [] then ([], entries)
    else
      var (o, next) := PackIndexed(statics, entries, headers[0]);
      var (rest, last) := PackIndexedAll(statics, next, headers[1..]);
      ([o] + rest, last)
  }

  /** The indexed sender is such a rule, so the receiver undoes it from any common table. */
  lemma {:induction false} IndexedRoundTrip(statics: Statics, entries: seq<Header>, headers: seq<Header>)
    ensures var (wire, last) := PackIndexedAll(statics, entries, headers);
            Sends(statics, entries, headers, wire, last)
              && UnpackSeq(statics, entries, wire) == UnpackedAll(headers, last)
    decreases |headers|
  {
    var (wire, last) := PackIndexedAll(statics, entries, headers);
    if headers != [] {
      IndexedDenotes(statics, entries, headers[0]);
      var (o, next) := PackIndexed(statics, entries, headers[0]);
      var (rest, _) := PackIndexedAll(statics, next, headers[1..]);
      assert wire[0] == o && wire[1..] == rest;
      IndexedRoundTrip(statics, next, headers[1..]);
    }
    ReceiverFollows(statics, entries, headers, wire, last);
  }

  function Literals(headers: seq<Header>): (wire: seq<Object>)
    ensures |wire| == |headers|
    ensures forall i | 0 <= i < |wire| :: wire[i] == PackLiteral(headers[i])
  {
    seq(|headers|, i requires 0 <= i < |headers| => PackLiteral(headers[i]))
  }

  lemma {:induction false} LiteralsSend(statics: Statics, entries: seq<Header>, headers: seq<Header>)
    ensures Sends(statics, entries, headers, Literals(headers), entries)
    ensures UnpackSeq(statics, entries, Literals(headers)) == UnpackedAll(headers, entries)
  {
    if headers != [] {
      LiteralDenotes(statics, entries, headers[0]);
      assert Literals(headers)[1..] == Literals(headers[1..]);
      LiteralsSend(statics, entries, headers[1..]);
    }
    ReceiverFollows(statics, entries, headers, Literals(headers), entries);
  }

  // ---------------------------------------------------------------------------
  // The table object.

  class HeaderTable {
    const statics: Statics
    var headers: seq<Header>

    ghost predicate Valid()
      reads this
    {
      DataSize(headers) <= CAPACITY
    }

    constructor (statics: Statics)
      ensures Valid() && headers == [] && this.statics == statics
    {
      this.statics := statics;
      headers := [];
    }

    method Measure() returns (total: nat)
      ensures total == DataSize(headers)
    {
      total := 0;
      for i := 0 to |headers|
        invariant total == DataSize(headers[..i])
      {
        assert headers[..i + 1] == headers[..i] + [headers[i]];
        DataSizeSplits(headers[..i], [headers[i]]);
        total := total + Http2Size(headers[i]);
      }
      assert headers[..|headers|] == headers;
    }

    method Push(header: Header)
      requires Valid()
      modifies this
      ensures Valid() && headers == Pushed(old(headers), header)
    {
      ghost var was := headers;
      var headerSize := Http2Size(header);
      var sz := Measure();
      assert was[..|was|] == was;

      while sz + headerSize > CAPACITY && headers != []
        invariant |headers| <= |was| && headers == was[..|headers|] && sz == DataSize(headers)
        invariant forall k: nat | |headers| < k <= |was| :: headerSize + DataSize(was[..k]) > CAPACITY
      {
        var n := |headers| - 1;
        assert headers == headers[..n] + [headers[n]];
        DataSizeSplits(headers[..n], [headers[n]]);
        assert headers[..n] == was[..n];
        sz := sz - Http2Size(headers[n]);
        headers := headers[..n];
      }

      var rest := Measure();
      if headers == [] && rest + headerSize > CAPACITY {
        return;
      }
      PushKeeps(was, header, |headers|);
      headers := [header] + headers;
      FitIsLongest([header] + was, CAPACITY);
    }

    /** `unpack` of one object: the table is read before anything is stored in it. */
    method Unpack(o: Object) returns (r: Unpacked)
      requires Valid() && WellShaped(o)
      modifies this
      ensures Valid() && r == UnpackOne(statics, old(headers), o)
      ensures headers == if r.Unpacked? then r.entries else old(headers)
    {
      if o.UInt? {
        if o.n >= STATIC_SIZE + |headers| || o.n == 0 {
          return Rejected;
        }
        return Unpacked(At(statics, headers, o.n).header, headers);
      }
      var name: seq<byte>;
      if o.items[1].UInt? {
        match At(statics, headers, o.items[1].n) {
          case OutOfRange => return Rejected;
          case PastEnd => return Undefined;
          case Found(h) => name := h.name;
        }
      } else {
        name := o.items[1].bytes;
      }
      var result := Header(name, o.items[2].bytes);
      if o.items[0].flag {
        Push(result);
      }
      r := Unpacked(result, headers);
    }

    /** `unpack_vector`: stops at the first object it cannot take, keeping what was stored so far. */
    method UnpackVector(source: seq<Object>) returns (r: UnpackedAll)
      requires Valid()
      modifies this
      ensures Valid() && r == UnpackSeq(statics, old(headers), source)
      ensures !r.UndefinedAll? ==> headers == r.entries
    {
      var target := [];
      ghost var whole := UnpackSeq(statics, headers, source);
      for i := 0 to |source|
        invariant Valid()
        invariant whole == Prepend(target, UnpackSeq(statics, headers, source[i..]))
      {
        UnpackNext(statics, headers, source, i, target);
        if !WellShaped(source[i]) {
          return RejectedAll(headers);
        }
        var step := Unpack(source[i]);
        match step {
          case Rejected => return RejectedAll(headers);
          case Undefined => return UndefinedAll;
          case Unpacked(h, _) => target := target + [h];
        }
      }
      r := UnpackedAll(target, headers);
    }
  }

  function Prepend(done: seq<Header>, r: UnpackedAll): UnpackedAll
  {
    match r
    case UnpackedAll(hs, entries) => UnpackedAll(done + hs, entries)
    case _ => r
  }

  lemma UnpackNext(statics: Statics, entries: seq<Header>, source: seq<Object>, i: nat, target: seq<Header>)
    requires i < |source|
    ensures Prepend(target, UnpackSeq(statics, entries, source[i..])) ==
            match UnpackOne(statics, entries, source[i])
            case Rejected => RejectedAll(entries)
            case Undefined => UndefinedAll
            case Unpacked(h, next) => Prepend(target + [h], UnpackSeq(statics, next, source[i + 1..]))
  {
    assert source[i..][0] == source[i] && source[i..][1..] == source[i + 1..];
  }
}
