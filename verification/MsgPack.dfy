/**
 MessagePack object trees and the incremental parser the frame decoder drives: the format before
 the `str`/`bin` split, which is the one the transport speaks. The three answers of the parser are
 a complete object with its size, a request for more bytes, and a parse error.
 */
module MsgPack {
  import opened Bytes

  datatype Object =
    | Nil
    | Bool(flag: bool)
    | UInt(n: nat)
    | NInt(i: int)
    | Float(bits: seq<byte>)
    | Raw(bytes: seq<byte>)
    | Array(items: seq<Object>)
    | Map(cells: seq<Object>)       // keys and values, alternating

  /** Objects the packer's argument types can express. */
  predicate Packable(o: Object)
  {
    match o
    case Nil => true
    case Bool(_) => true
    case UInt(n) => n < TWO_64
    case NInt(i) => -0x8000_0000_0000_0000 <= i < 0
    case Float(bits) => |bits| == 4 || |bits| == 8
    case Raw(bytes) => |bytes| < TWO_32
    case Array(items) => |items| < TWO_32 && forall k | 0 <= k < |items| :: Packable(items[k])
    case Map(cells) => |cells| % 2 == 0 && |cells| / 2 < TWO_32 && forall k | 0 <= k < |cells| :: Packable(cells[k])
  }

  predicate AllPackable(items: seq<Object>)
  {
    forall k | 0 <= k < |items| :: Packable(items[k])
  }

  // Packing: every integer and length in its shortest form. Values beyond the packer's types are
  // truncated to the widest field, as its conversions would.

  function PackUInt(n: nat): (s: seq<byte>)
    ensures |s| > 0
  {
    if n < 0x80 then [n]
    else if n < 0x100 then [0xcc] + BigEndian(n, 1)
    else if n < 0x1_0000 then [0xcd] + BigEndian(n, 2)
    else if n < TWO_32 then [0xce] + BigEndian(n, 4)
    else [0xcf] + BigEndian(n, 8)
  }

  function PackNInt(i: int): (s: seq<byte>)
    ensures |s| > 0
  {
    if -0x20 <= i < 0 then [i + 0x100]
    else if -0x80 <= i < 0 then [0xd0] + BigEndian(i + 0x100, 1)
    else if -0x8000 <= i < 0 then [0xd1] + BigEndian(i + 0x1_0000, 2)
    else if -0x8000_0000 <= i < 0 then [0xd2] + BigEndian(i + TWO_32, 4)
    else [0xd3] + BigEndian(if i + TWO_64 < 0 then 0 else i + TWO_64, 8)
  }

  function PackRawHead(n: nat): (s: seq<byte>)
    ensures |s| > 0
  {
    if n < 0x20 then [0xa0 + n]
    else if n < 0x1_0000 then [0xda] + BigEndian(n, 2)
    else [0xdb] + BigEndian(n, 4)
  }

  function PackArrayHead(n: nat): (s: seq<byte>)
    ensures |s| > 0
  {
    if n < 0x10 then [0x90 + n]
    else if n < 0x1_0000 then [0xdc] + BigEndian(n, 2)
    else [0xdd] + BigEndian(n, 4)
  }

  function PackMapHead(n: nat): (s: seq<byte>)
    ensures |s| > 0
  {
    if n < 0x10 then [0x80 + n]
    else if n < 0x1_0000 then [0xde] + BigEndian(n, 2)
    else [0xdf] + BigEndian(n, 4)
  }

  function Pack(o: Object): (s: seq<byte>)
    ensures |s| > 0
    decreases o, 0
  {
    match o
    case Nil => [0xc0]
    case Bool(flag) => if flag then [0xc3] else [0xc2]
    case UInt(n) => PackUInt(n)
    case NInt(i) => PackNInt(i)
    case Float(bits) => (if |bits| == 4 then [0xca] else [0xcb]) + bits
    case Raw(bytes) => PackRawHead(|bytes|) + bytes
    case Array(items) => PackArrayHead(|items|) + PackAll(items)
    case Map(cells) => PackMapHead(|cells| / 2) + PackAll(cells)
  }

  function PackAll(items: seq<Object>): (s: seq<byte>)
    decreases items, 1
  {
    if items == [] then [] else Pack(items[0]) + PackAll(items[1..])
  }

  lemma {:induction false} PackAllIsConcatMap(items: seq<Object>)
    ensures PackAll(items) == ConcatMap(Pack, items)
  {
    if items != [] { PackAllIsConcatMap(items[1..]); }
  }

  // Parsing.

  datatype Parsed<+T> = Incomplete | Malformed | Complete(value: T, size: nat)

  /** What the leading octet and its fixed-width field say. */
  datatype Head = More | Bad | Atom(o: Object) | RawOf(len: nat) | ArrayOf(count: nat) | MapOf(pairs: nat)

  /** Width of the field after a leading octet in 0xc0..0xdf; -1 for the unassigned ones. */
  function Width(b: byte): (w: int)
    ensures -1 <= w <= 8
  {
    if b == 0xc0 || b == 0xc2 || b == 0xc3 then 0
    else if b == 0xcc || b == 0xd0 then 1
    else if b == 0xcd || b == 0xd1 || b == 0xda || b == 0xdc || b == 0xde then 2
    else if b == 0xca || b == 0xce || b == 0xd2 || b == 0xdb || b == 0xdd || b == 0xdf then 4
    else if b == 0xcb || b == 0xcf || b == 0xd3 then 8
    else -1
  }

  /** A two's complement field: non-negative values are ordinary unsigned integers. */
  function Signed(v: nat, width: nat): Object
  {
    if 2 * v < Pow256(width) then UInt(v) else NInt(v - Pow256(width))
  }

  function Interpret(b: byte, field: seq<byte>): Head
  {
    var v := FromBigEndian(field);
    if b == 0xc0 then Atom(Nil)
    else if b == 0xc2 then Atom(Bool(false))
    else if b == 0xc3 then Atom(Bool(true))
    else if b == 0xca || b == 0xcb then Atom(Float(field))
    else if 0xcc <= b <= 0xcf then Atom(UInt(v))
    else if 0xd0 <= b <= 0xd3 then Atom(Signed(v, |field|))
    else if b == 0xda || b == 0xdb then RawOf(v)
    else if b == 0xdc || b == 0xdd then ArrayOf(v)
    else if b == 0xde || b == 0xdf then MapOf(v)
    else Bad
  }

  /** Octets taken by the leading octet and its field. */
  function HeadSize(s: seq<byte>): (n: nat)
    requires s != []
    ensures 1 <= n
  {
    if 0xc0 <= s[0] < 0xe0 && Width(s[0]) >= 0 then 1 + Width(s[0]) else 1
  }

  function ParseHead(s: seq<byte>): (h: Head)
    ensures !h.More? ==> s != [] && HeadSize(s) <= |s|
  {
    if s == [] then More
    else
      var b := s[0];
      if b < 0x80 then Atom(UInt(b))
      else if b < 0x90 then MapOf(b - 0x80)
      else if b < 0xa0 then ArrayOf(b - 0x90)
      else if b < 0xc0 then RawOf(b - 0xa0)
      else if b >= 0xe0 then Atom(NInt(b as int - 0x100))
      else if Width(b) < 0 then Bad
      else if |s| < 1 + Width(b) then More
      else Interpret(b, s[1..1 + Width(b)])
  }

  function Parse(s: seq<byte>): (r: Parsed<Object>)
    ensures r.Complete? ==> 0 < r.size <= |s|
    decreases |s|, 0
  {
    match ParseHead(s)
    case More => Incomplete
    case Bad => Malformed
    case Atom(o) => Complete(o, HeadSize(s))
    case RawOf(len) =>
      var h := HeadSize(s);
      if |s| < h + len then Incomplete else Complete(Raw(s[h..h + len]), h + len)
    case ArrayOf(count) =>
      var h := HeadSize(s);
      (match ParseMany(s[h..], count)
       case Incomplete => Incomplete
       case Malformed => Malformed
       case Complete(items, size) => Complete(Array(items), h + size))
    case MapOf(pairs) =>
      var h := HeadSize(s);
      match ParseMany(s[h..], 2 * pairs)
      case Incomplete => Incomplete
      case Malformed => Malformed
      case Complete(cells, size) => Complete(Map(cells), h + size)
  }

  function ParseMany(s: seq<byte>, count: nat): (r: Parsed<seq<Object>>)
    ensures r.Complete? ==> r.size <= |s| && |r.value| == count
    decreases |s|, 1
  {
    if count == 0 then Complete([], 0)
    else
      match Parse(s)
      case Incomplete => Incomplete
      case Malformed => Malformed
      case Complete(o, n) =>
        match ParseMany(s[n..], count - 1)
        case Incomplete => Incomplete
        case Malformed => Malformed
        case Complete(items, size) => Complete([o] + items, n + size)
  }

  // Law 1: once the parser has decided, later bytes do not change its mind.

  lemma ParseHeadExtends(s: seq<byte>, t: seq<byte>)
    requires !ParseHead(s).More?
    ensures ParseHead(s + t) == ParseHead(s) && HeadSize(s + t) == HeadSize(s)
  {
    var b := s[0];
    assert (s + t)[0] == b;
    if 0xc0 <= b < 0xe0 && Width(b) >= 0 {
      assert (s + t)[1..1 + Width(b)] == s[1..1 + Width(b)];
    }
  }

  lemma {:induction false} ParseExtends(s: seq<byte>, t: seq<byte>)
    requires !Parse(s).Incomplete?
    ensures Parse(s + t) == Parse(s)
    decreases |s|, 0
  {
    ParseHeadExtends(s, t);
    var h := HeadSize(s);
    assert (s + t)[h..] == s[h..] + t;
    match ParseHead(s)
    case Bad =>
    case Atom(_) =>
    case RawOf(len) => assert (s + t)[h..h + len] == s[h..h + len];
    case ArrayOf(count) => ParseManyExtends(s[h..], count, t);
    case MapOf(pairs) => ParseManyExtends(s[h..], 2 * pairs, t);
  }

  lemma {:induction false} ParseManyExtends(s: seq<byte>, count: nat, t: seq<byte>)
    requires !ParseMany(s, count).Incomplete?
    ensures ParseMany(s + t, count) == ParseMany(s, count)
    decreases |s|, 1
  {
    if count > 0 {
      ParseExtends(s, t);
      if Parse(s).Complete? {
        var n := Parse(s).size;
        assert (s + t)[n..] == s[n..] + t;
        ParseManyExtends(s[n..], count - 1, t);
      }
    }
  }

  // Law 2: packing then parsing, with anything behind it, gives the object and its exact size.

  lemma HeadRoundTrip(b: byte, v: nat, width: nat, rest: seq<byte>)
    requires 0xc0 <= b < 0xe0 && Width(b) == width && v < Pow256(width)
    ensures var s := [b] + BigEndian(v, width) + rest;
            ParseHead(s) == Interpret(b, BigEndian(v, width)) && HeadSize(s) == 1 + width
            && FromBigEndian(BigEndian(v, width)) == v && s[1 + width..] == rest
  {
    var s := [b] + BigEndian(v, width) + rest;
    assert s[1..1 + width] == BigEndian(v, width);
    BigEndianRoundTrip(v, width);
  }

  lemma UIntRoundTrip(n: nat, rest: seq<byte>)
    requires n < TWO_64
    ensures Parse(PackUInt(n) + rest) == Complete(UInt(n), |PackUInt(n)|)
  {
    Pow256Widths();
    if 0x80 <= n {
      var b, w := if n < 0x100 then 0xcc else if n < 0x1_0000 then 0xcd else if n < TWO_32 then 0xce else 0xcf,
                  if n < 0x100 then 1 else if n < 0x1_0000 then 2 else if n < TWO_32 then 4 else 8;
      HeadRoundTrip(b, n, w, rest);
    }
  }

  lemma NegativeFixRoundTrip(i: int, rest: seq<byte>)
    requires -0x20 <= i < 0
    ensures Parse([i + 0x100] + rest) == Complete(NInt(i), 1)
  {
  }

  /** Below the short form: a type byte and as many two's complement octets as needed. */
  lemma NIntForm(i: int) returns (b: byte, width: nat)
    requires -0x8000_0000_0000_0000 <= i < -0x20
    ensures 0xd0 <= b <= 0xd3 && Width(b) == width && 0 <= Pow256(width) + 2 * i
    ensures PackNInt(i) == [b] + BigEndian(i + Pow256(width), width) && |PackNInt(i)| == 1 + width
  {
    Pow256Widths();
    b, width := if i >= -0x80 then 0xd0 else if i >= -0x8000 then 0xd1 else if i >= -0x8000_0000 then 0xd2 else 0xd3,
                if i >= -0x80 then 1 else if i >= -0x8000 then 2 else if i >= -0x8000_0000 then 4 else 8;
  }

  lemma NIntRoundTrip(i: int, rest: seq<byte>)
    requires -0x8000_0000_0000_0000 <= i < 0
    ensures Parse(PackNInt(i) + rest) == Complete(NInt(i), |PackNInt(i)|)
  {
    if i >= -0x20 {
      NegativeFixRoundTrip(i, rest);
    } else {
      var b, width := NIntForm(i);
      SignedRoundTrip(b, i, width, rest);
    }
  }

  lemma SignedRoundTrip(b: byte, i: int, width: nat, rest: seq<byte>)
    requires 0xd0 <= b <= 0xd3 && Width(b) == width
    requires 0 <= Pow256(width) + 2 * i && i < 0
    ensures Parse([b] + BigEndian(i + Pow256(width), width) + rest) == Complete(NInt(i), 1 + width)
  {
    HeadRoundTrip(b, i + Pow256(width), width, rest);
  }

  lemma RawHeadRoundTrip(n: nat, rest: seq<byte>)
    requires n < TWO_32
    ensures var s := PackRawHead(n) + rest;
            ParseHead(s) == RawOf(n) && HeadSize(s) == |PackRawHead(n)| && s[HeadSize(s)..] == rest
  {
    Pow256Widths();
    if 0x20 <= n { HeadRoundTrip(if n < 0x1_0000 then 0xda else 0xdb, n, if n < 0x1_0000 then 2 else 4, rest); }
  }

  lemma RawRoundTrip(bytes: seq<byte>, rest: seq<byte>)
    requires |bytes| < TWO_32
    ensures Parse(PackRawHead(|bytes|) + bytes + rest) == Complete(Raw(bytes), |PackRawHead(|bytes|)| + |bytes|)
  {
    var h := PackRawHead(|bytes|);
    assert h + bytes + rest == h + (bytes + rest);
    RawHeadRoundTrip(|bytes|, bytes + rest);
    assert (h + bytes + rest)[|h|..|h| + |bytes|] == bytes;
  }

  lemma FloatRoundTrip(bits: seq<byte>, rest: seq<byte>)
    requires |bits| == 4 || |bits| == 8
    ensures Parse(Pack(Float(bits)) + rest) == Complete(Float(bits), 1 + |bits|)
  {
  }

  lemma ArrayHeadRoundTrip(n: nat, rest: seq<byte>)
    requires n < TWO_32
    ensures var s := PackArrayHead(n) + rest;
            ParseHead(s) == ArrayOf(n) && HeadSize(s) == |PackArrayHead(n)| && s[HeadSize(s)..] == rest
  {
    Pow256Widths();
    if 0x10 <= n { HeadRoundTrip(if n < 0x1_0000 then 0xdc else 0xdd, n, if n < 0x1_0000 then 2 else 4, rest); }
  }

  lemma MapHeadRoundTrip(n: nat, rest: seq<byte>)
    requires n < TWO_32
    ensures var s := PackMapHead(n) + rest;
            ParseHead(s) == MapOf(n) && HeadSize(s) == |PackMapHead(n)| && s[HeadSize(s)..] == rest
  {
    Pow256Widths();
    if 0x10 <= n { HeadRoundTrip(if n < 0x1_0000 then 0xde else 0xdf, n, if n < 0x1_0000 then 2 else 4, rest); }
  }

  lemma ArrayRoundTrip(items: seq<Object>, body: seq<byte>, rest: seq<byte>)
    requires |items| < TWO_32 && ParseMany(body + rest, |items|) == Complete(items, |body|)
    ensures Parse(PackArrayHead(|items|) + body + rest) == Complete(Array(items), |PackArrayHead(|items|)| + |body|)
  {
    assert PackArrayHead(|items|) + body + rest == PackArrayHead(|items|) + (body + rest);
    ArrayHeadRoundTrip(|items|, body + rest);
  }

  lemma MapRoundTrip(cells: seq<Object>, body: seq<byte>, rest: seq<byte>)
    requires |cells| % 2 == 0 && |cells| / 2 < TWO_32 && ParseMany(body + rest, |cells|) == Complete(cells, |body|)
    ensures Parse(PackMapHead(|cells| / 2) + body + rest) == Complete(Map(cells), |PackMapHead(|cells| / 2)| + |body|)
  {
    assert PackMapHead(|cells| / 2) + body + rest == PackMapHead(|cells| / 2) + (body + rest);
    MapHeadRoundTrip(|cells| / 2, body + rest);
  }

  /** `s` parses to `o`, whatever follows it. */
  ghost predicate Encodes(s: seq<byte>, o: Object)
  {
    forall rest: seq<byte> :: Parse(s + rest) == Complete(o, |s|)
  }

  ghost predicate EncodesAll(s: seq<byte>, items: seq<Object>)
  {
    forall rest: seq<byte> :: ParseMany(s + rest, |items|) == Complete(items, |s|)
  }

  lemma ParseManyCons(s: seq<byte>, o: Object, m: nat, items: seq<Object>, n: nat)
    requires 0 < m <= |s| && Parse(s) == Complete(o, m) && ParseMany(s[m..], |items|) == Complete(items, n)
    ensures ParseMany(s, 1 + |items|) == Complete([o] + items, m + n)
  {
  }

  lemma EncodesCons(front: seq<byte>, o: Object, back: seq<byte>, items: seq<Object>)
    requires front != [] && Encodes(front, o) && EncodesAll(back, items)
    ensures EncodesAll(front + back, [o] + items)
  {
    forall rest: seq<byte>
      ensures ParseMany(front + back + rest, 1 + |items|) == Complete([o] + items, |front + back|)
    {
      var s := front + back + rest;
      assert s == front + (back + rest);
      assert s[|front|..] == back + rest;
      ParseManyCons(s, o, |front|, items, |back|);
    }
  }

  lemma {:induction false} PackRoundTrip(o: Object)
    requires Packable(o)
    ensures Encodes(Pack(o), o)
    decreases o, 0
  {
    if o.Array? {
      PackAllRoundTrip(o.items);
    } else if o.Map? {
      PackAllRoundTrip(o.cells);
    }
    forall rest: seq<byte> ensures Parse(Pack(o) + rest) == Complete(o, |Pack(o)|) {
      match o
      case Nil =>
      case Bool(_) =>
      case UInt(n) => UIntRoundTrip(n, rest);
      case NInt(i) => NIntRoundTrip(i, rest);
      case Float(bits) => FloatRoundTrip(bits, rest);
      case Raw(bytes) => RawRoundTrip(bytes, rest);
      case Array(items) => ArrayRoundTrip(items, PackAll(items), rest);
      case Map(cells) => MapRoundTrip(cells, PackAll(cells), rest);
    }
  }

  lemma {:induction false} PackAllRoundTrip(items: seq<Object>)
    requires AllPackable(items)
    ensures EncodesAll(PackAll(items), items)
    decreases items, 1
  {
    if items != [] {
      PackRoundTrip(items[0]);
      PackAllRoundTrip(items[1..]);
      EncodesCons(Pack(items[0]), items[0], PackAll(items[1..]), items[1..]);
      assert [items[0]] + items[1..] == items;
    }
  }

  /** Law 3: every proper prefix of a packed object, the empty one included, asks for more bytes. */
  lemma ProperPrefixIncomplete(o: Object, k: nat)
    requires Packable(o) && k < |Pack(o)|
    ensures Parse(Pack(o)[..k]).Incomplete?
  {
    var s := Pack(o);
    assert s[..k] + s[k..] == s;
    assert s + [] == s;
    PackRoundTrip(o);
    assert Parse(s + []) == Complete(o, |s|);
    if !Parse(s[..k]).Incomplete? {
      ParseExtends(s[..k], s[k..]);
    }
  }
}
