/**
 The MessagePack format as a relation between objects and octets, every admissible width of every
 field included, and the exact language of the parser in terms of it.
 */
module Format {
  import opened Bytes
  import opened MsgPack

  /** An octet and behind it a field of some width. */
  predicate Field(s: seq<byte>, b: byte, v: int, width: nat)
  {
    0 <= v < Pow256(width) && s == [b] + BigEndian(v, width)
  }

  predicate UIntForm(s: seq<byte>, n: nat)
  {
    || (n < 0x80 && s == [n])
    || Field(s, 0xcc, n, 1) || Field(s, 0xcd, n, 2) || Field(s, 0xce, n, 4) || Field(s, 0xcf, n, 8)
    || (n < 0x80 && Field(s, 0xd0, n, 1)) || (n < 0x8000 && Field(s, 0xd1, n, 2))
    || (n < 0x8000_0000 && Field(s, 0xd2, n, 4)) || (n < 0x8000_0000_0000_0000 && Field(s, 0xd3, n, 8))
  }

  /** Negative integers in two's complement. */
  predicate NIntForm(s: seq<byte>, i: int)
  {
    && i < 0
    && ((-0x20 <= i && s == [i + 0x100])
        || (-0x80 <= i && Field(s, 0xd0, i + 0x100, 1)) || (-0x8000 <= i && Field(s, 0xd1, i + 0x1_0000, 2))
        || (-0x8000_0000 <= i && Field(s, 0xd2, i + 0x1_0000_0000, 4))
        || (-0x8000_0000_0000_0000 <= i && Field(s, 0xd3, i + 0x1_0000_0000_0000_0000, 8)))
  }

  predicate RawForm(s: seq<byte>, n: nat)
  {
    (n < 0x20 && s == [0xa0 + n]) || Field(s, 0xda, n, 2) || Field(s, 0xdb, n, 4)
  }

  predicate ArrayForm(s: seq<byte>, n: nat)
  {
    (n < 0x10 && s == [0x90 + n]) || Field(s, 0xdc, n, 2) || Field(s, 0xdd, n, 4)
  }

  predicate MapForm(s: seq<byte>, n: nat)
  {
    (n < 0x10 && s == [0x80 + n]) || Field(s, 0xde, n, 2) || Field(s, 0xdf, n, 4)
  }

  /** `s` is a form of `o`. */
  ghost predicate Encoding(o: Object, s: seq<byte>)
    decreases o, 0
  {
    match o
    case Nil => s == [0xc0]
    case Bool(flag) => s == [if flag then 0xc3 else 0xc2]
    case UInt(n) => UIntForm(s, n)
    case NInt(i) => NIntForm(s, i)
    case Float(bits) => (|bits| == 4 && s == [0xca] + bits) || (|bits| == 8 && s == [0xcb] + bits)
    case Raw(bytes) => exists head :: RawForm(head, |bytes|) && s == head + bytes
    case Array(items) =>
      exists head, body :: ArrayForm(head, |items|) && Encodings(items, body) && s == head + body
    case Map(cells) =>
      && |cells| % 2 == 0
      && exists head, body :: MapForm(head, |cells| / 2) && Encodings(cells, body) && s == head + body
  }

  /** `s` is a form of each of the items in turn. */
  ghost predicate Encodings(items: seq<Object>, s: seq<byte>)
    decreases items, 1
  {
    if items == [] then s == []
    else exists first, others :: Encoding(items[0], first) && Encodings(items[1..], others) && s == first + others
  }

  // ---------------------------------------------------------------------------
  // What is parsed is a form.

  lemma FieldOf(s: seq<byte>, width: nat)
    requires |s| >= 1 + width
    ensures Field(s[..1 + width], s[0], FromBigEndian(s[1..1 + width]), width)
  {
    var f := s[1..1 + width];
    FromBigEndianBound(f);
    BigEndianOfField(f);
    assert s[..1 + width] == [s[0]] + f;
  }

  lemma UnsignedIsForm(s: seq<byte>, b: byte, v: nat, width: nat)
    requires 0xcc <= b <= 0xcf && Width(b) == width && Field(s, b, v, width)
    ensures Encoding(UInt(v), s)
  {
  }

  lemma SignedIsForm(s: seq<byte>, b: byte, v: nat, width: nat)
    requires 0xd0 <= b <= 0xd3 && Width(b) == width && Field(s, b, v, width)
    ensures Encoding(Signed(v, width), s)
  {
    if 2 * v < Pow256(width) { PositiveIsForm(s, b, v, width); } else { NegativeIsForm(s, b, v, width); }
  }

  lemma PositiveIsForm(s: seq<byte>, b: byte, v: nat, width: nat)
    requires 0xd0 <= b <= 0xd3 && Width(b) == width && Field(s, b, v, width) && 2 * v < Pow256(width)
    ensures UIntForm(s, v)
  {
    Pow256Widths();
  }

  lemma NegativeIsForm(s: seq<byte>, b: byte, v: nat, width: nat)
    requires 0xd0 <= b <= 0xd3 && Width(b) == width && Field(s, b, v, width) && 2 * v >= Pow256(width)
    ensures NIntForm(s, v - Pow256(width))
  {
    Pow256Widths();
  }

  lemma FloatIsForm(s: seq<byte>)
    requires s != [] && |s| >= 1 + Width(s[0]) && (s[0] == 0xca || s[0] == 0xcb)
    ensures var n := 1 + Width(s[0]); Encoding(Float(s[1..n]), s[..n])
  {
    var n := 1 + Width(s[0]);
    assert s[..n] == [s[0]] + s[1..n];
  }

  lemma AtomIsForm(s: seq<byte>)
    requires ParseHead(s).Atom?
    ensures Encoding(ParseHead(s).o, s[..HeadSize(s)])
  {
    var b, h := s[0], HeadSize(s);
    assert s[..1] == [b];
    if b == 0xca || b == 0xcb {
      FloatIsForm(s);
    } else if 0xcc <= b <= 0xcf {
      FieldOf(s, Width(b));
      UnsignedIsForm(s[..h], b, FromBigEndian(s[1..h]), Width(b));
    } else if 0xd0 <= b <= 0xd3 {
      FieldOf(s, Width(b));
      SignedIsForm(s[..h], b, FromBigEndian(s[1..h]), Width(b));
    }
  }

  /** `s` is a form of the head of a collection. */
  predicate CountForm(h: Head, s: seq<byte>)
  {
    match h
    case RawOf(len) => RawForm(s, len)
    case ArrayOf(count) => ArrayForm(s, count)
    case MapOf(pairs) => MapForm(s, pairs)
    case _ => true
  }

  lemma WideCountIsForm(s: seq<byte>, b: byte, v: nat, width: nat)
    requires 0xda <= b <= 0xdf && Width(b) == width && Field(s, b, v, width)
    ensures b <= 0xdb ==> RawForm(s, v)
    ensures 0xdc <= b <= 0xdd ==> ArrayForm(s, v)
    ensures 0xde <= b ==> MapForm(s, v)
  {
  }

  lemma CountIsForm(s: seq<byte>)
    ensures !ParseHead(s).More? ==> CountForm(ParseHead(s), s[..HeadSize(s)])
  {
    if !ParseHead(s).More? {
      var b, h := s[0], HeadSize(s);
      assert s[..1] == [b];
      if 0xda <= b <= 0xdf {
        FieldOf(s, Width(b));
        WideCountIsForm(s[..h], b, FromBigEndian(s[1..h]), Width(b));
      }
    }
  }

  lemma RawIsForm(s: seq<byte>)
    requires ParseHead(s).RawOf? && Parse(s).Complete?
    ensures Encoding(Parse(s).value, s[..Parse(s).size])
  {
    CountIsForm(s);
    Split(s, HeadSize(s), ParseHead(s).len);
  }

  lemma ArrayIsForm(items: seq<Object>, head: seq<byte>, body: seq<byte>)
    requires ArrayForm(head, |items|) && Encodings(items, body)
    ensures Encoding(Array(items), head + body)
  {
  }

  lemma MapIsForm(cells: seq<Object>, head: seq<byte>, body: seq<byte>)
    requires |cells| % 2 == 0 && MapForm(head, |cells| / 2) && Encodings(cells, body)
    ensures Encoding(Map(cells), head + body)
  {
  }

  lemma {:induction false} ParsedIsForm(s: seq<byte>)
    requires Parse(s).Complete?
    ensures Encoding(Parse(s).value, s[..Parse(s).size])
    decreases |s|, 0
  {
    var h := HeadSize(s);
    match ParseHead(s)
    case Atom(_) => AtomIsForm(s);
    case RawOf(_) => RawIsForm(s);
    case ArrayOf(count) =>
      var body := ParseMany(s[h..], count);
      ItemsParse(s, h, body.value, body.size);
      ParsedManyAreForms(s[h..], count, body.value, body.size);
      CountIsForm(s);
      Split(s, h, body.size);
      ArrayIsForm(body.value, s[..h], s[h..][..body.size]);
    case MapOf(pairs) =>
      var body := ParseMany(s[h..], 2 * pairs);
      CellsParse(s, h, body.value, body.size);
      ParsedManyAreForms(s[h..], 2 * pairs, body.value, body.size);
      CountIsForm(s);
      Split(s, h, body.size);
      MapIsForm(body.value, s[..h], s[h..][..body.size]);
  }

  lemma Split(s: seq<byte>, h: nat, n: nat)
    requires h + n <= |s|
    ensures s[..h + n] == s[..h] + s[h..][..n]
  {
  }

  lemma ParsedManyStep(s: seq<byte>, count: nat)
    requires count > 0 && ParseMany(s, count).Complete?
    ensures Parse(s).Complete? && ParseMany(s[Parse(s).size..], count - 1).Complete?
    ensures var rest := ParseMany(s[Parse(s).size..], count - 1);
            ParseMany(s, count) == Complete([Parse(s).value] + rest.value, Parse(s).size + rest.size)
  {
  }

  lemma {:induction false} ParsedManyAreForms(s: seq<byte>, count: nat, items: seq<Object>, n: nat)
    requires ParseMany(s, count) == Complete(items, n)
    ensures n <= |s| && Encodings(items, s[..n])
    decreases |s|, 1
  {
    if count > 0 {
      ParsedManyStep(s, count);
      ParsedIsForm(s);
      var first := Parse(s);
      var rest := ParseMany(s[first.size..], count - 1);
      ParsedManyAreForms(s[first.size..], count - 1, rest.value, rest.size);
      Split(s, first.size, rest.size);
      ConsIsForm(first.value, rest.value, s[..first.size], s[first.size..][..rest.size]);
    }
  }

  lemma ConsIsForm(o: Object, items: seq<Object>, first: seq<byte>, others: seq<byte>)
    requires Encoding(o, first) && Encodings(items, others)
    ensures Encodings([o] + items, first + others)
  {
    assert ([o] + items)[1..] == items;
  }

  // ---------------------------------------------------------------------------
  // A form is parsed, whatever follows it.

  lemma FieldParses(s: seq<byte>, b: byte, v: nat, width: nat, rest: seq<byte>)
    requires 0xc0 <= b < 0xe0 && Width(b) == width && Field(s, b, v, width)
    ensures ParseHead(s + rest) == Interpret(b, BigEndian(v, width)) && HeadSize(s + rest) == 1 + width == |s|
    ensures FromBigEndian(BigEndian(v, width)) == v
  {
    HeadRoundTrip(b, v, width, rest);
  }

  lemma UnsignedParses(s: seq<byte>, b: byte, n: nat, width: nat, rest: seq<byte>)
    requires 0xcc <= b <= 0xcf && Width(b) == width && Field(s, b, n, width)
    ensures Parse(s + rest) == Complete(UInt(n), |s|)
  {
    FieldParses(s, b, n, width, rest);
  }

  lemma SignedParses(s: seq<byte>, b: byte, v: nat, width: nat, rest: seq<byte>)
    requires 0xd0 <= b <= 0xd3 && Width(b) == width && Field(s, b, v, width)
    ensures Parse(s + rest) == Complete(Signed(v, width), |s|)
  {
    FieldParses(s, b, v, width, rest);
  }

  lemma FixParses(s: seq<byte>, n: nat, rest: seq<byte>)
    requires n < 0x80 && s == [n]
    ensures Parse(s + rest) == Complete(UInt(n), |s|)
  {
  }

  /** A field form of an integer, unsigned or signed. */
  predicate IntegerField(o: Object, s: seq<byte>, b: byte, v: nat, width: nat)
  {
    && Width(b) == width && Field(s, b, v, width)
    && ((0xcc <= b <= 0xcf && o == UInt(v)) || (0xd0 <= b <= 0xd3 && o == Signed(v, width)))
  }

  lemma IntegerFieldParses(o: Object, s: seq<byte>, b: byte, v: nat, width: nat, rest: seq<byte>)
    requires IntegerField(o, s, b, v, width)
    ensures Parse(s + rest) == Complete(o, |s|)
  {
    if b <= 0xcf { UnsignedParses(s, b, v, width, rest); } else { SignedParses(s, b, v, width, rest); }
  }

  lemma UIntShape(s: seq<byte>, n: nat)
    requires UIntForm(s, n) && |s| > 1
    ensures IntegerField(UInt(n), s, s[0], n, |s| - 1)
  {
    Pow256Widths();
  }

  lemma NegativeField(s: seq<byte>, b: byte, i: int, width: nat)
    requires 0xd0 <= b <= 0xd3 && Width(b) == width && i < 0 && 0 <= Pow256(width) + 2 * i
    requires Field(s, b, i + Pow256(width), width)
    ensures |s| == 1 + width && s[0] == b && IntegerField(NInt(i), s, b, i + Pow256(width), width)
  {
  }

  lemma NIntShape(s: seq<byte>, i: int) returns (b: byte, width: nat)
    requires NIntForm(s, i) && |s| > 1
    ensures i + Pow256(width) >= 0 && IntegerField(NInt(i), s, b, i + Pow256(width), width)
  {
    Pow256Widths();
    if -0x80 <= i && Field(s, 0xd0, i + 0x100, 1) {
      b, width := 0xd0, 1;
    } else if -0x8000 <= i && Field(s, 0xd1, i + 0x1_0000, 2) {
      b, width := 0xd1, 2;
    } else if -0x8000_0000 <= i && Field(s, 0xd2, i + 0x1_0000_0000, 4) {
      b, width := 0xd2, 4;
    } else {
      b, width := 0xd3, 8;
    }
    NegativeField(s, b, i, width);
  }

  lemma NIntFixShape(s: seq<byte>, i: int)
    requires NIntForm(s, i) && |s| == 1
    ensures -0x20 <= i < 0 && s == [i + 0x100]
  {
  }

  lemma UIntFormParses(s: seq<byte>, n: nat, rest: seq<byte>)
    requires UIntForm(s, n)
    ensures Parse(s + rest) == Complete(UInt(n), |s|)
  {
    if |s| == 1 {
      FixParses(s, n, rest);
    } else {
      UIntShape(s, n);
      IntegerFieldParses(UInt(n), s, s[0], n, |s| - 1, rest);
    }
  }

  lemma NIntFormParses(s: seq<byte>, i: int, rest: seq<byte>)
    requires NIntForm(s, i)
    ensures Parse(s + rest) == Complete(NInt(i), |s|)
  {
    if |s| == 1 {
      NIntFixShape(s, i);
      NegativeFixRoundTrip(i, rest);
    } else {
      var b, width := NIntShape(s, i);
      IntegerFieldParses(NInt(i), s, b, i + Pow256(width), width, rest);
    }
  }

  lemma RawHeadParses(s: seq<byte>, n: nat, rest: seq<byte>)
    requires RawForm(s, n)
    ensures ParseHead(s + rest) == RawOf(n) && HeadSize(s + rest) == |s|
  {
    if |s| > 1 { FieldParses(s, s[0], n, |s| - 1, rest); }
  }

  lemma ArrayHeadParses(s: seq<byte>, n: nat, rest: seq<byte>)
    requires ArrayForm(s, n)
    ensures ParseHead(s + rest) == ArrayOf(n) && HeadSize(s + rest) == |s|
  {
    if |s| > 1 { FieldParses(s, s[0], n, |s| - 1, rest); }
  }

  lemma MapHeadParses(s: seq<byte>, n: nat, rest: seq<byte>)
    requires MapForm(s, n)
    ensures ParseHead(s + rest) == MapOf(n) && HeadSize(s + rest) == |s|
  {
    if |s| > 1 { FieldParses(s, s[0], n, |s| - 1, rest); }
  }

  lemma Behind(head: seq<byte>, body: seq<byte>, rest: seq<byte>)
    ensures head + body + rest == head + (body + rest)
    ensures (head + body + rest)[|head|..] == body + rest && (head + body + rest)[|head|..|head| + |body|] == body
  {
  }

  lemma RawParses(bytes: seq<byte>, head: seq<byte>, rest: seq<byte>)
    requires RawForm(head, |bytes|)
    ensures Parse(head + bytes + rest) == Complete(Raw(bytes), |head| + |bytes|)
  {
    Behind(head, bytes, rest);
    RawHeadParses(head, |bytes|, bytes + rest);
  }

  lemma ItemsParse(s: seq<byte>, h: nat, items: seq<Object>, n: nat)
    requires ParseHead(s) == ArrayOf(|items|) && HeadSize(s) == h
    requires ParseMany(s[h..], |items|) == Complete(items, n)
    ensures Parse(s) == Complete(Array(items), h + n)
  {
  }

  lemma CellsParse(s: seq<byte>, h: nat, cells: seq<Object>, n: nat)
    requires |cells| % 2 == 0 && ParseHead(s) == MapOf(|cells| / 2) && HeadSize(s) == h
    requires ParseMany(s[h..], |cells|) == Complete(cells, n)
    ensures Parse(s) == Complete(Map(cells), h + n)
  {
  }

  lemma ArrayParses(items: seq<Object>, head: seq<byte>, body: seq<byte>, rest: seq<byte>)
    requires ArrayForm(head, |items|) && ParseMany(body + rest, |items|) == Complete(items, |body|)
    ensures Parse(head + body + rest) == Complete(Array(items), |head| + |body|)
  {
    Behind(head, body, rest);
    ArrayHeadParses(head, |items|, body + rest);
    ItemsParse(head + body + rest, |head|, items, |body|);
  }

  lemma MapParses(cells: seq<Object>, head: seq<byte>, body: seq<byte>, rest: seq<byte>)
    requires |cells| % 2 == 0 && MapForm(head, |cells| / 2)
    requires ParseMany(body + rest, |cells|) == Complete(cells, |body|)
    ensures Parse(head + body + rest) == Complete(Map(cells), |head| + |body|)
  {
    Behind(head, body, rest);
    MapHeadParses(head, |cells| / 2, body + rest);
    CellsParse(head + body + rest, |head|, cells, |body|);
  }

  lemma {:induction false} FormParses(o: Object, s: seq<byte>, rest: seq<byte>)
    requires Encoding(o, s)
    ensures Parse(s + rest) == Complete(o, |s|)
    decreases o, 0
  {
    match o
    case Nil => ConstantParses(o, s, rest);
    case Bool(_) => ConstantParses(o, s, rest);
    case UInt(n) => UIntFormParses(s, n, rest);
    case NInt(i) => NIntFormParses(s, i, rest);
    case Float(bits) => FloatRoundTrip(bits, rest);
    case Raw(bytes) =>
      var head :| RawForm(head, |bytes|) && s == head + bytes;
      RawParses(bytes, head, rest);
    case Array(items) =>
      var head, body :| ArrayForm(head, |items|) && Encodings(items, body) && s == head + body;
      FormsParse(items, body, rest);
      ArrayParses(items, head, body, rest);
    case Map(cells) =>
      var head, body :| MapForm(head, |cells| / 2) && Encodings(cells, body) && s == head + body;
      FormsParse(cells, body, rest);
      MapParses(cells, head, body, rest);
  }

  lemma ConstantParses(o: Object, s: seq<byte>, rest: seq<byte>)
    requires (o.Nil? || o.Bool?) && Encoding(o, s)
    ensures Parse(s + rest) == Complete(o, |s|)
  {
  }

  lemma {:induction false} FormsParse(items: seq<Object>, s: seq<byte>, rest: seq<byte>)
    requires Encodings(items, s)
    ensures ParseMany(s + rest, |items|) == Complete(items, |s|)
    decreases items, 1
  {
    if items != [] {
      var first, others :| Encoding(items[0], first) && Encodings(items[1..], others) && s == first + others;
      Behind(first, others, rest);
      FormParses(items[0], first, others + rest);
      FormsParse(items[1..], others, rest);
      ParseManyCons(s + rest, items[0], |first|, items[1..], |others|);
      assert [items[0]] + items[1..] == items;
    }
  }

  /** The parser accepts exactly the forms of the format. */
  lemma AcceptsExactly(s: seq<byte>, o: Object, n: nat)
    ensures Parse(s) == Complete(o, n) <==> n <= |s| && Encoding(o, s[..n])
  {
    if Parse(s) == Complete(o, n) { ParsedIsForm(s); }
    if n <= |s| && Encoding(o, s[..n]) {
      FormParses(o, s[..n], s[n..]);
      assert s[..n] + s[n..] == s;
    }
  }

  // ---------------------------------------------------------------------------
  // What asks for more can be completed.

  function Nils(n: nat): (s: seq<byte>)
    ensures |s| == n
    ensures forall i | 0 <= i < n :: s[i] == 0xc0
  {
    seq(n, _ => 0xc0)
  }

  lemma {:induction false} NilsParse(n: nat)
    ensures ParseMany(Nils(n), n).Complete? && ParseMany(Nils(n), n).size == n
  {
    if n > 0 {
      NilsParse(n - 1);
      assert Nils(n)[1..] == Nils(n - 1);
    }
  }

  /** `s` parses as a whole. */
  predicate Whole(s: seq<byte>)
  {
    Parse(s).Complete? && Parse(s).size == |s|
  }

  predicate WholeMany(s: seq<byte>, count: nat)
  {
    ParseMany(s, count).Complete? && ParseMany(s, count).size == |s|
  }

  /** A cut field can be filled up to a head. */
  lemma HeadCompletes(s: seq<byte>) returns (t: seq<byte>)
    requires ParseHead(s).More? && s != []
    ensures var h := ParseHead(s + t); !h.More? && !h.Bad? && HeadSize(s + t) == |s + t|
  {
    t := seq(1 + Width(s[0]) - |s|, _ => 0);
    assert (s + t)[0] == s[0];
  }

  lemma HeadOnlyCompletes(s: seq<byte>) returns (t: seq<byte>)
    requires s != [] && !ParseHead(s).More? && !ParseHead(s).Bad? && HeadSize(s) == |s|
    ensures Whole(s + t)
  {
    var h := HeadSize(s);
    match ParseHead(s)
    case Atom(_) =>
      t := [];
      assert s + t == s;
    case RawOf(len) =>
      t := seq(len, _ => 0);
      ParseHeadExtends(s, t);
    case ArrayOf(count) =>
      t := Nils(count);
      ParseHeadExtends(s, t);
      NilsParse(count);
      assert (s + t)[h..] == t;
    case MapOf(pairs) =>
      t := Nils(2 * pairs);
      ParseHeadExtends(s, t);
      NilsParse(2 * pairs);
      assert (s + t)[h..] == t;
  }

  lemma {:induction false} Completes(s: seq<byte>) returns (t: seq<byte>)
    requires Parse(s).Incomplete?
    ensures Whole(s + t)
    decreases |s|, 0
  {
    if s == [] {
      t := [0xc0];
    } else if ParseHead(s).More? {
      var u := HeadCompletes(s);
      var v := HeadOnlyCompletes(s + u);
      t := u + v;
      assert s + t == s + u + v;
    } else {
      var h := HeadSize(s);
      match ParseHead(s)
      case RawOf(len) =>
        t := RawCompletes(s, len);
      case ArrayOf(count) =>
        t := CompletesMany(s[h..], count);
        BodyCompletes(s, t, count);
      case MapOf(pairs) =>
        t := CompletesMany(s[h..], 2 * pairs);
        BodyCompletes(s, t, 2 * pairs);
    }
  }

  lemma BodyCompletes(s: seq<byte>, t: seq<byte>, count: nat)
    requires ParseHead(s) == ArrayOf(count) || (ParseHead(s).MapOf? && count == 2 * ParseHead(s).pairs)
    requires WholeMany(s[HeadSize(s)..] + t, count)
    ensures Whole(s + t)
  {
    ParseHeadExtends(s, t);
    assert (s + t)[HeadSize(s)..] == s[HeadSize(s)..] + t;
  }

  lemma RawCompletes(s: seq<byte>, len: nat) returns (t: seq<byte>)
    requires ParseHead(s) == RawOf(len) && |s| < HeadSize(s) + len
    ensures Whole(s + t)
  {
    t := seq(HeadSize(s) + len - |s|, _ => 0);
    ParseHeadExtends(s, t);
  }

  lemma {:induction false} CompletesMany(s: seq<byte>, count: nat) returns (t: seq<byte>)
    requires ParseMany(s, count).Incomplete?
    ensures WholeMany(s + t, count)
    decreases |s|, 1
  {
    match Parse(s)
    case Incomplete =>
      var u := Completes(s);
      t := u + Nils(count - 1);
      ParseExtends(s + u, Nils(count - 1));
      assert s + t == s + u + Nils(count - 1);
      assert (s + t)[|s + u|..] == Nils(count - 1);
      NilsParse(count - 1);
    case Complete(o, n) =>
      t := CompletesMany(s[n..], count - 1);
      ParseExtends(s, t);
      assert (s + t)[n..] == s[n..] + t;
  }

  /** `s` is the beginning of a form, and not all of it. */
  ghost predicate Begins(s: seq<byte>)
  {
    exists o, e :: Encoding(o, e) && s < e
  }

  lemma BeginsIffIncomplete(s: seq<byte>)
    ensures Parse(s).Incomplete? <==> Begins(s)
  {
    if Parse(s).Incomplete? {
      var t := Completes(s);
      var e := s + t;
      ParsedIsForm(e);
      assert e[..|e|] == e;
      assert s + [] == s;
      assert Encoding(Parse(e).value, e) && s < e;
    }
    if Begins(s) {
      var o, e :| Encoding(o, e) && s < e;
      FormParses(o, e, []);
      assert e + [] == e && s + e[|s|..] == e;
      if !Parse(s).Incomplete? { ParseExtends(s, e[|s|..]); }
    }
  }

  ghost predicate StartsWith(s: seq<byte>, o: Object, n: nat)
  {
    n <= |s| && Encoding(o, s[..n])
  }

  /**
   The three answers of the parser, exactly: an object and its size for the octets that start with a
   form of it, a request for more bytes for those that begin a longer form, and an error for those
   that can no longer become one.
   */
  lemma ParserExact(s: seq<byte>, o: Object, n: nat)
    ensures Parse(s) == Complete(o, n) <==> StartsWith(s, o, n)
    ensures Parse(s).Incomplete? <==> Begins(s)
    ensures Parse(s).Malformed? <==> !Begins(s) && !exists p, k :: StartsWith(s, p, k)
  {
    AcceptsExactly(s, o, n);
    BeginsIffIncomplete(s);
    if Parse(s).Complete? {
      AcceptsExactly(s, Parse(s).value, Parse(s).size);
      assert StartsWith(s, Parse(s).value, Parse(s).size);
    }
    if exists p, k :: StartsWith(s, p, k) {
      var p, k :| StartsWith(s, p, k);
      AcceptsExactly(s, p, k);
    }
  }

  /** The octets that begin nothing: an object cannot start with them. */
  lemma Unassigned(b: byte, rest: seq<byte>)
    ensures ParseHead([b] + rest).Bad? <==> b == 0xc1 || 0xc4 <= b <= 0xc9 || 0xd4 <= b <= 0xd9
    ensures ParseHead([b] + rest).Bad? <==> Parse([b]).Malformed?
  {
    ParseHeadUnassigned(b, rest);
    ParseHeadUnassigned(b, []);
    assert [b] + [] == [b];
  }

  lemma ParseHeadUnassigned(b: byte, rest: seq<byte>)
    ensures ParseHead([b] + rest).Bad? <==> b == 0xc1 || 0xc4 <= b <= 0xc9 || 0xd4 <= b <= 0xd9
  {
  }

  lemma PackIsForm(o: Object)
    requires Packable(o)
    ensures Encoding(o, Pack(o))
  {
    PackRoundTrip(o);
    assert Pack(o) + [] == Pack(o);
    AcceptsExactly(Pack(o), o, |Pack(o)|);
    assert Pack(o)[..|Pack(o)|] == Pack(o);
  }

  lemma UIntShortest(n: nat, s: seq<byte>)
    requires UIntForm(s, n)
    ensures |PackUInt(n)| <= |s|
  {
    Pow256Widths();
  }

  lemma NIntShortest(i: int, s: seq<byte>)
    requires NIntForm(s, i)
    ensures |PackNInt(i)| <= |s|
  {
    Pow256Widths();
  }

  lemma HeadsShortest(n: nat, s: seq<byte>)
    ensures RawForm(s, n) ==> |PackRawHead(n)| <= |s|
    ensures ArrayForm(s, n) ==> |PackArrayHead(n)| <= |s|
    ensures MapForm(s, n) ==> |PackMapHead(n)| <= |s|
  {
    Pow256Widths();
  }

  /** The packer picks a form, and none is shorter. */
  lemma {:induction false} PackIsShortest(o: Object, s: seq<byte>)
    requires Encoding(o, s)
    ensures |Pack(o)| <= |s|
    decreases o, 0
  {
    match o
    case Nil =>
    case Bool(_) =>
    case UInt(n) => UIntShortest(n, s);
    case NInt(i) => NIntShortest(i, s);
    case Float(_) =>
    case Raw(bytes) =>
      var head :| RawForm(head, |bytes|) && s == head + bytes;
      HeadsShortest(|bytes|, head);
    case Array(items) =>
      var head, body :| ArrayForm(head, |items|) && Encodings(items, body) && s == head + body;
      HeadsShortest(|items|, head);
      PackAllIsShortest(items, body);
    case Map(cells) =>
      var head, body :| MapForm(head, |cells| / 2) && Encodings(cells, body) && s == head + body;
      HeadsShortest(|cells| / 2, head);
      PackAllIsShortest(cells, body);
  }

  lemma {:induction false} PackAllIsShortest(items: seq<Object>, s: seq<byte>)
    requires Encodings(items, s)
    ensures |PackAll(items)| <= |s|
    decreases items, 1
  {
    if items != [] {
      var first, others :| Encoding(items[0], first) && Encodings(items[1..], others) && s == first + others;
      PackIsShortest(items[0], first);
      PackAllIsShortest(items[1..], others);
    }
  }
}
