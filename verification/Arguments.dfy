/** Argument lists with optional parameters: packing, unpacking, and the check made on their declarations. */
module Arguments {
  import opened Common
  import opened MsgPack

  /** A declared parameter, by a number for its type; optional ones carry the value used when absent. */
  datatype Param<V> = Required(kind: nat) | Optional(kind: nat, default: V)

  /** How a value of some type is taken from an object; None is a type error. */
  type Convert<V> = (nat, Object) -> Option<V>

  datatype Unpacked<V> = Values(values: seq<V>) | TypeError | SizeError | PastEnd

  function OfSort<V>(required: bool): Param<V> -> bool
  {
    (p: Param<V>) => p.Required? == required
  }

  /** The parameters of one sort, in order. */
  function Only<V>(required: bool, params: seq<Param<V>>): seq<Param<V>>
  {
    Filter(OfSort(required), params)
  }

  /** The compile-time check: a stable partition by requiredness leaves the list as it is. */
  ghost predicate Sanitized<V>(params: seq<Param<V>>)
  {
    Only(true, params) + Only(false, params) == params
  }

  function Minimal<V>(params: seq<Param<V>>): nat
  {
    |Only(true, params)|
  }

  function UnpackFrom<V>(convert: Convert<V>, params: seq<Param<V>>, args: seq<Object>): Unpacked<V>
    decreases |params|
  {
    if params == [] then Values([])
    else if args == [] then
      match params[0]
      case Required(_) => PastEnd
      case Optional(_, default) => Prepend(default, UnpackFrom(convert, params[1..], args))
    else
      match convert(params[0].kind, args[0])
      case None => TypeError
      case Some(v) => Prepend(v, UnpackFrom(convert, params[1..], args[1..]))
  }

  function Prepend<V>(v: V, r: Unpacked<V>): Unpacked<V>
  {
    if r.Values? then Values([v] + r.values) else r
  }

  function Unpack<V>(convert: Convert<V>, params: seq<Param<V>>, source: Object): Unpacked<V>
  {
    if !source.Array? then TypeError
    else if |source.items| < Minimal(params) then SizeError
    else UnpackFrom(convert, params, source.items)
  }

  lemma {:induction false} OnlySizes<V>(params: seq<Param<V>>)
    ensures |Only(true, params)| + |Only(false, params)| == |params|
    ensures forall i | 0 <= i < |Only(true, params)| :: Only(true, params)[i].Required?
    ensures forall i | 0 <= i < |Only(false, params)| :: Only(false, params)[i].Optional?
  {
    if params != [] {
      FilterFirst(OfSort<V>(true), params);
      FilterFirst(OfSort<V>(false), params);
      OnlySizes(params[1..]);
    }
  }

  lemma {:induction false} OnlyAll<V>(params: seq<Param<V>>, required: bool)
    requires forall i | 0 <= i < |params| :: params[i].Required? == required
    ensures Only(required, params) == params && Only(!required, params) == []
  {
    if params != [] {
      FilterFirst(OfSort<V>(required), params);
      FilterFirst(OfSort<V>(!required), params);
      OnlyAll(params[1..], required);
    }
  }

  /** The check accepts exactly the lists whose required parameters come first. */
  lemma SanitizedMeansRequiredFirst<V>(params: seq<Param<V>>)
    ensures Sanitized(params) <==> forall k | 0 <= k < |params| :: params[k].Required? <==> k < Minimal(params)
  {
    OnlySizes(params);
    var m := Minimal(params);
    if forall k | 0 <= k < |params| :: params[k].Required? <==> k < m {
      OnlyAll(params[..m], true);
      OnlyAll(params[m..], false);
      FilterSplits(OfSort<V>(true), params[..m], params[m..]);
      FilterSplits(OfSort<V>(false), params[..m], params[m..]);
      assert params == params[..m] + params[m..];
    }
    if Sanitized(params) {
      var r, o := Only(true, params), Only(false, params);
      forall k | 0 <= k < |params| ensures params[k].Required? <==> k < m {
        assert params[k] == (r + o)[k];
      }
    }
  }

  /** Every argument that is read has the type of its parameter. */
  ghost predicate Typed<V>(convert: Convert<V>, params: seq<Param<V>>, args: seq<Object>)
  {
    forall i | 0 <= i < |args| && i < |params| :: convert(params[i].kind, args[i]).Some?
  }

  /** The values taken from the arguments there are, and the defaults of the others. */
  ghost predicate Yields<V>(convert: Convert<V>, params: seq<Param<V>>, args: seq<Object>, values: seq<V>)
  {
    && |values| == |params|
    && forall i | 0 <= i < |params| ::
         if i < |args| then convert(params[i].kind, args[i]) == Some(values[i])
         else params[i].Optional? && values[i] == params[i].default
  }

  ghost predicate Overruns<V>(params: seq<Param<V>>, args: seq<Object>)
  {
    exists k :: |args| <= k < |params| && params[k].Required?
  }

  lemma {:induction false} UnpackFromExact<V>(convert: Convert<V>, params: seq<Param<V>>, args: seq<Object>,
                                              values: seq<V>)
    ensures UnpackFrom(convert, params, args) == Values(values) <==> Yields(convert, params, args, values)
    ensures UnpackFrom(convert, params, args).TypeError? <==> !Typed(convert, params, args)
    ensures UnpackFrom(convert, params, args).PastEnd? <==> Typed(convert, params, args) && Overruns(params, args)
    ensures !UnpackFrom(convert, params, args).SizeError?
    decreases |params|
  {
    if params != [] {
      var rest := if args == [] then args else args[1..];
      UnpackFromExact(convert, params[1..], rest, if values == [] then [] else values[1..]);
      ExactStep(convert, params, args, rest, values);
    }
  }

  lemma ExactStep<V>(convert: Convert<V>, params: seq<Param<V>>, args: seq<Object>, rest: seq<Object>, values: seq<V>)
    requires params != [] && rest == if args == [] then args else args[1..]
    ensures Typed(convert, params, args) <==>
            (args == [] || convert(params[0].kind, args[0]).Some?) && Typed(convert, params[1..], rest)
    ensures Overruns(params, args) <==> (args == [] && params[0].Required?) || Overruns(params[1..], rest)
    ensures Yields(convert, params, args, values) <==>
            && values != [] && Yields(convert, params[1..], rest, values[1..])
            && if args == [] then params[0].Optional? && values[0] == params[0].default
               else convert(params[0].kind, args[0]) == Some(values[0])
  {
    TypedStep(convert, params, args, rest);
    OverrunsStep(params, args, rest);
    YieldsStep(convert, params, args, rest, values);
  }

  lemma TypedStep<V>(convert: Convert<V>, params: seq<Param<V>>, args: seq<Object>, rest: seq<Object>)
    requires params != [] && rest == if args == [] then args else args[1..]
    ensures Typed(convert, params, args) <==>
            (args == [] || convert(params[0].kind, args[0]).Some?) && Typed(convert, params[1..], rest)
  {
    if (args == [] || convert(params[0].kind, args[0]).Some?) && Typed(convert, params[1..], rest) {
      forall i | 0 <= i < |args| && i < |params| ensures convert(params[i].kind, args[i]).Some? {
        if i > 0 { assert params[i] == params[1..][i - 1] && args[i] == rest[i - 1]; }
      }
    }
    if Typed(convert, params, args) {
      forall i | 0 <= i < |rest| && i < |params[1..]| ensures convert(params[1..][i].kind, rest[i]).Some? {
        assert params[1..][i] == params[i + 1] && rest[i] == args[i + 1];
      }
    }
  }

  lemma OverrunsStep<V>(params: seq<Param<V>>, args: seq<Object>, rest: seq<Object>)
    requires params != [] && rest == if args == [] then args else args[1..]
    ensures Overruns(params, args) <==> (args == [] && params[0].Required?) || Overruns(params[1..], rest)
  {
    if Overruns(params, args) {
      var k :| |args| <= k < |params| && params[k].Required?;
      if k > 0 { assert |rest| <= k - 1 < |params[1..]| && params[1..][k - 1].Required?; }
    }
    if Overruns(params[1..], rest) {
      var k :| |rest| <= k < |params[1..]| && params[1..][k].Required?;
      assert |args| <= k + 1 < |params| && params[k + 1].Required?;
    }
  }

  lemma YieldsStep<V>(convert: Convert<V>, params: seq<Param<V>>, args: seq<Object>, rest: seq<Object>, values: seq<V>)
    requires params != [] && rest == if args == [] then args else args[1..]
    ensures Yields(convert, params, args, values) <==>
            && values != [] && Yields(convert, params[1..], rest, values[1..])
            && if args == [] then params[0].Optional? && values[0] == params[0].default
               else convert(params[0].kind, args[0]) == Some(values[0])
  {
    if values != [] && Yields(convert, params[1..], rest, values[1..]) {
      forall i | 0 < i < |params|
        ensures if i < |args| then convert(params[i].kind, args[i]) == Some(values[i])
                else params[i].Optional? && values[i] == params[i].default
      {
        assert params[i] == params[1..][i - 1] && values[i] == values[1..][i - 1];
        if i < |args| { assert args[i] == rest[i - 1]; }
      }
    }
    if Yields(convert, params, args, values) {
      forall i | 0 <= i < |params[1..]|
        ensures if i < |rest| then convert(params[1..][i].kind, rest[i]) == Some(values[1..][i])
                else params[1..][i].Optional? && values[1..][i] == params[1..][i].default
      {
        assert params[1..][i] == params[i + 1] && values[1..][i] == values[i + 1];
        if i < |rest| { assert rest[i] == args[i + 1]; }
      }
    }
  }

  /**
   Unpacking, exactly, for every declaration, conversion and source: which values come out, and which
   of the errors, a read past the end among them, is met.
   */
  lemma UnpackExact<V>(convert: Convert<V>, params: seq<Param<V>>, source: Object, values: seq<V>)
    ensures var r := Unpack(convert, params, source);
            var sized := source.Array? && |source.items| >= Minimal(params);
            && (r == Values(values) <==> sized && Yields(convert, params, source.items, values))
            && (r.SizeError? <==> source.Array? && |source.items| < Minimal(params))
            && (r.TypeError? <==> !source.Array? || (sized && !Typed(convert, params, source.items)))
            && (r.PastEnd? <==> sized && Typed(convert, params, source.items) && Overruns(params, source.items))
  {
    if source.Array? { UnpackFromExact(convert, params, source.items, values); }
  }

  /** A read past the end is made for a required parameter beyond the arguments. */
  lemma {:induction false} PastEndHasCause<V>(convert: Convert<V>, params: seq<Param<V>>, args: seq<Object>)
    requires UnpackFrom(convert, params, args).PastEnd?
    ensures exists k :: |args| <= k < |params| && params[k].Required?
    ensures |args| <= |params| && forall i | 0 <= i < |args| :: convert(params[i].kind, args[i]).Some?
    decreases |params|
  {
    if args == [] && params[0].Required? {
      assert |args| <= 0 < |params| && params[0].Required?;
    } else {
      var rest := if args == [] then args else args[1..];
      PastEndHasCause(convert, params[1..], rest);
      var k :| |rest| <= k < |params[1..]| && params[1..][k].Required?;
      assert |args| <= k + 1 < |params| && params[k + 1].Required?;
      forall i | 0 <= i < |args| ensures convert(params[i].kind, args[i]).Some? {
        if i > 0 { assert params[i] == params[1..][i - 1] && args[i] == rest[i - 1]; }
      }
    }
  }

  /** Such a parameter is read past the end if the arguments there are have the right types. */
  lemma {:induction false} PastEndReached<V>(convert: Convert<V>, params: seq<Param<V>>, args: seq<Object>, k: nat)
    requires |args| <= k < |params| && params[k].Required?
    requires forall i | 0 <= i < |args| :: convert(params[i].kind, args[i]).Some?
    ensures UnpackFrom(convert, params, args).PastEnd?
    decreases |params|
  {
    if k > 0 { PastEndReached(convert, params[1..], if args == [] then args else args[1..], k - 1); }
  }

  /** Some object converts to the type. */
  ghost predicate Inhabited<V>(convert: Convert<V>, kind: nat)
  {
    exists o :: convert(kind, o).Some?
  }

  lemma {:induction false} FittingArguments<V>(convert: Convert<V>, params: seq<Param<V>>, n: nat)
    returns (args: seq<Object>)
    requires n <= |params| && forall i | 0 <= i < n :: Inhabited(convert, params[i].kind)
    ensures |args| == n && forall i | 0 <= i < n :: convert(params[i].kind, args[i]).Some?
  {
    if n == 0 {
      args := [];
    } else {
      var front := FittingArguments(convert, params, n - 1);
      assert Inhabited(convert, params[n - 1].kind);
      var o :| convert(params[n - 1].kind, o).Some?;
      args := front + [o];
    }
  }

  ghost predicate Safe<V>(convert: Convert<V>, params: seq<Param<V>>)
  {
    forall items: seq<Object> :: !Unpack(convert, params, Array(items)).PastEnd?
  }

  /**
   For every conversion: no array that passes the size check is read past its end if and only if the
   parameter list is sanitized or no array gets as far, some type of the minimal size taking no object.
   */
  lemma SafeIff<V>(convert: Convert<V>, params: seq<Param<V>>)
    ensures Safe(convert, params) <==>
            Sanitized(params) || exists i :: 0 <= i < Minimal(params) && !Inhabited(convert, params[i].kind)
  {
    OnlySizes(params);
    var m := Minimal(params);
    if Sanitized(params) {
      forall items: seq<Object> ensures !Unpack(convert, params, Array(items)).PastEnd? {
        SafeWhenSanitized(convert, params, Array(items));
      }
    } else if forall i | 0 <= i < m :: Inhabited(convert, params[i].kind) {
      var k := MisplacedRequired(params);
      var items := FittingArguments(convert, params, m);
      PastEndReached(convert, params, items, k);
      assert Unpack(convert, params, Array(items)).PastEnd?;
    } else {
      forall items: seq<Object> ensures !Unpack(convert, params, Array(items)).PastEnd? {
        NotReached(convert, params, items);
      }
    }
  }

  lemma NotReached<V>(convert: Convert<V>, params: seq<Param<V>>, items: seq<Object>)
    requires Minimal(params) <= |params|
    requires exists i :: 0 <= i < Minimal(params) && !Inhabited(convert, params[i].kind)
    ensures !Unpack(convert, params, Array(items)).PastEnd?
  {
    if Unpack(convert, params, Array(items)).PastEnd? {
      PastEndHasCause(convert, params, items);
      var i :| 0 <= i < Minimal(params) && !Inhabited(convert, params[i].kind);
      assert convert(params[i].kind, items[i]).Some?;
      assert Inhabited(convert, params[i].kind);
    }
  }

  /**
   So with types that each take some object, the declaration check is exactly what makes unpacking
   safe.
   */
  lemma SanitizedIffSafe<V>(convert: Convert<V>, params: seq<Param<V>>)
    requires forall p | p in params :: Inhabited(convert, p.kind)
    ensures Sanitized(params) <==> Safe(convert, params)
  {
    OnlySizes(params);
    SafeIff(convert, params);
  }

  /** A sanitized list is safe for every conversion and every source, array or not. */
  lemma SafeWhenSanitized<V>(convert: Convert<V>, params: seq<Param<V>>, source: Object)
    requires Sanitized(params)
    ensures !Unpack(convert, params, source).PastEnd?
  {
    SanitizedMeansRequiredFirst(params);
    if Unpack(convert, params, source).PastEnd? { PastEndHasCause(convert, params, source.items); }
  }

  /** In a list that is not sanitized some required parameter stands at or beyond the minimal size. */
  lemma MisplacedRequired<V>(params: seq<Param<V>>) returns (k: nat)
    requires !Sanitized(params)
    ensures Minimal(params) <= k < |params| && params[k].Required?
  {
    SanitizedMeansRequiredFirst(params);
    OnlySizes(params);
    var m := Minimal(params);
    if forall j | m <= j < |params| :: params[j].Optional? {
      FilterSplits(OfSort<V>(true), params[..m], params[m..]);
      OnlyAll(params[m..], false);
      assert params == params[..m] + params[m..];
      OnlySizes(params[..m]);
      NoneOptional(params[..m]);
    }
    k :| m <= k < |params| && params[k].Required?;
  }

  lemma {:induction false} NoneOptional<V>(params: seq<Param<V>>)
    requires |Only(true, params)| == |params|
    ensures forall j | 0 <= j < |params| :: params[j].Required?
  {
    if params != [] {
      FilterFirst(OfSort<V>(true), params);
      OnlySizes(params[1..]);
      NoneOptional(params[1..]);
    }
  }

  // ---------------------------------------------------------------------------
  // Round trip.

  function Defaults<V>(params: seq<Param<V>>): (r: seq<V>)
    requires forall i | 0 <= i < |params| :: params[i].Optional?
    ensures |r| == |params|
  {
    seq(|params|, i requires 0 <= i < |params| => params[i].default)
  }

  /** The arguments are what packing the values made of them. */
  ghost predicate Packs<V>(convert: Convert<V>, params: seq<Param<V>>, values: seq<V>, args: seq<Object>)
  {
    && |args| == |values| <= |params|
    && forall i | 0 <= i < |args| :: convert(params[i].kind, args[i]) == Some(values[i])
  }

  lemma {:induction false} AbsentAreDefaults<V>(convert: Convert<V>, params: seq<Param<V>>)
    requires forall i | 0 <= i < |params| :: params[i].Optional?
    ensures UnpackFrom(convert, params, []) == Values(Defaults(params))
  {
    if params != [] {
      AbsentAreDefaults(convert, params[1..]);
      assert Defaults(params) == [params[0].default] + Defaults(params[1..]);
    }
  }

  lemma {:induction false} UnpackPacked<V>(convert: Convert<V>, params: seq<Param<V>>, values: seq<V>,
                                           args: seq<Object>)
    requires Packs(convert, params, values, args)
    requires forall i | |values| <= i < |params| :: params[i].Optional?
    ensures UnpackFrom(convert, params, args) == Values(values + Defaults(params[|values|..]))
    decreases |params|
  {
    if args == [] {
      AbsentAreDefaults(convert, params);
      assert params[0..] == params && values == [];
      assert [] + Defaults(params) == Defaults(params);
    } else {
      UnpackPacked(convert, params[1..], values[1..], args[1..]);
      assert params[1..][|values[1..]|..] == params[|values|..];
      assert values == [values[0]] + values[1..];
    }
  }

  /**
   For every sanitized list: values packed in full come back as they were, and values packed short,
   anywhere in the optional tail, come back followed by the declared defaults.
   */
  lemma OptionalTailRoundTrip<V>(convert: Convert<V>, params: seq<Param<V>>, values: seq<V>, args: seq<Object>)
    requires Sanitized(params) && Packs(convert, params, values, args) && Minimal(params) <= |values|
    ensures forall i | |values| <= i < |params| :: params[i].Optional?
    ensures Unpack(convert, params, Array(args)) == Values(values + Defaults(params[|values|..]))
    ensures |values| == |params| ==> Unpack(convert, params, Array(args)) == Values(values)
  {
    SanitizedMeansRequiredFirst(params);
    UnpackPacked(convert, params, values, args);
    if |values| == |params| {
      assert Defaults(params[|values|..]) == [];
      assert values + [] == values;
    }
  }

  lemma {:induction false} ExtraUnread<V>(convert: Convert<V>, params: seq<Param<V>>, args: seq<Object>,
                                          extra: seq<Object>)
    requires |args| >= |params|
    ensures UnpackFrom(convert, params, args + extra) == UnpackFrom(convert, params, args)
    decreases |params|
  {
    if params != [] {
      assert (args + extra)[1..] == args[1..] + extra;
      ExtraUnread(convert, params[1..], args[1..], extra);
    }
  }

  /** Arguments beyond the declared ones are ignored, whatever the declaration. */
  lemma ExtraArgumentsIgnored<V>(convert: Convert<V>, params: seq<Param<V>>, args: seq<Object>, extra: seq<Object>)
    requires |args| >= |params|
    ensures Unpack(convert, params, Array(args + extra)) == Unpack(convert, params, Array(args))
  {
    OnlySizes(params);
    ExtraUnread(convert, params, args, extra);
  }
}
