/** What several of the models share. */
module Common {

  datatype Option<+T> = None | Some(value: T)

  /** What is left of a 64-bit number converted to a 32-bit signed one. */
  function ToInt(n: nat): int
  {
    var low := n % 0x1_0000_0000;
    if low < 0x8000_0000 then low else low - 0x1_0000_0000
  }

  /** The elements that are kept, in order. */
  function Filter<T>(keep: T -> bool, s: seq<T>): (r: seq<T>)
    ensures |r| <= |s|
  {
    if s == [] then []
    else
      var n := |s| - 1;
      if keep(s[n]) then Filter(keep, s[..n]) + [s[n]] else Filter(keep, s[..n])
  }

  lemma FilterGrows<T>(keep: T -> bool, s: seq<T>, e: T)
    ensures Filter(keep, s + [e]) == if keep(e) then Filter(keep, s) + [e] else Filter(keep, s)
  {
  }

  lemma {:induction false} FilterSplits<T>(keep: T -> bool, a: seq<T>, b: seq<T>)
    ensures Filter(keep, a + b) == Filter(keep, a) + Filter(keep, b)
    decreases |b|
  {
    if b == [] {
      assert a + b == a;
    } else {
      var n, all := |b| - 1, a + b;
      FilterSplits(keep, a, b[..n]);
      assert all[..|all| - 1] == a + b[..n] && all[|all| - 1] == b[n];
    }
  }

  lemma FilterFirst<T>(keep: T -> bool, s: seq<T>)
    requires s != []
    ensures Filter(keep, s) == (if keep(s[0]) then [s[0]] else []) + Filter(keep, s[1..])
  {
    assert s == [s[0]] + s[1..];
    FilterSplits(keep, [s[0]], s[1..]);
    assert [s[0]] == [] + [s[0]];
    FilterGrows(keep, [], s[0]);
  }

  lemma {:induction false} FilteredFrom<T>(keep: T -> bool, s: seq<T>)
    ensures forall e | e in Filter(keep, s) :: e in s && keep(e)
  {
    if s != [] { FilteredFrom(keep, s[..|s| - 1]); }
  }

  lemma {:induction false} FilterSame<T>(p: T -> bool, q: T -> bool, s: seq<T>)
    requires forall e | e in s :: p(e) == q(e)
    ensures Filter(p, s) == Filter(q, s)
  {
    if s != [] { FilterSame(p, q, s[..|s| - 1]); }
  }

  lemma {:induction false} FiltersCommute<T>(p: T -> bool, q: T -> bool, s: seq<T>)
    ensures Filter(p, Filter(q, s)) == Filter(q, Filter(p, s))
  {
    if s != [] {
      var n := |s| - 1;
      var e := s[n];
      FiltersCommute(p, q, s[..n]);
      if q(e) { FilterGrows(p, Filter(q, s[..n]), e); }
      if p(e) { FilterGrows(q, Filter(p, s[..n]), e); }
    }
  }

  // Division.

  lemma {:induction false} Ordered(a: int, b: int, d: nat)
    requires a < b
    ensures d * a + d <= d * b
  {
    if d > 0 {
      Ordered(a, b, d - 1);
      assert d * a == (d - 1) * a + a && d * b == (d - 1) * b + b;
    }
  }

  lemma DivisionBounds(a: nat, d: nat)
    requires d > 0
    ensures d * (a / d) <= a < d * (a / d) + d
  {
  }

  lemma DivisionUnique(a: nat, d: nat, q: nat)
    requires d > 0 && d * q <= a < d * q + d
    ensures a / d == q
  {
    DivisionBounds(a, d);
    if a / d < q {
      Ordered(a / d, q, d);
    } else if a / d > q {
      Ordered(q, a / d, d);
    }
  }
}
