/**
 The weighted consistent-hash ring of a routing group. Every member owns a number of points in
 proportion to its weight; a key belongs to the owner of the next point above it, and the ring wraps.
 */
module Continuum {
  import opened Common

  datatype Element = Element(point: nat, value: string)

  datatype Member = Member(name: string, weight: nat)

  /** Stand-in for the digest: member, step and quarter of the digest to a point. */
  type Hash = (string, nat, nat) -> nat

  datatype Built = Ring(elements: seq<Element>) | NonPositiveWeight

  // ---------------------------------------------------------------------------
  // Population.

  function TotalWeight(group: seq<Member>): nat
  {
    if group == [] then 0 else group[0].weight + TotalWeight(group[1..])
  }

  /** The share of `weight` in 64 steps per member, rounded half away from zero. */
  function Steps(weight: nat, total: nat, count: nat): nat
    requires total > 0
  {
    (128 * count * weight + total) / (2 * total)
  }

  function Quad(hash: Hash, name: string, step: nat): (r: seq<Element>)
    ensures |r| == 4
    ensures forall e | e in r :: e.value == name
  {
    [Element(hash(name, step, 0), name), Element(hash(name, step, 1), name),
     Element(hash(name, step, 2), name), Element(hash(name, step, 3), name)]
  }

  /** Four points out of each digest. */
  function Quads(hash: Hash, name: string, steps: nat): (r: seq<Element>)
    ensures |r| == 4 * steps
    ensures forall e | e in r :: e.value == name
  {
    if steps == 0 then [] else Quads(hash, name, steps - 1) + Quad(hash, name, steps - 1)
  }

  /** How many steps a weight gets in a whole of this total weight and count. */
  function Share(total: nat, count: nat): nat -> nat
    requires total > 0
  {
    weight => Steps(weight, total, count)
  }

  /** All points of a group, when each weight gets this share. */
  function Population(hash: Hash, group: seq<Member>, share: nat -> nat): seq<Element>
  {
    if group == [] then []
    else Quads(hash, group[0].name, share(group[0].weight)) + Population(hash, group[1..], share)
  }

  function StepCount(group: seq<Member>, total: nat, count: nat): nat
    requires total > 0
  {
    if group == [] then 0 else Steps(group[0].weight, total, count) + StepCount(group[1..], total, count)
  }

  lemma {:induction false} PopulationSize(hash: Hash, group: seq<Member>, total: nat, count: nat)
    requires total > 0
    ensures |Population(hash, group, Share(total, count))| == 4 * StepCount(group, total, count)
  {
    if group != [] { PopulationSize(hash, group[1..], total, count); }
  }

  lemma StepsBounds(weight: nat, total: nat, count: nat)
    requires total > 0
    ensures var doubled := 2 * total * Steps(weight, total, count);
            128 * count * weight - total < doubled <= 128 * count * weight + total
  {
  }

  /** A member has a point exactly when its share is at least half a step. */
  lemma PresentIff(weight: nat, total: nat, count: nat)
    requires total > 0
    ensures Steps(weight, total, count) > 0 <==> 128 * count * weight >= total
  {
  }

  lemma {:induction false} StepCountBounds(group: seq<Member>, total: nat, count: nat)
    requires total > 0
    ensures var doubled := 2 * total * StepCount(group, total, count);
            128 * count * TotalWeight(group) - |group| * total <= doubled <=
              128 * count * TotalWeight(group) + |group| * total
  {
    if group != [] {
      var w, rest := group[0].weight, group[1..];
      StepsBounds(w, total, count);
      StepCountBounds(rest, total, count);
      AddBounds(w, TotalWeight(rest), Steps(w, total, count), StepCount(rest, total, count), |rest|, total, count);
    }
  }

  lemma AddBounds(w: nat, v: nat, a: nat, b: nat, n: nat, total: nat, count: nat)
    requires 128 * count * w - total <= 2 * total * a <= 128 * count * w + total
    requires 128 * count * v - n * total <= 2 * total * b <= 128 * count * v + n * total
    ensures 128 * count * (w + v) - (n + 1) * total <= 2 * total * (a + b) <= 128 * count * (w + v) + (n + 1) * total
  {
  }

  lemma Cancel(a: int, b: int, total: nat)
    requires total > 0 && total * a <= total * b
    ensures a <= b
  {
    if b < a { Ordered(b, a, total); }
  }

  lemma WithinHalf(n: nat, total: nat, steps: nat)
    requires total > 0 && 128 * n * total - n * total <= 2 * total * steps <= 128 * n * total + n * total
    ensures 127 * n <= 2 * steps <= 129 * n
  {
    assert total * (127 * n) == 128 * n * total - n * total;
    assert total * (129 * n) == 128 * n * total + n * total;
    assert total * (2 * steps) == 2 * total * steps;
    Cancel(127 * n, 2 * steps, total);
    Cancel(2 * steps, 129 * n, total);
  }

  /** Rounding errors stay within half a step per member, so the ring of a positive group is not empty. */
  lemma PopulationBounds(hash: Hash, group: seq<Member>)
    requires TotalWeight(group) > 0
    ensures var n := |group|; var steps := StepCount(group, TotalWeight(group), n);
            && 128 * n - n <= 2 * steps <= 128 * n + n
            && |Population(hash, group, Share(TotalWeight(group), n))| == 4 * steps > 0
  {
    var n := |group|;
    StepCountBounds(group, TotalWeight(group), n);
    PopulationSize(hash, group, TotalWeight(group), n);
    WithinHalf(n, TotalWeight(group), StepCount(group, TotalWeight(group), n));
  }

  // ---------------------------------------------------------------------------
  // The constructor.

  /** `share` gives each weight what the constructor gives it in this group. */
  ghost predicate SharesOf(share: nat -> nat, group: seq<Member>)
  {
    TotalWeight(group) > 0 && forall weight :: Allots(share, weight, TotalWeight(group), |group|)
  }

  ghost predicate Allots(share: nat -> nat, weight: nat, total: nat, count: nat)
    requires total > 0
  {
    share(weight) == Steps(weight, total, count)
  }

  lemma ShareIsOf(group: seq<Member>)
    requires TotalWeight(group) > 0
    ensures SharesOf(Share(TotalWeight(group), |group|), group)
  {
  }

  /** The ring holds the points of the whole group, in some order. */
  ghost predicate RingOf(ring: seq<Element>, hash: Hash, group: seq<Member>, share: nat -> nat)
  {
    multiset(ring) == multiset(Population(hash, group, share))
  }

  predicate Sorted(s: seq<Element>)
  {
    forall i, j | 0 <= i < j < |s| :: s[i].point <= s[j].point
  }

  method Sort(elements: seq<Element>) returns (sorted: seq<Element>)
    ensures Sorted(sorted) && multiset(sorted) == multiset(elements)
  {
    sorted := [];
    for i := 0 to |elements|
      invariant Sorted(sorted) && multiset(sorted) == multiset(elements[..i])
    {
      sorted := InsertSorted(sorted, elements[i]);
      assert elements[..i + 1] == elements[..i] + [elements[i]];
    }
    assert elements[..|elements|] == elements;
  }

  method InsertSorted(s: seq<Element>, e: Element) returns (r: seq<Element>)
    requires Sorted(s)
    ensures Sorted(r) && multiset(r) == multiset(s) + multiset{e}
  {
    var i := UpperBound(s, e.point);
    r := s[..i] + [e] + s[i..];
    assert s == s[..i] + s[i..];
  }

  /** `upper_bound`: the position of the first point strictly above `point`. */
  method UpperBound(s: seq<Element>, point: nat) returns (at: nat)
    requires Sorted(s)
    ensures at <= |s|
    ensures forall i | 0 <= i < at :: s[i].point <= point
    ensures forall i | at <= i < |s| :: point < s[i].point
  {
    var length := |s|;
    at := 0;
    while length > 0
      invariant 0 <= at && 0 <= length && at + length <= |s|
      invariant forall i | 0 <= i < at :: s[i].point <= point
      invariant forall i | at + length <= i < |s| :: point < s[i].point
    {
      var half := length / 2;
      if point < s[at + half].point {
        length := half;
      } else {
        at := at + half + 1;
        length := length - half - 1;
      }
    }
  }

  /** Builds and sorts the ring; a group without members or without weight has none. */
  method Build(hash: Hash, group: seq<Member>) returns (r: Built)
    ensures r.NonPositiveWeight? <==> TotalWeight(group) == 0
    ensures r.Ring? ==> Sorted(r.elements) && r.elements != []
    ensures r.Ring? ==> RingOf(r.elements, hash, group, Share(TotalWeight(group), |group|))
  {
    var weight := SumWeights(group);
    if |group| == 0 || weight == 0 {
      return NonPositiveWeight;
    }
    var elements := Points(hash, group, Share(weight, |group|));
    PopulationBounds(hash, group);
    var sorted := Sort(elements);
    assert |multiset(sorted)| == |multiset(elements)|;
    r := Ring(sorted);
  }

  method Points(hash: Hash, group: seq<Member>, share: nat -> nat) returns (elements: seq<Element>)
    ensures elements == Population(hash, group, share)
  {
    elements := [];
    for i := 0 to |group|
      invariant elements == Population(hash, group[..i], share)
    {
      elements := AppendQuads(elements, hash, group[i].name, share(group[i].weight));
      PopulationGrows(hash, group, i, share);
    }
    assert group[..|group|] == group;
  }

  method AppendQuads(before: seq<Element>, hash: Hash, name: string, steps: nat) returns (elements: seq<Element>)
    ensures elements == before + Quads(hash, name, steps)
  {
    elements := before;
    for step := 0 to steps
      invariant elements == before + Quads(hash, name, step)
    {
      elements := elements + Quad(hash, name, step);
    }
  }

  method SumWeights(group: seq<Member>) returns (total: nat)
    ensures total == TotalWeight(group)
  {
    total := 0;
    for i := 0 to |group|
      invariant total + TotalWeight(group[i..]) == TotalWeight(group)
    {
      assert group[i..][1..] == group[i + 1..];
      total := total + group[i].weight;
    }
  }

  lemma {:induction false} PopulationSplits(hash: Hash, a: seq<Member>, b: seq<Member>, share: nat -> nat)
    ensures Population(hash, a + b, share) == Population(hash, a, share) + Population(hash, b, share)
  {
    if a == [] {
      assert a + b == b;
    } else {
      assert (a + b)[1..] == a[1..] + b;
      PopulationSplits(hash, a[1..], b, share);
    }
  }

  lemma PopulationGrows(hash: Hash, group: seq<Member>, i: nat, share: nat -> nat)
    requires i < |group|
    ensures Population(hash, group[..i + 1], share) ==
            Population(hash, group[..i], share) + Quads(hash, group[i].name, share(group[i].weight))
  {
    assert group[..i + 1] == group[..i] + [group[i]];
    PopulationSplits(hash, group[..i], [group[i]], share);
    SinglePopulation(hash, group[i], share);
  }

  // ---------------------------------------------------------------------------
  // Lookup.

  /** `e` owns `point`: the least element strictly above it, or the least of all when none is above. */
  ghost predicate Owns(elements: seq<Element>, point: nat, e: Element)
  {
    && e in elements
    && if exists x :: x in elements && x.point > point
       then e.point > point && forall x | x in elements && x.point > point :: e.point <= x.point
       else forall x | x in elements :: e.point <= x.point
  }

  /** The value of an owner of the point. */
  ghost predicate Target(ring: seq<Element>, point: nat, value: string)
  {
    exists e :: e in ring && Owns(ring, point, e) && e.value == value
  }

  method Get(ring: seq<Element>, point: nat) returns (value: string)
    requires Sorted(ring) && ring != []
    ensures Target(ring, point, value)
  {
    var at := UpperBound(ring, point);
    var rv := if at < |ring| then ring[at] else ring[0];
    value := rv.value;
    if at < |ring| {
      assert ring[at] in ring && ring[at].point > point;
    }
    assert Owns(ring, point, rv);
  }

  ghost predicate DistinctPoints(elements: seq<Element>)
  {
    forall x, y | x in elements && y in elements && x.point == y.point :: x == y
  }

  /** With distinct points the owner depends on the set of points alone, not on how ties were sorted. */
  lemma OwnerUnique(a: seq<Element>, b: seq<Element>, point: nat, x: Element, y: Element)
    requires DistinctPoints(a) && (forall e :: e in a <==> e in b)
    requires Owns(a, point, x) && Owns(b, point, y)
    ensures x == y
  {
  }

  /** With equal points it does depend on it. */
  lemma TiesAreArbitrary()
    ensures var a, b := Element(5, "a"), Element(5, "b");
            && Sorted([a, b]) && Sorted([b, a]) && multiset([a, b]) == multiset([b, a])
            && Owns([a, b], 0, a) && Owns([b, a], 0, b) && a.value != b.value
  {
  }

  /** Adding points to a ring moves a key only onto an added point. */
  lemma AddedPointsTakeOver(ring: seq<Element>, added: seq<Element>, all: seq<Element>, point: nat, x: Element,
                            y: Element)
    requires forall e :: e in all <==> e in ring || e in added
    requires DistinctPoints(all)
    requires Owns(ring, point, x) && Owns(all, point, y)
    ensures y == x || y in added
  {
  }

  // ---------------------------------------------------------------------------
  // Groups that gain or lose a member.

  lemma {:induction false} TotalWeightSplits(a: seq<Member>, b: seq<Member>)
    ensures TotalWeight(a + b) == TotalWeight(a) + TotalWeight(b)
  {
    if a == [] {
      assert a + b == b;
    } else {
      assert (a + b)[1..] == a[1..] + b;
      TotalWeightSplits(a[1..], b);
    }
  }

  lemma ScaleBounds(a: nat, d: nat, q: nat, c: nat)
    requires c > 0 && d * q <= a < d * q + d
    ensures c * d * q <= c * a < c * d * q + c * d
  {
  }

  lemma ScaledDivision(a: nat, d: nat, c: nat)
    requires c > 0 && d > 0
    ensures c * d > 0 && c * a / (c * d) == a / d
  {
    DivisionBounds(a, d);
    ScaleBounds(a, d, a / d, c);
    assert c * d > 0 by { Ordered(0, d, c); }
    DivisionUnique(c * a, c * d, a / d);
  }

  /** Scaling total weight and count alike changes nobody's number of steps. */
  lemma StepsScale(weight: nat, mean: nat, count: nat)
    requires mean > 0 && count > 0
    ensures mean * count > 0
    ensures Steps(weight, mean * count, count) == (128 * weight + mean) / (2 * mean)
  {
    ScaledDivision(128 * weight + mean, 2 * mean, count);
    assert count * (128 * weight + mean) == 128 * count * weight + mean * count;
    assert count * (2 * mean) == 2 * (mean * count);
  }

  /** No member of the group gets another share. */
  ghost predicate KeepsShares(group: seq<Member>, f: nat -> nat, g: nat -> nat)
  {
    forall m | m in group :: f(m.weight) == g(m.weight)
  }

  lemma {:induction false} PopulationKept(hash: Hash, group: seq<Member>, f: nat -> nat, g: nat -> nat)
    requires KeepsShares(group, f, g)
    ensures Population(hash, group, f) == Population(hash, group, g)
  {
    if group != [] {
      PopulationKept(hash, group[1..], f, g);
    }
  }

  /** `group` with `x` inserted at position `i`, as a new key takes its place in the stored mapping. */
  function Inserted(group: seq<Member>, i: nat, x: Member): seq<Member>
    requires i <= |group|
  {
    group[..i] + [x] + group[i..]
  }

  lemma InsertedWeight(group: seq<Member>, i: nat, x: Member)
    requires i <= |group|
    ensures TotalWeight(Inserted(group, i, x)) == TotalWeight(group) + x.weight
  {
    Rejoined(group, i);
    WeightAround(group[..i], x, group[i..]);
  }

  lemma WeightAround(a: seq<Member>, x: Member, b: seq<Member>)
    ensures TotalWeight(a + [x] + b) == TotalWeight(a + b) + x.weight
  {
    TotalWeightSplits(a + [x], b);
    TotalWeightSplits(a, [x]);
    TotalWeightSplits(a, b);
    assert TotalWeight([x]) == x.weight;
  }

  lemma PopulationAround(hash: Hash, a: seq<Member>, m: seq<Member>, b: seq<Member>, share: nat -> nat)
    ensures multiset(Population(hash, a + m + b, share)) ==
            multiset(Population(hash, a + b, share)) + multiset(Population(hash, m, share))
  {
    PopulationSplits(hash, a + m, b, share);
    PopulationSplits(hash, a, m, share);
    PopulationSplits(hash, a, b, share);
  }

  lemma InsertedPopulation(hash: Hash, group: seq<Member>, i: nat, x: Member, share: nat -> nat)
    requires i <= |group|
    ensures multiset(Population(hash, Inserted(group, i, x), share)) ==
            multiset(Population(hash, group, share)) + multiset(Population(hash, [x], share))
  {
    Rejoined(group, i);
    PopulationAround(hash, group[..i], [x], group[i..], share);
  }

  lemma Rejoined(group: seq<Member>, i: nat)
    requires i <= |group|
    ensures group[..i] + group[i..] == group
  {
  }

  lemma SinglePopulation(hash: Hash, x: Member, share: nat -> nat)
    ensures Population(hash, [x], share) == Quads(hash, x.name, share(x.weight))
  {
  }

  lemma MeanShare(weight: nat, count: nat)
    requires weight > 0 && count > 0
    ensures weight * count > 0 && Steps(weight, weight * count, count) == 64
  {
    StepsScale(weight, weight, count);
    DivisionUnique(128 * weight + weight, 2 * weight, 64);
  }

  lemma MeanKeepsShare(weight: nat, total: nat, count: nat, added: nat)
    requires total > 0 && count > 0 && added * count == total
    ensures Steps(weight, total + added, count + 1) == Steps(weight, total, count)
  {
    assert total + added == added * (count + 1);
    StepsScale(weight, added, count);
    StepsScale(weight, added, count + 1);
  }

  /**
   The old number of steps is within half a step of the exact share that a newcomer of weight
   `added` leaves to this weight.
   */
  predicate StillRounded(weight: nat, total: nat, count: nat, added: nat)
    requires total > 0
  {
    var s := Steps(weight, total, count);
    (2 * s - 1) * (total + added) <= 128 * (count + 1) * weight < (2 * s + 1) * (total + added)
  }

  lemma RoundedIff(a: nat, t: nat, s: nat)
    requires t > 0
    ensures (a + t) / (2 * t) == s <==> (2 * s - 1) * t <= a < (2 * s + 1) * t
  {
    DivisionBounds(a + t, 2 * t);
    assert (2 * s - 1) * t == 2 * t * s - t && (2 * s + 1) * t == 2 * t * s + t;
    if (2 * s - 1) * t <= a < (2 * s + 1) * t { DivisionUnique(a + t, 2 * t, s); }
  }

  lemma ShareKeptIff(weight: nat, total: nat, count: nat, added: nat)
    requires total > 0
    ensures Steps(weight, total + added, count + 1) == Steps(weight, total, count) <==>
              StillRounded(weight, total, count, added)
  {
    RoundedIff(128 * (count + 1) * weight, total + added, Steps(weight, total, count));
  }

  /** The exact condition on a newcomer for the shares of all others to stay as they were. */
  lemma SharesKeptIff(group: seq<Member>, i: nat, x: Member, f: nat -> nat, g: nat -> nat)
    requires i <= |group| && SharesOf(f, group) && SharesOf(g, Inserted(group, i, x))
    ensures KeepsShares(group, f, g) <==>
            forall m | m in group :: StillRounded(m.weight, TotalWeight(group), |group|, x.weight)
  {
    InsertedWeight(group, i, x);
    forall m | m in group
      ensures f(m.weight) == g(m.weight) <==> StillRounded(m.weight, TotalWeight(group), |group|, x.weight)
    {
      OneShareKeptIff(group, i, x, f, g, m.weight);
    }
  }

  lemma OneShareKeptIff(group: seq<Member>, i: nat, x: Member, f: nat -> nat, g: nat -> nat, weight: nat)
    requires i <= |group| && SharesOf(f, group) && SharesOf(g, Inserted(group, i, x))
    ensures f(weight) == g(weight) <==> StillRounded(weight, TotalWeight(group), |group|, x.weight)
  {
    InsertedWeight(group, i, x);
    var total, count := TotalWeight(group), |group|;
    assert Allots(f, weight, total, count) && Allots(g, weight, total + x.weight, count + 1);
    ShareKeptIff(weight, total, count, x.weight);
  }

  /** `x` has the mean weight of a non-empty group. */
  predicate IsMean(group: seq<Member>, x: Member)
  {
    group != [] && x.weight > 0 && TotalWeight(group) == x.weight * |group|
  }

  /**
   Inserting a member that changes no other share leaves all other points as they were: the new
   ring has the old points and those of the member, nothing else.
   */
  lemma InsertionAddsPoints(hash: Hash, group: seq<Member>, i: nat, x: Member, f: nat -> nat, g: nat -> nat)
    requires i <= |group| && KeepsShares(group, f, g)
    ensures multiset(Population(hash, Inserted(group, i, x), g)) ==
            multiset(Population(hash, group, f)) + multiset(Quads(hash, x.name, g(x.weight)))
  {
    InsertedPopulation(hash, group, i, x, g);
    SinglePopulation(hash, x, g);
    PopulationKept(hash, group, f, g);
  }

  /**
   Consistent hashing: when a member joins and no other share changes, every key keeps its target
   or moves to the new member; when it leaves again, only its own keys move.
   */
  lemma JoinMovesOnlyToNewcomer(hash: Hash, group: seq<Member>, i: nat, x: Member, f: nat -> nat, g: nat -> nat,
                                before: seq<Element>, after: seq<Element>, point: nat, was: Element, now: Element)
    requires i <= |group| && KeepsShares(group, f, g)
    requires RingOf(before, hash, group, f) && RingOf(after, hash, Inserted(group, i, x), g)
    requires DistinctPoints(after) && Owns(before, point, was) && Owns(after, point, now)
    ensures now.value == was.value || now.value == x.name
    ensures now.value != x.name ==> now == was
  {
    InsertionAddsPoints(hash, group, i, x, f, g);
    var added := Quads(hash, x.name, g(x.weight));
    SumMembers(before, added, after);
    AddedPointsTakeOver(before, added, after, point, was, now);
  }

  /** A newcomer of the mean weight changes no other share. */
  lemma MeanKeepsShares(group: seq<Member>, i: nat, x: Member, f: nat -> nat, g: nat -> nat)
    requires IsMean(group, x) && i <= |group| && SharesOf(f, group) && SharesOf(g, Inserted(group, i, x))
    ensures KeepsShares(group, f, g)
  {
    InsertedWeight(group, i, x);
    var total, count := TotalWeight(group), |group|;
    forall m | m in group ensures f(m.weight) == g(m.weight) {
      assert Allots(f, m.weight, total, count) && Allots(g, m.weight, total + x.weight, count + 1);
      MeanKeepsShare(m.weight, total, count, x.weight);
    }
  }

  /** So the rings built without and with a newcomer of the mean weight differ by its keys alone. */
  lemma MeanJoin(hash: Hash, group: seq<Member>, i: nat, x: Member, f: nat -> nat, g: nat -> nat,
                 before: seq<Element>, after: seq<Element>, point: nat, was: Element, now: Element)
    requires IsMean(group, x) && i <= |group| && SharesOf(f, group) && SharesOf(g, Inserted(group, i, x))
    requires RingOf(before, hash, group, f) && RingOf(after, hash, Inserted(group, i, x), g)
    requires DistinctPoints(after) && Owns(before, point, was) && Owns(after, point, now)
    ensures now.value == was.value || now.value == x.name
    ensures now.value != x.name ==> now == was
  {
    MeanKeepsShares(group, i, x, f, g);
    JoinMovesOnlyToNewcomer(hash, group, i, x, f, g, before, after, point, was, now);
  }

  /** What lookups on the two built rings may answer. */
  lemma LookupsAfterMeanJoin(hash: Hash, group: seq<Member>, i: nat, x: Member, before: seq<Element>,
                             after: seq<Element>, point: nat, was: string, now: string)
    requires IsMean(group, x) && i <= |group| && TotalWeight(group) > 0 && TotalWeight(Inserted(group, i, x)) > 0
    requires RingOf(before, hash, group, Share(TotalWeight(group), |group|))
    requires var joined := Inserted(group, i, x); RingOf(after, hash, joined, Share(TotalWeight(joined), |joined|))
    requires DistinctPoints(after) && Target(before, point, was) && Target(after, point, now)
    ensures now == was || now == x.name
  {
    var joined := Inserted(group, i, x);
    ShareIsOf(group);
    ShareIsOf(joined);
    var d :| d in before && Owns(before, point, d) && d.value == was;
    var e :| e in after && Owns(after, point, e) && e.value == now;
    MeanJoin(hash, group, i, x, Share(TotalWeight(group), |group|), Share(TotalWeight(joined), |joined|),
             before, after, point, d, e);
  }

  lemma SumMembers(a: seq<Element>, b: seq<Element>, c: seq<Element>)
    requires multiset(c) == multiset(a) + multiset(b)
    ensures forall e :: e in c <==> e in a || e in b
  {
    forall e ensures e in c <==> e in a || e in b {
      assert e in c <==> e in multiset(c);
    }
  }

  /** Groups of equal weights are of this kind, and give every member exactly 64 steps. */
  lemma {:induction false} EqualWeights(group: seq<Member>, weight: nat)
    requires weight > 0 && group != [] && forall m | m in group :: m.weight == weight
    ensures TotalWeight(group) == weight * |group| > 0
    ensures Steps(weight, TotalWeight(group), |group|) == 64
    ensures forall name :: IsMean(group, Member(name, weight))
  {
    MeanShare(weight, |group|);
    if |group| > 1 {
      EqualWeights(group[1..], weight);
      assert weight * |group| == weight + weight * |group[1..]|;
    } else {
      assert weight * |group| == weight;
    }
  }
}
