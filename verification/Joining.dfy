/**
 What a newcomer does to the keys of the others: exactly when every key stays with its target or
 moves to the newcomer, whatever the digest.
 */
module Joining {
  import opened Common
  import opened Continuum

  ghost predicate DistinctNames(group: seq<Member>)
  {
    forall i, j | 0 <= i < j < |group| :: group[i].name != group[j].name
  }

  // ---------------------------------------------------------------------------
  // Which points a ring has.

  ghost predicate PointOf(hash: Hash, name: string, steps: nat, e: Element)
  {
    exists step: nat, quarter: nat :: step < steps && quarter < 4 && e == Element(hash(name, step, quarter), name)
  }

  lemma {:induction false} QuadsMembers(hash: Hash, name: string, steps: nat, e: Element)
    ensures e in Quads(hash, name, steps) <==> PointOf(hash, name, steps, e)
  {
    if steps > 0 {
      QuadsMembers(hash, name, steps - 1, e);
    }
  }

  /** The points of a ring are those of the steps below the share of a member. */
  lemma {:induction false} RingMembers(hash: Hash, group: seq<Member>, share: nat -> nat, e: Element)
    ensures e in Population(hash, group, share) <==>
            exists m :: m in group && PointOf(hash, m.name, share(m.weight), e)
  {
    if group != [] {
      QuadsMembers(hash, group[0].name, share(group[0].weight), e);
      RingMembers(hash, group[1..], share, e);
    }
  }

  // ---------------------------------------------------------------------------
  // A digest made to order.

  datatype Spot = Spot(name: string, step: nat, quarter: nat)

  function SpotsOf(name: string, steps: nat): (r: seq<Spot>)
    ensures |r| == 4 * steps
    ensures forall step: nat, quarter: nat | step < steps && quarter < 4 :: Spot(name, step, quarter) in r
  {
    if steps == 0 then []
    else
      var k := steps - 1;
      SpotsOf(name, k) + [Spot(name, k, 0), Spot(name, k, 1), Spot(name, k, 2), Spot(name, k, 3)]
  }

  /** Every place a digest is taken at for this group. */
  function Spots(group: seq<Member>, share: nat -> nat): seq<Spot>
  {
    if group == [] then [] else SpotsOf(group[0].name, share(group[0].weight)) + Spots(group[1..], share)
  }

  lemma {:induction false} SpotsCover(group: seq<Member>, share: nat -> nat, m: Member, step: nat, quarter: nat)
    requires m in group && step < share(m.weight) && quarter < 4
    ensures Spot(m.name, step, quarter) in Spots(group, share)
  {
    if m != group[0] { SpotsCover(group[1..], share, m, step, quarter); }
  }

  lemma {:induction false} SpotsSize(hash: Hash, group: seq<Member>, share: nat -> nat)
    ensures |Spots(group, share)| == |Population(hash, group, share)|
  {
    if group != [] { SpotsSize(hash, group[1..], share); }
  }

  function Index(s: seq<Spot>, t: Spot): (k: nat)
    ensures k <= |s|
    ensures t in s ==> k < |s| && s[k] == t
  {
    if s == [] || s[0] == t then 0 else 1 + Index(s[1..], t)
  }

  /** A digest with `low` at the bottom, `next` just above it, and everything else in a row behind. */
  function Digest(all: seq<Spot>, low: Spot, next: Spot): Hash
  {
    (name, step, quarter) =>
      var t := Spot(name, step, quarter);
      if t == low then 1 else if t == next then 2 else 3 + Index(all, t)
  }

  ghost predicate Separates(hash: Hash, all: seq<Spot>)
  {
    forall t, u | t in all && u in all && hash(t.name, t.step, t.quarter) == hash(u.name, u.step, u.quarter) :: t == u
  }

  lemma DigestSeparates(all: seq<Spot>, low: Spot, next: Spot)
    ensures Separates(Digest(all, low, next), all)
    ensures forall name, step, quarter :: Digest(all, low, next)(name, step, quarter) < 4 + |all|
  {
  }

  /** Where a point of a ring comes from. */
  lemma Origin(hash: Hash, group: seq<Member>, share: nat -> nat, e: Element)
    returns (m: Member, step: nat, quarter: nat)
    requires e in Population(hash, group, share)
    ensures m in group && step < share(m.weight) && quarter < 4 && e == Element(hash(m.name, step, quarter), m.name)
    ensures Spot(m.name, step, quarter) in Spots(group, share)
  {
    RingMembers(hash, group, share, e);
    m :| m in group && PointOf(hash, m.name, share(m.weight), e);
    step, quarter :| step < share(m.weight) && quarter < 4 && e == Element(hash(m.name, step, quarter), m.name);
    SpotsCover(group, share, m, step, quarter);
  }

  lemma Present(hash: Hash, group: seq<Member>, share: nat -> nat, m: Member, step: nat)
    requires m in group && step < share(m.weight)
    ensures Element(hash(m.name, step, 0), m.name) in Population(hash, group, share)
  {
    var e := Element(hash(m.name, step, 0), m.name);
    RingMembers(hash, group, share, e);
    assert PointOf(hash, m.name, share(m.weight), e);
  }

  // ---------------------------------------------------------------------------
  // Keys.

  /** Points below the limit, and no two members of the rings without and with the newcomer share one. */
  ghost predicate Apart(hash: Hash, limit: nat, group: seq<Member>, f: nat -> nat, joined: seq<Member>, g: nat -> nat)
  {
    && (forall name, step, quarter :: hash(name, step, quarter) < limit)
    && DistinctPoints(Population(hash, group, f) + Population(hash, joined, g))
  }

  /** Every key keeps its target or moves to the newcomer. */
  ghost predicate Stays(hash: Hash, group: seq<Member>, f: nat -> nat, joined: seq<Member>, g: nat -> nat,
                        newcomer: string)
  {
    forall point, was, now
      | Owns(Population(hash, group, f), point, was) && Owns(Population(hash, joined, g), point, now) ::
      now.value == was.value || now.value == newcomer
  }

  /** Some member gains a step while another had points, or loses one while another has points. */
  ghost predicate Disturbs(group: seq<Member>, f: nat -> nat, g: nat -> nat)
  {
    exists m, other :: Disturbed(group, f, g, m, other)
  }

  ghost predicate Disturbed(group: seq<Member>, f: nat -> nat, g: nat -> nat, m: Member, other: Member)
  {
    && m in group && other in group && m.name != other.name
    && ((g(m.weight) > f(m.weight) && f(other.weight) > 0) || (g(m.weight) < f(m.weight) && g(other.weight) > 0))
  }

  lemma JoinedMembers(group: seq<Member>, i: nat, x: Member, m: Member)
    requires i <= |group|
    ensures m in Inserted(group, i, x) <==> m in group || m == x
  {
    assert group == group[..i] + group[i..];
  }

  lemma SameName(group: seq<Member>, a: Member, b: Member)
    requires DistinctNames(group) && a in group && b in group && a.name == b.name
    ensures a == b
  {
  }

  /** A point that one ring has and the other has not is one that a member gained. */
  lemma Gained(hash: Hash, group: seq<Member>, f: nat -> nat, other: seq<Member>, g: nat -> nat, e: Element)
    returns (m: Member)
    requires e in Population(hash, group, f) && e !in Population(hash, other, g)
    ensures m in group && m.name == e.value && f(m.weight) > 0 && (m in other ==> f(m.weight) > g(m.weight))
  {
    var step, quarter;
    m, step, quarter := Origin(hash, group, f, e);
    if m in other && step < g(m.weight) {
      RingMembers(hash, other, g, e);
      assert PointOf(hash, m.name, g(m.weight), e);
    }
  }

  /** Between two rings, the owner of a key changes only if the old one is gone or the new one is new. */
  lemma OwnerChanges(a: seq<Element>, b: seq<Element>, point: nat, was: Element, now: Element)
    requires DistinctPoints(a + b) && Owns(a, point, was) && Owns(b, point, now) && was != now
    ensures was !in b || now !in a
  {
    assert was in a + b && now in a + b;
  }

  lemma StaysUnlessDisturbed(hash: Hash, group: seq<Member>, i: nat, x: Member, f: nat -> nat, g: nat -> nat,
                             point: nat, was: Element, now: Element)
    requires i <= |group| && !Disturbs(group, f, g)
    requires DistinctPoints(Population(hash, group, f) + Population(hash, Inserted(group, i, x), g))
    requires Owns(Population(hash, group, f), point, was)
             && Owns(Population(hash, Inserted(group, i, x), g), point, now)
    ensures now.value == was.value || now.value == x.name
  {
    var joined := Inserted(group, i, x);
    var before, after := Population(hash, group, f), Population(hash, joined, g);
    if now.value != was.value && now.value != x.name {
      OwnerChanges(before, after, point, was, now);
      var m1, s1, q1 := Origin(hash, group, f, was);
      var m2, s2, q2 := Origin(hash, joined, g, now);
      JoinedMembers(group, i, x, m1);
      JoinedMembers(group, i, x, m2);
      if now !in before {
        var m := Gained(hash, joined, g, group, f, now);
        JoinedMembers(group, i, x, m);
        assert Disturbed(group, f, g, m, m1);
      } else {
        var m := Gained(hash, group, f, joined, g, was);
        JoinedMembers(group, i, x, m);
        assert Disturbed(group, f, g, m, m2);
      }
    }
  }

  // The other half: a digest that moves a key between two old members.

  lemma LeastOwns(elements: seq<Element>, e: Element)
    requires e in elements && e.point > 0 && forall x | x in elements :: e.point <= x.point
    ensures Owns(elements, 0, e)
  {
  }

  /** The ring owns key 0 by `next`, at point 2, when `low` is not in it. */
  lemma NextOwns(all: seq<Spot>, low: Spot, next: Spot, group: seq<Member>, share: nat -> nat, m: Member)
    requires m in group && share(m.weight) > 0 && next == Spot(m.name, 0, 0) != low
    requires forall o | o in group && o.name == low.name :: share(o.weight) <= low.step
    ensures Owns(Population(Digest(all, low, next), group, share), 0, Element(2, m.name))
  {
    var hash := Digest(all, low, next);
    var ring := Population(hash, group, share);
    Present(hash, group, share, m, 0);
    forall x | x in ring ensures 2 <= x.point {
      var o, step, quarter := Origin(hash, group, share, x);
      assert Spot(o.name, step, quarter) != low;
    }
    LeastOwns(ring, Element(2, m.name));
  }

  /** The ring owns key 0 by `low`, at point 1, when `low` is in it. */
  lemma LowOwns(all: seq<Spot>, low: Spot, next: Spot, group: seq<Member>, share: nat -> nat, m: Member)
    requires m in group && low.step < share(m.weight) && low.name == m.name && low.quarter == 0
    ensures Owns(Population(Digest(all, low, next), group, share), 0, Element(1, m.name))
  {
    var hash := Digest(all, low, next);
    var ring := Population(hash, group, share);
    Present(hash, group, share, m, low.step);
    forall x | x in ring ensures 1 <= x.point {
      var o, step, quarter := Origin(hash, group, share, x);
    }
    LeastOwns(ring, Element(1, m.name));
  }

  lemma SeparateIsApart(hash: Hash, group: seq<Member>, f: nat -> nat, joined: seq<Member>, g: nat -> nat)
    requires Separates(hash, Spots(group, f) + Spots(joined, g))
    ensures DistinctPoints(Population(hash, group, f) + Population(hash, joined, g))
  {
    var rings := Population(hash, group, f) + Population(hash, joined, g);
    forall x, y | x in rings && y in rings && x.point == y.point ensures x == y {
      var t := SpotOf(hash, group, f, joined, g, x);
      var u := SpotOf(hash, group, f, joined, g, y);
    }
  }

  lemma SpotOf(hash: Hash, group: seq<Member>, f: nat -> nat, joined: seq<Member>, g: nat -> nat, e: Element)
    returns (t: Spot)
    requires e in Population(hash, group, f) + Population(hash, joined, g)
    ensures t in Spots(group, f) + Spots(joined, g) && e == Element(hash(t.name, t.step, t.quarter), t.name)
  {
    if e in Population(hash, group, f) {
      var m, step, quarter := Origin(hash, group, f, e);
      t := Spot(m.name, step, quarter);
    } else {
      var m, step, quarter := Origin(hash, joined, g, e);
      t := Spot(m.name, step, quarter);
    }
  }

  /** A digest under which a key leaves one old member for another. */
  lemma MovingDigest(group: seq<Member>, i: nat, x: Member, f: nat -> nat, g: nat -> nat, limit: nat, m: Member,
                     other: Member)
    returns (hash: Hash)
    requires i <= |group| && DistinctNames(Inserted(group, i, x)) && Disturbed(group, f, g, m, other)
    requires |Spots(group, f)| + |Spots(Inserted(group, i, x), g)| + 4 <= limit
    ensures Apart(hash, limit, group, f, Inserted(group, i, x), g)
    ensures !Stays(hash, group, f, Inserted(group, i, x), g, x.name)
  {
    var joined := Inserted(group, i, x);
    var all := Spots(group, f) + Spots(joined, g);
    var gains := g(m.weight) > f(m.weight);
    var low, next := Spot(m.name, if gains then f(m.weight) else g(m.weight), 0), Spot(other.name, 0, 0);
    hash := Digest(all, low, next);
    DigestSeparates(all, low, next);
    SeparateIsApart(hash, group, f, joined, g);
    JoinedMembers(group, i, x, m);
    JoinedMembers(group, i, x, other);
    NewName(group, i, x, m);
    NewName(group, i, x, other);
    forall o | o in joined && o.name == m.name ensures o == m { SameName(joined, o, m); }
    forall o | o in group && o.name == m.name ensures o == m { JoinedMembers(group, i, x, o); }
    var was, now := Element(if gains then 2 else 1, if gains then other.name else m.name),
                    Element(if gains then 1 else 2, if gains then m.name else other.name);
    if gains {
      NextOwns(all, low, next, group, f, other);
      LowOwns(all, low, next, joined, g, m);
    } else {
      LowOwns(all, low, next, group, f, m);
      NextOwns(all, low, next, joined, g, other);
    }
    assert Owns(Population(hash, group, f), 0, was) && Owns(Population(hash, joined, g), 0, now);
  }

  lemma NewName(group: seq<Member>, i: nat, x: Member, m: Member)
    requires i <= |group| && DistinctNames(Inserted(group, i, x)) && m in group
    ensures m.name != x.name
  {
    var joined := Inserted(group, i, x);
    assert joined[i] == x;
    var k :| 0 <= k < |group| && group[k] == m;
    assert joined[if k < i then k else k + 1] == m;
  }

  /**
   The exact condition for consistent hashing: every digest with distinct points leaves each key
   where it was or gives it to the newcomer if and only if no member gains a step while another
   had points or loses one while another has points.
   */
  lemma KeysStayIff(group: seq<Member>, i: nat, x: Member, f: nat -> nat, g: nat -> nat, limit: nat)
    requires i <= |group| && DistinctNames(Inserted(group, i, x))
    requires |Spots(group, f)| + |Spots(Inserted(group, i, x), g)| + 4 <= limit
    ensures (forall hash | Apart(hash, limit, group, f, Inserted(group, i, x), g) ::
               Stays(hash, group, f, Inserted(group, i, x), g, x.name)) <==> !Disturbs(group, f, g)
  {
    var joined := Inserted(group, i, x);
    if Disturbs(group, f, g) {
      var m, other :| Disturbed(group, f, g, m, other);
      var hash := MovingDigest(group, i, x, f, g, limit, m, other);
    } else {
      forall hash | Apart(hash, limit, group, f, joined, g) ensures Stays(hash, group, f, joined, g, x.name) {
        forall point, was, now
          | Owns(Population(hash, group, f), point, was) && Owns(Population(hash, joined, g), point, now)
          ensures now.value == was.value || now.value == x.name
        {
          StaysUnlessDisturbed(hash, group, i, x, f, g, point, was, now);
        }
      }
    }
  }

  /** Two members have points both before and after. */
  ghost predicate TwoPresent(group: seq<Member>, f: nat -> nat, g: nat -> nat)
  {
    exists a, b :: BothPresent(group, f, g, a, b)
  }

  ghost predicate BothPresent(group: seq<Member>, f: nat -> nat, g: nat -> nat, a: Member, b: Member)
  {
    && a in group && b in group && a.name != b.name
    && f(a.weight) > 0 && g(a.weight) > 0 && f(b.weight) > 0 && g(b.weight) > 0
  }

  /** With two members on both rings that is: if and only if no share but the newcomer's changes. */
  lemma DisturbedIffShareChanges(group: seq<Member>, f: nat -> nat, g: nat -> nat)
    requires TwoPresent(group, f, g)
    ensures Disturbs(group, f, g) <==> !KeepsShares(group, f, g)
  {
    var a, b :| BothPresent(group, f, g, a, b);
    if !KeepsShares(group, f, g) {
      var m :| m in group && f(m.weight) != g(m.weight);
      assert Disturbed(group, f, g, m, if m.name == a.name then b else a);
    }
  }

  /** So for weights: the keys are safe exactly when each old step count is still the rounded share. */
  lemma JoinExact(group: seq<Member>, i: nat, x: Member, f: nat -> nat, g: nat -> nat, limit: nat)
    requires i <= |group| && DistinctNames(Inserted(group, i, x))
    requires SharesOf(f, group) && SharesOf(g, Inserted(group, i, x)) && TwoPresent(group, f, g)
    requires |Spots(group, f)| + |Spots(Inserted(group, i, x), g)| + 4 <= limit
    ensures (forall hash | Apart(hash, limit, group, f, Inserted(group, i, x), g) ::
               Stays(hash, group, f, Inserted(group, i, x), g, x.name)) <==>
            forall m | m in group :: StillRounded(m.weight, TotalWeight(group), |group|, x.weight)
  {
    KeysStayIff(group, i, x, f, g, limit);
    DisturbedIffShareChanges(group, f, g);
    SharesKeptIff(group, i, x, f, g);
  }

  /** What holds of the population holds of the sorted ring. */
  lemma RingOwners(ring: seq<Element>, hash: Hash, group: seq<Member>, share: nat -> nat, point: nat, e: Element)
    requires RingOf(ring, hash, group, share)
    ensures Owns(ring, point, e) <==> Owns(Population(hash, group, share), point, e)
  {
    var all := Population(hash, group, share);
    forall x ensures x in ring <==> x in all {
      assert x in ring <==> x in multiset(ring);
    }
  }

  // ---------------------------------------------------------------------------
  // Two groups.

  lemma GroupOfTwo(m: Member, o: Member, x: Member)
    ensures Inserted([m, o], 2, x) == [m, o, x]
    ensures TotalWeight([m, o]) == m.weight + o.weight
    ensures TotalWeight([m, o, x]) == m.weight + o.weight + x.weight
  {
    assert [m, o][1..] == [o] && [o][1..] == [] && [m, o, x][1..] == [o, x] && [o, x][1..] == [x] && [x][1..] == [];
    assert TotalWeight([o]) == o.weight && TotalWeight([x]) == x.weight && TotalWeight([o, x]) == o.weight + x.weight;
  }

  lemma SpotsCons(m: Member, rest: seq<Member>, share: nat -> nat)
    ensures |Spots([m] + rest, share)| == 4 * share(m.weight) + |Spots(rest, share)|
  {
    assert ([m] + rest)[1..] == rest;
  }

  lemma SpotsOfTwo(m: Member, o: Member, x: Member, f: nat -> nat, g: nat -> nat)
    ensures |Spots([m, o], f)| == 4 * f(m.weight) + 4 * f(o.weight)
    ensures |Spots([m, o, x], g)| == 4 * g(m.weight) + 4 * g(o.weight) + 4 * g(x.weight)
  {
    SpotsCons(o, [], f);
    SpotsCons(m, [o], f);
    SpotsCons(x, [], g);
    SpotsCons(o, [x], g);
    SpotsCons(m, [o, x], g);
    assert [m] + [o] == [m, o] && [o] + [x] == [o, x] && [m] + [o, x] == [m, o, x];
  }

  /** The shares of a group of two, without and with a newcomer. */
  lemma SharesOfTwo(m: Member, o: Member, x: Member, f: nat -> nat, g: nat -> nat, w: nat)
    requires SharesOf(f, [m, o]) && SharesOf(g, Inserted([m, o], 2, x))
    ensures m.weight + o.weight > 0
    ensures f(w) == Steps(w, m.weight + o.weight, 2) && g(w) == Steps(w, m.weight + o.weight + x.weight, 3)
  {
    GroupOfTwo(m, o, x);
    assert Allots(f, w, m.weight + o.weight, 2) && Allots(g, w, m.weight + o.weight + x.weight, 3);
  }

  lemma SharesOneThree(m: Member, o: Member, x: Member, f: nat -> nat, g: nat -> nat)
    requires m.weight == 1 && o.weight == 3 && x.weight == 4
    requires SharesOf(f, [m, o]) && SharesOf(g, Inserted([m, o], 2, x))
    ensures f(1) == 32 && g(1) == 24 && f(3) == 96 && g(3) == 72 && g(4) == 96
  {
    SharesOfTwo(m, o, x, f, g, 1);
    SharesOfTwo(m, o, x, f, g, 3);
    SharesOfTwo(m, o, x, f, g, 4);
  }

  /** Weights 1 and 3 joined by 4: shares drop from 32 and 96 to 24 and 72, and some digest moves a key. */
  lemma OneThreeFour(m: Member, o: Member, x: Member, f: nat -> nat, g: nat -> nat) returns (hash: Hash)
    requires m.weight == 1 && o.weight == 3 && x.weight == 4
    requires m.name != o.name && m.name != x.name && o.name != x.name
    requires SharesOf(f, [m, o]) && SharesOf(g, Inserted([m, o], 2, x))
    ensures f(1) == 32 && g(1) == 24 && f(3) == 96 && g(3) == 72
    ensures Apart(hash, 0x1_0000_0000, [m, o], f, Inserted([m, o], 2, x), g)
    ensures !Stays(hash, [m, o], f, Inserted([m, o], 2, x), g, x.name)
  {
    SharesOneThree(m, o, x, f, g);
    hash := MovesOne(m, o, x, f, g);
  }

  lemma MovesOne(m: Member, o: Member, x: Member, f: nat -> nat, g: nat -> nat) returns (hash: Hash)
    requires m.name != o.name && m.name != x.name && o.name != x.name
    requires g(m.weight) < f(m.weight) < 0x800_0000 && 0 < g(o.weight) < 0x800_0000
    requires f(o.weight) < 0x800_0000 && g(x.weight) < 0x800_0000
    ensures Apart(hash, 0x1_0000_0000, [m, o], f, Inserted([m, o], 2, x), g)
    ensures !Stays(hash, [m, o], f, Inserted([m, o], 2, x), g, x.name)
  {
    GroupOfTwo(m, o, x);
    SpotsOfTwo(m, o, x, f, g);
    var group := [m, o];
    assert group[0] == m && group[1] == o;
    assert Disturbed(group, f, g, m, o);
    hash := MovingDigest(group, 2, x, f, g, 0x1_0000_0000, m, o);
  }

  /** Weights 1000 and 1000 joined by 1001, not the mean: both shares stay at 64. */
  lemma NearMeanKeeps(m: Member, o: Member, x: Member, f: nat -> nat, g: nat -> nat)
    requires m.weight == o.weight == 1000 && x.weight == 1001
    requires SharesOf(f, [m, o]) && SharesOf(g, Inserted([m, o], 2, x))
    ensures !IsMean([m, o], x) && f(1000) == 64 && KeepsShares([m, o], f, g)
  {
    GroupOfTwo(m, o, x);
    SharesOfTwo(m, o, x, f, g, 1000);
    assert Steps(1000, 2000, 2) == 64 && Steps(1000, 3001, 3) == 64;
  }
}
