/**
 The tournament standings table: the horses ordered by descending
 tournament points, horses with equal points keeping their field order
 (the host's array sort is stable).
 */
module Standings {
  import opened Types

  /** Points never increase down the table. */
  predicate Descending(s: seq<Horse>)
  {
    forall i, j :: 0 <= i < j < |s| ==> s[i].tournamentPoints >= s[j].tournamentPoints
  }

  /** The horses of `s` holding exactly `p` points, in their order in `s`. */
  function WithPoints(s: seq<Horse>, p: int): seq<Horse>
  {
    if s == [] then []
    else (if s[0].tournamentPoints == p then [s[0]] else []) + WithPoints(s[1..], p)
  }

  /**
   Puts `h` into a descending table, ahead of every horse with no more points
   than it: `h` comes earlier in the field than all of them.
   */
  function Insert(h: Horse, t: seq<Horse>): (r: seq<Horse>)
    requires Descending(t)
    ensures |r| == |t| + 1
    ensures r[0] == if t == [] || h.tournamentPoints >= t[0].tournamentPoints then h else t[0]
    ensures Descending(r)
    ensures multiset(r) == multiset(t) + multiset{h}
  {
    if t == [] || h.tournamentPoints >= t[0].tournamentPoints then
      [h] + t
    else
      var rest := Insert(h, t[1..]);
      ConsDescending(t[0], rest);
      ConsMultiset(t, h, rest);
      [t[0]] + rest
  }

  /** A horse with at least the points of a descending table's head can lead it. */
  lemma ConsDescending(x: Horse, rest: seq<Horse>)
    requires Descending(rest)
    requires rest != [] ==> rest[0].tournamentPoints <= x.tournamentPoints
    ensures Descending([x] + rest)
  {
    var r := [x] + rest;
    forall i, j | 0 <= i < j < |r|
      ensures r[i].tournamentPoints >= r[j].tournamentPoints
    {
      assert r[j] == rest[j - 1];
      if i > 0 {
        assert r[i] == rest[i - 1];
      } else if j > 1 {
        assert rest[0].tournamentPoints >= rest[j - 1].tournamentPoints;
      }
    }
  }

  lemma ConsMultiset(t: seq<Horse>, h: Horse, rest: seq<Horse>)
    requires t != []
    requires multiset(rest) == multiset(t[1..]) + multiset{h}
    ensures multiset([t[0]] + rest) == multiset(t) + multiset{h}
  {
    assert t == [t[0]] + t[1..];
    assert multiset(t) == multiset{t[0]} + multiset(t[1..]);
    assert multiset([t[0]] + rest) == multiset{t[0]} + multiset(rest);
  }

  /** The group of `p` in a table led by `x`. */
  lemma WithPointsCons(x: Horse, s: seq<Horse>, p: int)
    ensures WithPoints([x] + s, p) == (if x.tournamentPoints == p then [x] else []) + WithPoints(s, p)
  {
    assert ([x] + s)[1..] == s;
  }

  /** Insertion keeps each group of equal points in order, `h` at the head of its own group. */
  lemma {:induction false} InsertKeepsGroups(h: Horse, t: seq<Horse>, p: int)
    requires Descending(t)
    ensures WithPoints(Insert(h, t), p) == (if h.tournamentPoints == p then [h] else []) + WithPoints(t, p)
  {
    if t == [] || h.tournamentPoints >= t[0].tournamentPoints {
      WithPointsCons(h, t, p);
    } else {
      var rest := Insert(h, t[1..]);
      InsertKeepsGroups(h, t[1..], p);
      var x0 := if t[0].tournamentPoints == p then [t[0]] else [];
      var xh := if h.tournamentPoints == p then [h] else [];
      var tail := WithPoints(t[1..], p);
      WithPointsCons(t[0], rest, p);
      WithPointsCons(t[0], t[1..], p);
      assert t == [t[0]] + t[1..];
      // `t[0]` has more points than `h`, so at most one of them is in the group
      assert x0 == [] || xh == [];
      assert x0 + (xh + tail) == xh + (x0 + tail);
    }
  }

  /** The standings table of a field of horses. */
  function Table(hs: seq<Horse>): (r: seq<Horse>)
    ensures Descending(r)
    ensures |r| == |hs|
    ensures multiset(r) == multiset(hs)
  {
    if hs == [] then []
    else
      assert hs == [hs[0]] + hs[1..];
      Insert(hs[0], Table(hs[1..]))
  }

  /** The table is stable: horses with equal points appear in field order. */
  lemma {:induction false} TableIsStable(hs: seq<Horse>, p: int)
    ensures WithPoints(Table(hs), p) == WithPoints(hs, p)
  {
    if hs != [] {
      TableIsStable(hs[1..], p);
      InsertKeepsGroups(hs[0], Table(hs[1..]), p);
    }
  }

  /** Nobody in a descending table has more points than its head. */
  lemma {:induction false} NoneAboveHead(r: seq<Horse>, p: int)
    requires Descending(r) && r != [] && p > r[0].tournamentPoints
    ensures WithPoints(r, p) == []
  {
    if |r| > 1 {
      NoneAboveHead(r[1..], p);
    } else {
      assert r[1..] == [];
    }
  }

  /** The head of a table is the first of the horses with its points. */
  lemma HeadHeadsItsGroup(r: seq<Horse>)
    requires r != []
    ensures WithPoints(r, r[0].tournamentPoints) != [] && WithPoints(r, r[0].tournamentPoints)[0] == r[0]
  {
  }

  /**
   Ordering by points and keeping every group of equal points in order
   leaves exactly one arrangement.
   */
  lemma {:induction false} SameGroupsSameTable(r1: seq<Horse>, r2: seq<Horse>)
    requires Descending(r1) && Descending(r2)
    requires forall p :: WithPoints(r1, p) == WithPoints(r2, p)
    ensures r1 == r2
  {
    if r1 == [] || r2 == [] {
      if r1 != [] {
        HeadHeadsItsGroup(r1);
        assert false;
      } else if r2 != [] {
        HeadHeadsItsGroup(r2);
        assert false;
      }
    } else {
      var a, b := r1[0].tournamentPoints, r2[0].tournamentPoints;
      if a > b {
        NoneAboveHead(r2, a);
        HeadHeadsItsGroup(r1);
      } else if b > a {
        NoneAboveHead(r1, b);
        HeadHeadsItsGroup(r2);
      } else {
        HeadHeadsItsGroup(r1);
        HeadHeadsItsGroup(r2);
        forall p
          ensures WithPoints(r1[1..], p) == WithPoints(r2[1..], p)
        {
          var x := if a == p then [r1[0]] else [];
          assert WithPoints(r1, p) == x + WithPoints(r1[1..], p);
          assert WithPoints(r2, p) == x + WithPoints(r2[1..], p);
          assert (x + WithPoints(r1[1..], p))[|x|..] == WithPoints(r1[1..], p);
          assert (x + WithPoints(r2[1..], p))[|x|..] == WithPoints(r2[1..], p);
        }
        SameGroupsSameTable(r1[1..], r2[1..]);
        assert r1 == [r1[0]] + r1[1..] && r2 == [r2[0]] + r2[1..];
      }
    }
  }

  /**
   The table is the descending order that keeps equal-points horses in field
   order: any arrangement with both properties is the table.
   */
  lemma TableIsTheStableOrder(hs: seq<Horse>, r: seq<Horse>)
    requires Descending(r)
    requires forall p :: WithPoints(r, p) == WithPoints(hs, p)
    ensures r == Table(hs)
  {
    forall p
      ensures WithPoints(r, p) == WithPoints(Table(hs), p)
    {
      TableIsStable(hs, p);
    }
    SameGroupsSameTable(r, Table(hs));
  }
}
