/** Point loads and couples as graph.py's m_graph prepares them: positions are
    zipped with magnitudes, the pairs are sorted by position with Python's
    stable sort, and every magnitude is divided by 1000. */
module Loads {

  /** One (position, magnitude) pair. m_graph builds such pairs for point
      loads and for applied couples alike. */
  datatype Load = Load(pos: real, mag: real)

  function Min(a: nat, b: nat): (r: nat)
    ensures r <= a && r <= b && (r == a || r == b)
  {
    if a <= b then a else b
  }

  /** Python's zip: pairs positions with magnitudes, stopping at the shorter list. */
  function Zip(ps: seq<real>, ms: seq<real>): (r: seq<Load>)
    ensures |r| == Min(|ps|, |ms|)
    ensures forall i :: 0 <= i < |r| ==> r[i] == Load(ps[i], ms[i])
  {
    if ps == [] || ms == [] then [] else [Load(ps[0], ms[0])] + Zip(ps[1..], ms[1..])
  }

  predicate SortedByPos(s: seq<Load>) {
    forall i, j :: 0 <= i < j < |s| ==> s[i].pos <= s[j].pos
  }

  /** Inserts e in front of the first element whose position is not smaller,
      so that e ends up before every element at its own position. */
  function Insert(e: Load, t: seq<Load>): (r: seq<Load>)
    ensures |r| == |t| + 1
    ensures multiset(r) == multiset(t) + multiset{e}
  {
    if t == [] || e.pos <= t[0].pos then [e] + t
    else
      assert t == [t[0]] + t[1..];
      [t[0]] + Insert(e, t[1..])
  }

  /** The loads ordered by position; loads at the same position keep their
      input order (a stable sort). */
  function SortByPos(s: seq<Load>): (r: seq<Load>)
    ensures |r| == |s|
    ensures multiset(r) == multiset(s)
  {
    if s == [] then []
    else
      assert s == [s[0]] + s[1..];
      Insert(s[0], SortByPos(s[1..]))
  }

  lemma {:induction false} InsertSorted(e: Load, t: seq<Load>)
    requires SortedByPos(t)
    ensures SortedByPos(Insert(e, t))
  {
    if t != [] && e.pos > t[0].pos {
      var rest := Insert(e, t[1..]);
      InsertSorted(e, t[1..]);
      forall i | 0 <= i < |rest|
        ensures t[0].pos <= rest[i].pos
      {
        assert rest[i] in multiset(rest);
        if rest[i] != e {
          assert rest[i] in multiset(t[1..]);
          assert rest[i] in t[1..];
        }
      }
    }
  }

  /** The sorted list is ordered by position. */
  lemma {:induction false} SortByPosSorted(s: seq<Load>)
    ensures SortedByPos(SortByPos(s))
  {
    if s != [] {
      SortByPosSorted(s[1..]);
      InsertSorted(s[0], SortByPos(s[1..]));
    }
  }

  /** The loads at position k, in the order in which they appear in s. */
  function AtPosition(s: seq<Load>, k: real): (r: seq<Load>)
    ensures |r| <= |s|
    ensures forall i :: 0 <= i < |r| ==> r[i].pos == k && r[i] in s
  {
    if s == [] then []
    else (if s[0].pos == k then [s[0]] else []) + AtPosition(s[1..], k)
  }

  lemma {:induction false} AtPositionAppend(a: seq<Load>, b: seq<Load>, k: real)
    ensures AtPosition(a + b, k) == AtPosition(a, k) + AtPosition(b, k)
  {
    if a != [] {
      assert (a + b)[1..] == a[1..] + b;
      AtPositionAppend(a[1..], b, k);
    } else {
      assert a + b == b;
    }
  }

  lemma AtPositionSingle(e: Load, k: real)
    ensures AtPosition([e], k) == if e.pos == k then [e] else []
  {
    assert [e][1..] == [];
  }

  lemma {:induction false} InsertAtPosition(e: Load, t: seq<Load>, k: real)
    ensures AtPosition(Insert(e, t), k) == AtPosition([e], k) + AtPosition(t, k)
  {
    if t == [] || e.pos <= t[0].pos {
      AtPositionAppend([e], t, k);
    } else {
      var rest := Insert(e, t[1..]);
      assert Insert(e, t) == [t[0]] + rest;
      assert [t[0]] + t[1..] == t;
      InsertAtPosition(e, t[1..], k);
      AtPositionAppend([t[0]], rest, k);
      AtPositionAppend([t[0]], t[1..], k);
      AtPositionCommute(t[0], e, k, AtPosition(t[1..], k));
    }
  }

  /** Two loads at different positions cannot both be kept, so their order does not matter. */
  lemma AtPositionCommute(a: Load, b: Load, k: real, rest: seq<Load>)
    requires a.pos != b.pos
    ensures AtPosition([a], k) + (AtPosition([b], k) + rest) == AtPosition([b], k) + (AtPosition([a], k) + rest)
  {
    AtPositionSingle(a, k);
    AtPositionSingle(b, k);
  }

  /** Stability: among the loads sharing a position, the sort keeps the input order. */
  lemma {:induction false} SortByPosStable(s: seq<Load>, k: real)
    ensures AtPosition(SortByPos(s), k) == AtPosition(s, k)
  {
    if s != [] {
      assert SortByPos(s) == Insert(s[0], SortByPos(s[1..]));
      SortByPosStable(s[1..], k);
      InsertAtPosition(s[0], SortByPos(s[1..]), k);
      AtPositionAppend([s[0]], s[1..], k);
      assert [s[0]] + s[1..] == s;
    }
  }

  /** Divides every magnitude by 1000 and keeps the positions. */
  function Scale(s: seq<Load>): (r: seq<Load>)
    ensures |r| == |s|
    ensures forall i :: 0 <= i < |s| ==> r[i].pos == s[i].pos && r[i].mag * 1000.0 == s[i].mag
  {
    seq(|s|, i requires 0 <= i < |s| => Load(s[i].pos, s[i].mag / 1000.0))
  }

  /** The list m_graph works on: zipped, stably sorted by position, scaled by 1/1000. */
  function Prepare(ps: seq<real>, ms: seq<real>): (r: seq<Load>)
    ensures |r| == Min(|ps|, |ms|)
    ensures SortedByPos(r)
  {
    SortByPosSorted(Zip(ps, ms));
    Scale(SortByPos(Zip(ps, ms)))
  }

  /** The loads the first loop of m_graph visits: every load but the last
      one, and none for an empty list. */
  function Processed(s: seq<Load>): (r: seq<Load>)
    ensures s == [] ==> r == []
    ensures s != [] ==> r + [s[|s| - 1]] == s
  {
    if s == [] then [] else s[..|s| - 1]
  }

  /** The set of positions that occur in s. */
  function Positions(s: seq<Load>): (ks: set<real>)
    ensures forall i :: 0 <= i < |s| ==> s[i].pos in ks
    ensures forall k :: k in ks ==> exists i :: 0 <= i < |s| && s[i].pos == k
  {
    set i | 0 <= i < |s| :: s[i].pos
  }
}
