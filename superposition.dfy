/** What one point load or one couple adds to the bending moment at a
    position, and the sum of such contributions over a list. */
module Superposition {
  import opened Loads

  /** A point load adds a ramp, an applied couple a step. */
  datatype Kind = PointLoad | Couple

  /** The moment e adds at x: a point load at p adds (x - p) * f at every
      position strictly beyond p; a couple at q adds its magnitude at every
      position from q on, q included. The ramp is zero at p itself, so
      whether p is in its range makes no difference. */
  function Contribution(kind: Kind, x: real, e: Load): (r: real)
    ensures x < e.pos ==> r == 0.0
    ensures kind == PointLoad && x == e.pos ==> r == 0.0
    ensures kind == Couple && e.pos <= x ==> r == e.mag
  {
    match kind
    case PointLoad => if e.pos < x then (x - e.pos) * e.mag else 0.0
    case Couple => if e.pos <= x then e.mag else 0.0
  }

  /** The sum of the contributions of all of s at x. */
  function Superpose(kind: Kind, x: real, s: seq<Load>): (r: real) {
    if s == [] then 0.0 else Contribution(kind, x, s[0]) + Superpose(kind, x, s[1..])
  }

  /** One masked update of the sampled moments: the contribution of e added
      at every sample position. */
  function Superimpose(kind: Kind, xs: seq<real>, ms: seq<real>, e: Load): (r: seq<real>)
    requires |ms| == |xs|
    ensures |r| == |xs|
    ensures kind == PointLoad ==>
      (forall i :: 0 <= i < |xs| && xs[i] <= e.pos ==> r[i] == ms[i]) &&
      (forall i :: 0 <= i < |xs| && e.pos < xs[i] ==> r[i] == ms[i] + (xs[i] - e.pos) * e.mag)
    ensures kind == Couple ==>
      (forall i :: 0 <= i < |xs| && xs[i] < e.pos ==> r[i] == ms[i]) &&
      (forall i :: 0 <= i < |xs| && e.pos <= xs[i] ==> r[i] == ms[i] + e.mag)
  {
    seq(|xs|, i requires 0 <= i < |xs| => ms[i] + Contribution(kind, xs[i], e))
  }

  /** Adding one more element at the end adds its contribution. */
  lemma {:induction false} SuperposeAppend(kind: Kind, x: real, s: seq<Load>, e: Load)
    ensures Superpose(kind, x, s + [e]) == Superpose(kind, x, s) + Contribution(kind, x, e)
  {
    if s == [] {
      assert [] + [e] == [e];
      assert [e][1..] == [];
    } else {
      assert (s + [e])[1..] == s[1..] + [e];
      SuperposeAppend(kind, x, s[1..], e);
    }
  }

  lemma {:induction false} SuperposeInsert(kind: Kind, x: real, e: Load, t: seq<Load>)
    ensures Superpose(kind, x, Insert(e, t)) == Contribution(kind, x, e) + Superpose(kind, x, t)
  {
    if t == [] || e.pos <= t[0].pos {
      assert ([e] + t)[1..] == t;
    } else {
      SuperposeInsert(kind, x, e, t[1..]);
      assert ([t[0]] + Insert(e, t[1..]))[1..] == Insert(e, t[1..]);
    }
  }

  /** Superposition does not depend on the order: sorting changes no sum. */
  lemma {:induction false} SuperposeSortByPos(kind: Kind, x: real, s: seq<Load>)
    ensures Superpose(kind, x, SortByPos(s)) == Superpose(kind, x, s)
  {
    if s != [] {
      SuperposeSortByPos(kind, x, s[1..]);
      SuperposeInsert(kind, x, s[0], SortByPos(s[1..]));
    }
  }

  lemma ContributionScale(kind: Kind, x: real, e: Load, e': Load)
    requires e'.pos == e.pos && e'.mag * 1000.0 == e.mag
    ensures Contribution(kind, x, e') * 1000.0 == Contribution(kind, x, e)
  {
    if kind == PointLoad && e.pos < x {
      calc {
        Contribution(kind, x, e') * 1000.0;
        (x - e.pos) * e'.mag * 1000.0;
        (x - e.pos) * (e'.mag * 1000.0);
      }
    }
  }

  /** Dividing every magnitude by 1000 divides the sum by 1000. */
  lemma {:induction false} SuperposeScale(kind: Kind, x: real, s: seq<Load>)
    ensures Superpose(kind, x, Scale(s)) * 1000.0 == Superpose(kind, x, s)
  {
    if s != [] {
      assert Scale(s)[1..] == Scale(s[1..]);
      SuperposeScale(kind, x, s[1..]);
      ContributionScale(kind, x, s[0], Scale(s)[0]);
    }
  }

  /** The first loop visits every load but the last, so exactly the last
      load's ramp is missing from the sum. */
  lemma LastLoadLeftOut(kind: Kind, x: real, s: seq<Load>)
    requires s != []
    ensures Superpose(kind, x, Processed(s)) + Contribution(kind, x, s[|s| - 1]) == Superpose(kind, x, s)
  {
    SuperposeAppend(kind, x, Processed(s), s[|s| - 1]);
  }
}
