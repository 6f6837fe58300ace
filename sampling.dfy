/** The sample positions of the diagram, evenly spaced over the beam, and
    the search for the first sample beyond a load. */
module Sampling {

  predicate StrictlyIncreasing(xs: seq<real>) {
    forall i, j :: 0 <= i < j < |xs| ==> xs[i] < xs[j]
  }

  /** numpy's linspace from 0 to l in exact arithmetic: n evenly spaced positions
      from 0 to l, both ends included; one sample is [0], none is []. */
  function Linspace(l: real, n: nat): (xs: seq<real>)
    ensures |xs| == n
  {
    if n == 1 then [0.0]
    else seq(n, i requires 0 <= i < n => (i as real) * l / ((n - 1) as real))
  }

  lemma DivLess(a: real, b: real, d: real)
    requires a < b && d > 0.0
    ensures a / d < b / d
  {
    assert b / d - a / d == (b - a) / d;
  }

  lemma MulLess(i: real, j: real, l: real)
    requires i < j && l > 0.0
    ensures i * l < j * l
  {
    assert j * l - i * l == (j - i) * l;
  }

  lemma LinspaceAt(l: real, n: nat, i: nat)
    requires n >= 2 && i < n
    ensures Linspace(l, n)[i] == (i as real) * l / ((n - 1) as real)
  {
    var xs := Linspace(l, n);
    assert n != 1;
    assert |xs| == n;
    var d := (n - 1) as real;
    assert d > 0.0;
    assert xs[i] == (i as real) * l / d;
  }

  lemma LinspaceLast(l: real, n: nat)
    requires n >= 2
    ensures Linspace(l, n)[n - 1] == l
  {
    var d := (n - 1) as real;
    LinspaceAt(l, n, n - 1);
    assert d * l / d == l;
  }

  lemma LinspaceLess(l: real, n: nat, i: nat, j: nat)
    requires l > 0.0 && n >= 2 && i < j < n
    ensures Linspace(l, n)[i] < Linspace(l, n)[j]
  {
    LinspaceAt(l, n, i);
    LinspaceAt(l, n, j);
    MulLess(i as real, j as real, l);
    DivLess((i as real) * l, (j as real) * l, (n - 1) as real);
  }

  /** The samples start at 0, end at l, increase strictly and stay in [0, l]. */
  lemma LinspaceShape(l: real, n: nat)
    requires l > 0.0 && n >= 2
    ensures Linspace(l, n)[0] == 0.0 && Linspace(l, n)[n - 1] == l
    ensures StrictlyIncreasing(Linspace(l, n))
    ensures forall i :: 0 <= i < n ==> 0.0 <= Linspace(l, n)[i] <= l
  {
    var xs := Linspace(l, n);
    LinspaceAt(l, n, 0);
    LinspaceLast(l, n);
    forall i, j | 0 <= i < j < n
      ensures xs[i] < xs[j]
    {
      LinspaceLess(l, n, i, j);
    }
    forall i | 0 <= i < n
      ensures 0.0 <= xs[i] <= l
    {
      if 0 < i {
        LinspaceLess(l, n, 0, i);
      }
      if i < n - 1 {
        LinspaceLess(l, n, i, n - 1);
      }
    }
  }

  /** Index of the first sample strictly beyond p, or |xs| when there is none
      (then m_graph raises IndexError). */
  function FirstAbove(xs: seq<real>, p: real): (j: nat)
    ensures j <= |xs|
    ensures forall i :: 0 <= i < j ==> xs[i] <= p
    ensures j < |xs| ==> p < xs[j]
  {
    if xs == [] || p < xs[0] then 0 else 1 + FirstAbove(xs[1..], p)
  }

  /** On the linspace samples a position has a sample beyond it exactly when
      it lies before the end of the beam. */
  lemma FirstAboveLinspace(l: real, n: nat, p: real)
    requires l > 0.0 && n >= 2
    ensures FirstAbove(Linspace(l, n), p) < n <==> p < l
  {
    LinspaceShape(l, n);
    var j := FirstAbove(Linspace(l, n), p);
    if j == n {
      assert Linspace(l, n)[n - 1] <= p;
    }
  }
}
