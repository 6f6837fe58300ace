/** m_graph in graph.py: the sampled bending-moment diagram of a beam under
    point loads and applied couples, with the annotated critical points.
    The functions state what each phase computes; the methods do it the way
    graph.py does, on an array of moments and a map of critical points. */
module MomentGraph {
  import opened Loads
  import opened Superposition
  import opened Sampling

  /** The first sample beyond a load was asked for, but no sample lies
      beyond the load at this position. */
  datatype Error = IndexError(pos: real)

  datatype Result<T> = Ok(value: T) | Err(error: Error)

  /** The running state of m_graph: the sampled moments and the critical points. */
  datatype Phase = Phase(moments: seq<real>, critical: map<real, real>)

  /** What m_graph plots: the curve (positions, moments) and the critical-point labels. */
  datatype Diagram = Diagram(positions: seq<real>, moments: seq<real>, critical: map<real, real>)

  function Zeros(n: nat): (r: seq<real>)
    ensures |r| == n && forall i :: 0 <= i < n ==> r[i] == 0.0
  {
    seq(n, _ => 0.0)
  }

  /** The first loop of m_graph over the given loads: for each load at p,
      record the moment at the first sample beyond p under key p, then add
      its ramp; fail when no sample lies beyond p. */
  function LoadPhase(xs: seq<real>, st: Phase, loads: seq<Load>): (r: Result<Phase>)
    requires |st.moments| == |xs|
    ensures r.Ok? ==> |r.value.moments| == |xs|
    ensures r.Err? ==> r.error.pos in Positions(loads) && FirstAbove(xs, r.error.pos) == |xs|
    decreases |loads|
  {
    if loads == [] then Ok(st)
    else
      var p := loads[0].pos;
      var j := FirstAbove(xs, p);
      if j == |xs| then Err(IndexError(p))
      else LoadPhase(xs, Phase(Superimpose(PointLoad, xs, st.moments, loads[0]),
                               st.critical[p := st.moments[j]]), loads[1..])
  }

  /** How one couple c changes the critical points: a key beyond c gains its
      magnitude; the key at c's own position gains it only when the stored
      value and the magnitude have the same strict sign. */
  function CoupleOnCritical(crit: map<real, real>, c: Load): (r: map<real, real>)
    ensures r.Keys == crit.Keys
    ensures forall k :: k in crit && k < c.pos ==> r[k] == crit[k]
    ensures forall k :: k in crit && c.pos < k ==> r[k] == crit[k] + c.mag
    ensures c.pos in crit ==>
      r[c.pos] == if crit[c.pos] * c.mag > 0.0 then crit[c.pos] + c.mag else crit[c.pos]
  {
    map k | k in crit :: if c.pos < k || (k == c.pos && crit[k] * c.mag > 0.0) then crit[k] + c.mag else crit[k]
  }

  /** The second loop of m_graph: each couple adds its step to the moments
      and adjusts the critical points. */
  function CouplePhase(xs: seq<real>, st: Phase, couples: seq<Load>): (r: Phase)
    requires |st.moments| == |xs|
    ensures |r.moments| == |xs|
    decreases |couples|
  {
    if couples == [] then st
    else CouplePhase(xs, Phase(Superimpose(Couple, xs, st.moments, couples[0]),
                               CoupleOnCritical(st.critical, couples[0])), couples[1..])
  }

  /** m_graph without the plotting: the load loop over all sorted loads but
      the last, the label at 0 dropped, then the couple loop. On success
      the curve is drawn at the n linspace positions, one moment each; a
      failure names a visited load with no sample beyond it. */
  function MomentDiagram(fpos: seq<real>, f: seq<real>, bpos: seq<real>, b: seq<real>,
                         l: real, n: nat): (r: Result<Diagram>)
    ensures r.Ok? ==> r.value.positions == Linspace(l, n) && |r.value.moments| == n
    ensures r.Err? ==> r.error.pos in Positions(Processed(Prepare(fpos, f)))
    ensures r.Err? ==> FirstAbove(Linspace(l, n), r.error.pos) == n
  {
    var xs := Linspace(l, n);
    match LoadPhase(xs, Phase(Zeros(n), map[]), Processed(Prepare(fpos, f)))
    case Err(e) => Err(e)
    case Ok(st) =>
      var fin := CouplePhase(xs, Phase(st.moments, st.critical - {0.0}), Prepare(bpos, b));
      Ok(Diagram(xs, fin.moments, fin.critical))
  }

  /** Adds the load's ramp, in place, to every sample strictly beyond its position. */
  method AddRamp(xs: seq<real>, m: array<real>, load: Load)
    requires m.Length == |xs|
    modifies m
    ensures m[..] == Superimpose(PointLoad, xs, old(m[..]), load)
  {
    var i := 0;
    while i < m.Length
      invariant 0 <= i <= m.Length
      invariant forall k :: 0 <= k < i ==> m[k] == Superimpose(PointLoad, xs, old(m[..]), load)[k]
      invariant forall k :: i <= k < m.Length ==> m[k] == old(m[k])
    {
      if xs[i] > load.pos {
        m[i] := m[i] + (xs[i] - load.pos) * load.mag;
      }
      i := i + 1;
    }
  }

  /** Adds the couple's magnitude, in place, to every sample at or beyond its position. */
  method AddStep(xs: seq<real>, m: array<real>, couple: Load)
    requires m.Length == |xs|
    modifies m
    ensures m[..] == Superimpose(Couple, xs, old(m[..]), couple)
  {
    var i := 0;
    while i < m.Length
      invariant 0 <= i <= m.Length
      invariant forall k :: 0 <= k < i ==> m[k] == Superimpose(Couple, xs, old(m[..]), couple)[k]
      invariant forall k :: i <= k < m.Length ==> m[k] == old(m[k])
    {
      if xs[i] >= couple.pos {
        m[i] := m[i] + couple.mag;
      }
      i := i + 1;
    }
  }

  /** Visits every key of the critical points once and shifts it by one couple. */
  method ShiftCritical(crit: map<real, real>, couple: Load) returns (r: map<real, real>)
    ensures r == CoupleOnCritical(crit, couple)
  {
    r := crit;
    var todo := crit.Keys;
    while todo != {}
      invariant todo <= crit.Keys && r.Keys == crit.Keys
      invariant forall k :: k in crit && k !in todo ==> r[k] == CoupleOnCritical(crit, couple)[k]
      invariant forall k :: k in todo ==> r[k] == crit[k]
      decreases todo
    {
      var k :| k in todo;
      if k > couple.pos {
        r := r[k := r[k] + couple.mag];
      } else if k == couple.pos {
        if r[k] * couple.mag > 0.0 {
          r := r[k := r[k] + couple.mag];
        }
      }
      todo := todo - {k};
    }
  }

  /** The first loop of m_graph: for each visited load, record the moment at
      the first sample beyond it, then add its ramp to the array in place. */
  method ApplyLoads(xs: seq<real>, m: array<real>, loads: seq<Load>) returns (result: Result<map<real, real>>)
    requires m.Length == |xs|
    modifies m
    ensures result.Ok? ==> LoadPhase(xs, Phase(old(m[..]), map[]), loads) == Ok(Phase(m[..], result.value))
    ensures result.Err? ==> LoadPhase(xs, Phase(old(m[..]), map[]), loads) == Err(result.error)
  {
    ghost var start := Phase(m[..], map[]);
    var critical: map<real, real> := map[];
    var i := 0;
    while i < |loads|
      invariant 0 <= i <= |loads|
      invariant LoadPhase(xs, Phase(m[..], critical), loads[i..]) == LoadPhase(xs, start, loads)
    {
      var p := loads[i].pos;
      var j := FirstAbove(xs, p);
      assert loads[i..][0] == loads[i];
      if j == |xs| {
        return Err(IndexError(p));
      }
      critical := critical[p := m[j]];
      AddRamp(xs, m, loads[i]);
      assert loads[i..][1..] == loads[i + 1..];
      i := i + 1;
    }
    assert loads[i..] == [];
    return Ok(critical);
  }

  /** The second loop of m_graph: each couple adds its step to the array in
      place and shifts the critical points. */
  method ApplyCouples(xs: seq<real>, m: array<real>, critical: map<real, real>, couples: seq<Load>)
    returns (r: map<real, real>)
    requires m.Length == |xs|
    modifies m
    ensures CouplePhase(xs, Phase(old(m[..]), critical), couples) == Phase(m[..], r)
  {
    ghost var start := Phase(m[..], critical);
    r := critical;
    var k := 0;
    while k < |couples|
      invariant 0 <= k <= |couples|
      invariant CouplePhase(xs, Phase(m[..], r), couples[k..]) == CouplePhase(xs, start, couples)
    {
      ghost var before := Phase(m[..], r);
      AddStep(xs, m, couples[k]);
      r := ShiftCritical(r, couples[k]);
      assert couples[k..][0] == couples[k] && couples[k..][1..] == couples[k + 1..];
      assert Phase(m[..], r)
          == Phase(Superimpose(Couple, xs, before.moments, couples[k]), CoupleOnCritical(before.critical, couples[k]));
      k := k + 1;
    }
    assert couples[k..] == [];
  }

  /** m_graph: both loops over an array of moments and a map of critical points. */
  method MGraph(fpos: seq<real>, f: seq<real>, bpos: seq<real>, b: seq<real>, l: real, n: nat)
    returns (result: Result<Diagram>)
    ensures result == MomentDiagram(fpos, f, bpos, b, l, n)
  {
    var forces := Prepare(fpos, f);
    var bends := Prepare(bpos, b);
    var xs := Linspace(l, n);
    var m := new real[n](_ => 0.0);
    assert m[..] == Zeros(n);
    var loaded := ApplyLoads(xs, m, Processed(forces));
    if loaded.Err? {
      return Err(loaded.error);
    }
    var critical := loaded.value;
    assert critical - {0.0} == if 0.0 in critical then critical - {0.0} else critical;
    if 0.0 in critical {
      critical := critical - {0.0};
    }
    critical := ApplyCouples(xs, m, critical, bends);
    return Ok(Diagram(xs, m[..], critical));
  }
}
