/** What m_graph computes, stated in closed form: each sample is the
    superposition of the ramps of all point loads but the last and of the
    steps of all couples; the critical points are keyed by the visited load
    positions other than 0 and hold the pre-ramp snapshot adjusted by the
    couples. */
module MomentGraphFacts {
  import opened Loads
  import opened Superposition
  import opened Sampling
  import opened MomentGraph

  // ---------------------------------------------------------------------
  // The load loop

  /** After the load loop every sample holds its old value plus the ramps
      of the visited loads. */
  lemma {:induction false} LoadPhaseMoments(xs: seq<real>, st: Phase, loads: seq<Load>, fin: Phase)
    requires |st.moments| == |xs|
    requires LoadPhase(xs, st, loads) == Ok(fin)
    ensures |fin.moments| == |xs|
    ensures forall i :: 0 <= i < |xs| ==>
      fin.moments[i] == st.moments[i] + Superpose(PointLoad, xs[i], loads)
    decreases |loads|
  {
    if loads != [] {
      var p := loads[0].pos;
      var j := FirstAbove(xs, p);
      var next := Phase(Superimpose(PointLoad, xs, st.moments, loads[0]), st.critical[p := st.moments[j]]);
      LoadPhaseMoments(xs, next, loads[1..], fin);
    }
  }

  lemma PositionsCons(loads: seq<Load>)
    requires loads != []
    ensures Positions(loads) == {loads[0].pos} + Positions(loads[1..])
  {
    forall k | k in Positions(loads)
      ensures k in {loads[0].pos} + Positions(loads[1..])
    {
      var t :| 0 <= t < |loads| && loads[t].pos == k;
      if t > 0 {
        assert loads[1..][t - 1].pos == k;
      }
    }
    forall k | k in Positions(loads[1..])
      ensures k in Positions(loads)
    {
      var t :| 0 <= t < |loads[1..]| && loads[1..][t].pos == k;
      assert loads[t + 1].pos == k;
    }
  }

  /** The load loop adds one key per visited load position and removes none. */
  lemma {:induction false} LoadPhaseKeys(xs: seq<real>, st: Phase, loads: seq<Load>, fin: Phase)
    requires |st.moments| == |xs|
    requires LoadPhase(xs, st, loads) == Ok(fin)
    ensures fin.critical.Keys == st.critical.Keys + Positions(loads)
    decreases |loads|
  {
    if loads == [] {
      assert Positions(loads) == {};
    } else {
      var p := loads[0].pos;
      var j := FirstAbove(xs, p);
      var next := Phase(Superimpose(PointLoad, xs, st.moments, loads[0]), st.critical[p := st.moments[j]]);
      LoadPhaseKeys(xs, next, loads[1..], fin);
      PositionsCons(loads);
    }
  }

  /** A key at which no visited load sits keeps its value. */
  lemma {:induction false} LoadPhaseUntouched(xs: seq<real>, st: Phase, loads: seq<Load>, fin: Phase, k: real)
    requires |st.moments| == |xs|
    requires LoadPhase(xs, st, loads) == Ok(fin)
    requires k in st.critical && k !in Positions(loads)
    ensures k in fin.critical && fin.critical[k] == st.critical[k]
    decreases |loads|
  {
    if loads != [] {
      var p := loads[0].pos;
      var j := FirstAbove(xs, p);
      var next := Phase(Superimpose(PointLoad, xs, st.moments, loads[0]), st.critical[p := st.moments[j]]);
      PositionsCons(loads);
      LoadPhaseUntouched(xs, next, loads[1..], fin, k);
    }
  }

  /** The value kept under a load's position is the one recorded by the last
      load at that position: the moment at the first sample beyond it, taken
      before that load's own ramp is added. */
  lemma {:induction false} LoadPhaseSnapshot(xs: seq<real>, st: Phase, loads: seq<Load>, fin: Phase, t: nat)
    requires |st.moments| == |xs|
    requires LoadPhase(xs, st, loads) == Ok(fin)
    requires t < |loads|
    requires forall u :: t < u < |loads| ==> loads[u].pos != loads[t].pos
    ensures FirstAbove(xs, loads[t].pos) < |xs|
    ensures loads[t].pos in fin.critical
    ensures fin.critical[loads[t].pos]
         == st.moments[FirstAbove(xs, loads[t].pos)] + Superpose(PointLoad, xs[FirstAbove(xs, loads[t].pos)], loads[..t])
    decreases |loads|
  {
    var p := loads[0].pos;
    var j := FirstAbove(xs, p);
    var next := Phase(Superimpose(PointLoad, xs, st.moments, loads[0]), st.critical[p := st.moments[j]]);
    if t == 0 {
      forall u | 0 <= u < |loads[1..]|
        ensures loads[1..][u].pos != p
      {
        assert loads[1..][u] == loads[u + 1];
      }
      LoadPhaseUntouched(xs, next, loads[1..], fin, p);
    } else {
      LoadPhaseSnapshot(xs, next, loads[1..], fin, t - 1);
      var jt := FirstAbove(xs, loads[t].pos);
      assert loads[..t][1..] == loads[1..][..t - 1];
      assert loads[..t][0] == loads[0];
    }
  }

  /** The load loop fails exactly when some visited load has no sample beyond it. */
  lemma {:induction false} LoadPhaseFails(xs: seq<real>, st: Phase, loads: seq<Load>)
    requires |st.moments| == |xs|
    ensures LoadPhase(xs, st, loads).Err?
        <==> exists t :: 0 <= t < |loads| && FirstAbove(xs, loads[t].pos) == |xs|
    decreases |loads|
  {
    if loads != [] {
      var p := loads[0].pos;
      var j := FirstAbove(xs, p);
      if j < |xs| {
        var next := Phase(Superimpose(PointLoad, xs, st.moments, loads[0]), st.critical[p := st.moments[j]]);
        LoadPhaseFails(xs, next, loads[1..]);
        if exists t :: 0 <= t < |loads| && FirstAbove(xs, loads[t].pos) == |xs| {
          var t :| 0 <= t < |loads| && FirstAbove(xs, loads[t].pos) == |xs|;
          assert loads[1..][t - 1] == loads[t];
        }
        if exists t :: 0 <= t < |loads[1..]| && FirstAbove(xs, loads[1..][t].pos) == |xs| {
          var t :| 0 <= t < |loads[1..]| && FirstAbove(xs, loads[1..][t].pos) == |xs|;
          assert loads[t + 1] == loads[1..][t];
        }
      }
    }
  }

  // ---------------------------------------------------------------------
  // The couple loop

  /** A stored value and a couple's magnitude have a positive product exactly
      when both are strictly positive or both strictly negative. */
  lemma SameStrictSign(v: real, m: real)
    ensures v * m > 0.0 <==> (v > 0.0 && m > 0.0) || (v < 0.0 && m < 0.0)
  {
    if v > 0.0 && m < 0.0 {
      assert v * m == -(v * -m);
      assert v * -m > 0.0;
    } else if v < 0.0 && m > 0.0 {
      assert v * m == -(-v * m);
      assert -v * m > 0.0;
    } else if v < 0.0 && m < 0.0 {
      assert v * m == -v * -m;
    }
  }

  /** The tie-break for a key at the couple's own position: the magnitude is
      added only when stored value and magnitude are both strictly positive
      or both strictly negative; a zero on either side changes nothing. */
  lemma CoupleTieBreak(crit: map<real, real>, c: Load)
    requires c.pos in crit
    ensures CoupleOnCritical(crit, c)[c.pos]
         == if (crit[c.pos] > 0.0 && c.mag > 0.0) || (crit[c.pos] < 0.0 && c.mag < 0.0)
            then crit[c.pos] + c.mag else crit[c.pos]
  {
    SameStrictSign(crit[c.pos], c.mag);
  }

  /** After the couple loop every sample holds its old value plus the steps
      of all couples. */
  lemma {:induction false} CouplePhaseMoments(xs: seq<real>, st: Phase, couples: seq<Load>)
    requires |st.moments| == |xs|
    ensures forall i :: 0 <= i < |xs| ==>
      CouplePhase(xs, st, couples).moments[i] == st.moments[i] + Superpose(Couple, xs[i], couples)
    decreases |couples|
  {
    if couples != [] {
      var next := Phase(Superimpose(Couple, xs, st.moments, couples[0]), CoupleOnCritical(st.critical, couples[0]));
      CouplePhaseMoments(xs, next, couples[1..]);
    }
  }

  /** The couple loop never adds or removes a critical point. */
  lemma {:induction false} CouplePhaseKeys(xs: seq<real>, st: Phase, couples: seq<Load>)
    requires |st.moments| == |xs|
    ensures CouplePhase(xs, st, couples).critical.Keys == st.critical.Keys
    decreases |couples|
  {
    if couples != [] {
      var next := Phase(Superimpose(Couple, xs, st.moments, couples[0]), CoupleOnCritical(st.critical, couples[0]));
      CouplePhaseKeys(xs, next, couples[1..]);
    }
  }

  /** Away from a tie, a critical point gains exactly the step every couple
      puts at its position, the same step the curve gets there. */
  lemma {:induction false} CouplePhaseOffTie(xs: seq<real>, st: Phase, couples: seq<Load>, k: real)
    requires |st.moments| == |xs|
    requires k in st.critical
    requires forall u :: 0 <= u < |couples| ==> couples[u].pos != k
    ensures k in CouplePhase(xs, st, couples).critical
    ensures CouplePhase(xs, st, couples).critical[k] == st.critical[k] + Superpose(Couple, k, couples)
    decreases |couples|
  {
    if couples != [] {
      var next := Phase(Superimpose(Couple, xs, st.moments, couples[0]), CoupleOnCritical(st.critical, couples[0]));
      assert forall u :: 0 <= u < |couples[1..]| ==> couples[1..][u] == couples[u + 1];
      CouplePhaseOffTie(xs, next, couples[1..], k);
    }
  }

  // ---------------------------------------------------------------------
  // The whole of m_graph

  lemma ScaleKeepsPositions(s: seq<Load>)
    ensures Processed(Scale(s)) == Scale(Processed(s))
    ensures Positions(Scale(s)) == Positions(s)
  {
    if s != [] {
      ScaledPrefix(s, |s| - 1);
    }
    forall k | k in Positions(Scale(s))
      ensures k in Positions(s)
    {
      var i :| 0 <= i < |Scale(s)| && Scale(s)[i].pos == k;
      assert s[i].pos == k;
    }
    forall k | k in Positions(s)
      ensures k in Positions(Scale(s))
    {
      var i :| 0 <= i < |s| && s[i].pos == k;
      assert Scale(s)[i].pos == k;
    }
  }

  lemma ScaledPrefix(s: seq<Load>, t: nat)
    requires t <= |s|
    ensures Scale(s)[..t] == Scale(s[..t])
  {
  }

  /** Closed form of the curve: each sample x holds, times 1000, the ramps of
      all sorted point loads except the last one plus the steps of all
      couples, taken in any order. */
  lemma DiagramMoments(fpos: seq<real>, f: seq<real>, bpos: seq<real>, b: seq<real>, l: real, n: nat, d: Diagram)
    requires MomentDiagram(fpos, f, bpos, b, l, n) == Ok(d)
    ensures d.positions == Linspace(l, n) && |d.moments| == n
    ensures forall i :: 0 <= i < n ==>
      d.moments[i] * 1000.0
        == Superpose(PointLoad, d.positions[i], Processed(SortByPos(Zip(fpos, f))))
         + Superpose(Couple, d.positions[i], Zip(bpos, b))
  {
    var xs := Linspace(l, n);
    var forces := SortByPos(Zip(fpos, f));
    var st :| LoadPhase(xs, Phase(Zeros(n), map[]), Processed(Prepare(fpos, f))) == Ok(st);
    var st' := Phase(st.moments, st.critical - {0.0});
    LoadPhaseMoments(xs, Phase(Zeros(n), map[]), Processed(Prepare(fpos, f)), st);
    CouplePhaseMoments(xs, st', Prepare(bpos, b));
    ScaleKeepsPositions(forces);
    forall i | 0 <= i < n
      ensures d.moments[i] * 1000.0
        == Superpose(PointLoad, xs[i], Processed(forces)) + Superpose(Couple, xs[i], Zip(bpos, b))
    {
      SuperposeScale(PointLoad, xs[i], Processed(forces));
      SuperposeScale(Couple, xs[i], SortByPos(Zip(bpos, b)));
      SuperposeSortByPos(Couple, xs[i], Zip(bpos, b));
    }
  }

  /** The same closed form with the loads in input order: every point load
      contributes its ramp except the one that sorts last. */
  lemma DiagramMomentsAllButLast(fpos: seq<real>, f: seq<real>, bpos: seq<real>, b: seq<real>, l: real, n: nat, d: Diagram)
    requires MomentDiagram(fpos, f, bpos, b, l, n) == Ok(d)
    requires Zip(fpos, f) != []
    ensures |d.positions| == |d.moments| == n
    ensures forall i :: 0 <= i < n ==>
      d.moments[i] * 1000.0
        == Superpose(PointLoad, d.positions[i], Zip(fpos, f))
         - Contribution(PointLoad, d.positions[i], SortByPos(Zip(fpos, f))[|Zip(fpos, f)| - 1])
         + Superpose(Couple, d.positions[i], Zip(bpos, b))
  {
    DiagramMoments(fpos, f, bpos, b, l, n, d);
    var sorted := SortByPos(Zip(fpos, f));
    forall i | 0 <= i < n
      ensures Superpose(PointLoad, d.positions[i], Processed(sorted))
           == Superpose(PointLoad, d.positions[i], Zip(fpos, f))
            - Contribution(PointLoad, d.positions[i], sorted[|sorted| - 1])
    {
      LastLoadLeftOut(PointLoad, d.positions[i], sorted);
      SuperposeSortByPos(PointLoad, d.positions[i], Zip(fpos, f));
    }
  }

  /** The labelled positions are exactly the positions of the sorted loads
      other than the last one, with 0 left out. */
  lemma DiagramCriticalKeys(fpos: seq<real>, f: seq<real>, bpos: seq<real>, b: seq<real>, l: real, n: nat, d: Diagram)
    requires MomentDiagram(fpos, f, bpos, b, l, n) == Ok(d)
    ensures 0.0 !in d.critical
    ensures d.critical.Keys == Positions(Processed(SortByPos(Zip(fpos, f)))) - {0.0}
  {
    var xs := Linspace(l, n);
    var st :| LoadPhase(xs, Phase(Zeros(n), map[]), Processed(Prepare(fpos, f))) == Ok(st);
    LoadPhaseKeys(xs, Phase(Zeros(n), map[]), Processed(Prepare(fpos, f)), st);
    CouplePhaseKeys(xs, Phase(st.moments, st.critical - {0.0}), Prepare(bpos, b));
    ScaleKeepsPositions(SortByPos(Zip(fpos, f)));
    ScaleKeepsPositions(Processed(SortByPos(Zip(fpos, f))));
  }

  /** The two loops of m_graph, spelled out for a run that did not fail. */
  lemma DiagramUnfold(fpos: seq<real>, f: seq<real>, bpos: seq<real>, b: seq<real>, l: real, n: nat, d: Diagram)
    returns (st: Phase)
    requires MomentDiagram(fpos, f, bpos, b, l, n) == Ok(d)
    ensures LoadPhase(Linspace(l, n), Phase(Zeros(n), map[]), Processed(Prepare(fpos, f))) == Ok(st)
    ensures |st.moments| == n
    ensures d == Diagram(Linspace(l, n),
                         CouplePhase(Linspace(l, n), Phase(st.moments, st.critical - {0.0}), Prepare(bpos, b)).moments,
                         CouplePhase(Linspace(l, n), Phase(st.moments, st.critical - {0.0}), Prepare(bpos, b)).critical)
  {
    st := LoadPhase(Linspace(l, n), Phase(Zeros(n), map[]), Processed(Prepare(fpos, f))).value;
  }

  /** No prepared couple sits at p when no input couple does. */
  lemma PrepareAvoids(bpos: seq<real>, b: seq<real>, p: real)
    requires forall u :: 0 <= u < |Zip(bpos, b)| ==> Zip(bpos, b)[u].pos != p
    ensures forall u :: 0 <= u < |Prepare(bpos, b)| ==> Prepare(bpos, b)[u].pos != p
  {
    var sorted := SortByPos(Zip(bpos, b));
    forall u | 0 <= u < |Prepare(bpos, b)|
      ensures Prepare(bpos, b)[u].pos != p
    {
      assert Prepare(bpos, b)[u].pos == sorted[u].pos;
      assert sorted[u] in multiset(Zip(bpos, b));
      assert sorted[u] in Zip(bpos, b);
    }
  }

  /** CouplePhaseOffTie for m_graph's own list of couples, after the key 0
      has been dropped, in unscaled magnitudes. */
  lemma CouplesOffTie(bpos: seq<real>, b: seq<real>, xs: seq<real>, st: Phase, p: real)
    requires |st.moments| == |xs|
    requires p in st.critical && p != 0.0
    requires forall u :: 0 <= u < |Zip(bpos, b)| ==> Zip(bpos, b)[u].pos != p
    ensures p in CouplePhase(xs, Phase(st.moments, st.critical - {0.0}), Prepare(bpos, b)).critical
    ensures CouplePhase(xs, Phase(st.moments, st.critical - {0.0}), Prepare(bpos, b)).critical[p] * 1000.0
         == st.critical[p] * 1000.0 + Superpose(Couple, p, Zip(bpos, b))
  {
    PrepareAvoids(bpos, b, p);
    assert (st.critical - {0.0})[p] == st.critical[p];
    CouplePhaseOffTie(xs, Phase(st.moments, st.critical - {0.0}), Prepare(bpos, b), p);
    SuperposeScale(Couple, p, SortByPos(Zip(bpos, b)));
    SuperposeSortByPos(Couple, p, Zip(bpos, b));
  }

  /** The snapshot of LoadPhaseSnapshot for m_graph's own list of loads,
      given back in unscaled magnitudes. */
  lemma SortedLoadsSnapshot(fpos: seq<real>, f: seq<real>, l: real, n: nat, st: Phase, t: nat)
    requires LoadPhase(Linspace(l, n), Phase(Zeros(n), map[]), Processed(Prepare(fpos, f))) == Ok(st)
    requires t < |Processed(SortByPos(Zip(fpos, f)))|
    requires forall u :: t < u < |Processed(SortByPos(Zip(fpos, f)))| ==>
      Processed(SortByPos(Zip(fpos, f)))[u].pos != Processed(SortByPos(Zip(fpos, f)))[t].pos
    ensures
      var loads := Processed(SortByPos(Zip(fpos, f)));
      var j := FirstAbove(Linspace(l, n), loads[t].pos);
      && j < n
      && loads[t].pos in st.critical
      && st.critical[loads[t].pos] * 1000.0 == Superpose(PointLoad, Linspace(l, n)[j], loads[..t])
  {
    var xs := Linspace(l, n);
    var loads := Processed(SortByPos(Zip(fpos, f)));
    var scaled := Processed(Prepare(fpos, f));
    ScaleKeepsPositions(SortByPos(Zip(fpos, f)));
    assert scaled == Scale(loads);
    assert forall u :: 0 <= u < |scaled| ==> scaled[u].pos == loads[u].pos;
    LoadPhaseSnapshot(xs, Phase(Zeros(n), map[]), scaled, st, t);
    var j := FirstAbove(xs, loads[t].pos);
    ScaledPrefix(loads, t);
    SuperposeScale(PointLoad, xs[j], loads[..t]);
  }

  /** The value labelled at a load position p (not 0, and at which no couple
      sits) is, times 1000, the moment the earlier loads had built at the
      first sample beyond p, plus the steps of the couples before p. */
  lemma DiagramCriticalValue(fpos: seq<real>, f: seq<real>, bpos: seq<real>, b: seq<real>, l: real, n: nat,
                             d: Diagram, t: nat)
    requires MomentDiagram(fpos, f, bpos, b, l, n) == Ok(d)
    requires t < |Processed(SortByPos(Zip(fpos, f)))|
    requires forall u :: t < u < |Processed(SortByPos(Zip(fpos, f)))| ==>
      Processed(SortByPos(Zip(fpos, f)))[u].pos != Processed(SortByPos(Zip(fpos, f)))[t].pos
    requires Processed(SortByPos(Zip(fpos, f)))[t].pos != 0.0
    requires forall u :: 0 <= u < |Zip(bpos, b)| ==> Zip(bpos, b)[u].pos != Processed(SortByPos(Zip(fpos, f)))[t].pos
    ensures FirstAbove(Linspace(l, n), Processed(SortByPos(Zip(fpos, f)))[t].pos) < n
    ensures Processed(SortByPos(Zip(fpos, f)))[t].pos in d.critical
    ensures
      var loads := Processed(SortByPos(Zip(fpos, f)));
      var p := loads[t].pos;
      d.critical[p] * 1000.0
        == Superpose(PointLoad, Linspace(l, n)[FirstAbove(Linspace(l, n), p)], loads[..t])
         + Superpose(Couple, p, Zip(bpos, b))
  {
    var xs := Linspace(l, n);
    var loads := Processed(SortByPos(Zip(fpos, f)));
    var p := loads[t].pos;
    var st := DiagramUnfold(fpos, f, bpos, b, l, n, d);
    SortedLoadsSnapshot(fpos, f, l, n, st, t);
    CouplesOffTie(bpos, b, xs, st, p);
  }

  lemma DiagramErrIffLoadPhaseErr(fpos: seq<real>, f: seq<real>, bpos: seq<real>, b: seq<real>, l: real, n: nat)
    ensures MomentDiagram(fpos, f, bpos, b, l, n).Err?
        <==> LoadPhase(Linspace(l, n), Phase(Zeros(n), map[]), Processed(Prepare(fpos, f))).Err?
  {
  }

  /** m_graph fails with IndexError exactly when one of the sorted loads
      other than the last lies at or beyond the end of the beam. */
  lemma DiagramFails(fpos: seq<real>, f: seq<real>, bpos: seq<real>, b: seq<real>, l: real, n: nat)
    requires l > 0.0 && n >= 2
    ensures MomentDiagram(fpos, f, bpos, b, l, n).Err?
        <==> exists t :: 0 <= t < |Processed(SortByPos(Zip(fpos, f)))|
                         && l <= Processed(SortByPos(Zip(fpos, f)))[t].pos
  {
    var xs := Linspace(l, n);
    var loads := Processed(SortByPos(Zip(fpos, f)));
    var scaled := Processed(Prepare(fpos, f));
    ScaleKeepsPositions(SortByPos(Zip(fpos, f)));
    assert |scaled| == |loads|;
    assert forall t :: 0 <= t < |scaled| ==> scaled[t].pos == loads[t].pos;
    DiagramErrIffLoadPhaseErr(fpos, f, bpos, b, l, n);
    LoadPhaseFails(xs, Phase(Zeros(n), map[]), scaled);
    forall t | 0 <= t < |scaled|
      ensures FirstAbove(xs, scaled[t].pos) == |xs| <==> l <= loads[t].pos
    {
      FirstAboveLinspace(l, n, scaled[t].pos);
    }
    if exists t :: 0 <= t < |loads| && l <= loads[t].pos {
      var t :| 0 <= t < |loads| && l <= loads[t].pos;
      assert FirstAbove(xs, scaled[t].pos) == |xs|;
    }
  }

  // ---------------------------------------------------------------------
  // Small cases

  /** A single point load is the last one, so it contributes nothing: the
      result is that of no load at all. */
  lemma SingleLoadIgnored(p: real, f: real, bpos: seq<real>, b: seq<real>, l: real, n: nat)
    ensures MomentDiagram([p], [f], bpos, b, l, n) == MomentDiagram([], [], bpos, b, l, n)
  {
    assert Processed(Prepare([p], [f])) == [];
  }

  /** With no loads and no couples the curve is flat zero and nothing is labelled. */
  lemma NoLoadsNoCouples(l: real, n: nat)
    ensures MomentDiagram([], [], [], [], l, n) == Ok(Diagram(Linspace(l, n), Zeros(n), map[]))
  {
  }

  /** A lone couple at q gives a step: zero before q, m / 1000 from q on. */
  lemma SingleCouple(q: real, m: real, l: real, n: nat)
    ensures MomentDiagram([], [], [q], [m], l, n).Ok?
    ensures MomentDiagram([], [], [q], [m], l, n).value.critical == map[]
    ensures forall i :: 0 <= i < n ==>
      MomentDiagram([], [], [q], [m], l, n).value.moments[i] * 1000.0
        == if q <= Linspace(l, n)[i] then m else 0.0
  {
    var d := MomentDiagram([], [], [q], [m], l, n).value;
    var xs := Linspace(l, n);
    var z := Zip([q], [m]);
    assert z == [Load(q, m)];
    assert z[1..] == [];
    assert Processed(SortByPos(Zip([], []))) == [];
    DiagramMoments([], [], [q], [m], l, n, d);
    DiagramCriticalKeys([], [], [q], [m], l, n, d);
    forall i | 0 <= i < n
      ensures d.moments[i] * 1000.0 == if q <= xs[i] then m else 0.0
    {
      assert Superpose(Couple, xs[i], z) == Contribution(Couple, xs[i], Load(q, m)) + Superpose(Couple, xs[i], z[1..]);
    }
  }

  lemma TwoLoadsSorted(p1: real, f1: real, p2: real, f2: real)
    requires p1 < p2
    ensures Processed(SortByPos(Zip([p1, p2], [f1, f2]))) == [Load(p1, f1)]
  {
    var z := Zip([p1, p2], [f1, f2]);
    assert z == [Load(p1, f1), Load(p2, f2)];
    assert z[1..] == [Load(p2, f2)];
    assert z[1..][1..] == [];
    assert SortByPos(z[1..]) == [Load(p2, f2)];
    assert SortByPos(z) == z;
  }

  /** Two loads at p1 < p2, with any couples: of the loads only the ramp of
      p1 is drawn, on top of the steps of the couples. */
  lemma TwoLoads(p1: real, f1: real, p2: real, f2: real, bpos: seq<real>, b: seq<real>, l: real, n: nat, d: Diagram)
    requires p1 < p2
    requires MomentDiagram([p1, p2], [f1, f2], bpos, b, l, n) == Ok(d)
    ensures |d.moments| == |d.positions| == n
    ensures forall i :: 0 <= i < n ==>
      d.moments[i] * 1000.0
        == (if p1 < d.positions[i] then (d.positions[i] - p1) * f1 else 0.0) + Superpose(Couple, d.positions[i], Zip(bpos, b))
  {
    TwoLoadsSorted(p1, f1, p2, f2);
    DiagramMoments([p1, p2], [f1, f2], bpos, b, l, n, d);
    OneVisitedLoad(d, n, Processed(SortByPos(Zip([p1, p2], [f1, f2]))), Zip(bpos, b), p1, f1);
  }

  /** A curve that superposes one point load at p1 and some couples is that
      load's ramp plus the couples' steps. */
  lemma OneVisitedLoad(d: Diagram, n: nat, loads: seq<Load>, couples: seq<Load>, p1: real, f1: real)
    requires |d.moments| == |d.positions| == n
    requires forall i :: 0 <= i < n ==>
      d.moments[i] * 1000.0 == Superpose(PointLoad, d.positions[i], loads) + Superpose(Couple, d.positions[i], couples)
    requires loads == [Load(p1, f1)]
    ensures forall i :: 0 <= i < n ==>
      d.moments[i] * 1000.0
        == (if p1 < d.positions[i] then (d.positions[i] - p1) * f1 else 0.0) + Superpose(Couple, d.positions[i], couples)
  {
    assert loads[1..] == [];
    forall i | 0 <= i < n
      ensures d.moments[i] * 1000.0
        == (if p1 < d.positions[i] then (d.positions[i] - p1) * f1 else 0.0) + Superpose(Couple, d.positions[i], couples)
    {
      var x := d.positions[i];
      assert Superpose(PointLoad, x, loads) == Contribution(PointLoad, x, Load(p1, f1)) + Superpose(PointLoad, x, []);
    }
  }

  /** In the same case the first position is labelled with 0 (the moment
      before its own ramp), unless it is 0 itself; the last load gets no label. */
  lemma TwoLoadsLabel(p1: real, f1: real, p2: real, f2: real, l: real, n: nat)
    requires p1 < p2 && 0.0 < l && p1 < l && n >= 2
    ensures MomentDiagram([p1, p2], [f1, f2], [], [], l, n).Ok?
    ensures MomentDiagram([p1, p2], [f1, f2], [], [], l, n).value.critical
         == if p1 == 0.0 then map[] else map[p1 := 0.0]
  {
    var loads := Processed(SortByPos(Zip([p1, p2], [f1, f2])));
    TwoLoadsSorted(p1, f1, p2, f2);
    DiagramFails([p1, p2], [f1, f2], [], [], l, n);
    var d := MomentDiagram([p1, p2], [f1, f2], [], [], l, n).value;
    DiagramCriticalKeys([p1, p2], [f1, f2], [], [], l, n, d);
    assert Positions(loads) == {p1};
    if p1 != 0.0 {
      assert Zip([], []) == [];
      DiagramCriticalValue([p1, p2], [f1, f2], [], [], l, n, d, 0);
      assert loads[..0] == [];
    }
  }

  // ---------------------------------------------------------------------
  // A couple at a labelled position

  /** A lone couple is prepared as one load holding a thousandth of its magnitude. */
  lemma PrepareSingle(q: real, m: real)
    ensures Prepare([q], [m]) == [Load(q, m / 1000.0)]
  {
    var z := Zip([q], [m]);
    assert z == [Load(q, m)];
    assert z[1..] == [];
    assert SortByPos(z) == Insert(z[0], SortByPos([])) == [Load(q, m)];
  }

  /** Scaling a magnitude by 1/1000 does not change its sign against a label. */
  lemma ScaledSameSign(v: real, m: real)
    ensures v * (m / 1000.0) > 0.0 <==> v * m > 0.0
  {
    SameStrictSign(v, m);
    SameStrictSign(v, m / 1000.0);
  }

  /** A single couple at the position of a label: the final label is the one
      the load loop left, plus the couple's scaled magnitude when both have
      the same strict sign, and unchanged otherwise. */
  lemma SingleCoupleAtLabel(fpos: seq<real>, f: seq<real>, q: real, m: real, l: real, n: nat, d: Diagram)
    requires MomentDiagram(fpos, f, [q], [m], l, n) == Ok(d)
    requires q in d.critical
    ensures LoadPhase(Linspace(l, n), Phase(Zeros(n), map[]), Processed(Prepare(fpos, f))).Ok?
    ensures q in LoadPhase(Linspace(l, n), Phase(Zeros(n), map[]), Processed(Prepare(fpos, f))).value.critical
    ensures var v := LoadPhase(Linspace(l, n), Phase(Zeros(n), map[]), Processed(Prepare(fpos, f))).value.critical[q];
            d.critical[q] == if v * m > 0.0 then v + m / 1000.0 else v
  {
    var st := DiagramUnfold(fpos, f, [q], [m], l, n, d);
    PrepareSingle(q, m);
    var c := Load(q, m / 1000.0);
    var xs := Linspace(l, n);
    var crit := st.critical - {0.0};
    assert [c][1..] == [];
    assert d.critical == CoupleOnCritical(crit, c);
    assert q in crit;
    ScaledSameSign(st.critical[q], m);
  }
}
