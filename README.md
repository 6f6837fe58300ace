# MomentGraph in Dafny

A model of the bending-moment computation of MomentGraph (`graph.py`): the
function `m_graph` samples a beam `[0, l]` at `n` evenly spaced positions and
superposes, on those samples, a ramp `(x - p) * f / 1000` beyond every point
load at `p` except the last one in position order, and a step `m / 1000` from
every applied couple at `q` on. While it goes it labels "critical points": under
each visited load position it records the moment at the first sample beyond
that position, taken before the load's own ramp. It drops the label at
position 0, and then lets the couples adjust the labels. A couple at the same
position as a label adjusts it only when both have the same strict sign. The
page feeds `m_graph` from two tables of rows (position, direction label,
magnitude). A downward force (`下`) and a counter-clockwise couple (`逆时针`)
count positive; every other label negates the magnitude.

Modules (one per concern of `m_graph`):

- `Loads` (`loads.dfy`): the `(position, magnitude)` pairs, Python's `zip`,
  the stable sort by position, the division by 1000, and the loads the first
  loop visits (all but the last).
- `Superposition` (`superposition.dfy`): what one point load (ramp) or one
  couple (step) adds at a position, the sum over a list, and one masked update
  of the samples.
- `Sampling` (`sampling.dfy`): `np.linspace(0, l, n)` in exact arithmetic,
  and the first sample strictly beyond a position.
- `MomentGraph` (`moment_graph.dfy`): the two loops as specification
  functions (`LoadPhase`, `CouplePhase`, `MomentDiagram`), and `MGraph`, the
  imperative version, whose two loops are `ApplyLoads` and `ApplyCouples`. `MGraph` updates an `array<real>` of moments in place
  with `AddRamp`/`AddStep`. It keeps the critical points in a `map<real, real>`
  that it writes, deletes from and updates key by key with `ShiftCritical`.
  Its `ensures` ties the result to `MomentDiagram`.
- `MomentGraphFacts` (`moment_graph_facts.dfy`): closed forms and
  properties of `MomentDiagram`.
- `LoadInput` (`load_input.dfy`): the input rows, the sign convention and
  the plot button that calls `m_graph`.

`M_values[mask][0]` raises `IndexError` when no sample lies beyond a visited
load. So `m_graph` is not free of errors: the model returns
`Err(IndexError(p))` for that case. `MomentGraphFacts.LoadPhaseFails` says
exactly when the load loop fails, for any samples. For a beam with `l > 0` and
at least two samples, `MomentGraphFacts.DiagramFails` adds that this happens
exactly when a visited load lies at or beyond `l`. The exclusion of the last
sorted load and the snapshot-before-ramp order are modelled as written.

## Model

| member | source | states |
|---|---|---|
| `Loads.Zip` | graph.py:11-12 | zip pairs the i-th position with the i-th magnitude and stops at the shorter list |
| `Loads.Insert` | graph.py:11 | inserting into the sorted list adds exactly that one element (length and multiset) |
| `Loads.SortByPos` | graph.py:11-12 | the sort returns a permutation of its input (length and multiset) |
| `Loads.SortByPosSorted` | graph.py:11-12 | the sorted pairs are ordered by position |
| `Loads.SortByPosStable` | graph.py:11-12 | the sort is stable: the loads at each position keep their input order |
| `Loads.Scale` | graph.py:11-12 | every magnitude becomes a thousandth of itself and positions are kept |
| `Loads.Prepare` | graph.py:11-12 | the prepared list has one entry per zipped pair and is sorted by position |
| `Loads.Processed` | graph.py:17 | the first loop visits every load but the last, and nothing for an empty list |
| `Superposition.Contribution` | graph.py:19-29 | a load or couple adds nothing before its position; a point load's ramp is zero at its own position, so the strict mask loses nothing; a couple adds its full magnitude from its position on |
| `Superposition.Superimpose` | graph.py:19-22 | a load at p leaves samples x <= p unchanged and adds (x - p) * f beyond p; a couple at q leaves x < q unchanged and adds m from q on |
| `Superposition.SuperposeSortByPos` | graph.py:11-12 | the superposed sum does not depend on the order of the list |
| `Superposition.SuperposeScale` | graph.py:11-12 | scaling every magnitude by 1/1000 scales the superposed sum by 1/1000 |
| `Superposition.LastLoadLeftOut` | graph.py:17 | the visited loads sum to all loads minus the contribution of the last one |
| `Sampling.Linspace` | graph.py:13 | there are exactly n sample positions |
| `Sampling.LinspaceShape` | graph.py:13 | for l > 0 and n >= 2 the samples start at 0, end at l, increase strictly and stay in [0, l] |
| `Sampling.FirstAbove` | graph.py:19-20 | the index returned is that of the first sample strictly beyond p, or the length when there is none |
| `Sampling.FirstAboveLinspace` | graph.py:13-20 | on the linspace samples some sample lies beyond p exactly when p < l |
| `MomentGraph.Zeros` | graph.py:14 | the moment array starts as n zeros |
| `MomentGraph.LoadPhase` | graph.py:17-22 | a successful load loop keeps one moment per sample; a failure names the position of a visited load with no sample beyond it |
| `MomentGraph.CoupleOnCritical` | graph.py:30-36 | a couple keeps the key set, leaves keys before it unchanged, adds its magnitude to keys beyond it, and at its own position adds only when stored value times magnitude is positive |
| `MomentGraph.CouplePhase` | graph.py:27-36 | the couple loop keeps one moment per sample |
| `MomentGraph.MomentDiagram` | graph.py:10-36 | on success the curve is drawn at the n linspace positions with one moment per sample; an IndexError always names a visited load position with no sample beyond it |
| `MomentGraph.AddRamp` | graph.py:21-22 | the in-place masked update of the array equals Superimpose of a point load on its old contents |
| `MomentGraph.AddStep` | graph.py:28-29 | the in-place masked update of the array equals Superimpose of a couple on its old contents |
| `MomentGraph.ShiftCritical` | graph.py:30-36 | the loop over the keys of the critical map yields CoupleOnCritical |
| `MomentGraph.ApplyLoads` | graph.py:17-22 | the first loop over the visited loads, on the array and a fresh map, yields exactly LoadPhase, including the IndexError at the first load with no sample beyond it |
| `MomentGraph.ApplyCouples` | graph.py:27-36 | the second loop over the couples, on the array and the map, yields exactly CouplePhase |
| `MomentGraph.MGraph` | graph.py:10-36 | the array-and-map implementation returns exactly MomentDiagram, including the IndexError case |
| `MomentGraphFacts.LoadPhaseMoments` | graph.py:17-22 | after the load loop each sample holds its old value plus the ramps of all visited loads |
| `MomentGraphFacts.LoadPhaseKeys` | graph.py:17-20 | the load loop adds exactly the visited positions as keys |
| `MomentGraphFacts.LoadPhaseUntouched` | graph.py:17-20 | a key at which no visited load sits keeps its value |
| `MomentGraphFacts.LoadPhaseSnapshot` | graph.py:19-20 | the value under a load position is the moment at the first sample beyond it before that load's ramp, written by the last load at that position |
| `MomentGraphFacts.LoadPhaseFails` | graph.py:19-20 | the load loop fails exactly when some visited load has no sample beyond it |
| `MomentGraphFacts.SameStrictSign` | graph.py:35 | a positive product means both strictly positive or both strictly negative |
| `MomentGraphFacts.CoupleTieBreak` | graph.py:33-36 | at a coinciding position the couple is added only when label and couple have the same strict sign; a zero on either side changes nothing |
| `MomentGraphFacts.CouplePhaseMoments` | graph.py:27-29 | after the couple loop each sample holds its old value plus the steps of all couples |
| `MomentGraphFacts.CouplePhaseKeys` | graph.py:30-36 | the couple loop never adds or removes a key |
| `MomentGraphFacts.CouplePhaseOffTie` | graph.py:30-32 | a key with no couple at its own position gains exactly the steps of the couples before it |
| `MomentGraphFacts.DiagramMoments` | graph.py:11-29 | each sample x holds (sum of (x - p) * f over visited loads with p < x plus sum of m over couples with q <= x) / 1000, couples in any order |
| `MomentGraphFacts.DiagramMomentsAllButLast` | graph.py:17 | every input load contributes its ramp except the one that sorts last |
| `MomentGraphFacts.DiagramCriticalKeys` | graph.py:17-25 | the labels are keyed by exactly the visited load positions other than 0; 0 is never a key |
| `MomentGraphFacts.DiagramCriticalValue` | graph.py:17-36 | a label at p (not 0, no couple at p) is (the ramps of the earlier loads at the first sample beyond p plus the couple steps before p) / 1000 |
| `MomentGraphFacts.DiagramFails` | graph.py:13-20 | for l > 0 and n >= 2 the IndexError happens exactly when a visited load lies at or beyond l |
| `MomentGraphFacts.SingleLoadIgnored` | graph.py:17 | a single load contributes nothing: the result equals that with no load |
| `MomentGraphFacts.NoLoadsNoCouples` | graph.py:14-27 | with no loads and no couples the curve is all zeros and no label is kept |
| `MomentGraphFacts.SingleCouple` | graph.py:27-29 | a lone couple gives zero before q and m / 1000 from q on, with no labels |
| `MomentGraphFacts.TwoLoads` | graph.py:17-29 | with loads at p1 < p2 and any couples, of the loads only the ramp of p1 is drawn, on top of the couples' steps |
| `MomentGraphFacts.TwoLoadsLabel` | graph.py:17-25 | with loads at p1 < p2 < l the only label is 0 at p1, or none when p1 is 0 |
| `MomentGraphFacts.SingleCoupleAtLabel` | graph.py:17-36 | a lone couple at a labelled position adds its magnitude / 1000 to the label the load loop left when both have the same strict sign, and leaves it unchanged otherwise |
| `LoadInput.SignedForce` | graph.py:137 | a force row keeps its absolute value and counts positive exactly when it points down with a positive magnitude or up with a negative one |
| `LoadInput.SignedCouple` | graph.py:139 | a couple row keeps its absolute value and counts positive exactly when it turns counter-clockwise with a positive magnitude or clockwise with a negative one |
| `LoadInput.EntriesToLoads` | graph.py:136-139 | the lists built from the rows zip back to one load per row with its signed magnitude |
| `LoadInput.StartPlot` | graph.py:135-142 | the plot button hands the signed lists to m_graph with 5000 samples |

## Left out

- Plotting (graph.py:38-48): the figure, labels, limits and the formatted
  annotations are output only. `MomentGraph.Diagram` holds what is plotted:
  the positions, the moments and the labels. `plt.ylim(min(M_values), ...)`
  fails on an empty sample list, and that failure is not modelled.
- The Streamlit page (graph.py:51-134): forms, tables, add/delete buttons and
  the session state are interactive glue around a framework. Only the rows they
  produce (`LoadInput.Entry`) are modelled.
- Floating point: positions and magnitudes are exact `real`s. `np.linspace`
  rounding, float key equality in the dict and `-0.0` are not modelled.
- The beam length `128+89` and the unused `tors_pos` (graph.py:140-141):
  `LoadInput.StartPlot` takes the length as a parameter.
- Purity and repeatability of `m_graph` hold because every specification
  here is a function. No separate lemma states them.
