/** The rows the page collects for forces and couples, and the sign
    convention that turns them into the signed magnitudes m_graph takes:
    a downward force (下) and a counter-clockwise couple (逆时针) count
    positive, every other label negative. */
module LoadInput {
  import opened Loads
  import opened MomentGraph

  const Down: string := "下"
  const CounterClockwise: string := "逆时针"

  /** The number of samples m_graph uses when the caller gives none. */
  const DefaultSamples: nat := 5000

  /** One row of the force table or of the couple table. */
  datatype Entry = Entry(position: real, direction: string, magnitude: real)

  function Abs(x: real): (r: real)
    ensures r >= 0.0 && (r == x || r == -x)
  {
    if x < 0.0 then -x else x
  }

  /** The signed force of a row: positive when it points down. */
  function SignedForce(e: Entry): (r: real)
    ensures Abs(r) == Abs(e.magnitude)
    ensures e.direction == Down ==> (r > 0.0 <==> e.magnitude > 0.0)
    ensures e.direction != Down ==> (r > 0.0 <==> e.magnitude < 0.0)
  {
    if e.direction == Down then e.magnitude else -e.magnitude
  }

  /** The signed couple of a row: positive when it turns counter-clockwise. */
  function SignedCouple(e: Entry): (r: real)
    ensures Abs(r) == Abs(e.magnitude)
    ensures e.direction == CounterClockwise ==> (r > 0.0 <==> e.magnitude > 0.0)
    ensures e.direction != CounterClockwise ==> (r > 0.0 <==> e.magnitude < 0.0)
  {
    if e.direction == CounterClockwise then e.magnitude else -e.magnitude
  }

  function EntryPositions(es: seq<Entry>): (ps: seq<real>)
    ensures |ps| == |es|
  {
    seq(|es|, i requires 0 <= i < |es| => es[i].position)
  }

  function SignedForces(es: seq<Entry>): (fs: seq<real>)
    ensures |fs| == |es|
  {
    seq(|es|, i requires 0 <= i < |es| => SignedForce(es[i]))
  }

  function SignedCouples(es: seq<Entry>): (bs: seq<real>)
    ensures |bs| == |es|
  {
    seq(|es|, i requires 0 <= i < |es| => SignedCouple(es[i]))
  }

  /** The position and signed-magnitude lists built from the same rows have
      equal length, so zip drops no row and pairs each row with its own sign. */
  lemma EntriesToLoads(es: seq<Entry>)
    ensures Zip(EntryPositions(es), SignedForces(es)) == seq(|es|, i requires 0 <= i < |es| => Load(es[i].position, SignedForce(es[i])))
    ensures Zip(EntryPositions(es), SignedCouples(es)) == seq(|es|, i requires 0 <= i < |es| => Load(es[i].position, SignedCouple(es[i])))
  {
  }

  /** The plot button: the rows turned into signed lists and handed to m_graph. */
  method StartPlot(forces: seq<Entry>, moments: seq<Entry>, axleLength: real) returns (result: Result<Diagram>)
    ensures result == MomentDiagram(EntryPositions(forces), SignedForces(forces),
                                    EntryPositions(moments), SignedCouples(moments), axleLength, DefaultSamples)
  {
    var forcePos := EntryPositions(forces);
    var forceMag := SignedForces(forces);
    var bendPos := EntryPositions(moments);
    var bendMag := SignedCouples(moments);
    result := MGraph(forcePos, forceMag, bendPos, bendMag, axleLength, DefaultSamples);
  }
}
