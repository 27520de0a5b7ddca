/** Parsing a move token, selecting the layer it turns and turning it
    (`performMoveAnimation`, main.js:227-261). */
module Moves {
  import opened Wrappers
  import opened Faces
  import opened Lattice

  /** A parsed move token: the face letter, whether the token contains a
      prime mark and whether it contains a `2`. */
  datatype Move = Move(face: Face, prime: bool, double: bool)

  /** The axis a face's layer turns about (`axisMap`, main.js:232): y for U
      and D, x for R and L, z for F and B. */
  function AxisOf(f: Face): Axis
  {
    match f
    case U => Y
    case D => Y
    case R => X
    case L => X
    case F => Z
    case B => Z
  }

  /** The side of the centre a face lies on along its axis: +1 for U, R
      and F, -1 for the opposite faces. */
  function Side(f: Face): (r: int)
    ensures r == 1 || r == -1
  {
    if f == U || f == R || f == F then 1 else -1
  }

  /** The unit vector pointing out of a face: along the face's axis, on the
      face's side, and zero on the other two axes. */
  function Outward(f: Face): (r: Vec)
    ensures forall a: Axis :: Coord(a, r) == if a == AxisOf(f) then Side(f) else 0
  {
    match f
    case U => Vec(0, 1, 0)
    case D => Vec(0, -1, 0)
    case R => Vec(1, 0, 0)
    case L => Vec(-1, 0, 0)
    case F => Vec(0, 0, 1)
    case B => Vec(0, 0, -1)
  }

  /** The corrected `direction` (main.js:234 has the opposite sign; see
      `AsWritten.DirectionAsWritten`): an unprimed move turns its layer
      clockwise as seen from outside the face, as in the cube notation the
      solver writes. In three.js's right-handed convention a positive angle
      is counter-clockwise seen from the positive end of the axis, so the
      sign is the opposite of the face's side. */
  function Direction(f: Face): (r: int)
    ensures r == -Side(f)
  {
    if f == U || f == R || f == F then -1 else 1
  }

  /** The signed number of quarter turns the pivot is rotated by: the
      token's sign (negative when primed) times its size (two when doubled)
      times the face's direction. */
  function QuarterTurns(m: Move): (n: int)
    ensures n == 1 || n == -1 || n == 2 || n == -2
    ensures (n < 0) <==> (m.prime <==> Side(m.face) == -1)
    ensures (n == 2 || n == -2) <==> m.double
  {
    (if m.prime then -1 else 1) * (if m.double then 2 else 1) * Direction(m.face)
  }

  /** Where a clockwise quarter turn, seen from the tip of the unit vector
      `n`, takes the point `v`: the part of `v` along `n` stays and the rest
      is turned by minus ninety degrees, giving (n·v)n - n×v. */
  function ClockwiseAbout(n: Vec, v: Vec): Vec
  {
    var d := n.x * v.x + n.y * v.y + n.z * v.z;
    Vec(d * n.x - (n.y * v.z - n.z * v.y), d * n.y - (n.z * v.x - n.x * v.z), d * n.z - (n.x * v.y - n.y * v.x))
  }

  /** The same for a counter-clockwise quarter turn: (n·v)n + n×v. */
  function CounterClockwiseAbout(n: Vec, v: Vec): Vec
  {
    var d := n.x * v.x + n.y * v.y + n.z * v.z;
    Vec(d * n.x + (n.y * v.z - n.z * v.y), d * n.y + (n.z * v.x - n.x * v.z), d * n.z + (n.x * v.y - n.y * v.x))
  }

  /** Cube notation: an unprimed single move turns its layer a quarter turn
      clockwise as seen from outside the face. */
  lemma FaceTurnsClockwise(f: Face, v: Vec)
    ensures TurnBy(AxisOf(f), QuarterTurns(Move(f, false, false)), v) == ClockwiseAbout(Outward(f), v)
  {
    FaceSense(f, v);
  }

  /** ... and its prime form turns it counter-clockwise. */
  lemma PrimeTurnsCounterClockwise(f: Face, v: Vec)
    ensures TurnBy(AxisOf(f), QuarterTurns(Move(f, true, false)), v) == CounterClockwiseAbout(Outward(f), v)
  {
    FaceSense(f, v);
  }

  lemma FaceSense(f: Face, v: Vec)
    ensures TurnBy(AxisOf(f), QuarterTurns(Move(f, false, false)), v) == ClockwiseAbout(Outward(f), v)
    ensures TurnBy(AxisOf(f), QuarterTurns(Move(f, true, false)), v) == CounterClockwiseAbout(Outward(f), v)
  {
    assert QuarterTurns(Move(f, true, false)) == -QuarterTurns(Move(f, false, false)) == Side(f);
    match f
    case U => SenseAboutY(v);
    case D => SenseAboutY(v);
    case R => SenseAboutX(v);
    case L => SenseAboutX(v);
    case F => SenseAboutZ(v);
    case B => SenseAboutZ(v);
  }

  /** Turns about x seen from the R and the L side. */
  lemma SenseAboutX(v: Vec)
    ensures TurnBy(X, -1, v) == ClockwiseAbout(Vec(1, 0, 0), v) == CounterClockwiseAbout(Vec(-1, 0, 0), v)
    ensures TurnBy(X, 1, v) == CounterClockwiseAbout(Vec(1, 0, 0), v) == ClockwiseAbout(Vec(-1, 0, 0), v)
  {
    TurnByQuarters(X, v);
  }

  /** Turns about y seen from the U and the D side. */
  lemma SenseAboutY(v: Vec)
    ensures TurnBy(Y, -1, v) == ClockwiseAbout(Vec(0, 1, 0), v) == CounterClockwiseAbout(Vec(0, -1, 0), v)
    ensures TurnBy(Y, 1, v) == CounterClockwiseAbout(Vec(0, 1, 0), v) == ClockwiseAbout(Vec(0, -1, 0), v)
  {
    TurnByQuarters(Y, v);
  }

  /** Turns about z seen from the F and the B side. */
  lemma SenseAboutZ(v: Vec)
    ensures TurnBy(Z, -1, v) == ClockwiseAbout(Vec(0, 0, 1), v) == CounterClockwiseAbout(Vec(0, 0, -1), v)
    ensures TurnBy(Z, 1, v) == CounterClockwiseAbout(Vec(0, 0, 1), v) == ClockwiseAbout(Vec(0, 0, -1), v)
  {
    TurnByQuarters(Z, v);
  }

  /** Reading a token: the face is its first character, and a prime mark or
      a `2` anywhere in it makes the move prime or double. A token that is
      empty or starts with a character that names no face has no entry in
      `axisMap` and `layerMap`: the move fails. */
  function ParseMove(token: string): (r: Option<Move>)
    ensures r.Some? <==> |token| > 0 && exists f: Face :: Letter(f) == token[0]
    ensures r.Some? ==> Letter(r.value.face) == token[0]
    ensures r.Some? ==> (r.value.prime <==> '\'' in token) && (r.value.double <==> '2' in token)
  {
    if |token| == 0 then None
    else
      match FaceOf(token[0])
      case None => None
      case Some(f) =>
        assert Letter(f) == token[0];
        Some(Move(f, '\'' in token, '2' in token))
  }

  /** The three token shapes a solver emits for a face: "X", "X'" and "X2". */
  lemma ParseFaceTokens(f: Face)
    ensures ParseMove([Letter(f)]) == Some(Move(f, false, false))
    ensures ParseMove([Letter(f), '\'']) == Some(Move(f, true, false))
    ensures ParseMove([Letter(f), '2']) == Some(Move(f, false, true))
  {
    LetterRoundTrip(f);
    assert '2' !in [Letter(f)] && '\'' !in [Letter(f)];
    assert '2' !in [Letter(f), '\''] && '\'' in [Letter(f), '\''];
    assert '2' in [Letter(f), '2'] && '\'' !in [Letter(f), '2'];
  }

  /** `layerMap`: the cubies beyond the ±0.5 plane on the face's side
      (positions here are in lattice units, so `2 * c > 1` is `c > 0.5`). */
  predicate InLayer(f: Face, v: Vec)
  {
    match f
    case U => 2 * v.y > 1
    case D => 2 * v.y < -1
    case R => 2 * v.x > 1
    case L => 2 * v.x < -1
    case F => 2 * v.z > 1
    case B => 2 * v.z < -1
  }

  /** The tables agree: a face's layer is the half-space on the face's side
      of its axis. */
  lemma LayerIsHalfSpace(f: Face, v: Vec)
    ensures InLayer(f, v) <==> 2 * Side(f) * Coord(AxisOf(f), v) > 1
  {
  }

  /** The cubies a move selects at main.js:240, as indices into the cubie list,
      in list order. */
  function LayerIndices(f: Face, cs: seq<Cubie>): (r: seq<nat>)
    ensures forall k :: 0 <= k < |r| ==> r[k] < |cs| && InLayer(f, cs[r[k]].pos)
    ensures forall k, l :: 0 <= k < l < |r| ==> r[k] < r[l]
    ensures forall i :: 0 <= i < |cs| && InLayer(f, cs[i].pos) ==> i in r
    decreases |cs|
  {
    if |cs| == 0 then []
    else
      var n := |cs| - 1;
      LayerIndices(f, cs[..n]) + (if InLayer(f, cs[n].pos) then [n] else [])
  }

  /** What one move does to one cubie: a cubie in the layer is rotated
      rigidly about the face's axis, any other is left alone. */
  function Moved(m: Move, c: Cubie): Cubie
  {
    if InLayer(m.face, c.pos) then TurnCubie(AxisOf(m.face), QuarterTurns(m), c) else c
  }

  /** The baked result of one move on the whole cubie list (the corrected
      layer selection; see `FilterAsWritten` and `BakeAsWritten`). */
  function ApplyMove(m: Move, cs: seq<Cubie>): (r: seq<Cubie>)
    ensures |r| == |cs|
  {
    seq(|cs|, i requires 0 <= i < |cs| => Moved(m, cs[i]))
  }

  /** A move changes only the cubies its layer predicate selects; each of
      those keeps its coordinate along the move's axis, so it stays in the
      layer, and is rotated rigidly by the move's quarter turns. */
  lemma MoveFrame(m: Move, cs: seq<Cubie>, i: int)
    requires 0 <= i < |cs|
    ensures !InLayer(m.face, cs[i].pos) ==> ApplyMove(m, cs)[i] == cs[i]
    ensures InLayer(m.face, cs[i].pos) ==>
      && ApplyMove(m, cs)[i] == TurnCubie(AxisOf(m.face), QuarterTurns(m), cs[i])
      && Coord(AxisOf(m.face), ApplyMove(m, cs)[i].pos) == Coord(AxisOf(m.face), cs[i].pos)
      && InLayer(m.face, ApplyMove(m, cs)[i].pos)
  {
    TurnByKeepsAxis(AxisOf(m.face), QuarterTurns(m), cs[i].pos);
    LayerIsHalfSpace(m.face, cs[i].pos);
    LayerIsHalfSpace(m.face, ApplyMove(m, cs)[i].pos);
  }

  /** A cubie is in the move's layer after the move exactly when it was
      before. */
  lemma MovedStaysInLayer(m: Move, c: Cubie)
    ensures InLayer(m.face, Moved(m, c).pos) <==> InLayer(m.face, c.pos)
  {
    TurnByKeepsAxis(AxisOf(m.face), QuarterTurns(m), c.pos);
    LayerIsHalfSpace(m.face, c.pos);
    LayerIsHalfSpace(m.face, Moved(m, c).pos);
  }

  /** A move selects the same cubies when it is repeated: its layer is
      carried onto itself. */
  lemma {:induction false} MoveKeepsLayer(m: Move, cs: seq<Cubie>)
    ensures LayerIndices(m.face, ApplyMove(m, cs)) == LayerIndices(m.face, cs)
    decreases |cs|
  {
    if |cs| > 0 {
      var n := |cs| - 1;
      assert ApplyMove(m, cs)[..n] == ApplyMove(m, cs[..n]);
      MoveKeepsLayer(m, cs[..n]);
      MovedStaysInLayer(m, cs[n]);
    }
  }

  /** The same token with its prime mark toggled. */
  function Inverse(m: Move): (r: Move)
    ensures r.face == m.face && r.double == m.double && r.prime == !m.prime
    ensures QuarterTurns(r) == -QuarterTurns(m)
  {
    m.(prime := !m.prime)
  }

  /** A move followed by its prime form restores every cubie's position and
      orientation. */
  lemma MoveThenInverse(m: Move, cs: seq<Cubie>)
    ensures ApplyMove(Inverse(m), ApplyMove(m, cs)) == cs
  {
    var a, n := AxisOf(m.face), QuarterTurns(m);
    forall i | 0 <= i < |cs|
      ensures ApplyMove(Inverse(m), ApplyMove(m, cs))[i] == cs[i]
    {
      MovedStaysInLayer(m, cs[i]);
      TurnCubieInverse(a, n, cs[i]);
    }
  }

  /** Four applications of the same move restore every cubie. */
  lemma FourMoves(m: Move, cs: seq<Cubie>)
    ensures ApplyMove(m, ApplyMove(m, ApplyMove(m, ApplyMove(m, cs)))) == cs
  {
    var c1 := ApplyMove(m, cs);
    var c2 := ApplyMove(m, c1);
    var c3 := ApplyMove(m, c2);
    forall i | 0 <= i < |cs|
      ensures ApplyMove(m, c3)[i] == cs[i]
    {
      FourMovedCubie(m, cs[i]);
    }
  }

  lemma FourMovedCubie(m: Move, c: Cubie)
    ensures Moved(m, Moved(m, Moved(m, Moved(m, c)))) == c
  {
    var a, n := AxisOf(m.face), QuarterTurns(m);
    if InLayer(m.face, c.pos) {
      var c1 := TurnCubie(a, n, c);
      MovedStaysInLayer(m, c);
      var c2 := TurnCubie(a, n, c1);
      MovedStaysInLayer(m, c1);
      var c3 := TurnCubie(a, n, c2);
      MovedStaysInLayer(m, c2);
      TurnCubieFourTimes(a, n, c);
      assert Moved(m, c3) == TurnCubie(a, n, c3);
    }
  }

  /** A move keeps the lattice invariant: afterwards the 26 cubies again sit
      on 26 distinct lattice points covering the whole lattice. */
  lemma MovePreservesLattice(m: Move, cs: seq<Cubie>)
    requires IsLattice(cs)
    ensures IsLattice(ApplyMove(m, cs))
  {
    var a, n := AxisOf(m.face), QuarterTurns(m);
    var r := ApplyMove(m, cs);
    forall i | 0 <= i < |r| ensures OnLattice(r[i].pos) {
      if InLayer(m.face, cs[i].pos) {
        TurnByStaysOnLattice(a, n, cs[i].pos);
      }
    }
    forall i, j | 0 <= i < j < |r| ensures r[i].pos != r[j].pos {
      MovedStaysInLayer(m, cs[i]);
      MovedStaysInLayer(m, cs[j]);
      if InLayer(m.face, cs[i].pos) && InLayer(m.face, cs[j].pos) && r[i].pos == r[j].pos {
        TurnByInjective(a, n, cs[i].pos, cs[j].pos);
      }
    }
    forall v | v in CubePoints() ensures v in Positions(r) {
      CubePointsAreLattice(v);
      if InLayer(m.face, v) {
        var w := TurnBy(a, -n, v);
        TurnByStaysOnLattice(a, -n, v);
        CubePointsAreLattice(w);
        var i :| 0 <= i < |cs| && cs[i].pos == w;
        TurnByKeepsAxis(a, -n, v);
        LayerIsHalfSpace(m.face, v);
        LayerIsHalfSpace(m.face, w);
        TurnByCompose(a, n, -n, v);
        assert r[i].pos == v;
      } else {
        var i :| 0 <= i < |cs| && cs[i].pos == v;
        assert r[i].pos == v;
      }
    }
  }

  /** The nine lattice points with coordinate `c` along axis `a`. */
  function Square(a: Axis, c: int): set<Vec>
  {
    match a
    case X => {Vec(c, -1, -1), Vec(c, -1, 0), Vec(c, -1, 1), Vec(c, 0, -1), Vec(c, 0, 0), Vec(c, 0, 1), Vec(c, 1, -1), Vec(c, 1, 0), Vec(c, 1, 1)}
    case Y => {Vec(-1, c, -1), Vec(-1, c, 0), Vec(-1, c, 1), Vec(0, c, -1), Vec(0, c, 0), Vec(0, c, 1), Vec(1, c, -1), Vec(1, c, 0), Vec(1, c, 1)}
    case Z => {Vec(-1, -1, c), Vec(-1, 0, c), Vec(-1, 1, c), Vec(0, -1, c), Vec(0, 0, c), Vec(0, 1, c), Vec(1, -1, c), Vec(1, 0, c), Vec(1, 1, c)}
  }

  lemma SquareSize(a: Axis, c: int)
    ensures |Square(a, c)| == 9
  {
    match a
    case X => SquareSizeX(c);
    case Y => SquareSizeY(c);
    case Z => SquareSizeZ(c);
  }

  lemma SquareSizeX(c: int)
    ensures |Square(X, c)| == 9
  {
    var r0, r1, r2 := {Vec(c, -1, -1), Vec(c, -1, 0), Vec(c, -1, 1)}, {Vec(c, 0, -1), Vec(c, 0, 0), Vec(c, 0, 1)}, {Vec(c, 1, -1), Vec(c, 1, 0), Vec(c, 1, 1)};
    assert Square(X, c) == r0 + r1 + r2;
    NineOfThreeRows(r0, r1, r2);
  }

  lemma SquareSizeY(c: int)
    ensures |Square(Y, c)| == 9
  {
    var r0, r1, r2 := {Vec(-1, c, -1), Vec(-1, c, 0), Vec(-1, c, 1)}, {Vec(0, c, -1), Vec(0, c, 0), Vec(0, c, 1)}, {Vec(1, c, -1), Vec(1, c, 0), Vec(1, c, 1)};
    assert Square(Y, c) == r0 + r1 + r2;
    NineOfThreeRows(r0, r1, r2);
  }

  lemma SquareSizeZ(c: int)
    ensures |Square(Z, c)| == 9
  {
    var r0, r1, r2 := {Vec(-1, -1, c), Vec(-1, 0, c), Vec(-1, 1, c)}, {Vec(0, -1, c), Vec(0, 0, c), Vec(0, 1, c)}, {Vec(1, -1, c), Vec(1, 0, c), Vec(1, 1, c)};
    assert Square(Z, c) == r0 + r1 + r2;
    NineOfThreeRows(r0, r1, r2);
  }

  /** Three disjoint rows of three points make nine points. */
  lemma NineOfThreeRows(r0: set<Vec>, r1: set<Vec>, r2: set<Vec>)
    requires |r0| == 3 && |r1| == 3 && |r2| == 3
    requires r0 !! r1 && r0 !! r2 && r1 !! r2
    ensures |r0 + r1 + r2| == 9
  {
    assert |r0 + r1| == 6;
  }

  /** On the lattice, a face's layer is exactly the nine points of its
      outer square. */
  lemma LayerIsSquare(f: Face, v: Vec)
    requires OnLattice(v)
    ensures InLayer(f, v) <==> v in Square(AxisOf(f), Side(f))
  {
  }

  /** The positions of the cubies a face's predicate selects. */
  function LayerPositions(f: Face, cs: seq<Cubie>): set<Vec>
  {
    set i | 0 <= i < |cs| && InLayer(f, cs[i].pos) :: cs[i].pos
  }

  /** Extending the list by one cubie adds its position to the layer's
      positions when it is in the layer, and nothing otherwise. */
  lemma LayerPositionsSnoc(f: Face, cs: seq<Cubie>)
    requires |cs| > 0
    ensures LayerPositions(f, cs) ==
      LayerPositions(f, cs[..|cs| - 1]) + (if InLayer(f, cs[|cs| - 1].pos) then {cs[|cs| - 1].pos} else {})
  {
    var n := |cs| - 1;
    var front := cs[..n];
    var p := LayerPositions(f, front);
    var extra: set<Vec> := if InLayer(f, cs[n].pos) then {cs[n].pos} else {};
    forall v | v in LayerPositions(f, cs) ensures v in p + extra {
      var i :| 0 <= i < |cs| && InLayer(f, cs[i].pos) && cs[i].pos == v;
      if i < n {
        assert front[i] == cs[i];
      }
    }
    forall v | v in p ensures v in LayerPositions(f, cs) {
      var i :| 0 <= i < |front| && InLayer(f, front[i].pos) && front[i].pos == v;
      assert cs[i] == front[i];
    }
  }

  /** Without shared positions, the last cubie's position is new. */
  lemma LastPositionIsNew(f: Face, cs: seq<Cubie>)
    requires |cs| > 0 && DistinctPositions(cs)
    ensures cs[|cs| - 1].pos !in LayerPositions(f, cs[..|cs| - 1])
  {
    var n := |cs| - 1;
    var front := cs[..n];
    forall v | v in LayerPositions(f, front) ensures v != cs[n].pos {
      var i :| 0 <= i < |front| && InLayer(f, front[i].pos) && front[i].pos == v;
      assert cs[i] == front[i];
    }
  }

  lemma {:induction false} LayerIndicesCount(f: Face, cs: seq<Cubie>)
    requires DistinctPositions(cs)
    ensures |LayerIndices(f, cs)| == |LayerPositions(f, cs)|
    decreases |cs|
  {
    if |cs| > 0 {
      var n := |cs| - 1;
      LayerIndicesCount(f, cs[..n]);
      LayerPositionsSnoc(f, cs);
      LastPositionIsNew(f, cs);
    }
  }

  /** The points of an outer square are lattice points. */
  lemma SquareOnLattice(f: Face, v: Vec)
    requires v in Square(AxisOf(f), Side(f))
    ensures OnLattice(v)
  {
  }

  /** On any configuration satisfying the lattice invariant (the initial
      one and, by `MovePreservesLattice`, every later one) each of the six
      layer predicates selects exactly nine cubies, and their positions are
      the nine points of that face's square. */
  lemma LayerSize(f: Face, cs: seq<Cubie>)
    requires IsLattice(cs)
    ensures LayerPositions(f, cs) == Square(AxisOf(f), Side(f))
    ensures |LayerIndices(f, cs)| == 9
  {
    LayerInSquare(f, cs);
    SquareInLayer(f, cs);
    LayerSquareCount(f, cs);
  }

  lemma LayerSquareCount(f: Face, cs: seq<Cubie>)
    requires DistinctPositions(cs)
    requires LayerPositions(f, cs) == Square(AxisOf(f), Side(f))
    ensures |LayerIndices(f, cs)| == 9
  {
    LayerIndicesCount(f, cs);
    SquareSize(AxisOf(f), Side(f));
  }

  lemma LayerInSquare(f: Face, cs: seq<Cubie>)
    requires IsLattice(cs)
    ensures LayerPositions(f, cs) <= Square(AxisOf(f), Side(f))
  {
    forall v | v in LayerPositions(f, cs) ensures v in Square(AxisOf(f), Side(f)) {
      var i :| 0 <= i < |cs| && InLayer(f, cs[i].pos) && cs[i].pos == v;
      LayerIsSquare(f, v);
    }
  }

  lemma SquareInLayer(f: Face, cs: seq<Cubie>)
    requires IsLattice(cs)
    ensures Square(AxisOf(f), Side(f)) <= LayerPositions(f, cs)
  {
    forall v | v in Square(AxisOf(f), Side(f)) ensures v in LayerPositions(f, cs) {
      SquareOnLattice(f, v);
      CubePointsAreLattice(v);
      LayerIsSquare(f, v);
      assert v in Positions(cs);
      var i :| 0 <= i < |cs| && cs[i].pos == v;
    }
  }

  /** A move permutes the positions of its layer among themselves: the
      selected cubies occupy the same nine points before and after. */
  lemma MovePermutesLayer(m: Move, cs: seq<Cubie>)
    requires IsLattice(cs)
    ensures LayerIndices(m.face, ApplyMove(m, cs)) == LayerIndices(m.face, cs)
    ensures LayerPositions(m.face, ApplyMove(m, cs)) == LayerPositions(m.face, cs)
  {
    MoveKeepsLayer(m, cs);
    MovePreservesLattice(m, cs);
    LayerSize(m.face, cs);
    LayerSize(m.face, ApplyMove(m, cs));
  }
}
