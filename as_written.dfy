/** Three places where the move engine, read literally with three.js
    semantics, does not do what it evidently means to do. Each definition
    here models the code as written; the rest of the model uses the
    corrected definitions in module Moves (`LayerIndices`, `Direction`,
    `Moved`). */
module AsWritten {
  import opened Wrappers
  import opened Faces
  import opened Lattice
  import opened Moves

  /** The argument a `layerMap` predicate receives: a cubie object, or the
      cubie's position vector. */
  datatype JsValue = CubieValue(c: Cubie) | VectorValue(v: Vec)

  /** Reading `.position`: a cubie has one; a vector has no such property,
      so the read yields `undefined` (None). */
  function PositionField(o: JsValue): Option<Vec>
  {
    match o
    case CubieValue(c) => Some(c.pos)
    case VectorValue(_) => None
  }

  /** A `layerMap` predicate (main.js:236-238) applied to `o`: it reads
      `o.position` and then a coordinate of it; reading a coordinate of
      `undefined` throws a TypeError (None). */
  function LayerPredicate(f: Face, o: JsValue): Option<bool>
  {
    match PositionField(o)
    case None => None
    case Some(p) => Some(InLayer(f, p))
  }

  /** Filtering the cubie list with a face's layer predicate, applied to
      what `arg` makes of each cubie (main.js:240): the selected indices, or
      None when a call throws. The predicates have no side effects and, for
      a given `arg`, either every call throws or none does, so the order in
      which the calls are made does not change the result. */
  function FilterWith(f: Face, cs: seq<Cubie>, asWritten: bool): (r: Option<seq<nat>>)
    ensures r.Some? ==> forall k :: 0 <= k < |r.value| ==> r.value[k] < |cs| && InLayer(f, cs[r.value[k]].pos)
    decreases |cs|
  {
    if |cs| == 0 then Some([])
    else
      var n := |cs| - 1;
      var arg := if asWritten then VectorValue(cs[n].pos) else CubieValue(cs[n]);
      match FilterWith(f, cs[..n], asWritten)
      case None => None
      case Some(front) =>
        match LayerPredicate(f, arg)
        case None => None
        case Some(keep) => Some(front + (if keep then [n] else []))
  }

  /** main.js:240 as written hands the predicate a cubie's position
      instead of the cubie, so the predicate looks for a position inside a
      position and reads a coordinate of nothing: on any non-empty cubie list the filter throws
      (at the latest on the last cubie, whose position has no `position`),
      and no move with a valid face letter can ever complete. */
  lemma FilterAsWrittenThrows(f: Face, cs: seq<Cubie>)
    requires |cs| > 0
    ensures FilterWith(f, cs, true) == None
  {
  }

  /** In particular it throws on the lattice `populateCubeFromState` builds. */
  lemma FilterAsWrittenThrowsOnLattice(f: Face)
    ensures FilterWith(f, InitialCubies(), true) == None
  {
    InitialIsLattice();
    FilterAsWrittenThrows(f, InitialCubies());
  }

  /** Passing the cubie itself, as the predicates expect, never throws and
      selects exactly `LayerIndices`, the selection the model uses. */
  lemma {:induction false} FilterIntended(f: Face, cs: seq<Cubie>)
    ensures FilterWith(f, cs, false) == Some(LayerIndices(f, cs))
    decreases |cs|
  {
    if |cs| > 0 {
      FilterIntended(f, cs[..|cs| - 1]);
    }
  }

  /** `direction` as written at main.js:234: +1 for U, R and F, -1 for the
      opposite faces, that is, the face's side along its axis. */
  function DirectionAsWritten(f: Face): (r: int)
    ensures r == Side(f) && r == -Direction(f)
  {
    if f == U || f == R || f == F then 1 else -1
  }

  /** The pivot's signed quarter turns as written: the token's sign and size
      times the as-written direction. Every token turns by the opposite
      angle of the corrected move, that is, it plays its own prime form. */
  function QuarterTurnsAsWritten(m: Move): (n: int)
    ensures n == -QuarterTurns(m) && n == QuarterTurns(Inverse(m))
  {
    (if m.prime then -1 else 1) * (if m.double then 2 else 1) * DirectionAsWritten(m.face)
  }

  /** As written, an unprimed single move turns its layer counter-clockwise
      as seen from outside the face. */
  lemma UnprimedAsWrittenCounterClockwise(f: Face, v: Vec)
    ensures TurnBy(AxisOf(f), QuarterTurnsAsWritten(Move(f, false, false)), v) == CounterClockwiseAbout(Outward(f), v)
  {
    PrimeTurnsCounterClockwise(f, v);
    assert QuarterTurnsAsWritten(Move(f, false, false)) == QuarterTurns(Move(f, true, false));
  }

  /** Token "U" as written sends the front-top edge position (0,1,1) to the
      right, (1,1,0), where a clockwise U turn sends it to the left, (-1,1,0). */
  lemma DirectionAsWrittenExample()
    ensures ParseMove("U") == Some(Move(U, false, false))
    ensures TurnBy(Y, QuarterTurnsAsWritten(Move(U, false, false)), Vec(0, 1, 1)) == Vec(1, 1, 0)
    ensures TurnBy(Y, QuarterTurns(Move(U, false, false)), Vec(0, 1, 1)) == Vec(-1, 1, 0)
  {
    UTokens();
    UTurns();
    TurnByQuarters(Y, Vec(0, 1, 1));
  }

  /** The bake at main.js:250-254 as written, once the pivot has been turned
      by `n` quarter turns about `a`. Applying the pivot's world matrix to a
      child premultiplies its local transform by the pivot's rotation;
      re-attaching the child to the cube group then keeps its world transform,
      which is the pivot's rotation applied to that local transform once
      more. A cubie of the layer ends up rotated twice. */
  function BakeAsWritten(a: Axis, n: int, c: Cubie): Cubie
  {
    var local := TurnCubie(a, n, c);
    TurnCubie(a, n, local)
  }

  /** As written, every baked cubie is turned by twice the pivot's angle. */
  lemma BakeAsWrittenDoubles(a: Axis, n: int, c: Cubie)
    ensures BakeAsWritten(a, n, c) == TurnCubie(a, 2 * n, c)
  {
    TurnCubieCompose(a, n, n, c);
  }

  /** As written, a quarter-turn token turns its layer by a half turn,
      whichever sign the pivot turns by. */
  lemma QuarterBakedAsHalf(a: Axis, c: Cubie)
    ensures BakeAsWritten(a, 1, c) == TurnCubie(a, 2, c)
    ensures BakeAsWritten(a, -1, c) == TurnCubie(a, 2, c)
  {
    BakeAsWrittenDoubles(a, 1, c);
    BakeAsWrittenDoubles(a, -1, c);
    TurnCubieCompose(a, 4, -2, c);
    TurnCubieFull(a, 4, TurnCubie(a, -2, c));
  }

  /** As written, a half-turn token leaves its layer as it was. */
  lemma HalfBakedInPlace(a: Axis, c: Cubie)
    ensures BakeAsWritten(a, 2, c) == c
    ensures BakeAsWritten(a, -2, c) == c
  {
    BakeAsWrittenDoubles(a, 2, c);
    BakeAsWrittenDoubles(a, -2, c);
    TurnCubieFull(a, 4, c);
    TurnCubieFull(a, -4, c);
  }

  /** Token "U": as written the front-top edge cubie goes half way round to
      the back, whichever sign the pivot turns by, where a quarter turn puts
      it on the left. */
  lemma QuarterTurnAsWritten()
    ensures ParseMove("U") == Some(Move(U, false, false))
    ensures BakeAsWritten(Y, QuarterTurnsAsWritten(Move(U, false, false)), Home(Vec(0, 1, 1))).pos == Vec(0, 1, -1)
    ensures BakeAsWritten(Y, QuarterTurns(Move(U, false, false)), Home(Vec(0, 1, 1))).pos == Vec(0, 1, -1)
    ensures Moved(Move(U, false, false), Home(Vec(0, 1, 1))).pos == Vec(-1, 1, 0)
  {
    UTokens();
    EdgeBaked(QuarterTurnsAsWritten(Move(U, false, false)));
    EdgeBaked(QuarterTurns(Move(U, false, false)));
    EdgeMovedLeft();
  }

  lemma EdgeBaked(n: int)
    requires n == QuarterTurnsAsWritten(Move(U, false, false)) || n == QuarterTurns(Move(U, false, false))
    ensures BakeAsWritten(Y, n, Home(Vec(0, 1, 1))).pos == Vec(0, 1, -1)
  {
    UTurns();
    QuarterBakedAt(n, Home(Vec(0, 1, 1)));
  }

  /** A quarter-turn pivot bakes a cubie half way round the y axis. */
  lemma QuarterBakedAt(n: int, c: Cubie)
    requires n == 1 || n == -1
    ensures BakeAsWritten(Y, n, c).pos == Vec(-c.pos.x, c.pos.y, -c.pos.z)
  {
    QuarterBakedAsHalf(Y, c);
    TurnByQuarters(Y, c.pos);
  }

  lemma EdgeMovedLeft()
    ensures Moved(Move(U, false, false), Home(Vec(0, 1, 1))).pos == Vec(-1, 1, 0)
  {
    UTurns();
    MovedUPos(Home(Vec(0, 1, 1)));
  }

  /** Where "U" and "U2" take a cubie of the U layer. */
  lemma MovedUPos(c: Cubie)
    requires InLayer(U, c.pos)
    ensures Moved(Move(U, false, false), c).pos == Vec(-c.pos.z, c.pos.y, c.pos.x)
    ensures Moved(Move(U, false, true), c).pos == Vec(-c.pos.x, c.pos.y, -c.pos.z)
  {
    UTurns();
    TurnByQuarters(Y, c.pos);
  }

  /** A half-turn pivot bakes a cubie back in place. */
  lemma HalfBakedAt(n: int, c: Cubie)
    requires n == 2 || n == -2
    ensures BakeAsWritten(Y, n, c) == c
  {
    HalfBakedInPlace(Y, c);
  }

  /** Token "U2": as written the corner at (1,1,1) comes back where it
      started, whichever sign the pivot turns by, where a half turn puts it
      at (-1,1,-1). */
  lemma HalfTurnAsWritten()
    ensures ParseMove("U2") == Some(Move(U, false, true))
    ensures BakeAsWritten(Y, QuarterTurnsAsWritten(Move(U, false, true)), Home(Vec(1, 1, 1))) == Home(Vec(1, 1, 1))
    ensures BakeAsWritten(Y, QuarterTurns(Move(U, false, true)), Home(Vec(1, 1, 1))) == Home(Vec(1, 1, 1))
    ensures Moved(Move(U, false, true), Home(Vec(1, 1, 1))).pos == Vec(-1, 1, -1)
  {
    UTokens();
    CornerBaked(QuarterTurnsAsWritten(Move(U, false, true)));
    CornerBaked(QuarterTurns(Move(U, false, true)));
    CornerMovedOpposite();
  }

  lemma CornerBaked(n: int)
    requires n == QuarterTurnsAsWritten(Move(U, false, true)) || n == QuarterTurns(Move(U, false, true))
    ensures BakeAsWritten(Y, n, Home(Vec(1, 1, 1))) == Home(Vec(1, 1, 1))
  {
    UTurns();
    HalfBakedAt(n, Home(Vec(1, 1, 1)));
  }

  lemma CornerMovedOpposite()
    ensures Moved(Move(U, false, true), Home(Vec(1, 1, 1))).pos == Vec(-1, 1, -1)
  {
    UTurns();
    MovedUPos(Home(Vec(1, 1, 1)));
  }

  /** The tokens "U" and "U2" parse to a plain and a doubled U move. */
  lemma UTokens()
    ensures ParseMove("U") == Some(Move(U, false, false))
    ensures ParseMove("U2") == Some(Move(U, false, true))
  {
    ParseFaceTokens(U);
    assert "U" == [Letter(U)];
    assert "U2" == [Letter(U), '2'];
  }

  /** The face, axis and quarter turns of "U" and "U2", corrected and as
      written. */
  lemma UTurns()
    ensures AxisOf(U) == Y
    ensures QuarterTurns(Move(U, false, false)) == -1 && QuarterTurns(Move(U, false, true)) == -2
    ensures QuarterTurnsAsWritten(Move(U, false, false)) == 1 && QuarterTurnsAsWritten(Move(U, false, true)) == 2
    ensures InLayer(U, Vec(0, 1, 1)) && InLayer(U, Vec(1, 1, 1))
  {
  }
}
