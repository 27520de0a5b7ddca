/** The 26 cubies on the integer lattice {-1,0,1}³ minus the origin, and
    exact quarter-turn rotations (`populateCubeFromState`, main.js:168-189;
    the rotation baked at main.js:246-254). Positions are in lattice units:
    the source's spacing of 1.05 scales every coordinate alike and does not
    change which side of ±0.5 a coordinate lies on. */
module Lattice {

  datatype Vec = Vec(x: int, y: int, z: int)

  datatype Axis = X | Y | Z

  /** The coordinate of `v` along axis `a`. */
  function Coord(a: Axis, v: Vec): int
  {
    match a
    case X => v.x
    case Y => v.y
    case Z => v.z
  }

  /** A rotation by +90 degrees about `a`, right-handed as in three.js. */
  function Quarter(a: Axis, v: Vec): (w: Vec)
    ensures Coord(a, w) == Coord(a, v)
  {
    match a
    case X => Vec(v.x, -v.z, v.y)
    case Y => Vec(v.z, v.y, -v.x)
    case Z => Vec(-v.y, v.x, v.z)
  }

  /** `k` successive quarter turns about `a`. */
  function Turn(a: Axis, k: nat, v: Vec): Vec
    decreases k
  {
    if k == 0 then v else Quarter(a, Turn(a, k - 1, v))
  }

  /** A rotation by `n` quarter turns, `n` of either sign: -1 is the same
      rotation as 3. */
  function TurnBy(a: Axis, n: int, v: Vec): Vec
  {
    Turn(a, n % 4, v)
  }

  lemma {:induction false} TurnKeepsAxis(a: Axis, k: nat, v: Vec)
    ensures Coord(a, Turn(a, k, v)) == Coord(a, v)
    decreases k
  {
    if k > 0 {
      TurnKeepsAxis(a, k - 1, v);
    }
  }

  lemma {:induction false} TurnAdd(a: Axis, i: nat, j: nat, v: Vec)
    ensures Turn(a, i, Turn(a, j, v)) == Turn(a, i + j, v)
    decreases i
  {
    if i > 0 {
      TurnAdd(a, i - 1, j, v);
    }
  }

  /** Four quarter turns about one axis are the identity. */
  lemma FullTurn(a: Axis, v: Vec)
    ensures Turn(a, 4, v) == v
  {
  }

  /** Composing two rotations about one axis adds their quarter-turn counts. */
  lemma TurnByCompose(a: Axis, m: int, n: int, v: Vec)
    ensures TurnBy(a, m, TurnBy(a, n, v)) == TurnBy(a, m + n, v)
  {
    var i, j := m % 4, n % 4;
    TurnAdd(a, i, j, v);
    ModSum(m, n);
    if i + j >= 4 {
      TurnAdd(a, i + j - 4, 4, v);
      FullTurn(a, v);
    }
  }

  lemma ModSum(m: int, n: int)
    ensures m % 4 + n % 4 < 4 ==> m % 4 + n % 4 == (m + n) % 4
    ensures m % 4 + n % 4 >= 4 ==> m % 4 + n % 4 - 4 == (m + n) % 4
  {
    var q, r := m / 4, n / 4;
    assert m == 4 * q + m % 4;
    assert n == 4 * r + n % 4;
    assert m + n == 4 * (q + r) + (m % 4 + n % 4);
  }

  /** A rotation followed by the opposite rotation restores the vector. */
  lemma TurnByInverse(a: Axis, n: int, v: Vec)
    ensures TurnBy(a, -n, TurnBy(a, n, v)) == v
  {
    TurnByCompose(a, -n, n, v);
  }


  /** Turning by 1, 2 and 3 (or -1) applies that many quarter turns. */
  lemma TurnByQuarters(a: Axis, v: Vec)
    ensures TurnBy(a, 1, v) == Quarter(a, v)
    ensures TurnBy(a, 2, v) == TurnBy(a, -2, v) == Quarter(a, Quarter(a, v))
    ensures TurnBy(a, 3, v) == TurnBy(a, -1, v) == Quarter(a, Quarter(a, Quarter(a, v)))
  {
    assert -1 % 4 == 3 && -2 % 4 == 2;
    assert Turn(a, 1, v) == Quarter(a, Turn(a, 0, v));
    assert Turn(a, 2, v) == Quarter(a, Turn(a, 1, v));
    assert Turn(a, 3, v) == Quarter(a, Turn(a, 2, v));
  }

  /** Any rotation keeps the coordinate along its axis. */
  lemma TurnByKeepsAxis(a: Axis, n: int, v: Vec)
    ensures Coord(a, TurnBy(a, n, v)) == Coord(a, v)
  {
    TurnKeepsAxis(a, n % 4, v);
  }

  /** A rotation is one-to-one. */
  lemma TurnByInjective(a: Axis, n: int, v: Vec, w: Vec)
    requires TurnBy(a, n, v) == TurnBy(a, n, w)
    ensures v == w
  {
    TurnByInverse(a, n, v);
    TurnByInverse(a, n, w);
  }

  /** A point of the 3×3×3 lattice other than its (invisible) centre. */
  predicate OnLattice(v: Vec)
  {
    -1 <= v.x <= 1 && -1 <= v.y <= 1 && -1 <= v.z <= 1 && v != Vec(0, 0, 0)
  }

  /** The 26 lattice points. */
  function CubePoints(): set<Vec>
  {
    set x, y, z | -1 <= x <= 1 && -1 <= y <= 1 && -1 <= z <= 1 && !(x == 0 && y == 0 && z == 0) :: Vec(x, y, z)
  }

  lemma CubePointsAreLattice(v: Vec)
    ensures v in CubePoints() <==> OnLattice(v)
  {
    if OnLattice(v) {
      assert Vec(v.x, v.y, v.z) in CubePoints();
    }
  }

  lemma {:induction false} TurnStaysOnLattice(a: Axis, k: nat, v: Vec)
    requires OnLattice(v)
    ensures OnLattice(Turn(a, k, v))
    decreases k
  {
    if k > 0 {
      TurnStaysOnLattice(a, k - 1, v);
    }
  }

  /** Rotations map lattice points to lattice points. */
  lemma TurnByStaysOnLattice(a: Axis, n: int, v: Vec)
    requires OnLattice(v)
    ensures OnLattice(TurnBy(a, n, v))
  {
    TurnStaysOnLattice(a, n % 4, v);
  }

  /** A cubie: its position and its orientation, the latter given by where
      its local x, y and z axes point (the columns of its rotation matrix).
      Its materials are the same constant list for every cubie
      (main.js:181) and are not modelled. */
  datatype Cubie = Cubie(pos: Vec, xAxis: Vec, yAxis: Vec, zAxis: Vec)

  /** A freshly built cubie: placed at `p`, not rotated. */
  function Home(p: Vec): Cubie
  {
    Cubie(p, Vec(1, 0, 0), Vec(0, 1, 0), Vec(0, 0, 1))
  }

  /** The rigid rotation of a whole cubie: position and orientation. */
  function TurnCubie(a: Axis, n: int, c: Cubie): Cubie
  {
    Cubie(TurnBy(a, n, c.pos), TurnBy(a, n, c.xAxis), TurnBy(a, n, c.yAxis), TurnBy(a, n, c.zAxis))
  }

  lemma TurnCubieInverse(a: Axis, n: int, c: Cubie)
    ensures TurnCubie(a, -n, TurnCubie(a, n, c)) == c
  {
    TurnByInverse(a, n, c.pos);
    TurnByInverse(a, n, c.xAxis);
    TurnByInverse(a, n, c.yAxis);
    TurnByInverse(a, n, c.zAxis);
  }

  lemma TurnCubieCompose(a: Axis, m: int, n: int, c: Cubie)
    ensures TurnCubie(a, m, TurnCubie(a, n, c)) == TurnCubie(a, m + n, c)
  {
    TurnByCompose(a, m, n, c.pos);
    TurnByCompose(a, m, n, c.xAxis);
    TurnByCompose(a, m, n, c.yAxis);
    TurnByCompose(a, m, n, c.zAxis);
  }

  /** Rotating by a multiple of four quarter turns changes nothing. */
  lemma TurnCubieFull(a: Axis, n: int, c: Cubie)
    requires n % 4 == 0
    ensures TurnCubie(a, n, c) == c
  {
  }

  /** Four equal rotations of a cubie restore it. */
  lemma TurnCubieFourTimes(a: Axis, n: int, c: Cubie)
    ensures TurnCubie(a, n, TurnCubie(a, n, TurnCubie(a, n, TurnCubie(a, n, c)))) == c
  {
    TurnCubieCompose(a, n, n, c);
    TurnCubieCompose(a, n, n + n, c);
    TurnCubieCompose(a, n, n + n + n, c);
    assert (n + (n + n + n)) % 4 == 0;
    TurnCubieFull(a, n + (n + n + n), c);
  }

  /** The index of lattice point (x,y,z) in the order the source's nested
      loops visit it: x outermost, z innermost, the origin skipped. */
  function IndexOf(v: Vec): (i: nat)
    requires OnLattice(v)
  {
    var j := 9 * (v.x + 1) + 3 * (v.y + 1) + (v.z + 1);
    if j < 13 then j else j - 1
  }

  /** The lattice point visited `i`-th by the source's nested loops. */
  function PointAt(i: nat): (v: Vec)
    requires i < 26
    ensures OnLattice(v)
  {
    var j := if i < 13 then i else i + 1;
    var x := if j < 9 then -1 else if j < 18 then 0 else 1;
    var r := j - 9 * (x + 1);
    var y := if r < 3 then -1 else if r < 6 then 0 else 1;
    Vec(x, y, r - 3 * (y + 1) - 1)
  }

  lemma PointIndexRoundTrip(i: nat)
    requires i < 26
    ensures OnLattice(PointAt(i)) && IndexOf(PointAt(i)) == i
  {
  }

  lemma IndexPointRoundTrip(v: Vec)
    requires OnLattice(v)
    ensures IndexOf(v) < 26 && PointAt(IndexOf(v)) == v
  {
  }

  /** The cubies as `populateCubeFromState` leaves them. */
  function InitialCubies(): (r: seq<Cubie>)
    ensures |r| == 26
    ensures forall i :: 0 <= i < 26 ==> r[i] == Home(r[i].pos) && OnLattice(r[i].pos)
  {
    seq(26, i requires 0 <= i < 26 => Home(PointAt(i)))
  }

  /** The positions of a list of cubies. */
  function Positions(cs: seq<Cubie>): set<Vec>
  {
    set i | 0 <= i < |cs| :: cs[i].pos
  }

  /** No two cubies share a position. */
  predicate DistinctPositions(cs: seq<Cubie>)
  {
    forall i, j :: 0 <= i < j < |cs| ==> cs[i].pos != cs[j].pos
  }

  /** The lattice invariant: 26 cubies, one on each lattice point. */
  predicate IsLattice(cs: seq<Cubie>)
  {
    && |cs| == 26
    && DistinctPositions(cs)
    && (forall i :: 0 <= i < |cs| ==> OnLattice(cs[i].pos))
    && CubePoints() <= Positions(cs)
  }

  /** The freshly built lattice: 26 cubies, unrotated, at distinct lattice
      points, none at the origin, every lattice point occupied. */
  lemma InitialIsLattice()
    ensures |InitialCubies()| == 26
    ensures forall i :: 0 <= i < 26 ==> InitialCubies()[i] == Home(InitialCubies()[i].pos)
    ensures IsLattice(InitialCubies())
    ensures Positions(InitialCubies()) == CubePoints()
  {
    var cs := InitialCubies();
    forall i | 0 <= i < 26 ensures OnLattice(cs[i].pos) {
      PointIndexRoundTrip(i);
    }
    forall i, j | 0 <= i < j < 26 ensures cs[i].pos != cs[j].pos {
      PointIndexRoundTrip(i);
      PointIndexRoundTrip(j);
    }
    forall v | v in CubePoints() ensures v in Positions(cs) {
      CubePointsAreLattice(v);
      IndexPointRoundTrip(v);
      assert cs[IndexOf(v)].pos == v;
    }
    forall v | v in Positions(cs) ensures v in CubePoints() {
      CubePointsAreLattice(v);
    }
  }
}
