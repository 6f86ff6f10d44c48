/** Integer geometry of the 3x3x3 puzzle: cubelet positions, the three axes,
    the quarter-turn position transform of rotateSide, and the six faces of a
    cubelet in the colour-list order [+x, -x, +y, -y, +z, -z]. */
module Geometry {

  /** A cubelet position `[x, y, z]`. The puzzle only uses coordinates in
      {-1, 0, 1}; the transforms below are defined on all integers. */
  datatype Pos = Pos(x: int, y: int, z: int)

  datatype Axis = X | Y | Z

  datatype Direction = Clockwise | Counterclockwise

  const Origin := Pos(0, 0, 0)

  /** The other direction of a quarter turn. */
  function Opposite(d: Direction): (r: Direction)
    ensures r != d
  {
    if d == Clockwise then Counterclockwise else Clockwise
  }

  /** The coordinate that rotateSide compares with the layer: index 0, 1 or 2
      of the position for the axis x, y or z. */
  function Coord(p: Pos, a: Axis): int
  {
    match a
    case X => p.x
    case Y => p.y
    case Z => p.z
  }

  predicate InRange(c: int)
  {
    -1 <= c <= 1
  }

  /** One of the 26 grid points {-1,0,1}^3 other than the hidden centre. */
  predicate IsCell(p: Pos)
  {
    InRange(p.x) && InRange(p.y) && InRange(p.z) && p != Origin
  }

  /** The position transform of rotateSide: a quarter turn in the plane of the
      two axes other than `a`. The sense depends on the axis only, not on the
      layer. */
  function RotatePosition(p: Pos, a: Axis, d: Direction): (q: Pos)
    ensures Coord(q, a) == Coord(p, a)
    ensures IsCell(q) <==> IsCell(p)
  {
    match a
    case X => if d == Clockwise then Pos(p.x, -p.z, p.y) else Pos(p.x, p.z, -p.y)
    case Y => if d == Clockwise then Pos(p.z, p.y, -p.x) else Pos(-p.z, p.y, p.x)
    case Z => if d == Clockwise then Pos(-p.y, p.x, p.z) else Pos(p.y, -p.x, p.z)
  }

  /** A quarter turn one way undoes a quarter turn the other way. */
  lemma RotatePositionInverse(p: Pos, a: Axis, d: Direction)
    ensures RotatePosition(RotatePosition(p, a, d), a, Opposite(d)) == p
  {
  }

  /** Four quarter turns the same way are the identity. */
  lemma RotatePositionFourTimes(p: Pos, a: Axis, d: Direction)
    ensures RotatePosition(RotatePosition(RotatePosition(RotatePosition(p, a, d), a, d), a, d), a, d) == p
  {
  }

  /** A face of a cubelet, named by its outward direction. */
  datatype Face = PlusX | MinusX | PlusY | MinusY | PlusZ | MinusZ

  /** The face's index in a cubelet's colour list [+x, -x, +y, -y, +z, -z]. */
  function Index(f: Face): (i: nat)
    ensures i < 6
  {
    match f
    case PlusX => 0
    case MinusX => 1
    case PlusY => 2
    case MinusY => 3
    case PlusZ => 4
    case MinusZ => 5
  }

  function FaceAxis(f: Face): Axis
  {
    match f
    case PlusX | MinusX => X
    case PlusY | MinusY => Y
    case PlusZ | MinusZ => Z
  }

  /** The outward unit normal of face `f`. */
  function Normal(f: Face): (n: Pos)
    ensures Coord(n, FaceAxis(f)) != 0
  {
    match f
    case PlusX => Pos(1, 0, 0)
    case MinusX => Pos(-1, 0, 0)
    case PlusY => Pos(0, 1, 0)
    case MinusY => Pos(0, -1, 0)
    case PlusZ => Pos(0, 0, 1)
    case MinusZ => Pos(0, 0, -1)
  }

  /** How far a cubelet at `p` sits out along the normal of face `f`. */
  function Extent(p: Pos, f: Face): int
  {
    match f
    case PlusX => p.x
    case MinusX => -p.x
    case PlusY => p.y
    case MinusY => -p.y
    case PlusZ => p.z
    case MinusZ => -p.z
  }

  /** Face `f` of a cubelet at `p` lies on the outside of the puzzle. */
  predicate OnBoundary(p: Pos, f: Face)
  {
    Extent(p, f) == 1
  }

  /** The face that face `f` of a turned cubelet becomes: the face whose
      outward normal is the turned normal of `f`. */
  function FaceAfter(f: Face, a: Axis, d: Direction): Face
  {
    match (a, d)
    case (X, Clockwise) =>
      (match f case PlusY => PlusZ case MinusY => MinusZ case PlusZ => MinusY case MinusZ => PlusY case _ => f)
    case (X, Counterclockwise) =>
      (match f case PlusY => MinusZ case MinusY => PlusZ case PlusZ => PlusY case MinusZ => MinusY case _ => f)
    case (Y, Clockwise) =>
      (match f case PlusX => MinusZ case MinusX => PlusZ case PlusZ => PlusX case MinusZ => MinusX case _ => f)
    case (Y, Counterclockwise) =>
      (match f case PlusX => PlusZ case MinusX => MinusZ case PlusZ => MinusX case MinusZ => PlusX case _ => f)
    case (Z, Clockwise) =>
      (match f case PlusX => PlusY case MinusX => MinusY case PlusY => MinusX case MinusY => PlusX case _ => f)
    case (Z, Counterclockwise) =>
      (match f case PlusX => MinusY case MinusX => PlusY case PlusY => PlusX case MinusY => MinusX case _ => f)
  }

  /** The face table above is the position transform applied to the normals. */
  lemma FaceAfterTurnsNormal(f: Face, a: Axis, d: Direction)
    ensures Normal(FaceAfter(f, a, d)) == RotatePosition(Normal(f), a, d)
  {
  }

  /** A turn about `a` leaves the two faces across `a` in place and moves
      each of the other four faces to another face off `a`. */
  lemma FaceAfterKeepsAxis(f: Face, a: Axis, d: Direction)
    ensures FaceAxis(f) == a ==> FaceAfter(f, a, d) == f
    ensures FaceAxis(f) != a ==> FaceAxis(FaceAfter(f, a, d)) != a && FaceAfter(f, a, d) != f
  {
  }

  /** Distinct faces have distinct normals. */
  lemma NormalInjective(f: Face, g: Face)
    requires Normal(f) == Normal(g)
    ensures f == g
  {
  }

  /** Turning the opposite way sends every face back where it came from. */
  lemma FaceAfterInverse(f: Face, a: Axis, d: Direction)
    ensures FaceAfter(FaceAfter(f, a, d), a, Opposite(d)) == f
  {
    FaceAfterTurnsNormal(f, a, d);
    FaceAfterTurnsNormal(FaceAfter(f, a, d), a, Opposite(d));
    RotatePositionInverse(Normal(f), a, d);
    NormalInjective(FaceAfter(FaceAfter(f, a, d), a, Opposite(d)), f);
  }

  /** A turn carries a cubelet's extent along each face normal to the face the
      normal is turned onto; in particular boundary faces stay boundary faces. */
  lemma ExtentMovesWithFace(p: Pos, f: Face, a: Axis, d: Direction)
    ensures Extent(RotatePosition(p, a, d), FaceAfter(f, a, d)) == Extent(p, f)
    ensures OnBoundary(RotatePosition(p, a, d), FaceAfter(f, a, d)) <==> OnBoundary(p, f)
  {
  }
}
