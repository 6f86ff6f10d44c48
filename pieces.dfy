/** Cubelets and the move primitive of RubiksCube.rotateSide: the side table,
    the colour permutation, the transform of one cubelet, and the transform of
    the whole list of cubelets. */
module Pieces {
  import opened Geometry

  /** The six puzzle colours and the marker for a hidden face. */
  datatype Colour = Red | Orange | White | Yellow | Blue | Green | Gray

  /** A cubelet's colour list: one entry per face, in the order
      [+x, -x, +y, -y, +z, -z] (right, left, top, bottom, front, back). */
  type Colours = c: seq<Colour> | |c| == 6 witness [Gray, Gray, Gray, Gray, Gray, Gray]

  /** The colour a colour list gives to face `f`. */
  function ColourAt(c: Colours, f: Face): Colour
  {
    c[Index(f)]
  }

  /** One cubelet: its position and its colour list. */
  datatype Piece = Piece(position: Pos, colors: Colours)

  /** The sides rotateSide accepts. */
  datatype Side = Front | Back | Left | Right | Up | Down

  /** The slab a side names: the cubelets whose `axis` coordinate is `layer`. */
  datatype Slab = Slab(axis: Axis, layer: int)

  /** The side table of rotateSide. */
  function SlabOf(s: Side): (r: Slab)
    ensures r.layer == 1 || r.layer == -1
  {
    match s
    case Front => Slab(Z, 1)
    case Back => Slab(Z, -1)
    case Left => Slab(X, -1)
    case Right => Slab(X, 1)
    case Up => Slab(Y, 1)
    case Down => Slab(Y, -1)
  }

  /** Different sides name different slabs. */
  lemma SlabOfOneToOne(s: Side, t: Side)
    requires SlabOf(s) == SlabOf(t)
    ensures s == t
  {
  }

  /** Every outer slab is named by some side. */
  lemma SlabOfOnto(a: Axis, layer: int)
    requires layer == 1 || layer == -1
    ensures exists s :: SlabOf(s) == Slab(a, layer)
  {
    match a
    case X => assert SlabOf(if layer == 1 then Right else Left) == Slab(a, layer);
    case Y => assert SlabOf(if layer == 1 then Up else Down) == Slab(a, layer);
    case Z => assert SlabOf(if layer == 1 then Front else Back) == Slab(a, layer);
  }

  /** The colour permutation rotateSide applies to a cubelet turned about `a`. */
  function RotateColors(c: Colours, a: Axis, d: Direction): (r: Colours)
    ensures forall f :: FaceAxis(f) == a ==> ColourAt(r, f) == ColourAt(c, f)
  {
    match a
    case X =>
      if d == Clockwise then [c[0], c[1], c[5], c[4], c[2], c[3]]
      else [c[0], c[1], c[4], c[5], c[3], c[2]]
    case Y =>
      if d == Clockwise then [c[4], c[5], c[2], c[3], c[1], c[0]]
      else [c[5], c[4], c[2], c[3], c[0], c[1]]
    case Z =>
      if d == Clockwise then [c[3], c[2], c[0], c[1], c[4], c[5]]
      else [c[2], c[3], c[1], c[0], c[4], c[5]]
  }

  /** Colours move with the geometry: after a turn, the face that face `f`
      was turned onto shows the colour `f` showed before. */
  lemma ColoursFollowGeometry(c: Colours, f: Face, a: Axis, d: Direction)
    ensures ColourAt(RotateColors(c, a, d), FaceAfter(f, a, d)) == ColourAt(c, f)
  {
    match f
    case PlusX =>
    case MinusX =>
    case PlusY =>
    case MinusY =>
    case PlusZ =>
    case MinusZ =>
  }

  /** The colour permutation of one direction undoes that of the other. */
  lemma RotateColorsInverse(c: Colours, a: Axis, d: Direction)
    ensures RotateColors(RotateColors(c, a, d), a, Opposite(d)) == c
  {
    assert c == [c[0], c[1], c[2], c[3], c[4], c[5]];
    match a
    case X => if d == Clockwise {} else {}
    case Y => if d == Clockwise {} else {}
    case Z => if d == Clockwise {} else {}
  }

  /** Four colour permutations the same way are the identity. */
  lemma RotateColorsFourTimes(c: Colours, a: Axis, d: Direction)
    ensures RotateColors(RotateColors(RotateColors(RotateColors(c, a, d), a, d), a, d), a, d) == c
  {
    var half := RotateColors(RotateColors(c, a, d), a, d);
    RotateColorsHalfTurn(c, a, d);
    RotateColorsHalfTurn(half, a, d);
  }

  /** Two colour permutations the same way equal two the other way. */
  lemma RotateColorsHalfTurn(c: Colours, a: Axis, d: Direction)
    ensures RotateColors(RotateColors(c, a, d), a, d) == RotateColors(RotateColors(c, a, Opposite(d)), a, Opposite(d))
  {
    match a
    case X => if d == Clockwise {} else {}
    case Y => if d == Clockwise {} else {}
    case Z => if d == Clockwise {} else {}
  }

  /** The callback of rotateSide's map: a cubelet in the side's slab is turned
      (position and colours), any other cubelet is returned as it is. */
  function RotatePiece(p: Piece, s: Side, d: Direction): (r: Piece)
    ensures Coord(p.position, SlabOf(s).axis) != SlabOf(s).layer ==> r == p
    ensures Coord(r.position, SlabOf(s).axis) == Coord(p.position, SlabOf(s).axis)
    ensures forall f :: FaceAxis(f) == SlabOf(s).axis ==> ColourAt(r.colors, f) == ColourAt(p.colors, f)
  {
    var slab := SlabOf(s);
    if Coord(p.position, slab.axis) == slab.layer then
      Piece(RotatePosition(p.position, slab.axis, d), RotateColors(p.colors, slab.axis, d))
    else
      p
  }

  /** Turning the same side back restores the cubelet. */
  lemma RotatePieceInverse(p: Piece, s: Side, d: Direction)
    ensures RotatePiece(RotatePiece(p, s, d), s, Opposite(d)) == p
  {
    var slab := SlabOf(s);
    if Coord(p.position, slab.axis) == slab.layer {
      RotatePositionInverse(p.position, slab.axis, d);
      RotateColorsInverse(p.colors, slab.axis, d);
    }
  }

  /** Two cubelets that a turn puts on the same position started on the same
      position. */
  lemma RotatePieceInjective(p: Piece, q: Piece, s: Side, d: Direction)
    requires RotatePiece(p, s, d).position == RotatePiece(q, s, d).position
    ensures p.position == q.position
  {
    var slab := SlabOf(s);
    if Coord(p.position, slab.axis) == slab.layer && Coord(q.position, slab.axis) == slab.layer {
      RotatePositionInverse(p.position, slab.axis, d);
      RotatePositionInverse(q.position, slab.axis, d);
    }
  }

  /** Four turns of the same side the same way restore the cubelet. */
  lemma RotatePieceFourTimes(p: Piece, s: Side, d: Direction)
    ensures RotatePiece(RotatePiece(RotatePiece(RotatePiece(p, s, d), s, d), s, d), s, d) == p
  {
    var slab := SlabOf(s);
    if Coord(p.position, slab.axis) == slab.layer {
      RotatePositionFourTimes(p.position, slab.axis, d);
      RotateColorsFourTimes(p.colors, slab.axis, d);
    }
  }

  /** A cubelet whose non-gray colours sit exactly on its faces that lie on the
      outside of the puzzle. */
  predicate Outward(p: Piece)
  {
    forall f :: ColourAt(p.colors, f) != Gray <==> OnBoundary(p.position, f)
  }

  /** A turn keeps non-gray colours exactly on the outside faces. */
  lemma RotatePieceKeepsOutward(p: Piece, s: Side, d: Direction)
    requires Outward(p)
    ensures Outward(RotatePiece(p, s, d))
  {
    var slab := SlabOf(s);
    var q := RotatePiece(p, s, d);
    if Coord(p.position, slab.axis) == slab.layer {
      forall g: Face
        ensures ColourAt(q.colors, g) != Gray <==> OnBoundary(q.position, g)
      {
        var f := FaceAfter(g, slab.axis, Opposite(d));
        FaceAfterInverse(g, slab.axis, Opposite(d));
        assert Opposite(Opposite(d)) == d;
        ColoursFollowGeometry(p.colors, f, slab.axis, d);
        ExtentMovesWithFace(p.position, f, slab.axis, d);
      }
    }
  }

  /** rotateSide's map over the whole list: the list keeps its length and
      order, cubelets outside the side's slab are unchanged, and the others
      stay in the slab. */
  function Turn(ps: seq<Piece>, s: Side, d: Direction): (r: seq<Piece>)
    ensures |r| == |ps|
    ensures forall i :: 0 <= i < |ps| && Coord(ps[i].position, SlabOf(s).axis) != SlabOf(s).layer ==>
      r[i] == ps[i]
    ensures forall i :: 0 <= i < |ps| ==>
      Coord(r[i].position, SlabOf(s).axis) == Coord(ps[i].position, SlabOf(s).axis)
  {
    seq(|ps|, i requires 0 <= i < |ps| => RotatePiece(ps[i], s, d))
  }

  /** Clockwise then counterclockwise on the same side, or the reverse order,
      restores every position and colour list. */
  lemma TurnInverse(ps: seq<Piece>, s: Side, d: Direction)
    ensures Turn(Turn(ps, s, d), s, Opposite(d)) == ps
  {
    var r := Turn(Turn(ps, s, d), s, Opposite(d));
    forall i | 0 <= i < |ps|
      ensures r[i] == ps[i]
    {
      RotatePieceInverse(ps[i], s, d);
    }
  }

  /** Four turns of the same side the same way restore the whole state. */
  lemma TurnFourTimes(ps: seq<Piece>, s: Side, d: Direction)
    ensures Turn(Turn(Turn(Turn(ps, s, d), s, d), s, d), s, d) == ps
  {
    var r := Turn(Turn(Turn(Turn(ps, s, d), s, d), s, d), s, d);
    forall i | 0 <= i < |ps|
      ensures r[i] == ps[i]
    {
      RotatePieceFourTimes(ps[i], s, d);
    }
  }
}
