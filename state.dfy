/** The invariants of the puzzle state held in RubiksCube.pieces, and what
    rotateSide, scramble and initialize do to them. */
module CubeState {
  import opened Geometry
  import opened Pieces
  import opened SolvedState

  /** Exactly 26 cubelets, one on each cell of {-1,0,1}^3 minus the centre. */
  ghost predicate CellsOnce(ps: seq<Piece>)
  {
    && |ps| == 26
    && (forall i :: 0 <= i < |ps| ==> IsCell(ps[i].position))
    && (forall i, j :: 0 <= i < j < |ps| ==> ps[i].position != ps[j].position)
    && (forall q :: IsCell(q) ==> exists i :: 0 <= i < |ps| && ps[i].position == q)
  }

  /** Every cubelet shows its non-gray colours exactly on its outside faces. */
  predicate AllOutward(ps: seq<Piece>)
  {
    forall i :: 0 <= i < |ps| ==> Outward(ps[i])
  }

  /** The invariant of a puzzle state. */
  ghost predicate ValidState(ps: seq<Piece>)
  {
    CellsOnce(ps) && AllOutward(ps)
  }

  /** The solved state has the 26 cells once each, in x-then-y-then-z order,
      with colours only on outside faces. */
  lemma SolvedIsValid()
    ensures ValidState(Solved())
    ensures forall i, j :: 0 <= i < j < 26 ==> LexLess(Solved()[i].position, Solved()[j].position)
  {
    var ps := Solved();
    forall q | IsCell(q)
      ensures exists i :: 0 <= i < |ps| && ps[i].position == q
    {
      CellAtRank(q);
      var k := Rank(q.x, q.y, q.z);
      assert ps[k].position == q;
    }
    forall i, j | 0 <= i < j < 26
      ensures LexLess(ps[i].position, ps[j].position)
    {
      RankMonotone(ps[i].position, ps[j].position);
    }
    forall i | 0 <= i < 26
      ensures Outward(ps[i])
    {
      forall f
        ensures ColourAt(ps[i].colors, f) != Gray <==> OnBoundary(ps[i].position, f)
      {
        var c := FaceColour(f);
      }
    }
  }

  /** rotateSide keeps the 26 cells occupied once each. */
  lemma TurnKeepsCells(ps: seq<Piece>, s: Side, d: Direction)
    requires CellsOnce(ps)
    ensures CellsOnce(Turn(ps, s, d))
  {
    TurnKeepsDistinct(ps, s, d);
    TurnKeepsCover(ps, s, d);
  }

  /** A turn never puts two cubelets on one position. */
  lemma TurnKeepsDistinct(ps: seq<Piece>, s: Side, d: Direction)
    requires forall i, j :: 0 <= i < j < |ps| ==> ps[i].position != ps[j].position
    ensures forall i, j :: 0 <= i < j < |ps| ==> Turn(ps, s, d)[i].position != Turn(ps, s, d)[j].position
  {
    var r := Turn(ps, s, d);
    forall i, j | 0 <= i < j < |r|
      ensures r[i].position != r[j].position
    {
      if r[i].position == r[j].position {
        RotatePieceInjective(ps[i], ps[j], s, d);
      }
    }
  }

  /** A turn leaves every cell occupied when every cell was occupied before. */
  lemma TurnKeepsCover(ps: seq<Piece>, s: Side, d: Direction)
    requires forall q :: IsCell(q) ==> exists i :: 0 <= i < |ps| && ps[i].position == q
    ensures forall q :: IsCell(q) ==> exists i :: 0 <= i < |ps| && Turn(ps, s, d)[i].position == q
  {
    var r := Turn(ps, s, d);
    var slab := SlabOf(s);
    forall q | IsCell(q)
      ensures exists i :: 0 <= i < |r| && r[i].position == q
    {
      var from := if Coord(q, slab.axis) == slab.layer then RotatePosition(q, slab.axis, Opposite(d)) else q;
      var i :| 0 <= i < |ps| && ps[i].position == from;
      RotatePositionInverse(q, slab.axis, Opposite(d));
      assert Opposite(Opposite(d)) == d;
      assert r[i].position == q;
    }
  }

  /** rotateSide keeps non-gray colours exactly on the outside faces. */
  lemma TurnKeepsOutward(ps: seq<Piece>, s: Side, d: Direction)
    requires AllOutward(ps)
    ensures AllOutward(Turn(ps, s, d))
  {
    forall i | 0 <= i < |ps|
      ensures Outward(Turn(ps, s, d)[i])
    {
      RotatePieceKeepsOutward(ps[i], s, d);
    }
  }

  /** The positions of a list of cubelets, in list order. */
  function Positions(ps: seq<Piece>): (r: seq<Pos>)
    ensures |r| == |ps|
    ensures forall i :: 0 <= i < |ps| ==> r[i] == ps[i].position
  {
    seq(|ps|, i requires 0 <= i < |ps| => ps[i].position)
  }

  /** A list without repeats holds each of its elements once. */
  lemma {:induction false} DistinctCounts(s: seq<Pos>, q: Pos)
    requires forall i, j :: 0 <= i < j < |s| ==> s[i] != s[j]
    ensures multiset(s)[q] == if q in s then 1 else 0
  {
    if s != [] {
      DistinctCounts(s[1..], q);
      assert s == [s[0]] + s[1..];
      assert s[0] !in s[1..];
    }
  }

  /** In a state with the 26 cells once each, every cell occurs once among
      the positions and nothing else occurs. */
  lemma CellsOnceCounts(ps: seq<Piece>, q: Pos)
    requires CellsOnce(ps)
    ensures multiset(Positions(ps))[q] == if IsCell(q) then 1 else 0
  {
    DistinctCounts(Positions(ps), q);
    if IsCell(q) {
      var i :| 0 <= i < |ps| && ps[i].position == q;
      assert Positions(ps)[i] == q;
    }
  }

  /** On a valid state, rotateSide leaves the multiset of positions as it was. */
  lemma TurnKeepsPositions(ps: seq<Piece>, s: Side, d: Direction)
    requires CellsOnce(ps)
    ensures multiset(Positions(Turn(ps, s, d))) == multiset(Positions(ps))
  {
    var r := Turn(ps, s, d);
    TurnKeepsCells(ps, s, d);
    forall q
      ensures multiset(Positions(r))[q] == multiset(Positions(ps))[q]
    {
      CellsOnceCounts(ps, q);
      CellsOnceCounts(r, q);
    }
  }

  /** A (side, direction) pair as passed to rotateSide. */
  datatype Move = Move(side: Side, direction: Direction)

  /** The state after applying `ms` to `ps`, first move first. */
  function ApplyMoves(ps: seq<Piece>, ms: seq<Move>): seq<Piece>
    decreases |ms|
  {
    if ms == [] then ps
    else
      var last := ms[|ms| - 1];
      Turn(ApplyMoves(ps, ms[..|ms| - 1]), last.side, last.direction)
  }

  /** Any sequence of turns, in particular the 20 of scramble, keeps a valid
      state valid. */
  lemma {:induction false} ApplyMovesKeepsValid(ps: seq<Piece>, ms: seq<Move>)
    requires ValidState(ps)
    ensures ValidState(ApplyMoves(ps, ms))
    decreases |ms|
  {
    if ms != [] {
      var before := ApplyMoves(ps, ms[..|ms| - 1]);
      var last := ms[|ms| - 1];
      ApplyMovesKeepsValid(ps, ms[..|ms| - 1]);
      TurnKeepsCells(before, last.side, last.direction);
      TurnKeepsOutward(before, last.side, last.direction);
    }
  }
}
