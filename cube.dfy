/** The puzzle state engine: class RubiksCube, whose `pieces` field holds the
    26 cubelets and whose methods reset, turn, scramble and solve them. */
module Engine {
  import opened Geometry
  import opened Pieces
  import opened SolvedState
  import opened CubeState

  /** How many turns scramble applies. */
  const ScrambleLength := 20

  class RubiksCube {
    /** The cubelets, in the order initialize pushed them. */
    var pieces: seq<Piece>

    /** The 26 cells are occupied once each and every non-gray colour sits on
        an outside face. */
    ghost predicate Valid()
      reads this
    {
      ValidState(pieces)
    }

    /** A new puzzle starts solved. */
    constructor ()
      ensures Valid() && pieces == Solved()
    {
      pieces := [];
      new;
      Initialize();
    }

    /** Replaces `pieces` by the solved state, whatever it held before: one
        cubelet per cell of {-1,0,1}^3 except the centre, visited x first,
        then y, then z, each coloured on its outside faces only. */
    method Initialize()
      modifies this
      ensures Valid() && pieces == Solved()
    {
      pieces := [];
      for x := -1 to 2
        invariant pieces == Solved()[..Rank(x, -1, -1)]
      {
        for y := -1 to 2
          invariant pieces == Solved()[..Rank(x, y, -1)]
        {
          for z := -1 to 2
            invariant pieces == Solved()[..Rank(x, y, z)]
          {
            if x == 0 && y == 0 && z == 0 {
              continue;
            }
            var position := Pos(x, y, z);
            SolvedPrefixGrows(position);
            pieces := pieces + [Piece(position, SolvedColours(position))];
          }
        }
      }
      assert Solved()[..26] == Solved();
      SolvedIsValid();
    }

    /** Turns the slab that `side` names a quarter turn in `direction`: every
        cubelet of the slab is moved and recoloured, every other cubelet is
        left as it is, and the list keeps its order. */
    method RotateSide(side: Side, direction: Direction)
      requires Valid()
      modifies this
      ensures pieces == Turn(old(pieces), side, direction)
      ensures Valid()
    {
      TurnKeepsCells(pieces, side, direction);
      TurnKeepsOutward(pieces, side, direction);
      pieces := Turn(pieces, side, direction);
    }

    /** Applies the 20 turns of `moves` in order and returns the result; the
        state is valid after each of them. */
    method Scramble(moves: seq<Move>) returns (snapshot: seq<Piece>)
      requires Valid()
      requires |moves| == ScrambleLength
      modifies this
      ensures pieces == ApplyMoves(old(pieces), moves)
      ensures Valid() && snapshot == pieces
    {
      for i := 0 to ScrambleLength
        invariant pieces == ApplyMoves(old(pieces), moves[..i])
        invariant Valid()
      {
        assert moves[..i + 1][..i] == moves[..i];
        RotateSide(moves[i].side, moves[i].direction);
      }
      assert moves[..ScrambleLength] == moves;
      snapshot := pieces;
    }

    /** Resets the puzzle to the solved state and returns it. */
    method Solve() returns (snapshot: seq<Piece>)
      modifies this
      ensures Valid() && pieces == Solved() && snapshot == pieces
    {
      Initialize();
      snapshot := pieces;
    }
  }
}
