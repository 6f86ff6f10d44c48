/** The solved configuration that RubiksCube.initialize builds: the 26 cells
    in x-then-y-then-z order, each coloured on its outside faces only. */
module SolvedState {
  import opened Geometry
  import opened Pieces

  /** Position of (x, y, z) in the 27-point grid walked x-then-y-then-z
      from (-1, -1, -1); a coordinate may stand one past the grid, as the
      loops of initialize do when they finish. */
  function GridIndex(x: int, y: int, z: int): int
  {
    9 * (x + 1) + 3 * (y + 1) + (z + 1)
  }

  /** How many cells initialize has pushed before it reaches (x, y, z): the
      grid index, less one once the skipped centre (grid index 13) is behind. */
  function Rank(x: int, y: int, z: int): int
  {
    var g := GridIndex(x, y, z);
    if g > 13 then g - 1 else g
  }

  /** The cell initialize pushes as its `k`-th piece. */
  function CellAt(k: int): (p: Pos)
    requires 0 <= k < 26
    ensures IsCell(p)
    ensures Rank(p.x, p.y, p.z) == k
  {
    var g := if k < 13 then k else k + 1;
    Pos(g / 9 - 1, g / 3 % 3 - 1, g % 3 - 1)
  }

  /** Every cell is pushed exactly once: at position Rank. */
  lemma CellAtRank(p: Pos)
    requires IsCell(p)
    ensures 0 <= Rank(p.x, p.y, p.z) < 26
    ensures CellAt(Rank(p.x, p.y, p.z)) == p
  {
  }

  /** The order of positions in which initialize's loops run. */
  predicate LexLess(p: Pos, q: Pos)
  {
    p.x < q.x || (p.x == q.x && (p.y < q.y || (p.y == q.y && p.z < q.z)))
  }

  /** Ranks follow the x-then-y-then-z order. */
  lemma RankMonotone(p: Pos, q: Pos)
    requires IsCell(p) && IsCell(q)
    ensures LexLess(p, q) <==> Rank(p.x, p.y, p.z) < Rank(q.x, q.y, q.z)
  {
  }

  /** The six puzzle colours, one per face: red right, orange left, white top,
      yellow bottom, blue front, green back. */
  function FaceColour(f: Face): (c: Colour)
    ensures c != Gray
  {
    match f
    case PlusX => Red
    case MinusX => Orange
    case PlusY => White
    case MinusY => Yellow
    case PlusZ => Blue
    case MinusZ => Green
  }

  /** The colour list initialize gives the cubelet at `p`: each face on the
      outside of the puzzle shows its face colour, every other face is gray. */
  function SolvedColours(p: Pos): (c: Colours)
    ensures forall f :: ColourAt(c, f) == if OnBoundary(p, f) then FaceColour(f) else Gray
  {
    [ if p.x == 1 then Red else Gray,
      if p.x == -1 then Orange else Gray,
      if p.y == 1 then White else Gray,
      if p.y == -1 then Yellow else Gray,
      if p.z == 1 then Blue else Gray,
      if p.z == -1 then Green else Gray ]
  }

  /** The solved state: the list initialize leaves in `pieces`. */
  function Solved(): (ps: seq<Piece>)
    ensures |ps| == 26
  {
    seq(26, k requires 0 <= k < 26 => Piece(CellAt(k), SolvedColours(CellAt(k))))
  }

  /** Pushing the cubelet for cell `p` onto the first Rank(p) pieces of the
      solved state gives the first Rank(p) + 1. */
  lemma SolvedPrefixGrows(p: Pos)
    requires IsCell(p)
    ensures 0 <= Rank(p.x, p.y, p.z) < Rank(p.x, p.y, p.z + 1) == Rank(p.x, p.y, p.z) + 1 <= 26
    ensures Solved()[..Rank(p.x, p.y, p.z)] + [Piece(p, SolvedColours(p))] == Solved()[..Rank(p.x, p.y, p.z + 1)]
  {
    CellAtRank(p);
  }
}
