/** Move legality in closed form. `MovementObject` proves that the loops of the program compute exactly these sets. */
module Rules {
  import opened Values

  type Direction = (int, int)

  const ROOK_DIRECTIONS: seq<Direction> := [(0, 1), (0, -1), (1, 0), (-1, 0)]
  const BISHOP_DIRECTIONS: seq<Direction> := [(1, 1), (1, -1), (-1, 1), (-1, -1)]

  function Along(p: Position, d: Direction, k: int): Position {
    Position(p.row + k * d.0, p.col + k * d.1)
  }

  /** q is k steps away and on the board, and the steps strictly in between are on the board and empty. */
  predicate Ray(b: BoardState, p: Position, d: Direction, k: nat, q: Position) {
    1 <= k && q == Along(p, d, k) && InBounds(b, q) &&
    forall i | 1 <= i < k :: InBounds(b, Along(p, d, i)) && Along(p, d, i) !in b.grid
  }

  /** From a cell on the board, only the emptiness of the steps in between matters. */
  lemma RayFromBoard(b: BoardState, p: Position, d: Direction, k: nat, q: Position)
    requires InBounds(b, p)
    ensures Ray(b, p, d, k, q) <==>
            1 <= k && q == Along(p, d, k) && InBounds(b, q) && forall i | 1 <= i < k :: Along(p, d, i) !in b.grid
  {
    if 1 <= k && q == Along(p, d, k) && InBounds(b, q) {
      forall i | 1 <= i < k ensures InBounds(b, Along(p, d, i)) {
        Between(d.0, i, k);
        Between(d.1, i, k);
      }
    }
  }

  lemma Between(d: int, i: nat, k: nat)
    requires i < k
    ensures if d >= 0 then 0 <= i * d <= k * d else k * d <= i * d <= 0
  {
    assert k * d == i * d + (k - i) * d;
  }

  ghost predicate OnRay(b: BoardState, p: Position, d: Direction, q: Position) {
    exists k: nat :: Ray(b, p, d, k, q)
  }

  ghost predicate Slides(b: BoardState, p: Position, ds: seq<Direction>, q: Position) {
    exists j :: 0 <= j < |ds| && OnRay(b, p, ds[j], q)
  }

  predicate KingStep(p: Position, q: Position) {
    p != q && Abs(q.row - p.row) <= 1 && Abs(q.col - p.col) <= 1
  }

  predicate KnightStep(p: Position, q: Position) {
    (Abs(q.row - p.row) == 2 && Abs(q.col - p.col) == 1) || (Abs(q.row - p.row) == 1 && Abs(q.col - p.col) == 2)
  }

  function Forward(c: Color): int {
    if c == White then -1 else 1
  }

  const MIN_HEIGHT_FOR_DOUBLE_STEP := 5

  predicate PawnStep(b: BoardState, piece: PieceRec, q: Position) {
    var p, f := piece.cell, Forward(piece.color);
    || (q == Position(p.row + f, p.col) && q !in b.grid)
    || (q == Position(p.row + 2 * f, p.col) && q !in b.grid && Position(p.row + f, p.col) !in b.grid &&
        p.row == piece.startRow && b.height >= MIN_HEIGHT_FOR_DOUBLE_STEP &&
        InBounds(b, Position(p.row + f, p.col)))
    || (q.row == p.row + f && Abs(q.col - p.col) == 1 && q in b.grid)
  }

  /** The destinations of a piece, friends and enemies alike. */
  ghost predicate Reaches(b: BoardState, piece: PieceRec, q: Position) {
    InBounds(b, q) &&
    match piece.kind
    case King => KingStep(piece.cell, q)
    case Knight => KnightStep(piece.cell, q)
    case Pawn => PawnStep(b, piece, q)
    case Rook => Slides(b, piece.cell, ROOK_DIRECTIONS, q)
    case Bishop => Slides(b, piece.cell, BISHOP_DIRECTIONS, q)
    case Queen => Slides(b, piece.cell, ROOK_DIRECTIONS, q) || Slides(b, piece.cell, BISHOP_DIRECTIONS, q)
  }

  datatype Verdict = Legal | OutsideBoard | EmptySource | FriendlyDestination | IllegalPieceMove

  /** The occupant records a board refers to. */
  ghost predicate Placed(b: BoardState, pieces: map<PieceId, PieceRec>) {
    forall p | p in b.grid :: b.grid[p] in pieces
  }

  ghost function Validate(b: BoardState, pieces: map<PieceId, PieceRec>, allowFriendly: bool,
                          source: Position, destination: Position): Verdict
    requires Placed(b, pieces)
  {
    if !InBounds(b, source) || !InBounds(b, destination) then OutsideBoard
    else if source !in b.grid then EmptySource
    else
      var piece := pieces[b.grid[source]];
      if destination in b.grid && pieces[b.grid[destination]].color == piece.color && !allowFriendly
      then FriendlyDestination
      else if !Reaches(b, piece, destination) then IllegalPieceMove
      else Legal
  }

  // ----- what legality implies -----

  /** The displacements of each kind, whatever else is on the board. */
  predicate Shape(kind: Kind, color: Color, p: Position, q: Position) {
    var dr, dc := q.row - p.row, q.col - p.col;
    match kind
    case King => KingStep(p, q)
    case Knight => KnightStep(p, q)
    case Rook => p != q && (dr == 0 || dc == 0)
    case Bishop => p != q && Abs(dr) == Abs(dc)
    case Queen => p != q && (dr == 0 || dc == 0 || Abs(dr) == Abs(dc))
    case Pawn => (Abs(dc) <= 1 && dr == Forward(color)) || (dc == 0 && dr == 2 * Forward(color))
  }

  lemma SlideShape(b: BoardState, p: Position, ds: seq<Direction>, q: Position)
    requires ds == ROOK_DIRECTIONS || ds == BISHOP_DIRECTIONS
    requires Slides(b, p, ds, q)
    ensures p != q
    ensures if ds == ROOK_DIRECTIONS then q.row == p.row || q.col == p.col
            else Abs(q.row - p.row) == Abs(q.col - p.col)
  {
    var j :| 0 <= j < |ds| && OnRay(b, p, ds[j], q);
    var k: nat :| Ray(b, p, ds[j], k, q);
    assert ds[j] in [ds[0], ds[1], ds[2], ds[3]];
  }

  /** A legal move always leaves its cell, in the way of its kind, whether or not friendly capture is allowed. */
  lemma LegalShape(b: BoardState, pieces: map<PieceId, PieceRec>, allowFriendly: bool, source: Position,
                   destination: Position)
    requires Placed(b, pieces)
    requires Validate(b, pieces, allowFriendly, source, destination) == Legal
    ensures InBounds(b, source) && InBounds(b, destination) && source in b.grid
    ensures var piece := pieces[b.grid[source]];
            Shape(piece.kind, piece.color, piece.cell, destination) && destination != piece.cell
  {
    var piece := pieces[b.grid[source]];
    if piece.kind == Rook || (piece.kind == Queen && Slides(b, piece.cell, ROOK_DIRECTIONS, destination)) {
      SlideShape(b, piece.cell, ROOK_DIRECTIONS, destination);
    } else if piece.kind == Bishop || piece.kind == Queen {
      SlideShape(b, piece.cell, BISHOP_DIRECTIONS, destination);
    }
  }
}
