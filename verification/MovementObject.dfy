/** The destination loops of the pieces and the rule engine, over the board object. */
module MovementObject {
  import opened Values
  import opened Rules
  import opened BoardObject

  const KNIGHT_OFFSETS: seq<(int, int)> :=
    [(-2, -1), (-2, 1), (-1, -2), (-1, 2), (1, -2), (1, 2), (2, -1), (2, 1)]

  /** q is a king's step from p whose offset comes before (dr, dc) in row-major order. */
  predicate KingStepBefore(p: Position, q: Position, dr: int, dc: int) {
    KingStep(p, q) && (q.row - p.row < dr || (q.row - p.row == dr && q.col - p.col < dc))
  }

  method KingDestinations(board: Board, piece: Piece) returns (result: set<Position>)
    ensures forall q :: q in result <==> InBounds(board.View(), q) && KingStep(piece.cell, q)
  {
    var r, c := piece.cell.row, piece.cell.col;
    result := {};
    for dr := -1 to 2
      invariant forall q :: q in result <==> InBounds(board.View(), q) && KingStepBefore(piece.cell, q, dr, -1)
    {
      for dc := -1 to 2
        invariant forall q :: q in result <==> InBounds(board.View(), q) && KingStepBefore(piece.cell, q, dr, dc)
      {
        if dr == 0 && dc == 0 {
          continue;
        }
        var pos := Position(r + dr, c + dc);
        if board.InBounds(pos) {
          result := result + {pos};
        }
      }
    }
  }

  ghost predicate KnightStepBefore(p: Position, q: Position, n: nat)
    requires n <= |KNIGHT_OFFSETS|
  {
    exists i :: 0 <= i < n && q == Position(p.row + KNIGHT_OFFSETS[i].0, p.col + KNIGHT_OFFSETS[i].1)
  }

  lemma KnightOffsets(p: Position, q: Position)
    ensures KnightStepBefore(p, q, |KNIGHT_OFFSETS|) <==> KnightStep(p, q)
  {
    if KnightStep(p, q) {
      var d := (q.row - p.row, q.col - p.col);
      var i := if d == (-2, -1) then 0 else if d == (-2, 1) then 1 else if d == (-1, -2) then 2
               else if d == (-1, 2) then 3 else if d == (1, -2) then 4 else if d == (1, 2) then 5
               else if d == (2, -1) then 6 else 7;
      assert KNIGHT_OFFSETS[i] == d;
    }
  }

  method KnightDestinations(board: Board, piece: Piece) returns (result: set<Position>)
    ensures forall q :: q in result <==> InBounds(board.View(), q) && KnightStep(piece.cell, q)
  {
    var r, c := piece.cell.row, piece.cell.col;
    result := {};
    for i := 0 to |KNIGHT_OFFSETS|
      invariant forall q :: q in result <==> InBounds(board.View(), q) && KnightStepBefore(piece.cell, q, i)
    {
      var pos := Position(r + KNIGHT_OFFSETS[i].0, c + KNIGHT_OFFSETS[i].1);
      if board.InBounds(pos) {
        result := result + {pos};
      }
      assert forall q :: KnightStepBefore(piece.cell, q, i + 1) <==> KnightStepBefore(piece.cell, q, i) || q == pos;
    }
    forall q ensures KnightStepBefore(piece.cell, q, |KNIGHT_OFFSETS|) <==> KnightStep(piece.cell, q) {
      KnightOffsets(piece.cell, q);
    }
  }

  method PawnDestinations(board: Board, piece: Piece) returns (result: set<Position>)
    ensures forall q :: q in result <==> InBounds(board.View(), q) && PawnStep(board.View(), piece.Rec(), q)
  {
    var r, c := piece.cell.row, piece.cell.col;
    var direction := if piece.color == White then -1 else 1;
    result := {};
    var fwd := Position(r + direction, c);
    if board.InBounds(fwd) && board.GetPiece(fwd) == None {
      result := result + {fwd};
      var fwd2 := Position(r + direction * 2, c);
      if r == piece.startRow && board.height >= MIN_HEIGHT_FOR_DOUBLE_STEP && board.InBounds(fwd2)
         && board.GetPiece(fwd2) == None {
        result := result + {fwd2};
      }
    }
    ghost var straight := result;
    var left := Position(r + direction, c - 1);
    if board.InBounds(left) && board.GetPiece(left) != None {
      result := result + {left};
    }
    var right := Position(r + direction, c + 1);
    if board.InBounds(right) && board.GetPiece(right) != None {
      result := result + {right};
    }
  }

  /** q is reached along one of the first n directions. */
  ghost predicate SlidesFirst(b: BoardState, p: Position, ds: seq<Direction>, n: nat, q: Position)
    requires n <= |ds|
  {
    exists j :: 0 <= j < n && OnRay(b, p, ds[j], q)
  }

  /** q is reached along d in fewer than n steps. */
  ghost predicate RayShorter(b: BoardState, p: Position, d: Direction, n: nat, q: Position) {
    exists k: nat :: k < n && Ray(b, p, d, k, q)
  }

  function Measure(b: BoardState, d: Direction, r: int, c: int): int {
    if d.0 > 0 then b.height - r else if d.0 < 0 then r + 1 else if d.1 > 0 then b.width - c else c + 1
  }

  /** A ray does not pass the first step that is off the board or occupied. */
  lemma RayStops(b: BoardState, p: Position, d: Direction, k: nat)
    requires 1 <= k && (!InBounds(b, Along(p, d, k)) || Along(p, d, k) in b.grid)
    ensures forall q :: OnRay(b, p, d, q) <==> RayShorter(b, p, d, k, q) || Ray(b, p, d, k, q)
  {
    forall q | OnRay(b, p, d, q) ensures RayShorter(b, p, d, k, q) || Ray(b, p, d, k, q) {
      var i: nat :| Ray(b, p, d, i, q);
      assert i <= k;
    }
  }

  lemma OneStepFurther(b: BoardState, p: Position, d: Direction, k: nat)
    requires 1 <= k && InBounds(b, Along(p, d, k))
    requires forall i | 1 <= i < k :: InBounds(b, Along(p, d, i)) && Along(p, d, i) !in b.grid
    ensures forall q :: Ray(b, p, d, k, q) <==> q == Along(p, d, k)
    ensures forall q :: RayShorter(b, p, d, k + 1, q) <==> RayShorter(b, p, d, k, q) || q == Along(p, d, k)
  {
    assert Ray(b, p, d, k, Along(p, d, k));
    forall q ensures RayShorter(b, p, d, k + 1, q) <==> RayShorter(b, p, d, k, q) || q == Along(p, d, k) {
      if RayShorter(b, p, d, k + 1, q) {
        var i: nat :| i < k + 1 && Ray(b, p, d, i, q);
        assert i < k ==> RayShorter(b, p, d, k, q);
      }
      if RayShorter(b, p, d, k, q) {
        var i: nat :| i < k && Ray(b, p, d, i, q);
        assert i < k + 1;
      }
    }
  }

  /** The cells collected so far are those reached in fewer than k steps, and the ray has not stopped yet. */
  ghost predicate Collected(result: set<Position>, b: BoardState, p: Position, d: Direction, k: nat) {
    && k >= 1
    && (forall i | 1 <= i < k :: InBounds(b, Along(p, d, i)) && Along(p, d, i) !in b.grid)
    && forall q :: q in result <==> RayShorter(b, p, d, k, q)
  }

  lemma CollectedNext(result: set<Position>, b: BoardState, p: Position, d: Direction, k: nat)
    requires Collected(result, b, p, d, k) && InBounds(b, Along(p, d, k)) && Along(p, d, k) !in b.grid
    ensures Collected(result + {Along(p, d, k)}, b, p, d, k + 1)
  {
    OneStepFurther(b, p, d, k);
  }

  /** The ray stops at step k: with that cell if it is on the board, without it otherwise. */
  lemma CollectedAll(result: set<Position>, b: BoardState, p: Position, d: Direction, k: nat)
    requires Collected(result, b, p, d, k) && (!InBounds(b, Along(p, d, k)) || Along(p, d, k) in b.grid)
    ensures forall q :: OnRay(b, p, d, q) <==> q in result || (InBounds(b, Along(p, d, k)) && q == Along(p, d, k))
  {
    RayStops(b, p, d, k);
    if InBounds(b, Along(p, d, k)) {
      OneStepFurther(b, p, d, k);
    }
  }

  lemma AlongNext(p: Position, d: Direction, k: nat)
    ensures Along(p, d, 1) == Position(p.row + d.0, p.col + d.1)
    ensures Along(p, d, k + 1) == Position(Along(p, d, k).row + d.0, Along(p, d, k).col + d.1)
  {
  }

  method RayDestinations(board: Board, piece: Piece, d: Direction) returns (result: set<Position>)
    requires d != (0, 0)
    ensures forall q :: q in result <==> OnRay(board.View(), piece.cell, d, q)
  {
    var r, c := piece.cell.row + d.0, piece.cell.col + d.1;
    ghost var b, p := board.View(), piece.cell;
    ghost var k: nat := 1;
    AlongNext(p, d, 0);
    result := {};
    while true
      invariant Position(r, c) == Along(p, d, k) && Collected(result, b, p, d, k)
      decreases Measure(b, d, r, c)
    {
      var pos := Position(r, c);
      if !board.InBounds(pos) {
        CollectedAll(result, b, p, d, k);
        break;
      }
      var occupant := board.GetPiece(pos);
      if occupant != None {
        CollectedAll(result, b, p, d, k);
        result := result + {pos};
        break;
      }
      CollectedNext(result, b, p, d, k);
      result := result + {pos};
      AlongNext(p, d, k);
      r := r + d.0;
      c := c + d.1;
      k := k + 1;
    }
  }

  method SlidingDestinations(board: Board, piece: Piece, directions: seq<Direction>) returns (result: set<Position>)
    requires forall j | 0 <= j < |directions| :: directions[j] != (0, 0)
    ensures forall q :: q in result <==> Slides(board.View(), piece.cell, directions, q)
  {
    result := {};
    for n := 0 to |directions|
      invariant forall q :: q in result <==> SlidesFirst(board.View(), piece.cell, directions, n, q)
    {
      var ray := RayDestinations(board, piece, directions[n]);
      result := result + ray;
      assert forall q :: SlidesFirst(board.View(), piece.cell, directions, n + 1, q) <==>
        SlidesFirst(board.View(), piece.cell, directions, n, q) || OnRay(board.View(), piece.cell, directions[n], q);
    }
  }

  method LegalDestinations(board: Board, piece: Piece) returns (result: set<Position>)
    ensures forall q :: q in result <==> Reaches(board.View(), piece.Rec(), q)
  {
    match piece.kind
    case King => result := KingDestinations(board, piece);
    case Knight => result := KnightDestinations(board, piece);
    case Pawn => result := PawnDestinations(board, piece);
    case Rook => result := SlidingDestinations(board, piece, ROOK_DIRECTIONS);
    case Bishop => result := SlidingDestinations(board, piece, BISHOP_DIRECTIONS);
    case Queen =>
      var straight := SlidingDestinations(board, piece, ROOK_DIRECTIONS);
      var diagonal := SlidingDestinations(board, piece, BISHOP_DIRECTIONS);
      result := straight + diagonal;
  }

  class RuleEngine {
    const allowFriendlyCapture: bool

    constructor (allowFriendlyCapture: bool)
      ensures this.allowFriendlyCapture == allowFriendlyCapture
    {
      this.allowFriendlyCapture := allowFriendlyCapture;
    }

    method ValidateMove(board: Board, source: Position, destination: Position, ghost store: map<PieceId, Piece>)
      returns (verdict: Verdict)
      requires board.Valid(store)
      ensures Placed(board.View(), Recs(store))
      ensures verdict == Validate(board.View(), Recs(store), allowFriendlyCapture, source, destination)
    {
      if !board.InBounds(source) || !board.InBounds(destination) {
        return OutsideBoard;
      }
      var piece := board.GetPiece(source);
      if piece == None {
        return EmptySource;
      }
      var target := board.GetPiece(destination);
      if target.Some? && target.value.color == piece.value.color && !allowFriendlyCapture {
        return FriendlyDestination;
      }
      var legal := LegalDestinations(board, piece.value);
      if destination !in legal {
        return IllegalPieceMove;
      }
      return Legal;
    }
  }
}
