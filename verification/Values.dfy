/** The value objects of the game: positions, pieces, motions and the events of real time. */
module Values {

  datatype Option<+T> = None | Some(value: T)

  datatype Position = Position(row: int, col: int)

  datatype Color = White | Black

  datatype Kind = King | Queen | Rook | Bishop | Knight | Pawn

  datatype PieceState = Idle | Moving | Jumping | LongRest | ShortRest | Captured

  type PieceId = string

  /** What never changes about a piece: enough to follow it through motions and events. */
  datatype Token = Token(id: PieceId, color: Color)

  /** The fields of a piece; `kind`, `cell` and `state` are the ones the program updates. */
  datatype PieceRec = PieceRec(color: Color, kind: Kind, cell: Position, state: PieceState, startRow: int)

  /** The board: a dictionary from cells to pieces. */
  datatype BoardState = BoardState(width: int, height: int, grid: map<Position, PieceId>)

  predicate InBounds(b: BoardState, p: Position) {
    0 <= p.row < b.height && 0 <= p.col < b.width
  }

  /** An active motion. Only a MOVE has a destination. */
  datatype Motion =
    | Move(piece: Token, fromPos: Position, toPos: Position, remaining: int)
    | Jump(piece: Token, fromPos: Position, remaining: int)

  /** `captured` and `formerKind` of an arrival are filled in by the engine. */
  datatype Event =
    | Arrival(piece: Token, fromPos: Position, destination: Position,
              captured: Option<PieceId>, formerKind: Option<Kind>)
    | Elimination(piece: Token, currentPos: Position)
    | Rest(piece: Token, restState: PieceState, duration: int)
    | Wake(piece: Token)

  function Abs(x: int): nat {
    if x < 0 then -x else x
  }

  function Max(x: int, y: int): int {
    if x < y then y else x
  }

  function Opponent(c: Color): Color {
    if c == White then Black else White
  }

  predicate IsRestState(s: PieceState) {
    s == LongRest || s == ShortRest
  }

  ghost predicate Within(s: seq<nat>, lo: int, hi: int) {
    forall p | 0 <= p < |s| :: lo < s[p] < hi
  }

  ghost predicate NoRepeats<T>(s: seq<T>) {
    forall p, q | 0 <= p < q < |s| :: s[p] != s[q]
  }

  lemma NoRepeatsSnoc<T>(s: seq<T>, x: T)
    requires NoRepeats(s) && x !in s
    ensures NoRepeats(s + [x])
  {
  }

  lemma EmptyOrSome<T>(s: seq<T>)
    ensures s == [] || exists x :: x in s
  {
    if s != [] {
      assert s[0] in s;
    }
  }
}
