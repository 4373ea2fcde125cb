/** The pieces and the board as the program holds them: shared, mutable objects. */
module BoardObject {
  import opened Values
  import Engine

  class Piece {
    const id: PieceId
    const color: Color
    const startRow: int
    var kind: Kind
    var cell: Position
    var state: PieceState

    constructor (id: PieceId, color: Color, kind: Kind, cell: Position, startRow: int)
      ensures this.id == id && Rec() == PieceRec(color, kind, cell, Idle, startRow)
    {
      this.id, this.color, this.startRow := id, color, startRow;
      this.kind, this.cell, this.state := kind, cell, Idle;
    }

    function AsToken(): Token {
      Token(id, color)
    }

    function Rec(): PieceRec
      reads this
    {
      PieceRec(color, kind, cell, state, startRow)
    }
  }

  /** A store names the pieces of one game by their ids, which are unique. */
  ghost predicate Stored(store: map<PieceId, Piece>) {
    forall id | id in store :: store[id].id == id
  }

  ghost predicate Holds(store: map<PieceId, Piece>, p: Piece) {
    p.id in store && store[p.id] == p
  }

  ghost function Recs(store: map<PieceId, Piece>): map<PieceId, PieceRec>
    reads store.Values
  {
    map id | id in store :: store[id].Rec()
  }

  /** Writing one piece changes exactly that piece's record. */
  lemma OnePieceWritten(store: map<PieceId, Piece>, before: map<PieceId, PieceRec>, p: Piece)
    requires Stored(store) && Holds(store, p) && before.Keys == store.Keys
    requires forall id | id in store && store[id] != p :: store[id].Rec() == before[id]
    ensures Recs(store) == before[p.id := p.Rec()]
  {
    forall id | id in store ensures Recs(store)[id] == before[p.id := p.Rec()][id] {
      if id != p.id {
        assert store[id] != p;
      }
    }
  }

  method SetPieceState(p: Piece, s: PieceState, ghost store: map<PieceId, Piece>)
    requires Stored(store) && Holds(store, p)
    modifies p
    ensures p.state == s
    ensures Recs(store) == Engine.SetState(old(Recs(store)), p.id, s)
  {
    ghost var before := Recs(store);
    p.state := s;
    OnePieceWritten(store, before, p);
  }

  method SetPieceCell(p: Piece, cell: Position, ghost store: map<PieceId, Piece>)
    requires Stored(store) && Holds(store, p)
    modifies p
    ensures Recs(store) == Engine.SetCell(old(Recs(store)), p.id, cell)
  {
    ghost var before := Recs(store);
    p.cell := cell;
    OnePieceWritten(store, before, p);
  }

  function IdOf(p: Option<Piece>): Option<PieceId> {
    if p.Some? then Some(p.value.id) else None
  }

  ghost function GridView(g: map<Position, Piece>): map<Position, PieceId> {
    map p | p in g :: g[p].id
  }

  class Board {
    const width: int
    const height: int
    var grid: map<Position, Piece>

    constructor (width: int, height: int)
      ensures this.width == width && this.height == height && grid == map[]
    {
      this.width, this.height, grid := width, height, map[];
    }

    ghost function View(): BoardState
      reads this
    {
      BoardState(width, height, GridView(grid))
    }

    /** Every piece on the board belongs to the store. */
    ghost predicate Valid(store: map<PieceId, Piece>)
      reads this
    {
      Stored(store) && forall p | p in grid :: Holds(store, grid[p])
    }

    predicate InBounds(pos: Position) {
      0 <= pos.row < height && 0 <= pos.col < width
    }

    function GetPiece(pos: Position): Option<Piece>
      reads this
    {
      if pos in grid then Some(grid[pos]) else None
    }

    /** False stands for the ValueError of an occupied cell. */
    method AddPiece(piece: Piece) returns (ok: bool)
      modifies this
      ensures ok <==> piece.cell !in old(grid)
      ensures grid == if ok then old(grid)[piece.cell := piece] else old(grid)
    {
      if piece.cell in grid {
        return false;
      }
      grid := grid[piece.cell := piece];
      return true;
    }

    method RemovePiece(pos: Position) returns (removed: Option<Piece>)
      modifies this
      ensures removed == old(GetPiece(pos))
      ensures grid == old(grid) - {pos} && GridView(grid) == old(GridView(grid)) - {pos}
    {
      removed := GetPiece(pos);
      grid := grid - {pos};
    }

    /** The part of MovePiece that deals with a piece on the target. */
    method CaptureAt(toPos: Position, ghost store: map<PieceId, Piece>) returns (captured: Option<Piece>)
      requires Valid(store)
      modifies this, store.Values
      ensures Valid(store) && captured == old(GetPiece(toPos))
      ensures grid == old(grid) - {toPos}
      ensures Recs(store) == Engine.Seize(old(Recs(store)), IdOf(captured))
    {
      captured := GetPiece(toPos);
      if captured.Some? {
        SetPieceState(captured.value, Captured, store);
        ghost var recs := Recs(store);
        grid := grid - {toPos};
        assert Recs(store) == recs;
      }
    }

    /** Not `ok` stands for the KeyError of popping an empty source cell; then nothing has changed. */
    method MovePiece(fromPos: Position, toPos: Position, ghost store: map<PieceId, Piece>)
      returns (ok: bool, captured: Option<Piece>)
      requires Valid(store)
      modifies this, store.Values
      ensures Valid(store)
      ensures ok <==> fromPos in old(grid)
      ensures !ok ==> grid == old(grid) && Recs(store) == old(Recs(store)) && captured == None
      ensures captured.Some? ==> Holds(store, captured.value)
      ensures ok ==> GridView(grid) == Engine.Relocate(old(GridView(grid)), fromPos, toPos).0
      ensures ok ==> IdOf(captured) == Engine.Relocate(old(GridView(grid)), fromPos, toPos).1
      ensures ok ==>
        Recs(store) == Engine.SetCell(Engine.Seize(old(Recs(store)), IdOf(captured)), old(grid)[fromPos].id, toPos)
    {
      if fromPos !in grid {
        return false, None;
      }
      var piece := grid[fromPos];
      ghost var g, recs := GridView(grid), Recs(store);
      grid := grid - {fromPos};
      assert GridView(grid) == g - {fromPos} && Recs(store) == recs;
      captured := CaptureAt(toPos, store);
      recs := Recs(store);
      grid := grid[toPos := piece];
      assert Recs(store) == recs;
      assert GridView(grid) == (g - {fromPos})[toPos := piece.id];
      SetPieceCell(piece, toPos, store);
      ok := true;
    }
  }
}
