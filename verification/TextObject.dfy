/** The parser and the printer as they run: nested loops over the rows of a text and the cells of a board. */
module TextObject {
  import opened Values
  import opened Arbitration
  import opened BoardObject
  import opened BoardText
  import opened Layouts
  import opened Engine
  import Decimal

  // ----- the parser -----

  /** Splits a text into the rows of its lines. */
  method ReadRows(text: string) returns (rows: Rows)
    ensures rows == RowsOf(text)
  {
    var split := SplitLines(Strip(text));
    var lines: seq<string> := [];
    for i := 0 to |split|
      invariant lines == FullLines(split[..i])
    {
      assert split[..i + 1][..i] == split[..i];
      if Strip(split[i]) != [] {
        lines := lines + [Strip(split[i])];
      }
    }
    assert split[..|split|] == split;
    rows := [];
    for i := 0 to |lines|
      invariant |rows| == i && forall j | 0 <= j < i :: rows[j] == Words(lines[j])
    {
      rows := rows + [Words(lines[i])];
    }
    assert rows == SplitAll(lines);
  }

  method CheckRow(row: seq<string>) returns (error: Option<ParseError>)
    ensures error == RowError(row)
  {
    for c := 0 to |row|
      invariant RowError(row) == RowError(row[c..])
    {
      if row[c] == "." {
        continue;
      }
      if |row[c]| != 2 || row[c][0] !in {'w', 'b'} || !IsKindLetter(row[c][1]) {
        return Some(UnknownToken(row[c]));
      }
    }
    return None;
  }

  method CheckRows(rows: Rows) returns (error: Option<ParseError>)
    ensures error == Validate(rows)
  {
    if rows == [] {
      return Some(EmptyText);
    }
    var width := |rows[0]|;
    assert rows[0..] == rows;
    for r := 0 to |rows|
      invariant RowsError(rows, width) == RowsError(rows[r..], width)
    {
      assert rows[r..][1..] == rows[r + 1..];
      if |rows[r]| != width {
        return Some(RowWidthMismatch);
      }
      error := CheckRow(rows[r]);
      if error.Some? {
        return;
      }
    }
    error := None;
  }

  /** The board holds exactly the pieces of a layout, which are the pieces of the store. */
  ghost predicate Built(board: Board, store: map<PieceId, Piece>, l: Layout)
    reads board, store.Values
  {
    board.Valid(store) && GridView(board.grid) == l.grid && Recs(store) == l.recs
  }

  /** Puts the piece of one token on the board. */
  method Place(board: Board, token: string, r: nat, c: nat, counter: nat, ghost store: map<PieceId, Piece>,
               ghost l: Layout)
    returns (counter': nat, ghost store': map<PieceId, Piece>)
    requires IsToken(token) && Built(board, store, l) && counter == l.count
    requires Position(r, c) !in l.grid && IdOfNumber(l.count + 1) !in l.recs
    modifies board
    ensures Built(board, store', PlaceToken(l, token, r, c)) && counter' == PlaceToken(l, token, r, c).count
    ensures forall id | id in store' :: (id in store && store'[id] == store[id]) || fresh(store'[id])
  {
    counter', store' := counter, store;
    if token == "." {
      return;
    }
    counter' := counter + 1;
    var piece := new Piece("p" + Decimal.Text(counter'), ColorOf(token[0]), KindOf(token[1]), Position(r, c), r);
    Add(board, piece, store, l);
    store' := store[piece.id := piece];
  }

  /** Puts a new piece on an empty cell. */
  method Add(board: Board, piece: Piece, ghost store: map<PieceId, Piece>, ghost l: Layout)
    requires Built(board, store, l) && piece.cell !in l.grid && piece.id !in l.recs
    modifies board
    ensures Built(board, store[piece.id := piece],
                  Layout(l.grid[piece.cell := piece.id], l.recs[piece.id := piece.Rec()], l.count + 1))
  {
    ghost var grid := board.grid;
    assert piece.cell !in GridView(grid);
    var ok := board.AddPiece(piece);
    assert ok;
    GridUpdate(grid, piece.cell, piece);
    assert Recs(store[piece.id := piece]) == l.recs[piece.id := piece.Rec()];
  }

  lemma GridUpdate(grid: map<Position, Piece>, p: Position, piece: Piece)
    ensures GridView(grid[p := piece]) == GridView(grid)[p := piece.id]
  {
  }

  /** The body of the inner loop. */
  method PlaceNext(board: Board, rows: Rows, r: nat, c: nat, ghost next: nat, counter: nat,
                   ghost store: map<PieceId, Piece>, ghost l: Layout)
    returns (counter': nat, ghost store': map<PieceId, Piece>)
    requires r < |rows| && c < |rows[r]| && next == c + 1 && forall i | 0 <= i < |rows[r]| :: IsToken(rows[r][i])
    requires Good(PlaceRow(l, rows[r], r, c), rows, r, c)
    requires Built(board, store, PlaceRow(l, rows[r], r, c)) && counter == PlaceRow(l, rows[r], r, c).count
    modifies board
    ensures Built(board, store', PlaceRow(l, rows[r], r, next)) && counter' == PlaceRow(l, rows[r], r, next).count
    ensures forall id | id in store' :: (id in store && store'[id] == store[id]) || fresh(store'[id])
  {
    ghost var before := PlaceRow(l, rows[r], r, c);
    RoomFor(before, rows, r, c);
    PlaceRowNext(l, rows[r], r, c, next);
    counter', store' := Place(board, rows[r][c], r, c, counter, store, before);
  }

  /** The inner loop: the tokens of one row. */
  method PlaceAll(board: Board, rows: Rows, r: nat, counter: nat, ghost store: map<PieceId, Piece>, ghost l: Layout)
    returns (counter': nat, ghost store': map<PieceId, Piece>)
    requires r < |rows| && (forall i | 0 <= i < |rows[r]| :: IsToken(rows[r][i])) && Good(l, rows, r, 0)
    requires Built(board, store, l) && counter == l.count
    modifies board
    ensures Built(board, store', PlaceRow(l, rows[r], r, |rows[r]|))
            && counter' == PlaceRow(l, rows[r], r, |rows[r]|).count
    ensures forall id | id in store' :: (id in store && store'[id] == store[id]) || fresh(store'[id])
  {
    counter', store' := counter, store;
    var c := 0;
    while c != |rows[r]|
      invariant 0 <= c <= |rows[r]|
      invariant Built(board, store', PlaceRow(l, rows[r], r, c)) && counter' == PlaceRow(l, rows[r], r, c).count
      invariant forall id | id in store' :: (id in store && store'[id] == store[id]) || fresh(store'[id])
    {
      PlaceRowGood(l, rows, r, c);
      var next := c + 1;
      counter', store' := PlaceNext(board, rows, r, c, next, counter', store', l);
      c := next;
    }
  }

  /** The next cell is empty, and the next number unused. */
  lemma RoomFor(l: Layout, rows: Rows, r: nat, c: nat)
    requires r < |rows| && c < |rows[r]| && Good(l, rows, r, c)
    ensures Position(r, c) !in l.grid && IdOfNumber(l.count + 1) !in l.recs
  {
    IdsBelow(l.count, l.count + 1);
  }

  datatype ParseResult = Parsed(board: Board) | Failed(error: ParseError)

  /** `store` holds the pieces that were made. Failures stand for the exceptions of the parser. */
  method Parse(text: string) returns (result: ParseResult, ghost store: map<PieceId, Piece>)
    ensures result.Failed? <==> Validate(RowsOf(text)).Some?
    ensures result.Failed? ==> Some(result.error) == Validate(RowsOf(text))
    ensures result.Parsed? ==> fresh(result.board) && (forall id | id in store :: fresh(store[id]))
    ensures result.Parsed? ==> WellFormed(RowsOf(text)) && result.board.Valid(store)
    ensures result.Parsed? ==> result.board.View() == BoardOf(RowsOf(text))
    ensures result.Parsed? ==> Recs(store) == PlaceRows(RowsOf(text), |RowsOf(text)|).recs
  {
    store := map[];
    var rows := ReadRows(text);
    var error := CheckRows(rows);
    ValidateMeans(rows);
    if error.Some? {
      return Failed(error.value), store;
    }
    var board;
    board, store := BuildBoard(rows);
    result := Parsed(board);
  }

  /** The outer loop: the rows of a text that was accepted. */
  method BuildBoard(rows: Rows) returns (board: Board, ghost store: map<PieceId, Piece>)
    requires WellFormed(rows)
    ensures fresh(board) && (forall id | id in store :: fresh(store[id])) && board.Valid(store)
    ensures board.View() == BoardOf(rows) && Recs(store) == PlaceRows(rows, |rows|).recs
  {
    store := map[];
    board := new Board(|rows[0]|, |rows|);
    var counter := 0;
    assert Built(board, store, BLANK);
    var r := 0;
    while r != |rows|
      invariant 0 <= r <= |rows|
      invariant Built(board, store, PlaceRows(rows, r)) && counter == PlaceRows(rows, r).count
      invariant forall id | id in store :: fresh(store[id])
    {
      var next := r + 1;
      PlaceRowsGood(rows, r);
      PlaceRowsNext(rows, r, next);
      counter, store := PlaceAll(board, rows, r, counter, store, PlaceRows(rows, r));
      r := next;
    }
  }

  // ----- the printer -----

  /** The token of one cell. */
  method CellToken(board: Board, p: Position, ghost store: map<PieceId, Piece>) returns (token: string)
    requires board.Valid(store)
    ensures token == TokenAt(board.View(), Recs(store), p)
  {
    var piece := board.GetPiece(p);
    if piece == None || piece.value.state == Captured {
      return ".";
    }
    token := [ColorLetter(piece.value.color), LetterOf(piece.value.kind)];
  }

  method RowText(board: Board, r: nat, ghost store: map<PieceId, Piece>) returns (row: seq<string>)
    requires board.Valid(store) && 0 <= board.width
    ensures row == TokenRow(board.View(), Recs(store), r)
  {
    row := [];
    for c := 0 to board.width
      invariant |row| == c && forall i | 0 <= i < c :: row[i] == TokenAt(board.View(), Recs(store), Position(r, i))
    {
      var token := CellToken(board, Position(r, c), store);
      row := row + [token];
    }
  }

  method ToText(board: Board, ghost store: map<PieceId, Piece>) returns (text: string)
    requires board.Valid(store) && 0 <= board.width && 0 <= board.height
    ensures text == Render(TokenRows(board.View(), Recs(store)))
  {
    var rows: seq<string> := [];
    for r := 0 to board.height
      invariant |rows| == r && forall i | 0 <= i < r :: rows[i] == Join(' ', TokenRow(board.View(), Recs(store), i))
    {
      var row := RowText(board, r, store);
      rows := rows + [Join(' ', row)];
    }
    assert rows == JoinAll(TokenRows(board.View(), Recs(store)));
    text := Join('\n', rows);
  }

  /** Printing a board and parsing the text again gives a new board that shows the same. */
  method PrintAndParse(board: Board, ghost store: map<PieceId, Piece>)
    returns (copy: Board, ghost copies: map<PieceId, Piece>)
    requires board.Valid(store) && 0 < board.width && 0 < board.height
    ensures fresh(copy) && copy.Valid(copies) && ShowSame(board.View(), Recs(store), copy.View(), Recs(copies))
  {
    var text := ToText(board, store);
    PrintThenParse(board.View(), Recs(store), BoardState(0, 0, map[]), map[]);
    var result;
    result, copies := Parse(text);
    LayoutDepicts(RowsOf(text));
    copy := result.board;
    PrintThenParse(board.View(), Recs(store), copy.View(), Recs(copies));
  }

  datatype Normalized = Normal(text: string) | Rejected(error: ParseError)

  /** Parsing a text and printing the board gives the normal form of the text, or the error of the parser. */
  method ParseAndPrint(text: string) returns (result: Normalized)
    ensures match Validate(RowsOf(text))
            case Some(error) => result == Rejected(error)
            case None => result == Normal(Render(RowsOf(text))) && Words(result.text) == Words(text)
  {
    var parsed;
    ghost var store;
    parsed, store := Parse(text);
    if parsed.Failed? {
      return Rejected(parsed.error);
    }
    ParseThenPrint(text);
    var printed := ToText(parsed.board, store);
    result := Normal(printed);
  }
}
