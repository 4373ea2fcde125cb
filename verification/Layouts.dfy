/** The board that a text describes: pieces numbered in reading order. */
module Layouts {
  import opened Values
  import opened BoardText
  import opened Engine
  import Decimal
  import Stats

  datatype Layout = Layout(grid: map<Position, PieceId>, recs: map<PieceId, PieceRec>, count: nat)

  const BLANK: Layout := Layout(map[], map[], 0)

  function IdOfNumber(n: nat): PieceId {
    "p" + Decimal.Text(n)
  }

  lemma NumbersDiffer(m: nat, n: nat)
    requires IdOfNumber(m) == IdOfNumber(n)
    ensures m == n
  {
    assert IdOfNumber(m)[1..] == Decimal.Text(m) && IdOfNumber(n)[1..] == Decimal.Text(n);
    Decimal.Injective(m, n);
  }

  function ColorOf(letter: char): Color {
    if letter == 'w' then White else Black
  }

  function RecOf(token: string, r: nat, c: nat): PieceRec
    requires IsPieceCode(token)
  {
    PieceRec(ColorOf(token[0]), KindOf(token[1]), Position(r, c), Idle, r)
  }

  function PlaceToken(l: Layout, token: string, r: nat, c: nat): Layout
    requires IsToken(token)
  {
    if token == "." then l
    else
      var id := IdOfNumber(l.count + 1);
      Layout(l.grid[Position(r, c) := id], l.recs[id := RecOf(token, r, c)], l.count + 1)
  }

  /** The layout after the first c tokens of row r. */
  function PlaceRow(l: Layout, row: seq<string>, r: nat, c: nat): Layout
    requires c <= |row| && forall i | 0 <= i < |row| :: IsToken(row[i])
  {
    if c == 0 then l else PlaceToken(PlaceRow(l, row, r, c - 1), row[c - 1], r, c - 1)
  }

  /** The layout after the first r rows. */
  function PlaceRows(rows: Rows, r: nat): Layout
    requires r <= |rows| && WellFormed(rows)
  {
    if r == 0 then BLANK else PlaceRow(PlaceRows(rows, r - 1), rows[r - 1], r - 1, |rows[r - 1]|)
  }

  // ----- what a layout shows -----

  /** The cell comes before column c of row r in reading order. */
  predicate Read(rows: Rows, p: Position, r: nat, c: nat) {
    0 <= p.row < |rows| && 0 <= p.col < |rows[p.row]| && (p.row < r || (p.row == r && p.col < c))
  }

  /** Every piece stands on the cell it says, idle, in the row it started in. */
  ghost predicate Standing(l: Layout) {
    && (forall p | p in l.grid :: l.grid[p] in l.recs && l.recs[l.grid[p]].cell == p)
    && (forall id | id in l.recs :: l.recs[id].cell in l.grid && l.grid[l.recs[id].cell] == id
                                    && l.recs[id].state == Idle && l.recs[id].startRow == l.recs[id].cell.row)
  }

  function Ids(n: nat): set<PieceId> {
    if n == 0 then {} else Ids(n - 1) + {IdOfNumber(n)}
  }

  ghost predicate Numbered(l: Layout) {
    l.recs.Keys <= Ids(l.count)
  }

  /** The token that a layout has on a cell. */
  function Shown(l: Layout, p: Position): string {
    if p in l.grid && l.grid[p] in l.recs then Code(l.recs[l.grid[p]].color, l.recs[l.grid[p]].kind) else "."
  }

  predicate ShownAsWritten(l: Layout, rows: Rows, p: Position) {
    0 <= p.row < |rows| && 0 <= p.col < |rows[p.row]| && Shown(l, p) == rows[p.row][p.col]
  }

  /** The layout has read everything before column c of row r, and nothing else. */
  ghost predicate Reads(l: Layout, rows: Rows, r: nat, c: nat) {
    && (forall p | p in l.grid :: Read(rows, p, r, c))
    && (forall p | Read(rows, p, r, c) :: ShownAsWritten(l, rows, p))
  }

  ghost predicate Good(l: Layout, rows: Rows, r: nat, c: nat) {
    Standing(l) && Numbered(l) && Reads(l, rows, r, c)
  }

  lemma {:induction false} IdsBelow(n: nat, m: nat)
    requires n < m
    ensures IdOfNumber(m) !in Ids(n)
  {
    if n == 0 {
    } else {
      IdsBelow(n - 1, m);
      if IdOfNumber(m) == IdOfNumber(n) {
        NumbersDiffer(m, n);
      }
    }
  }

  lemma CodeOfToken(token: string, r: nat, c: nat)
    requires IsPieceCode(token)
    ensures Code(RecOf(token, r, c).color, RecOf(token, r, c).kind) == token
  {
    assert token == [token[0], token[1]];
  }

  lemma PlaceNumbered(l: Layout, token: string, r: nat, c: nat)
    requires Numbered(l) && IsToken(token)
    ensures Numbered(PlaceToken(l, token, r, c))
  {
    assert IdOfNumber(l.count + 1) in Ids(l.count + 1);
  }

  lemma PlaceStanding(l: Layout, token: string, r: nat, c: nat)
    requires Standing(l) && IsToken(token) && Position(r, c) !in l.grid && IdOfNumber(l.count + 1) !in l.recs
    ensures Standing(PlaceToken(l, token, r, c))
  {
  }

  lemma PlaceShows(l: Layout, token: string, r: nat, c: nat, p: Position)
    requires Standing(l) && IsToken(token) && IdOfNumber(l.count + 1) !in l.recs
    requires Position(r, c) !in l.grid
    ensures Shown(PlaceToken(l, token, r, c), p) == if p == Position(r, c) then token else Shown(l, p)
  {
    if token != "." {
      CodeOfToken(token, r, c);
    }
  }

  lemma PlaceReads(l: Layout, rows: Rows, r: nat, c: nat)
    requires r < |rows| && c < |rows[r]| && IsToken(rows[r][c])
    requires Standing(l) && Reads(l, rows, r, c) && IdOfNumber(l.count + 1) !in l.recs
    ensures Reads(PlaceToken(l, rows[r][c], r, c), rows, r, c + 1)
  {
    var t := PlaceToken(l, rows[r][c], r, c);
    assert Position(r, c) !in l.grid;
    forall p | Read(rows, p, r, c + 1) ensures ShownAsWritten(t, rows, p) {
      PlaceShows(l, rows[r][c], r, c, p);
      assert p != Position(r, c) ==> ShownAsWritten(l, rows, p);
    }
  }

  lemma PlaceGood(l: Layout, rows: Rows, r: nat, c: nat, next: nat)
    requires r < |rows| && c < |rows[r]| && next == c + 1 && IsToken(rows[r][c]) && Good(l, rows, r, c)
    ensures Good(PlaceToken(l, rows[r][c], r, c), rows, r, next)
  {
    IdsBelow(l.count, l.count + 1);
    assert Position(r, c) !in l.grid;
    PlaceNumbered(l, rows[r][c], r, c);
    PlaceStanding(l, rows[r][c], r, c);
    PlaceReads(l, rows, r, c);
  }

  lemma PlaceRowNext(l: Layout, row: seq<string>, r: nat, c: nat, next: nat)
    requires c < |row| && next == c + 1 && forall i | 0 <= i < |row| :: IsToken(row[i])
    ensures PlaceRow(l, row, r, next) == PlaceToken(PlaceRow(l, row, r, c), row[c], r, c)
  {
  }

  lemma PlaceRowsNext(rows: Rows, r: nat, next: nat)
    requires r < |rows| && next == r + 1 && WellFormed(rows)
    ensures PlaceRows(rows, next) == PlaceRow(PlaceRows(rows, r), rows[r], r, |rows[r]|)
  {
  }

  lemma PlaceNextGood(l: Layout, before: Layout, rows: Rows, r: nat, c: nat, next: nat)
    requires r < |rows| && c < |rows[r]| && next == c + 1 && forall i | 0 <= i < |rows[r]| :: IsToken(rows[r][i])
    requires before == PlaceRow(l, rows[r], r, c) && Good(before, rows, r, c)
    ensures Good(PlaceRow(l, rows[r], r, next), rows, r, next)
  {
    PlaceRowNext(l, rows[r], r, c, next);
    PlaceGood(before, rows, r, c, next);
  }

  lemma {:induction false} PlaceRowGood(l: Layout, rows: Rows, r: nat, c: nat)
    requires r < |rows| && c <= |rows[r]| && (forall i | 0 <= i < |rows[r]| :: IsToken(rows[r][i]))
             && Good(l, rows, r, 0)
    ensures Good(PlaceRow(l, rows[r], r, c), rows, r, c)
  {
    if c == 0 {
    } else {
      PlaceRowGood(l, rows, r, c - 1);
      PlaceNextGood(l, PlaceRow(l, rows[r], r, c - 1), rows, r, c - 1, c);
    }
  }

  lemma NextRow(l: Layout, rows: Rows, r: nat, next: nat)
    requires r < |rows| && next == r + 1 && Good(l, rows, r, |rows[r]|)
    ensures Good(l, rows, next, 0)
  {
    assert forall p :: Read(rows, p, next, 0) <==> Read(rows, p, r, |rows[r]|);
  }

  /** Main result: the layout of well-formed rows shows exactly their tokens, each piece idle on its own cell. */
  lemma {:induction false} PlaceRowsGood(rows: Rows, r: nat)
    requires WellFormed(rows) && r <= |rows|
    ensures Good(PlaceRows(rows, r), rows, r, 0)
  {
    if r == 0 {
    } else {
      PlaceRowsGood(rows, r - 1);
      PlaceRowGood(PlaceRows(rows, r - 1), rows, r - 1, |rows[r - 1]|);
      PlaceRowsNext(rows, r - 1, r);
      NextRow(PlaceRows(rows, r), rows, r - 1, r);
    }
  }

  /** The board of a layout. */
  function BoardOf(rows: Rows): BoardState
    requires WellFormed(rows)
  {
    BoardState(|rows[0]|, |rows|, PlaceRows(rows, |rows|).grid)
  }

  /** In the terms of the board: it depicts the rows, and its references are coherent. */
  lemma LayoutDepicts(rows: Rows)
    requires WellFormed(rows)
    ensures Depicts(BoardOf(rows), PlaceRows(rows, |rows|).recs, rows)
    ensures BoardCoherent(BoardOf(rows), PlaceRows(rows, |rows|).recs)
  {
    PlaceRowsGood(rows, |rows|);
    GoodDepicts(PlaceRows(rows, |rows|), rows);
  }

  lemma GoodDepicts(l: Layout, rows: Rows)
    requires WellFormed(rows) && Good(l, rows, |rows|, 0)
    ensures Depicts(BoardState(|rows[0]|, |rows|, l.grid), l.recs, rows)
    ensures BoardCoherent(BoardState(|rows[0]|, |rows|, l.grid), l.recs)
  {
    var b := BoardState(|rows[0]|, |rows|, l.grid);
    forall r | 0 <= r < |rows| ensures TokenRows(b, l.recs)[r] == rows[r] {
      RowDepicted(l, rows, b, r);
    }
  }

  lemma RowDepicted(l: Layout, rows: Rows, b: BoardState, r: nat)
    requires Good(l, rows, |rows|, 0) && r < |rows| && b.grid == l.grid && |rows[r]| == b.width
    ensures TokenRow(b, l.recs, r) == rows[r]
  {
    forall c | 0 <= c < |rows[r]| ensures TokenRow(b, l.recs, r)[c] == rows[r][c] {
      var p := Position(r, c);
      assert Read(rows, p, |rows|, 0);
      assert ShownAsWritten(l, rows, p);
    }
  }

  /** Main result: the board that the parser makes of a well-formed text is printed as the normal form of the text:
      the same words in the same lines, with single spaces and line feeds; parsing that gives the same board. */
  lemma ParseThenPrint(text: string)
    requires Validate(RowsOf(text)) == None
    ensures WellFormed(RowsOf(text))
    ensures var printed := Render(TokenRows(BoardOf(RowsOf(text)), PlaceRows(RowsOf(text), |RowsOf(text)|).recs));
            && printed == Render(RowsOf(text)) && Words(printed) == Words(text) && RowsOf(printed) == RowsOf(text)
  {
    ValidateMeans(RowsOf(text));
    LayoutDepicts(RowsOf(text));
    NormalForm(text);
  }

  /** The letters of the board text: w and b for the colors, and for the kinds those of the move history, with P for the
      pawn that the history leaves out. */
  lemma LettersTell(c: Color, kind: Kind)
    ensures Code(c, kind) == [if c == White then 'w' else 'b'] + if kind == Pawn then "P" else Stats.KindLetter(kind)
  {
  }

  /** Main result: what the parser makes of one token: nothing of a dot, otherwise a piece of the color and the kind
      that the two letters name, idle on the cell where the token stands. */
  lemma ParsedToken(rows: Rows, r: nat, c: nat)
    requires WellFormed(rows) && r < |rows| && c < |rows[r]|
    ensures var grid, recs, p, token := BoardOf(rows).grid, PlaceRows(rows, |rows|).recs, Position(r, c), rows[r][c];
            && (p in grid <==> token != ".")
            && (p in grid ==>
                  && grid[p] in recs && |token| == 2
                  && recs[grid[p]].cell == p && recs[grid[p]].state == Idle && recs[grid[p]].startRow == r
                  && recs[grid[p]].color == (if token[0] == 'w' then White else Black)
                  && recs[grid[p]].kind == match token[1]
                                           case 'K' => King
                                           case 'Q' => Queen
                                           case 'R' => Rook
                                           case 'B' => Bishop
                                           case 'N' => Knight
                                           case _ => Pawn)
  {
    var l, p := PlaceRows(rows, |rows|), Position(r, c);
    PlaceRowsGood(rows, |rows|);
    assert Read(rows, p, |rows|, 0);
    assert ShownAsWritten(l, rows, p);
    if p in l.grid {
      CodeTells(l.recs[l.grid[p]].color, l.recs[l.grid[p]].kind, rows[r][c]);
    }
  }

  lemma CodeTells(color: Color, kind: Kind, token: string)
    requires Code(color, kind) == token
    ensures |token| == 2 && token != "." && color == (if token[0] == 'w' then White else Black)
    ensures kind == match token[1]
                    case 'K' => King
                    case 'Q' => Queen
                    case 'R' => Rook
                    case 'B' => Bishop
                    case 'N' => Knight
                    case _ => Pawn
  {
  }
}
