/** Scores and move history as a function of the events of each tick.
    `TrackerObject.GameStatsTracker` is proved to compute exactly this function. */
module Stats {
  import opened Values
  import Decimal

  datatype MoveRecord = MoveRecord(elapsedMs: int, notation: string, color: Color)

  datatype Tracker = Tracker(boardHeight: int, values: map<Kind, int>, white: int, black: int,
                             history: seq<MoveRecord>, elapsedMs: int)

  const COL_LETTERS: string := "abcdefghijklmnopqrstuvwxyz"

  function Worth(values: map<Kind, int>, kind: Kind): int {
    if kind in values then values[kind] else 0
  }

  function Credit(t: Tracker, attacker: Color, kind: Kind): Tracker {
    if attacker == White then t.(white := t.white + Worth(t.values, kind))
    else t.(black := t.black + Worth(t.values, kind))
  }

  function KindLetter(kind: Kind): string {
    match kind
    case King => "K"
    case Queen => "Q"
    case Rook => "R"
    case Bishop => "B"
    case Knight => "N"
    case Pawn => ""
  }

  /** The history entry of an arrival; `COL_LETTERS[col]` has 26 entries. */
  function Entry(t: Tracker, e: Event, pieces: map<PieceId, PieceRec>): MoveRecord
    requires e.Arrival? && e.piece.id in pieces && 0 <= e.destination.col < |COL_LETTERS|
  {
    var kind := if e.formerKind.Some? then e.formerKind.value else pieces[e.piece.id].kind;
    MoveRecord(t.elapsedMs,
               KindLetter(kind) + [COL_LETTERS[e.destination.col]] + Decimal.Text(t.boardHeight - e.destination.row),
               e.piece.color)
  }

  /** The column of an arrival has a letter, without which the program raises IndexError. */
  predicate Lettered(e: Event) {
    e.Arrival? ==> 0 <= e.destination.col < |COL_LETTERS|
  }

  /** What an event must satisfy to be recorded without an error. The pieces that events refer to always exist. */
  predicate Recordable(e: Event, pieces: map<PieceId, PieceRec>) {
    && e.piece.id in pieces && Lettered(e)
    && (e.Arrival? && e.captured.Some? ==> e.captured.value in pieces)
  }

  function Record(t: Tracker, e: Event, pieces: map<PieceId, PieceRec>): Tracker
    requires Recordable(e, pieces)
  {
    match e
    case Arrival(piece, _, _, captured, _) =>
      var u := t.(history := t.history + [Entry(t, e, pieces)]);
      if captured.Some? then Credit(u, piece.color, pieces[captured.value].kind) else u
    case Elimination(piece, _) => Credit(t, Opponent(piece.color), pieces[piece.id].kind)
    case _ => t
  }

  /** `ok` is false when an event raised IndexError; what was recorded before it stays. */
  datatype Noted = Noted(tracker: Tracker, ok: bool)

  function RecordAll(t: Tracker, es: seq<Event>, pieces: map<PieceId, PieceRec>): Noted {
    if es == [] then Noted(t, true) else
      var n := |es| - 1;
      var before := RecordAll(t, es[..n], pieces);
      if !before.ok then before
      else if !Recordable(es[n], pieces) then Noted(before.tracker, false)
      else Noted(Record(before.tracker, es[n], pieces), true)
  }

  /** Events are recorded after the whole tick has been applied, with the kinds the pieces have then. */
  function Process(t: Tracker, es: seq<Event>, deltaMs: int, pieces: map<PieceId, PieceRec>): Noted {
    RecordAll(t.(elapsedMs := t.elapsedMs + deltaMs), es, pieces)
  }

  lemma ColumnLetter(i: nat)
    requires i < |COL_LETTERS|
    ensures 'a' <= COL_LETTERS[i] <= 'z' && (COL_LETTERS[i] - 'a') as int == i
  {
  }

  lemma LetterIsUpper(kind: Kind)
    ensures |KindLetter(kind)| <= 1 && (KindLetter(kind) != "" ==> 'A' <= KindLetter(kind)[0] <= 'Z')
  {
  }

  /** A piece letter, a column letter and a number can be told apart again. */
  lemma NotationParts(j: Kind, k: Kind, c: nat, d: nat, m: int, n: int)
    requires c < |COL_LETTERS| && d < |COL_LETTERS|
    requires KindLetter(j) + [COL_LETTERS[c]] + Decimal.Text(m) == KindLetter(k) + [COL_LETTERS[d]] + Decimal.Text(n)
    ensures KindLetter(j) == KindLetter(k) && c == d && m == n
  {
    var x, y := KindLetter(j), KindLetter(k);
    var s := x + [COL_LETTERS[c]] + Decimal.Text(m);
    LetterIsUpper(j);
    LetterIsUpper(k);
    ColumnLetter(c);
    ColumnLetter(d);
    assert s[0] == if x == "" then COL_LETTERS[c] else x[0];
    assert s[0] == if y == "" then COL_LETTERS[d] else y[0];
    assert |x| == |y|;
    assert x == s[..|x|] && y == s[..|x|];
    assert s[|x|] == COL_LETTERS[c] && s[|x|] == COL_LETTERS[d];
    assert s[|x| + 1..] == Decimal.Text(m) && s[|x| + 1..] == Decimal.Text(n);
    Decimal.Injective(m, n);
  }

  /** The notation of a move names its target cell and its piece letter unambiguously. */
  lemma NotationNamesTarget(t: Tracker, x: Event, y: Event, pieces: map<PieceId, PieceRec>)
    requires x.Arrival? && Recordable(x, pieces) && y.Arrival? && Recordable(y, pieces)
    requires Entry(t, x, pieces).notation == Entry(t, y, pieces).notation
    ensures x.destination == y.destination
  {
    var j := if x.formerKind.Some? then x.formerKind.value else pieces[x.piece.id].kind;
    var k := if y.formerKind.Some? then y.formerKind.value else pieces[y.piece.id].kind;
    NotationParts(j, k, x.destination.col, y.destination.col,
                  t.boardHeight - x.destination.row, t.boardHeight - y.destination.row);
  }
}
