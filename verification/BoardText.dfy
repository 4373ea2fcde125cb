/** Boards as text: splitting a text into rows of tokens, checking the rows, and joining them again. */
module BoardText {
  import opened Values

  // ----- what the string methods of the program do -----

  /** The characters that `str.isspace` accepts. */
  predicate IsSpace(c: char) {
    '\t' <= c <= '\r' || '\U{1c}' <= c <= ' ' || c == '\U{85}' || c == '\U{a0}' || c == '\U{1680}'
    || '\U{2000}' <= c <= '\U{200a}' || c == '\U{2028}' || c == '\U{2029}' || c == '\U{202f}' || c == '\U{205f}'
    || c == '\U{3000}'
  }

  /** The characters at which `str.splitlines` ends a line. */
  predicate IsBreak(c: char) {
    '\n' <= c <= '\r' || '\U{1c}' <= c <= '\U{1e}' || c == '\U{85}' || c == '\U{2028}' || c == '\U{2029}'
  }

  function StripLeft(s: string): string {
    if s != [] && IsSpace(s[0]) then StripLeft(s[1..]) else s
  }

  function StripRight(s: string): string {
    if s != [] && IsSpace(s[|s| - 1]) then StripRight(s[..|s| - 1]) else s
  }

  function Strip(s: string): string {
    StripRight(StripLeft(s))
  }

  /** The length of the part before the first line break. */
  function LineLength(s: string): (n: nat)
    ensures n <= |s|
  {
    if s == [] || IsBreak(s[0]) then 0 else 1 + LineLength(s[1..])
  }

  /** A carriage return and the line feed after it are one break. */
  function BreakWidth(s: string): (n: nat)
    requires s != []
    ensures 1 <= n <= |s|
  {
    if |s| >= 2 && s[0] == '\r' && s[1] == '\n' then 2 else 1
  }

  function SplitLines(s: string): seq<string>
    decreases |s|
  {
    if s == [] then []
    else
      var n := LineLength(s);
      if n == |s| then [s] else [s[..n]] + SplitLines(s[n + BreakWidth(s[n..])..])
  }

  function WordLength(s: string): (n: nat)
    ensures n <= |s|
  {
    if s == [] || IsSpace(s[0]) then 0 else 1 + WordLength(s[1..])
  }

  function Words(s: string): seq<string>
    decreases |s|
  {
    if s == [] then []
    else if IsSpace(s[0]) then Words(s[1..])
    else
      var n := WordLength(s);
      assert n >= 1;
      [s[..n]] + Words(s[n..])
  }

  function Join(sep: char, xs: seq<string>): string {
    if xs == [] then "" else if |xs| == 1 then xs[0] else xs[0] + [sep] + Join(sep, xs[1..])
  }

  // ----- rows of tokens -----

  type Rows = seq<seq<string>>

  /** The stripped lines that are not blank. */
  function FullLines(lines: seq<string>): seq<string> {
    if lines == [] then [] else
      var n := |lines| - 1;
      if Strip(lines[n]) != [] then FullLines(lines[..n]) + [Strip(lines[n])] else FullLines(lines[..n])
  }

  function SplitAll(lines: seq<string>): (r: Rows)
    ensures |r| == |lines| && forall i | 0 <= i < |lines| :: r[i] == Words(lines[i])
  {
    seq(|lines|, i requires 0 <= i < |lines| => Words(lines[i]))
  }

  function RowsOf(text: string): Rows {
    SplitAll(FullLines(SplitLines(Strip(text))))
  }

  function Render(rows: Rows): string {
    Join('\n', JoinAll(rows))
  }

  function JoinAll(rows: Rows): (r: seq<string>)
    ensures |r| == |rows| && forall i | 0 <= i < |rows| :: r[i] == Join(' ', rows[i])
  {
    seq(|rows|, i requires 0 <= i < |rows| => Join(' ', rows[i]))
  }

  // ----- the checks -----

  predicate IsKindLetter(c: char) {
    c in {'K', 'Q', 'R', 'B', 'N', 'P'}
  }

  predicate IsPieceCode(token: string) {
    |token| == 2 && token[0] in {'w', 'b'} && IsKindLetter(token[1])
  }

  predicate IsToken(token: string) {
    token == "." || IsPieceCode(token)
  }

  /** EmptyText stands for the IndexError of looking at the first of no rows. */
  datatype ParseError = EmptyText | RowWidthMismatch | UnknownToken(token: string)

  function RowError(row: seq<string>): Option<ParseError> {
    if row == [] then None
    else if !IsToken(row[0]) then Some(UnknownToken(row[0]))
    else RowError(row[1..])
  }

  function RowsError(rows: Rows, width: nat): Option<ParseError> {
    if rows == [] then None
    else if |rows[0]| != width then Some(RowWidthMismatch)
    else if RowError(rows[0]).Some? then RowError(rows[0])
    else RowsError(rows[1..], width)
  }

  /** The first error, row by row: the width of a row is looked at before its tokens. */
  function Validate(rows: Rows): Option<ParseError> {
    if rows == [] then Some(EmptyText) else RowsError(rows, |rows[0]|)
  }

  /** Rows of equal width made of tokens. */
  predicate WellFormed(rows: Rows) {
    rows != [] && forall r | 0 <= r < |rows| ::
      |rows[r]| == |rows[0]| && forall c | 0 <= c < |rows[r]| :: IsToken(rows[r][c])
  }

  lemma {:induction false} RowErrorMeans(row: seq<string>)
    ensures RowError(row) == None <==> forall c | 0 <= c < |row| :: IsToken(row[c])
    ensures RowError(row).Some? ==>
      exists c :: 0 <= c < |row| && !IsToken(row[c]) && RowError(row) == Some(UnknownToken(row[c]))
                  && forall d | 0 <= d < c :: IsToken(row[d])
  {
    if row == [] || !IsToken(row[0]) {
    } else {
      RowErrorMeans(row[1..]);
      assert forall c | 0 <= c < |row| - 1 :: row[1..][c] == row[c + 1];
      assert forall c | 1 <= c < |row| :: row[c] == row[1..][c - 1];
      if RowError(row).Some? {
        var c :| 0 <= c < |row| - 1 && !IsToken(row[1..][c]) && RowError(row) == Some(UnknownToken(row[1..][c]))
                 && forall d | 0 <= d < c :: IsToken(row[1..][d]);
        assert row[1..][c] == row[c + 1];
      }
    }
  }

  lemma {:induction false} RowsErrorMeans(rows: Rows, width: nat)
    ensures RowsError(rows, width) == None <==>
            forall r | 0 <= r < |rows| :: |rows[r]| == width && forall c | 0 <= c < |rows[r]| :: IsToken(rows[r][c])
  {
    if rows == [] {
    } else {
      RowErrorMeans(rows[0]);
      RowsErrorMeans(rows[1..], width);
      assert forall r | 1 <= r < |rows| :: rows[r] == rows[1..][r - 1];
      assert forall r | 0 <= r < |rows| - 1 :: rows[1..][r] == rows[r + 1];
    }
  }

  /** Validation accepts exactly the well-formed rows. */
  lemma ValidateMeans(rows: Rows)
    ensures Validate(rows) == None <==> WellFormed(rows)
  {
    if rows != [] {
      RowsErrorMeans(rows, |rows[0]|);
    }
  }

  // ----- joining and splitting undo each other -----

  /** A word: not empty, and without spaces. */
  ghost predicate IsWord(s: string) {
    s != [] && forall i | 0 <= i < |s| :: !IsSpace(s[i])
  }

  lemma BreaksAreSpaces(c: char)
    ensures IsBreak(c) ==> IsSpace(c)
  {
  }

  lemma TokensAreWords(token: string)
    requires IsToken(token)
    ensures IsWord(token)
  {
    if token != "." {
      assert token == [token[0], token[1]];
    }
  }

  lemma {:induction false} WordEnds(w: string, rest: string)
    requires IsWord(w) || w == []
    requires rest == [] || IsSpace(rest[0])
    ensures WordLength(w + rest) == |w|
  {
    if w == [] {
      assert w + rest == rest;
    } else {
      assert (w + rest)[1..] == w[1..] + rest;
      WordEnds(w[1..], rest);
    }
  }

  lemma {:induction false} WordsOfJoin(row: seq<string>)
    requires forall i | 0 <= i < |row| :: IsWord(row[i])
    ensures Words(Join(' ', row)) == row
  {
    if row == [] {
    } else {
      var rest := if |row| == 1 then [] else [' '] + Join(' ', row[1..]);
      var line := Join(' ', row);
      assert line == row[0] + rest;
      WordEnds(row[0], rest);
      assert line[..|row[0]|] == row[0] && line[|row[0]|..] == rest;
      assert Words(line) == [row[0]] + Words(rest);
      if |row| > 1 {
        assert rest[1..] == Join(' ', row[1..]);
        WordsOfJoin(row[1..]);
      }
    }
  }

  /** A line as the printer writes it: it starts and ends with something, and contains no line break. */
  ghost predicate IsLine(s: string) {
    s != [] && !IsSpace(s[0]) && !IsSpace(s[|s| - 1]) && forall i | 0 <= i < |s| :: !IsBreak(s[i])
  }

  lemma {:induction false} JoinIsLine(row: seq<string>)
    requires row != [] && forall i | 0 <= i < |row| :: IsWord(row[i])
    ensures IsLine(Join(' ', row))
  {
    var w := row[0];
    forall i | 0 <= i < |w| ensures !IsBreak(w[i]) {
      BreaksAreSpaces(w[i]);
    }
    if |row| == 1 {
    } else {
      JoinIsLine(row[1..]);
      var tail := Join(' ', row[1..]);
      assert Join(' ', row) == w + [' '] + tail;
    }
  }

  lemma StripLine(s: string)
    requires s != [] && !IsSpace(s[0]) && !IsSpace(s[|s| - 1])
    ensures Strip(s) == s
  {
  }

  lemma {:induction false} LineEnds(line: string, rest: string)
    requires forall i | 0 <= i < |line| :: !IsBreak(line[i])
    requires rest == [] || IsBreak(rest[0])
    ensures LineLength(line + rest) == |line|
  {
    if line == [] {
      assert line + rest == rest;
    } else {
      assert (line + rest)[1..] == line[1..] + rest;
      LineEnds(line[1..], rest);
    }
  }

  /** The first line of a text, and what follows its line feed. */
  lemma FirstLine(line: string, tail: string)
    requires IsLine(line)
    ensures SplitLines(line) == [line]
    ensures SplitLines(line + ['\n'] + tail) == [line] + SplitLines(tail)
  {
    var rest := ['\n'] + tail;
    var text := line + ['\n'] + tail;
    assert text == line + rest && line + [] == line;
    LineEnds(line, []);
    LineEnds(line, rest);
    assert text[..|line|] == line && text[|line|..] == rest && BreakWidth(rest) == 1;
    assert text[|line| + 1..] == tail;
  }

  lemma {:induction false} LinesOfJoin(lines: seq<string>)
    requires forall i | 0 <= i < |lines| :: IsLine(lines[i])
    ensures SplitLines(Join('\n', lines)) == lines
  {
    if lines == [] {
    } else {
      FirstLine(lines[0], Join('\n', lines[1..]));
      if |lines| > 1 {
        LinesOfJoin(lines[1..]);
        assert [lines[0]] + lines[1..] == lines;
      }
    }
  }

  lemma {:induction false} JoinedEnds(lines: seq<string>)
    requires lines != [] && forall i | 0 <= i < |lines| :: IsLine(lines[i])
    ensures var s := Join('\n', lines); s != [] && !IsSpace(s[0]) && !IsSpace(s[|s| - 1])
  {
    if |lines| == 1 {
    } else {
      JoinedEnds(lines[1..]);
      assert Join('\n', lines) == lines[0] + ['\n'] + Join('\n', lines[1..]);
    }
  }

  lemma {:induction false} FullLinesKeep(lines: seq<string>)
    requires forall i | 0 <= i < |lines| :: IsLine(lines[i])
    ensures FullLines(lines) == lines
  {
    if lines == [] {
    } else {
      var n := |lines| - 1;
      assert forall i | 0 <= i < n :: lines[..n][i] == lines[i];
      FullLinesKeep(lines[..n]);
      StripLine(lines[n]);
      assert lines == lines[..n] + [lines[n]];
    }
  }

  lemma RowRoundTrip(row: seq<string>)
    requires row != [] && forall c | 0 <= c < |row| :: IsToken(row[c])
    ensures IsLine(Join(' ', row)) && Words(Join(' ', row)) == row
  {
    forall c | 0 <= c < |row| ensures IsWord(row[c]) {
      TokensAreWords(row[c]);
    }
    JoinIsLine(row);
    WordsOfJoin(row);
  }

  /** Lines written by the printer come back from the text they are joined to. */
  lemma LinesRoundTrip(lines: seq<string>)
    requires lines != [] && forall i | 0 <= i < |lines| :: IsLine(lines[i])
    ensures FullLines(SplitLines(Strip(Join('\n', lines)))) == lines
  {
    var text := Join('\n', lines);
    assert Strip(text) == text by {
      JoinedEnds(lines);
      StripLine(text);
    }
    assert SplitLines(text) == lines by {
      LinesOfJoin(lines);
    }
    assert FullLines(lines) == lines by {
      FullLinesKeep(lines);
    }
  }

  /** Main result: splitting a rendered text gives back the rows it was rendered from. */
  lemma RenderRoundTrip(rows: Rows)
    requires WellFormed(rows) && rows[0] != []
    ensures RowsOf(Render(rows)) == rows
  {
    var lines := JoinAll(rows);
    forall r | 0 <= r < |rows| ensures IsLine(lines[r]) && SplitAll(lines)[r] == rows[r] {
      assert |rows[r]| == |rows[0]|;
      RowRoundTrip(rows[r]);
    }
    LinesRoundTrip(lines);
    assert |SplitAll(lines)| == |rows|;
  }

  // ----- boards and rows -----

  function ColorLetter(c: Color): char {
    if c == White then 'w' else 'b'
  }

  function LetterOf(kind: Kind): char {
    match kind
    case King => 'K'
    case Queen => 'Q'
    case Rook => 'R'
    case Bishop => 'B'
    case Knight => 'N'
    case Pawn => 'P'
  }

  function Code(c: Color, kind: Kind): string {
    [ColorLetter(c), LetterOf(kind)]
  }

  /** The kind that a letter names. */
  function KindOf(letter: char): (kind: Kind)
    requires IsKindLetter(letter)
    ensures LetterOf(kind) == letter
  {
    if letter == 'K' then King else if letter == 'Q' then Queen else if letter == 'R' then Rook
    else if letter == 'B' then Bishop else if letter == 'N' then Knight else Pawn
  }

  lemma CodeIsPieceCode(c: Color, kind: Kind)
    ensures IsPieceCode(Code(c, kind))
  {
  }

  /** What is shown on one cell. */
  function TokenAt(b: BoardState, pieces: map<PieceId, PieceRec>, p: Position): string {
    if p in b.grid && b.grid[p] in pieces && pieces[b.grid[p]].state != Captured
    then Code(pieces[b.grid[p]].color, pieces[b.grid[p]].kind) else "."
  }

  function TokenRow(b: BoardState, pieces: map<PieceId, PieceRec>, r: nat): (row: seq<string>)
    requires 0 <= b.width
    ensures |row| == b.width && forall c | 0 <= c < b.width :: row[c] == TokenAt(b, pieces, Position(r, c))
  {
    seq(b.width, c requires 0 <= c < b.width => TokenAt(b, pieces, Position(r, c)))
  }

  function TokenRows(b: BoardState, pieces: map<PieceId, PieceRec>): (rows: Rows)
    requires 0 <= b.width && 0 <= b.height
    ensures |rows| == b.height && forall r | 0 <= r < b.height :: rows[r] == TokenRow(b, pieces, r)
  {
    seq(b.height, r requires 0 <= r < b.height => TokenRow(b, pieces, r))
  }

  lemma TokenRowsWellFormed(b: BoardState, pieces: map<PieceId, PieceRec>)
    requires 0 < b.width && 0 < b.height
    ensures WellFormed(TokenRows(b, pieces))
  {
    forall r, c | 0 <= r < b.height && 0 <= c < b.width ensures IsToken(TokenRows(b, pieces)[r][c]) {
      var p := Position(r, c);
      if p in b.grid && b.grid[p] in pieces {
        CodeIsPieceCode(pieces[b.grid[p]].color, pieces[b.grid[p]].kind);
      }
    }
  }

  /** Two boards show the same if they have the same size and the same token in every cell. */
  ghost predicate ShowSame(b: BoardState, pieces: map<PieceId, PieceRec>, d: BoardState,
                           others: map<PieceId, PieceRec>) {
    b.width == d.width && b.height == d.height
    && forall p | InBounds(b, p) :: TokenAt(b, pieces, p) == TokenAt(d, others, p)
  }

  /** A board whose rows of tokens are `rows`. */
  ghost predicate Depicts(b: BoardState, pieces: map<PieceId, PieceRec>, rows: Rows) {
    rows != [] && b.height == |rows| && b.width == |rows[0]| && TokenRows(b, pieces) == rows
  }

  /** Main result: whatever board is parsed from the printed text of a board shows the same. */
  lemma PrintThenParse(b: BoardState, pieces: map<PieceId, PieceRec>, d: BoardState, others: map<PieceId, PieceRec>)
    requires 0 < b.width && 0 < b.height
    ensures Validate(RowsOf(Render(TokenRows(b, pieces)))) == None
    ensures Depicts(d, others, RowsOf(Render(TokenRows(b, pieces)))) ==> ShowSame(b, pieces, d, others)
  {
    var rows := TokenRows(b, pieces);
    TokenRowsWellFormed(b, pieces);
    RenderRoundTrip(rows);
    ValidateMeans(rows);
    if Depicts(d, others, rows) {
      forall p | InBounds(b, p) ensures TokenAt(b, pieces, p) == TokenAt(d, others, p) {
        assert rows[p.row][p.col] == TokenRow(d, others, p.row)[p.col];
      }
    }
  }

  lemma {:induction false} WordsOfFull(s: string)
    requires s != [] && !IsSpace(s[0])
    ensures Words(s) != []
  {
  }

  lemma {:induction false} StripLeftStarts(s: string)
    ensures StripLeft(s) != [] ==> !IsSpace(StripLeft(s)[0])
  {
    if s != [] && IsSpace(s[0]) { StripLeftStarts(s[1..]); }
  }

  lemma {:induction false} StripRightStarts(s: string)
    requires s != [] && !IsSpace(s[0])
    ensures StripRight(s) != [] && StripRight(s)[0] == s[0]
  {
    if IsSpace(s[|s| - 1]) { StripRightStarts(s[..|s| - 1]); }
  }

  lemma {:induction false} FullLinesHaveWords(lines: seq<string>)
    ensures forall i | 0 <= i < |FullLines(lines)| :: Words(FullLines(lines)[i]) != []
  {
    if lines == [] {
    } else {
      var l := lines[|lines| - 1];
      FullLinesHaveWords(lines[..|lines| - 1]);
      StripLeftStarts(l);
      if StripLeft(l) != [] {
        StripRightStarts(StripLeft(l));
        WordsOfFull(Strip(l));
      }
    }
  }

  /** No row of a text is empty, so a board that was parsed has at least one column. */
  lemma RowsNotEmpty(text: string)
    ensures forall r | 0 <= r < |RowsOf(text)| :: RowsOf(text)[r] != []
  {
    FullLinesHaveWords(SplitLines(Strip(text)));
  }

  // ----- the words of a text -----

  lemma {:induction false} WordLengthConcat(x: string, y: string)
    requires y == [] || IsSpace(y[0])
    ensures WordLength(x + y) == WordLength(x)
  {
    if x == [] {
      assert x + y == y;
    } else {
      assert (x + y)[1..] == x[1..] + y;
      WordLengthConcat(x[1..], y);
    }
  }

  /** A text can be split before any space. */
  lemma {:induction false} WordsConcat(x: string, y: string)
    requires y == [] || IsSpace(y[0])
    ensures Words(x + y) == Words(x) + Words(y)
    decreases |x|
  {
    if x == [] {
      assert x + y == y;
    } else if IsSpace(x[0]) {
      assert (x + y)[1..] == x[1..] + y;
      WordsConcat(x[1..], y);
    } else {
      var n := WordLength(x);
      assert n >= 1;
      WordLengthConcat(x, y);
      assert (x + y)[..n] == x[..n] && (x + y)[n..] == x[n..] + y;
      WordsConcat(x[n..], y);
      assert [x[..n]] + Words(x[n..]) + Words(y) == [x[..n]] + (Words(x[n..]) + Words(y));
    }
  }

  lemma {:induction false} StripLeftWords(s: string)
    ensures Words(StripLeft(s)) == Words(s)
  {
    if s == [] || !IsSpace(s[0]) {
    } else {
      StripLeftWords(s[1..]);
    }
  }

  lemma {:induction false} StripRightWords(s: string)
    ensures Words(StripRight(s)) == Words(s)
  {
    if s == [] || !IsSpace(s[|s| - 1]) {
    } else {
      var n := |s| - 1;
      StripRightWords(s[..n]);
      assert s == s[..n] + [s[n]] && [s[n]][1..] == [];
      WordsConcat(s[..n], [s[n]]);
      assert Words([s[n]]) == [];
    }
  }

  lemma StripWords(s: string)
    ensures Words(Strip(s)) == Words(s)
  {
    StripLeftWords(s);
    StripRightWords(StripLeft(s));
  }

  /** The words of some lines, in reading order. */
  function WordsOfLines(lines: seq<string>): seq<string> {
    if lines == [] then [] else WordsOfLines(lines[..|lines| - 1]) + Words(lines[|lines| - 1])
  }

  lemma {:induction false} WordsOfLinesConcat(x: seq<string>, y: seq<string>)
    ensures WordsOfLines(x + y) == WordsOfLines(x) + WordsOfLines(y)
  {
    if y == [] {
      assert x + y == x;
    } else {
      var n := |y| - 1;
      assert (x + y)[..|x + y| - 1] == x + y[..n];
      WordsOfLinesConcat(x, y[..n]);
    }
  }

  lemma OneLine(line: string)
    ensures WordsOfLines([line]) == Words(line)
  {
    assert [line][..0] == [];
  }

  lemma {:induction false} LineLengthStops(s: string)
    requires LineLength(s) < |s|
    ensures IsBreak(s[LineLength(s)])
  {
    if IsBreak(s[0]) {
    } else {
      LineLengthStops(s[1..]);
    }
  }

  /** A line break holds no words. */
  lemma BreakWords(s: string)
    requires s != [] && IsBreak(s[0])
    ensures Words(s[BreakWidth(s)..]) == Words(s)
  {
    BreaksAreSpaces(s[0]);
    if BreakWidth(s) == 2 {
      assert s[1..][1..] == s[2..];
    }
  }

  lemma {:induction false} SplitLinesWords(s: string)
    ensures WordsOfLines(SplitLines(s)) == Words(s)
    decreases |s|
  {
    var n := LineLength(s);
    if s == [] {
    } else if n == |s| {
      OneLine(s);
    } else {
      LineLengthStops(s);
      BreaksAreSpaces(s[n]);
      var w := BreakWidth(s[n..]);
      BreakWords(s[n..]);
      assert s == s[..n] + s[n..] && s[n..][w..] == s[n + w..];
      WordsConcat(s[..n], s[n..]);
      SplitLinesWords(s[n + w..]);
      OneLine(s[..n]);
      WordsOfLinesConcat([s[..n]], SplitLines(s[n + w..]));
    }
  }

  lemma {:induction false} FullLinesWords(lines: seq<string>)
    ensures WordsOfLines(FullLines(lines)) == WordsOfLines(lines)
  {
    if lines == [] {
    } else {
      var n := |lines| - 1;
      FullLinesWords(lines[..n]);
      StripWords(lines[n]);
      WordsOfLinesConcat(FullLines(lines[..n]), [Strip(lines[n])]);
      OneLine(Strip(lines[n]));
    }
  }

  /** The tokens of some rows, in reading order. */
  function Flat(rows: Rows): seq<string> {
    if rows == [] then [] else Flat(rows[..|rows| - 1]) + rows[|rows| - 1]
  }

  lemma {:induction false} SplitAllWords(lines: seq<string>)
    ensures Flat(SplitAll(lines)) == WordsOfLines(lines)
  {
    if lines == [] {
    } else {
      var n := |lines| - 1;
      assert SplitAll(lines)[..n] == SplitAll(lines[..n]);
      SplitAllWords(lines[..n]);
    }
  }

  /** Splitting into rows loses, adds and reorders no word of any text. */
  lemma RowsKeepWords(text: string)
    ensures Flat(RowsOf(text)) == Words(text)
  {
    var lines := SplitLines(Strip(text));
    StripWords(text);
    SplitLinesWords(Strip(text));
    FullLinesWords(lines);
    SplitAllWords(FullLines(lines));
  }

  /** The normal form of a well-formed text has the same words in the same lines, and is its own normal form. */
  lemma NormalForm(text: string)
    requires WellFormed(RowsOf(text))
    ensures Words(Render(RowsOf(text))) == Words(text)
    ensures RowsOf(Render(RowsOf(text))) == RowsOf(text)
  {
    RowsNotEmpty(text);
    RenderRoundTrip(RowsOf(text));
    RowsKeepWords(text);
    RowsKeepWords(Render(RowsOf(text)));
  }

  /** A line ends at a line feed, at a carriage return, or at both, and no other line is lost or made by that. */
  lemma LineEndings(line: string, tail: string)
    requires IsLine(line)
    ensures SplitLines(line + "\n" + tail) == [line] + SplitLines(tail)
    ensures SplitLines(line + "\r\n" + tail) == [line] + SplitLines(tail)
    ensures (tail == "" || tail[0] != '\n') ==> SplitLines(line + "\r" + tail) == [line] + SplitLines(tail)
  {
    LineEnding(line, "\n", tail);
    LineEnding(line, "\r\n", tail);
    if tail == "" || tail[0] != '\n' {
      LineEnding(line, "\r", tail);
    }
  }

  lemma LineEnding(line: string, end: string, tail: string)
    requires IsLine(line) && end != [] && IsBreak(end[0]) && BreakWidth(end + tail) == |end|
    ensures SplitLines(line + end + tail) == [line] + SplitLines(tail)
  {
    var text := line + end + tail;
    assert text == line + (end + tail);
    LineEnds(line, end + tail);
    assert text[..|line|] == line && text[|line|..] == end + tail && text[|line| + |end|..] == tail;
  }

  /** Words are parted by spaces and by tabs. */
  lemma BlanksPart(x: string, y: string)
    ensures Words(x + " " + y) == Words(x) + Words(y)
    ensures Words(x + "\t" + y) == Words(x) + Words(y)
  {
    assert x + " " + y == x + (" " + y) && (" " + y)[1..] == y;
    assert x + "\t" + y == x + ("\t" + y) && ("\t" + y)[1..] == y;
    WordsConcat(x, " " + y);
    WordsConcat(x, "\t" + y);
  }

  /** The error in the order in which a text is read: the first row that has another width than the first one or a bad
      token; the width is looked at before the tokens, and of these the first bad one is named. */
  lemma FirstErrorTells(rows: Rows)
    ensures rows == [] ==> Validate(rows) == Some(EmptyText)
    ensures Validate(rows).Some? && rows != [] ==>
              exists r :: 0 <= r < |rows| && WrongRow(rows[r], |rows[0]|, Validate(rows).value)
                          && forall q | 0 <= q < r :: RightRow(rows[q], |rows[0]|)
  {
    if rows != [] {
      RowsFirstError(rows, |rows[0]|);
    }
  }

  predicate RightRow(row: seq<string>, width: nat) {
    |row| == width && forall c | 0 <= c < |row| :: IsToken(row[c])
  }

  predicate WrongRow(row: seq<string>, width: nat, error: ParseError) {
    if |row| != width then error == RowWidthMismatch
    else exists c :: 0 <= c < |row| && !IsToken(row[c]) && error == UnknownToken(row[c])
                     && forall d | 0 <= d < c :: IsToken(row[d])
  }

  lemma {:induction false} RowsFirstError(rows: Rows, width: nat)
    ensures RowsError(rows, width).Some? ==>
              exists r :: 0 <= r < |rows| && WrongRow(rows[r], width, RowsError(rows, width).value)
                          && forall q | 0 <= q < r :: RightRow(rows[q], width)
  {
    if rows == [] {
    } else {
      RowErrorMeans(rows[0]);
      RowsFirstError(rows[1..], width);
      if RowsError(rows, width).Some? && RightRow(rows[0], width) {
        var r :| 0 <= r < |rows| - 1 && WrongRow(rows[1..][r], width, RowsError(rows, width).value)
                 && forall q | 0 <= q < r :: RightRow(rows[1..][q], width);
        assert rows[1..][r] == rows[r + 1];
        forall q | 0 <= q < r + 1 ensures RightRow(rows[q], width) {
          if q > 0 {
            assert rows[q] == rows[1..][q - 1];
          }
        }
      } else if RowsError(rows, width).Some? {
        assert WrongRow(rows[0], width, RowsError(rows, width).value);
      }
    }
  }

  /** What is printed for a cell: the letters of the piece that stands there, unless it is marked captured, or a dot. */
  lemma PrintedToken(b: BoardState, pieces: map<PieceId, PieceRec>, r: nat, c: nat)
    requires r < b.height && c < b.width && forall p | p in b.grid :: b.grid[p] in pieces
    ensures var rows, p := RowsOf(Render(TokenRows(b, pieces))), Position(r, c);
            && |rows| == b.height && |rows[r]| == b.width
            && (p in b.grid && pieces[b.grid[p]].state != Captured ==>
                  rows[r][c] == Code(pieces[b.grid[p]].color, pieces[b.grid[p]].kind))
            && (p !in b.grid || pieces[b.grid[p]].state == Captured ==> rows[r][c] == ".")
  {
    TokenRowsWellFormed(b, pieces);
    RenderRoundTrip(TokenRows(b, pieces));
  }
}
