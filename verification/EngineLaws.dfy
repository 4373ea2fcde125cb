/** What requests and ticks do, said of boards, pieces and motions alone: which moves are accepted and how long they
    take, who is promoted, when a game is over, and how pieces rest. */
module EngineLaws {
  import opened Values
  import opened Arbitration
  import opened Rules
  import opened MotionConservation
  import opened PieceFate
  import opened Engine
  import opened Anchoring
  import opened Soundness
  import opened Calmness
  import opened Replay
  import opened Forecast
  import opened Airborne
  import opened Runs

  // ----- move requests -----

  lemma BusyTells(w: World, id: PieceId)
    requires id in w.pieces
    ensures Busy(w, id) <==>
            (exists m :: m in w.arb.motions && m.piece.id == id) || w.pieces[id].state in {LongRest, ShortRest}
  {
    if exists m :: m in w.arb.motions && m.piece.id == id {
      var m :| m in w.arb.motions && m.piece.id == id;
      var i :| 0 <= i < |w.arb.motions| && w.arb.motions[i] == m;
    }
    if Busy(w, id) && !IsRestState(w.pieces[id].state) {
      var i :| 0 <= i < |w.arb.motions| && w.arb.motions[i].piece.id == id;
      assert w.arb.motions[i] in w.arb.motions;
    }
  }

  /** The reasons of a refusal, in their order, and that a refusal changes nothing. */
  lemma MoveReasons(w: World, s: Position, d: Position)
    requires BoardCoherent(w.board, w.pieces)
    ensures RequestMove(w, s, d).1 == GameOver <==> w.gameOver
    ensures RequestMove(w, s, d).1 == NoPiece <==> !w.gameOver && s !in w.board.grid
    ensures RequestMove(w, s, d).1 == MotionInProgress <==>
            !w.gameOver && s in w.board.grid &&
            ((exists m :: m in w.arb.motions && m.piece.id == w.board.grid[s])
             || w.pieces[w.board.grid[s]].state in {LongRest, ShortRest})
    ensures RequestMove(w, s, d).1 == Outside ==>
            !(0 <= d.row < w.board.height && 0 <= d.col < w.board.width)
    ensures RequestMove(w, s, d).1 in {FriendlyDest, IllegalMove, Ok} ==>
            0 <= d.row < w.board.height && 0 <= d.col < w.board.width
    ensures RequestMove(w, s, d).1 != Ok ==> RequestMove(w, s, d).0 == w
  {
    if s in w.board.grid {
      BusyTells(w, w.board.grid[s]);
    }
  }

  /** Friends: with friendly capture off, a move is refused for its destination exactly when nothing else has refused
      it and a piece of the same color stands there; with friendly capture on, never. */
  lemma FriendlyExactly(w: World, s: Position, d: Position)
    requires BoardCoherent(w.board, w.pieces)
    requires RequestMove(w, s, d).1 in {FriendlyDest, IllegalMove, Ok}
    ensures s in w.board.grid
    ensures RequestMove(w, s, d).1 == FriendlyDest <==>
            !w.allowFriendly && d in w.board.grid
            && w.pieces[w.board.grid[d]].color == w.pieces[w.board.grid[s]].color
  {
  }

  /** With friendly capture on, the color of the piece on the destination makes no difference. */
  lemma TargetColorIsFree(w: World, s: Position, d: Position, c: Color, v: World)
    requires BoardCoherent(w.board, w.pieces) && w.allowFriendly && d in w.board.grid && d != s
    requires var id := w.board.grid[d]; v == w.(pieces := w.pieces[id := w.pieces[id].(color := c)])
    ensures BoardCoherent(v.board, v.pieces) && RequestMove(v, s, d).1 == RequestMove(w, s, d).1
  {
    if s in w.board.grid {
      OtherPiece(w, s, d);
      assert v.pieces[w.board.grid[s]] == w.pieces[w.board.grid[s]];
      assert Busy(v, w.board.grid[s]) <==> Busy(w, w.board.grid[s]);
    }
  }

  // ----- which displacements are legal -----

  /** Two cells of one row or of one column, with no piece strictly between them. */
  ghost predicate StraightOpen(b: BoardState, s: Position, d: Position) {
    (s.row == d.row && s.col != d.col
     && forall c | s.col < c < d.col || d.col < c < s.col :: Position(s.row, c) !in b.grid)
    || (s.col == d.col && s.row != d.row
        && forall r | s.row < r < d.row || d.row < r < s.row :: Position(r, s.col) !in b.grid)
  }

  lemma RookExactly(b: BoardState, s: Position, d: Position)
    requires InBounds(b, s) && InBounds(b, d)
    ensures Slides(b, s, ROOK_DIRECTIONS, d) <==> StraightOpen(b, s, d)
  {
    if Slides(b, s, ROOK_DIRECTIONS, d) {
      var j :| 0 <= j < |ROOK_DIRECTIONS| && OnRay(b, s, ROOK_DIRECTIONS[j], d);
      var k: nat :| Ray(b, s, ROOK_DIRECTIONS[j], k, d);
      RookRay(b, s, j, k, d);
    }
    if s.row == d.row && StraightOpen(b, s, d) {
      var j, k := if s.col < d.col then 0 else 1, if s.col < d.col then d.col - s.col else s.col - d.col;
      RookRay(b, s, j, k, d);
      assert OnRay(b, s, ROOK_DIRECTIONS[j], d);
    }
    if s.col == d.col && StraightOpen(b, s, d) {
      var j, k := if s.row < d.row then 2 else 3, if s.row < d.row then d.row - s.row else s.row - d.row;
      RookRay(b, s, j, k, d);
      assert OnRay(b, s, ROOK_DIRECTIONS[j], d);
    }
  }

  /** i steps in a direction whose parts are -1, 0 or 1, without a multiplication. */
  function Shifted(p: Position, d: Direction, i: int): Position {
    Position(if d.0 == 0 then p.row else if d.0 > 0 then p.row + i else p.row - i,
             if d.1 == 0 then p.col else if d.1 > 0 then p.col + i else p.col - i)
  }

  predicate IsUnit(d: Direction) {
    -1 <= d.0 <= 1 && -1 <= d.1 <= 1
  }

  lemma AlongIs(p: Position, d: Direction, i: int)
    requires IsUnit(d)
    ensures Along(p, d, i) == Shifted(p, d, i)
  {
  }

  lemma RayShift(b: BoardState, s: Position, d: Direction, k: nat, q: Position)
    requires InBounds(b, s) && InBounds(b, q) && IsUnit(d)
    ensures Ray(b, s, d, k, q) <==>
            1 <= k && q == Shifted(s, d, k) && forall i | 1 <= i < k :: Shifted(s, d, i) !in b.grid
  {
    RayFromBoard(b, s, d, k, q);
    forall i ensures Along(s, d, i) == Shifted(s, d, i) {
      AlongIs(s, d, i);
    }
  }

  lemma RightRay(b: BoardState, s: Position, k: nat, d: Position)
    requires InBounds(b, s) && InBounds(b, d)
    ensures Ray(b, s, (0, 1), k, d) <==>
            1 <= k && d == Position(s.row, s.col + k) && forall c | s.col < c < d.col :: Position(s.row, c) !in b.grid
  {
    RayShift(b, s, (0, 1), k, d);
    if Ray(b, s, (0, 1), k, d) {
      forall c | s.col < c < d.col ensures Position(s.row, c) !in b.grid {
        assert Shifted(s, (0, 1), c - s.col) == Position(s.row, c);
      }
    }
    forall i | 1 <= i < k ensures Shifted(s, (0, 1), i) == Position(s.row, s.col + i) {
    }
  }

  lemma LeftRay(b: BoardState, s: Position, k: nat, d: Position)
    requires InBounds(b, s) && InBounds(b, d)
    ensures Ray(b, s, (0, -1), k, d) <==>
            1 <= k && d == Position(s.row, s.col - k) && forall c | d.col < c < s.col :: Position(s.row, c) !in b.grid
  {
    RayShift(b, s, (0, -1), k, d);
    if Ray(b, s, (0, -1), k, d) {
      forall c | d.col < c < s.col ensures Position(s.row, c) !in b.grid {
        assert Shifted(s, (0, -1), s.col - c) == Position(s.row, c);
      }
    }
    forall i | 1 <= i < k ensures Shifted(s, (0, -1), i) == Position(s.row, s.col - i) {
    }
  }

  lemma DownRay(b: BoardState, s: Position, k: nat, d: Position)
    requires InBounds(b, s) && InBounds(b, d)
    ensures Ray(b, s, (1, 0), k, d) <==>
            1 <= k && d == Position(s.row + k, s.col) && forall r | s.row < r < d.row :: Position(r, s.col) !in b.grid
  {
    RayShift(b, s, (1, 0), k, d);
    if Ray(b, s, (1, 0), k, d) {
      forall r | s.row < r < d.row ensures Position(r, s.col) !in b.grid {
        assert Shifted(s, (1, 0), r - s.row) == Position(r, s.col);
      }
    }
    forall i | 1 <= i < k ensures Shifted(s, (1, 0), i) == Position(s.row + i, s.col) {
    }
  }

  lemma UpRay(b: BoardState, s: Position, k: nat, d: Position)
    requires InBounds(b, s) && InBounds(b, d)
    ensures Ray(b, s, (-1, 0), k, d) <==>
            1 <= k && d == Position(s.row - k, s.col) && forall r | d.row < r < s.row :: Position(r, s.col) !in b.grid
  {
    RayShift(b, s, (-1, 0), k, d);
    if Ray(b, s, (-1, 0), k, d) {
      forall r | d.row < r < s.row ensures Position(r, s.col) !in b.grid {
        assert Shifted(s, (-1, 0), s.row - r) == Position(r, s.col);
      }
    }
    forall i | 1 <= i < k ensures Shifted(s, (-1, 0), i) == Position(s.row - i, s.col) {
    }
  }

  lemma RookRay(b: BoardState, s: Position, j: nat, k: nat, d: Position)
    requires InBounds(b, s) && InBounds(b, d) && j < 4
    ensures Ray(b, s, ROOK_DIRECTIONS[j], k, d) <==>
            1 <= k &&
            (match j
             case 0 => d == Position(s.row, s.col + k) && forall c | s.col < c < d.col :: Position(s.row, c) !in b.grid
             case 1 => d == Position(s.row, s.col - k) && forall c | d.col < c < s.col :: Position(s.row, c) !in b.grid
             case 2 => d == Position(s.row + k, s.col) && forall r | s.row < r < d.row :: Position(r, s.col) !in b.grid
             case _ => d == Position(s.row - k, s.col) && forall r | d.row < r < s.row :: Position(r, s.col) !in b.grid)
  {
    match j
    case 0 => RightRay(b, s, k, d);
    case 1 => LeftRay(b, s, k, d);
    case 2 => DownRay(b, s, k, d);
    case _ => UpRay(b, s, k, d);
  }

  /** Strictly between two cells of one diagonal. */
  predicate DiagonallyBetween(s: Position, p: Position, d: Position) {
    && (s.row < p.row < d.row || d.row < p.row < s.row) && (s.col < p.col < d.col || d.col < p.col < s.col)
    && Abs(p.row - s.row) == Abs(p.col - s.col)
  }

  lemma DiagonalRay(b: BoardState, s: Position, x: Direction, k: nat, d: Position)
    requires InBounds(b, s) && InBounds(b, d) && IsUnit(x) && x.0 != 0 && x.1 != 0
    ensures Ray(b, s, x, k, d) <==>
            1 <= k && d == Shifted(s, x, k) && forall p | p in b.grid :: !DiagonallyBetween(s, p, d)
  {
    RayShift(b, s, x, k, d);
    if 1 <= k && d == Shifted(s, x, k) {
      forall i | 1 <= i < k ensures DiagonallyBetween(s, Shifted(s, x, i), d) {
      }
      forall p | DiagonallyBetween(s, p, d)
        ensures p == Shifted(s, x, Abs(p.row - s.row)) && 1 <= Abs(p.row - s.row) < k
      {
      }
    }
  }

  /** Two cells of one diagonal, with no piece strictly between them. */
  ghost predicate DiagonalOpen(b: BoardState, s: Position, d: Position) {
    s != d && Abs(d.row - s.row) == Abs(d.col - s.col) && forall p | p in b.grid :: !DiagonallyBetween(s, p, d)
  }

  lemma BishopExactly(b: BoardState, s: Position, d: Position)
    requires InBounds(b, s) && InBounds(b, d)
    ensures Slides(b, s, BISHOP_DIRECTIONS, d) <==> DiagonalOpen(b, s, d)
  {
    if Slides(b, s, BISHOP_DIRECTIONS, d) {
      var j :| 0 <= j < |BISHOP_DIRECTIONS| && OnRay(b, s, BISHOP_DIRECTIONS[j], d);
      var k: nat :| Ray(b, s, BISHOP_DIRECTIONS[j], k, d);
      DiagonalRay(b, s, BISHOP_DIRECTIONS[j], k, d);
    }
    if s != d && Abs(d.row - s.row) == Abs(d.col - s.col) && forall p | p in b.grid :: !DiagonallyBetween(s, p, d) {
      var j := if s.row < d.row then if s.col < d.col then 0 else 1 else if s.col < d.col then 2 else 3;
      DiagonalRay(b, s, BISHOP_DIRECTIONS[j], Abs(d.row - s.row), d);
      assert OnRay(b, s, BISHOP_DIRECTIONS[j], d);
    }
  }

  /** The cell one or two rows further on for a pawn: White goes up the board, to lower rows. */
  function Ahead(c: Color, p: Position, rows: int): Position {
    if c == White then Position(p.row - rows, p.col) else Position(p.row + rows, p.col)
  }

  lemma PawnExactly(b: BoardState, piece: PieceRec, d: Position)
    requires InBounds(b, piece.cell) && InBounds(b, d) && piece.kind == Pawn
    ensures PawnStep(b, piece, d) <==>
            (d == Ahead(piece.color, piece.cell, 1) && d !in b.grid)
            || (d == Ahead(piece.color, piece.cell, 2) && d !in b.grid && Ahead(piece.color, piece.cell, 1) !in b.grid
                && piece.cell.row == piece.startRow && b.height >= 5)
            || (d in b.grid && d.row == Ahead(piece.color, piece.cell, 1).row
                && (d.col == piece.cell.col - 1 || d.col == piece.cell.col + 1))
  {
  }

  /** Main result: a request that is not refused for any other reason is accepted exactly when the displacement is one
      of the piece's kind and nothing stands in its way. */
  lemma LegalExactly(w: World, s: Position, d: Position)
    requires BoardCoherent(w.board, w.pieces) && RequestMove(w, s, d).1 in {IllegalMove, Ok}
    ensures s in w.board.grid
    ensures var piece := w.pieces[w.board.grid[s]];
            var dr, dc := d.row - s.row, d.col - s.col;
            RequestMove(w, s, d).1 == Ok <==>
            match piece.kind
            case King => s != d && -1 <= dr <= 1 && -1 <= dc <= 1
            case Queen => StraightOpen(w.board, s, d) || DiagonalOpen(w.board, s, d)
            case Rook => StraightOpen(w.board, s, d)
            case Bishop => DiagonalOpen(w.board, s, d)
            case Knight => (dr in {-2, 2} && dc in {-1, 1}) || (dr in {-1, 1} && dc in {-2, 2})
            case Pawn =>
              (d == Ahead(piece.color, s, 1) && d !in w.board.grid)
              || (d == Ahead(piece.color, s, 2) && d !in w.board.grid && Ahead(piece.color, s, 1) !in w.board.grid
                  && s.row == piece.startRow && w.board.height >= 5)
              || (d in w.board.grid && d.row == Ahead(piece.color, s, 1).row && dc in {-1, 1})
  {
    assert s in w.board.grid;
    var piece := w.pieces[w.board.grid[s]];
    assert piece.cell == s;
    RookExactly(w.board, s, d);
    BishopExactly(w.board, s, d);
    if piece.kind == Pawn {
      PawnExactly(w.board, piece, d);
    }
  }

  // ----- what an accepted request starts -----

  /** An accepted move of n squares, the larger of its rows and columns, starts a motion of n times the time for one
      square and changes nothing else. */
  lemma MoveStarts(w: World, s: Position, d: Position, n: int)
    requires BoardCoherent(w.board, w.pieces) && RequestMove(w, s, d).1 == Ok
    requires -n <= d.row - s.row <= n && -n <= d.col - s.col <= n
    requires d.row - s.row in {n, -n} || d.col - s.col in {n, -n}
    ensures s in w.board.grid
    ensures var id := w.board.grid[s];
            RequestMove(w, s, d).0 ==
            w.(pieces := w.pieces[id := w.pieces[id].(state := PieceState.Moving)],
               arb := w.arb.(motions := w.arb.motions +
                               [Move(Token(id, w.pieces[id].color), s, d, n * w.arb.timing.msPerSquare)]))
  {
    assert Distance(s, d) == n;
  }

  /** A jump is refused while the marker is set, and for the reasons a move is; otherwise it starts one JUMP, sets the
      marker over it and changes nothing else. */
  lemma JumpStarts(w: World, p: Position)
    requires BoardCoherent(w.board, w.pieces)
    ensures RequestJump(w, p).1 == GameOver <==> w.gameOver
    ensures RequestJump(w, p).1 == NoPiece <==> !w.gameOver && p !in w.board.grid
    ensures RequestJump(w, p).1 == MotionInProgress <==>
            !w.gameOver && p in w.board.grid &&
            (w.arb.airborne.Some? || (exists m :: m in w.arb.motions && m.piece.id == w.board.grid[p])
             || w.pieces[w.board.grid[p]].state in {LongRest, ShortRest})
    ensures RequestJump(w, p).1 in {GameOver, NoPiece, MotionInProgress, Ok}
    ensures RequestJump(w, p).1 != Ok ==> RequestJump(w, p).0 == w
    ensures RequestJump(w, p).1 == Ok ==>
            p in w.board.grid &&
            RequestJump(w, p).0 ==
            w.(pieces := w.pieces[w.board.grid[p] := w.pieces[w.board.grid[p]].(state := Jumping)],
               arb := w.arb.(airborne := Some(p),
                             motions := w.arb.motions +
                               [Jump(Token(w.board.grid[p], w.pieces[w.board.grid[p]].color), p, w.arb.timing.jumpMs)]))
  {
    if p in w.board.grid {
      BusyTells(w, w.board.grid[p]);
    }
  }

  /** No request moves a marker that is set. */
  lemma MarkerStands(w: World, s: Position, d: Position, p: Position)
    requires BoardCoherent(w.board, w.pieces) && w.arb.airborne.Some?
    ensures RequestMove(w, s, d).0.arb.airborne == w.arb.airborne
    ensures RequestJump(w, p).0.arb.airborne == w.arb.airborne
  {
  }

  // ----- promotion -----

  /** A pawn that arrives becomes a queen exactly when the cell one row further on is off the board. */
  lemma PromotedAtTheEdge(w: World, e: Event)
    requires BoardCoherent(w.board, w.pieces) && EventKnown(w, e) && Own(w, e) && e.Arrival?
    requires e.destination != e.fromPos && w.pieces[e.piece.id].kind == Pawn
    ensures Applicable(w, e)
    ensures var kind := ApplyEvent(w, e).world.pieces[e.piece.id].kind;
            && kind in {Pawn, Queen}
            && (kind == Queen <==> if e.piece.color == White then e.destination.row - 1 < 0
                                   else e.destination.row + 1 >= w.board.height)
  {
    OwnStep(w, e, e.piece.id);
  }

  /** Every pawn on the board has a row before it. */
  ghost predicate PawnsCanAdvance(w: World) {
    forall id | id in w.pieces && OnBoard(w, id) && w.pieces[id].kind == Pawn ::
      if w.pieces[id].color == White then 0 < w.pieces[id].cell.row else w.pieces[id].cell.row < w.board.height - 1
  }

  lemma PawnsShortMeans(w: World)
    requires BoardCoherent(w.board, w.pieces)
    ensures PawnsShort(w) <==> PawnsCanAdvance(w)
  {
    forall id | id in w.pieces && OnBoard(w, id) ensures InBounds(w.board, w.pieces[id].cell) {
      var p :| p in w.board.grid && w.board.grid[p] == id;
    }
  }

  /** Main result: over clean runs from a start where every pawn on the board has a row before it, every pawn on the
      board has one at the end, and has gone up the board if White, down if Black. */
  lemma CleanRunPawns(g: Game, cs: seq<Command>)
    requires g.ok && Good(g) && CleanRun(g, cs)
    requires forall id | id in g.world.pieces && id in g.world.board.grid.Values && g.world.pieces[id].kind == Pawn ::
               if g.world.pieces[id].color == White then 0 < g.world.pieces[id].cell.row
               else g.world.pieces[id].cell.row < g.world.board.height - 1
    ensures forall id | id in Run(g, cs).world.pieces && id in Run(g, cs).world.board.grid.Values
                        && Run(g, cs).world.pieces[id].kind == Pawn ::
              id in g.world.pieces && id in g.world.board.grid.Values && g.world.pieces[id].kind == Pawn &&
              if g.world.pieces[id].color == White
              then 0 < Run(g, cs).world.pieces[id].cell.row <= g.world.pieces[id].cell.row
              else g.world.pieces[id].cell.row <= Run(g, cs).world.pieces[id].cell.row
                   && Run(g, cs).world.pieces[id].cell.row < Run(g, cs).world.board.height - 1
  {
    PawnsShortMeans(g.world);
    CleanRunGeometry(g, cs);
    CleanRunIsGood(g, cs);
    PawnsShortMeans(Run(g, cs).world);
    PawnsTravel(g.world, Run(g, cs).world);
  }

  lemma PawnsTravel(w: World, v: World)
    requires Travels(w, v)
    ensures forall id | id in v.pieces && OnBoard(v, id) && v.pieces[id].kind == Pawn ::
              id in w.pieces && OnBoard(w, id) && w.pieces[id].kind == Pawn &&
              v.pieces[id].color == w.pieces[id].color &&
              if w.pieces[id].color == White then v.pieces[id].cell.row <= w.pieces[id].cell.row
              else w.pieces[id].cell.row <= v.pieces[id].cell.row
  {
  }

  // ----- the end of a game -----

  /** Over clean runs from an unfinished game with all its kings, the game is over exactly when it has been forced or
      a king is off the board. */
  lemma CleanRunKings(g: Game, cs: seq<Command>)
    requires g.ok && Good(g) && CleanRun(g, cs)
    ensures Run(g, cs).world.gameOver <==>
            Run(g, cs).forced ||
            exists id :: id in Run(g, cs).world.pieces && Run(g, cs).world.pieces[id].kind == King
                         && id !in Run(g, cs).world.board.grid.Values
  {
    CleanRunIsGood(g, cs);
  }

  lemma TickWinner(w: World, ms: int)
    requires Valid(w)
    ensures Wait(w, ms).world.winner == w.winner
  {
  }

  lemma StepWinner(g: Game, c: Command)
    requires Sound(g.world) && g.ok
    ensures Perform(g, c).world.winner == if c.Resign? then c.winnerColor else g.world.winner
  {
    if c.Pass? {
      TickWinner(g.world, c.ms);
    }
  }

  lemma WinnerAfter(g: Game, before: Game, cs: seq<Command>)
    requires Sound(g.world) && g.ok && cs != [] && before == Run(g, cs[..|cs| - 1])
    ensures Run(g, cs).world.winner ==
            if before.ok && cs[|cs| - 1].Resign? then cs[|cs| - 1].winnerColor else before.world.winner
  {
    if before.ok {
      StepWinner(before, cs[|cs| - 1]);
    }
  }

  /** The winner is the one named by the last resignation, clean run or not, whatever happens after it. */
  lemma {:induction false} LastResignationDecides(g: Game, cs: seq<Command>, i: nat)
    requires Sound(g.world) && g.ok && i < |cs| && cs[i].Resign? && Run(g, cs[..i]).ok
    requires forall j | i < j < |cs| :: !cs[j].Resign?
    ensures Run(g, cs).world.winner == cs[i].winnerColor
  {
    WinnerAfter(g, Run(g, cs[..|cs| - 1]), cs);
    if i == |cs| - 1 {
    } else {
      assert cs[..|cs| - 1][..i] == cs[..i];
      LastResignationDecides(g, cs[..|cs| - 1], i);
    }
  }

  /** Without a resignation nobody is declared the winner, also when a king falls. */
  lemma {:induction false} NoWinnerDeclared(g: Game, cs: seq<Command>)
    requires Sound(g.world) && g.ok && forall c | c in cs :: !c.Resign?
    ensures Run(g, cs).world.winner == g.world.winner
  {
    if cs == [] {
    } else {
      assert cs[|cs| - 1] in cs && forall c | c in cs[..|cs| - 1] :: c in cs;
      NoWinnerDeclared(g, cs[..|cs| - 1]);
      WinnerAfter(g, Run(g, cs[..|cs| - 1]), cs);
    }
  }

  // ----- resting -----

  /** Through a clean tick, a piece that has arrived rests long, one that has landed rests short, and one that has
      woken up is idle. */
  lemma RestingStates(w: World, ms: int, id: PieceId)
    requires Calm(w) && CleanTick(w.arb, ms) && id in w.pieces
    ensures Wait(w, ms).ok && id in Wait(w, ms).world.pieces
    ensures id in Wait(w, ms).world.board.grid.Values ==>
            var state := Wait(w, ms).world.pieces[id].state;
            && (forall m | m in w.arb.motions && m.piece.id == id && Tick(m, ms) !in Wait(w, ms).world.arb.motions ::
                  state == if m.Move? then LongRest else ShortRest)
            && (forall r | r in w.arb.rests && r.piece.id == id && r.remaining <= ms :: state == Idle)
            && (forall r | r in w.arb.rests && r.piece.id == id && r.remaining > ms :: state == w.pieces[id].state)
  {
    TickCalm(w, ms);
    AnchoringExact(w, ms);
    if OnBoard(Wait(w, ms).world, id) {
      StayerNotEliminated(w, ms, id);
      TickState(w, ms, id);
      RestingTrace(w.arb, ms, id, w.pieces[id].state);
    }
  }

  lemma RestingTrace(a: Arbiter, ms: int, id: PieceId, s: PieceState)
    requires OneActivity(a) && forall e | e in Trace(AdvanceTime(a, ms).events, id) :: !e.Elimination?
    ensures var state := StateAfter(Trace(AdvanceTime(a, ms).events, id), id, s);
            && (forall m | m in a.motions && m.piece.id == id && Tick(m, ms) !in AdvanceTime(a, ms).arb.motions ::
                  state == if m.Move? then LongRest else ShortRest)
            && (forall r | r in a.rests && r.piece.id == id && r.remaining <= ms :: state == Idle)
            && (forall r | r in a.rests && r.piece.id == id && r.remaining > ms :: state == s)
  {
    var t := Trace(AdvanceTime(a, ms).events, id);
    forall m | m in a.motions && m.piece.id == id && Tick(m, ms) !in AdvanceTime(a, ms).arb.motions
      ensures StateAfter(t, id, s) == if m.Move? then LongRest else ShortRest
    {
      Fate(a, ms, m);
      assert t[0] in t;
      StateOfEnd(Tick(m, ms), a.timing, t, s);
    }
    forall r | r in a.rests && r.piece.id == id
      ensures StateAfter(t, id, s) == if r.remaining <= ms then Idle else s
    {
      RestFate(a, ms, r);
    }
  }

  // ----- the marker protects -----

  /** Under the marker, an enemy that is the only MOVE to come due onto the jumper's cell is eliminated and does nothing
      else. */
  lemma LoneIntruderFalls(w: World, ms: int, j: Motion, x: Motion)
    requires Valid(w) && Anchored(w) && j in w.arb.motions && j.Jump? && j.remaining > ms
    requires w.arb.airborne == Some(j.fromPos)
    requires x in w.arb.motions && x.Move? && x.remaining <= ms && x.toPos == j.fromPos
             && x.piece.color != j.piece.color
    requires forall m | m in w.arb.motions && m.Move? && m.remaining <= ms && m.toPos == j.fromPos :: m == x
    ensures Trace(AdvanceTime(w.arb, ms).events, x.piece.id) == [Elimination(x.piece, x.fromPos)]
  {
    var s := Schedule(DueNow(w.arb, ms));
    Fate(w.arb, ms, x);
    if Trace(AdvanceTime(w.arb, ms).events, x.piece.id) != [Elimination(x.piece, x.fromPos)] {
      var l := ArrivesAt(w.arb, ms, x);
      forall i | 0 <= i < l ensures !Intrudes(s[i], j.fromPos, j.piece.color) {
        LoneTarget(w.arb, ms, x, i, l);
      }
      MarkerCaptures(w, ms, j, l);
      assert false;
    }
  }

  /** A MOVE that is not eliminated when it comes due gets through. */
  lemma ArrivesAt(a: Arbiter, ms: int, x: Motion) returns (l: nat)
    requires OneActivity(a) && x in a.motions && x.Move? && x.remaining <= ms
    requires Trace(AdvanceTime(a, ms).events, x.piece.id) != [Elimination(x.piece, x.fromPos)]
    ensures GetsThrough(a, ms, l) && Schedule(DueNow(a, ms))[l] == Tick(x, ms)
  {
    var es := AdvanceTime(a, ms).events;
    Fate(a, ms, x);
    var e := Landing(x);
    TraceMembers(es, x.piece.id, e);
    var k :| 0 <= k < |es| && es[k] == e;
    l := ArrivalInCall(a, ms, k, es);
    ScheduledIsMotion(a, ms, l);
    UniqueMotion(a.motions, x, Tick(Schedule(DueNow(a, ms))[l], -ms));
  }

  lemma LoneTarget(a: Arbiter, ms: int, x: Motion, i: nat, l: nat)
    requires OneActivity(a) && x in a.motions && i < l < |Schedule(DueNow(a, ms))|
    requires Schedule(DueNow(a, ms))[l] == Tick(x, ms) && x.Move?
    requires forall m | m in a.motions && m.Move? && m.remaining <= ms && m.toPos == x.toPos :: m == x
    ensures !(Schedule(DueNow(a, ms))[i].Move? && Schedule(DueNow(a, ms))[i].toPos == x.toPos)
  {
    var due, s := DueNow(a, ms), Schedule(DueNow(a, ms));
    ScheduledIsMotion(a, ms, i);
    SplitDistinct(Elapsed(a.motions, ms));
    ScheduleSubset(due);
    DistinctSchedule(due);
    SplitMembers(Elapsed(a.motions, ms), s[i]);
    assert s[i].piece.id != s[l].piece.id;
  }

  // ----- captured -----

  lemma {:induction false} MarkTells(pieces: map<PieceId, PieceRec>, es: seq<Event>, id: PieceId)
    requires id in pieces
    ensures id in Mark(pieces, es)
    ensures Mark(pieces, es)[id] ==
            if exists e :: e in es && e.Elimination? && e.piece.id == id
            then pieces[id].(state := Captured) else pieces[id]
  {
    if es == [] {
    } else {
      var n := |es| - 1;
      MarkOnlyStates(pieces, es[..n]);
      MarkTells(pieces, es[..n], id);
      assert es == es[..n] + [es[n]];
      if exists e :: e in es[..n] && e.Elimination? && e.piece.id == id {
        var e :| e in es[..n] && e.Elimination? && e.piece.id == id;
        assert e in es;
      }
    }
  }

  /** Before the events of a tick are applied, exactly the pieces that it eliminates are marked captured. */
  lemma EliminatedAreMarked(w: World, ms: int, id: PieceId)
    requires Valid(w) && id in w.pieces
    ensures Ticked(w, ms).pieces[id] ==
            if exists e :: e in AdvanceTime(w.arb, ms).events && e.Elimination? && e.piece.id == id
            then w.pieces[id].(state := Captured) else w.pieces[id]
  {
    MarkTells(w.pieces, AdvanceTime(w.arb, ms).events, id);
  }

  /** An arrival marks the piece on its destination captured, reports it and the kind before promotion, and changes the
      records of no other pieces than these two. */
  lemma ArrivalMarks(w: World, e: Event, id: PieceId)
    requires BoardCoherent(w.board, w.pieces) && EventKnown(w, e) && Own(w, e) && e.Arrival?
    requires e.destination != e.fromPos && id in w.pieces
    ensures Applicable(w, e)
    ensures var a, g := ApplyEvent(w, e), w.board.grid;
            && a.event == e.(captured := if e.destination in g then Some(g[e.destination]) else None,
                             formerKind := Some(w.pieces[e.piece.id].kind))
            && (e.destination in g && id == g[e.destination] ==>
                  a.world.pieces[id] == w.pieces[id].(state := Captured))
            && (id != e.piece.id && !(e.destination in g && id == g[e.destination]) ==>
                  a.world.pieces[id] == w.pieces[id])
            && a.world.pieces[e.piece.id].cell == e.destination
            && (w.pieces[e.piece.id].kind != Pawn ==> a.world.pieces[e.piece.id].kind == w.pieces[e.piece.id].kind)
            && a.world.board.grid == (g - {e.fromPos})[e.destination := e.piece.id]
  {
    if e.destination in w.board.grid {
      OtherPiece(w, e.destination, e.fromPos);
    }
  }

  /** An elimination empties the cell of its piece and changes no record. */
  lemma EliminationEmpties(w: World, e: Event)
    requires BoardCoherent(w.board, w.pieces) && EventKnown(w, e) && e.Elimination?
    ensures Applicable(w, e)
    ensures ApplyEvent(w, e).event == e && ApplyEvent(w, e).world.pieces == w.pieces
    ensures ApplyEvent(w, e).world.board.grid == w.board.grid - {e.currentPos}
  {
  }
}
