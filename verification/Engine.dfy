/** The game engine as a function on values: requests, one tick, and runs of commands.
    `EngineObject.GameEngine` is proved to compute exactly these functions. */
module Engine {
  import opened Values
  import opened Arbitration
  import opened Rules
  import opened PieceFate
  import opened SimulatedTime

  datatype World = World(board: BoardState, pieces: map<PieceId, PieceRec>, arb: Arbiter,
                         gameOver: bool, winner: Option<Color>, allowFriendly: bool)

  datatype MoveReason = Ok | GameOver | MotionInProgress | NoPiece | Outside | FriendlyDest | IllegalMove

  // ----- coherence of the references between board, pieces and arbiter -----

  predicate Known(pieces: map<PieceId, PieceRec>, t: Token) {
    t.id in pieces && pieces[t.id].color == t.color
  }

  ghost predicate BoardCoherent(b: BoardState, pieces: map<PieceId, PieceRec>) {
    forall p | p in b.grid :: InBounds(b, p) && b.grid[p] in pieces && pieces[b.grid[p]].cell == p
  }

  ghost predicate ArbCoherent(b: BoardState, pieces: map<PieceId, PieceRec>, a: Arbiter) {
    && (forall m | m in a.motions :: Known(pieces, m.piece) && (m.Move? ==> InBounds(b, m.toPos)))
    && (forall r | r in a.rests :: Known(pieces, r.piece))
  }

  /** What holds of every state the engine can be in, even after a capture left a motion without its piece. */
  ghost predicate Valid(w: World) {
    && BoardCoherent(w.board, w.pieces)
    && ArbCoherent(w.board, w.pieces, w.arb)
    && OneActivity(w.arb)
  }

  function TokenOf(w: World, id: PieceId): Token
    requires id in w.pieces
  {
    Token(id, w.pieces[id].color)
  }

  ghost predicate OnBoard(w: World, id: PieceId) {
    id in w.board.grid.Values
  }

  // ----- requests -----

  predicate Busy(w: World, id: PieceId)
    requires id in w.pieces
  {
    (exists i :: 0 <= i < |w.arb.motions| && w.arb.motions[i].piece.id == id) || IsRestState(w.pieces[id].state)
  }

  function SetState(pieces: map<PieceId, PieceRec>, id: PieceId, s: PieceState): map<PieceId, PieceRec>
    requires id in pieces
  {
    pieces[id := pieces[id].(state := s)]
  }

  function ReasonOf(v: Verdict): MoveReason {
    match v
    case Legal => Ok
    case OutsideBoard => Outside
    case EmptySource => NoPiece
    case FriendlyDestination => FriendlyDest
    case IllegalPieceMove => IllegalMove
  }

  ghost function RequestMove(w: World, source: Position, destination: Position): (World, MoveReason)
    requires BoardCoherent(w.board, w.pieces)
  {
    if w.gameOver then (w, GameOver)
    else if source !in w.board.grid then (w, NoPiece)
    else
      var id := w.board.grid[source];
      if Busy(w, id) then (w, MotionInProgress)
      else
        var v := Validate(w.board, w.pieces, w.allowFriendly, source, destination);
        if v != Legal then (w, ReasonOf(v))
        else (w.(arb := StartMotion(w.arb, TokenOf(w, id), source, destination),
                 pieces := SetState(w.pieces, id, Moving)), Ok)
  }

  function RequestJump(w: World, pos: Position): (World, MoveReason)
    requires BoardCoherent(w.board, w.pieces)
  {
    if w.gameOver then (w, GameOver)
    else if pos !in w.board.grid then (w, NoPiece)
    else
      var id := w.board.grid[pos];
      if Busy(w, id) || w.arb.airborne.Some? then (w, MotionInProgress)
      else (w.(arb := StartJump(w.arb, TokenOf(w, id), pos), pieces := SetState(w.pieces, id, Jumping)), Ok)
  }

  // ----- applying the events of a tick -----

  ghost predicate EventKnown(w: World, e: Event) {
    Known(w.pieces, e.piece) && (e.Arrival? ==> InBounds(w.board, e.destination))
  }

  /** `Board.move_piece` raises KeyError when its source cell is empty. */
  predicate Applicable(w: World, e: Event) {
    e.Arrival? ==> e.fromPos in w.board.grid
  }

  function PromotionRow(c: Color, height: int): int {
    if c == White then 0 else height - 1
  }

  function Promote(pieces: map<PieceId, PieceRec>, id: PieceId, height: int): map<PieceId, PieceRec>
    requires id in pieces
  {
    var p := pieces[id];
    if p.kind == Pawn && p.cell.row == PromotionRow(p.color, height) then pieces[id := p.(kind := Queen)] else pieces
  }

  /** `Board.move_piece`: the new grid, and the piece that stood on the target. */
  function Relocate(grid: map<Position, PieceId>, source: Position, target: Position)
    : (map<Position, PieceId>, Option<PieceId>)
    requires source in grid
  {
    var g := grid - {source};
    (g[target := grid[source]], if target in g then Some(g[target]) else None)
  }

  function Seize(pieces: map<PieceId, PieceRec>, captured: Option<PieceId>): map<PieceId, PieceRec>
    requires captured.Some? ==> captured.value in pieces
  {
    if captured.Some? then SetState(pieces, captured.value, Captured) else pieces
  }

  function SetCell(pieces: map<PieceId, PieceRec>, id: PieceId, p: Position): map<PieceId, PieceRec>
    requires id in pieces
  {
    pieces[id := pieces[id].(cell := p)]
  }

  predicate IsKing(pieces: map<PieceId, PieceRec>, id: Option<PieceId>)
    requires id.Some? ==> id.value in pieces
  {
    id.Some? && pieces[id.value].kind == King
  }

  datatype Applied = Applied(world: World, event: Event)

  function ApplyArrival(w: World, e: Event): (r: Applied)
    requires BoardCoherent(w.board, w.pieces) && EventKnown(w, e) && e.Arrival? && Applicable(w, e)
  {
    var mover := w.board.grid[e.fromPos];
    var (grid, captured) := Relocate(w.board.grid, e.fromPos, e.destination);
    var pieces := Promote(SetCell(Seize(w.pieces, captured), mover, e.destination), e.piece.id, w.board.height);
    Applied(w.(board := w.board.(grid := grid), pieces := pieces, gameOver := w.gameOver || IsKing(pieces, captured)),
            e.(captured := captured, formerKind := Some(w.pieces[e.piece.id].kind)))
  }

  /** What no event changes about the pieces. */
  ghost predicate SameRoster(x: map<PieceId, PieceRec>, y: map<PieceId, PieceRec>) {
    x.Keys == y.Keys && forall id | id in x :: x[id].color == y[id].color && x[id].startRow == y[id].startRow
  }

  /** What no event changes about the world. */
  ghost predicate Alike(w: World, v: World) {
    && SameRoster(w.pieces, v.pieces)
    && w.board.width == v.board.width && w.board.height == v.board.height
    && w.arb == v.arb && w.winner == v.winner && w.allowFriendly == v.allowFriendly
  }

  lemma ArrivalKeeps(w: World, e: Event)
    requires BoardCoherent(w.board, w.pieces) && EventKnown(w, e) && e.Arrival? && Applicable(w, e)
    ensures BoardCoherent(ApplyArrival(w, e).world.board, ApplyArrival(w, e).world.pieces)
    ensures Alike(w, ApplyArrival(w, e).world)
  {
  }

  function ApplyEvent(w: World, e: Event): (r: Applied)
    requires BoardCoherent(w.board, w.pieces) && EventKnown(w, e) && Applicable(w, e)
    ensures BoardCoherent(r.world.board, r.world.pieces) && Alike(w, r.world)
  {
    match e
    case Arrival(_, _, _, _, _) => ArrivalKeeps(w, e); ApplyArrival(w, e)
    case Elimination(piece, currentPos) =>
      Applied(w.(board := w.board.(grid := w.board.grid - {currentPos}),
                 gameOver := w.gameOver || w.pieces[piece.id].kind == King), e)
    case Rest(piece, restState, _) => Applied(w.(pieces := SetState(w.pieces, piece.id, restState)), e)
    case Wake(piece) => Applied(w.(pieces := SetState(w.pieces, piece.id, Idle)), e)
  }

  /** `ok` is false when an event raised KeyError; the events before it stay applied and no list is returned. */
  datatype Batch = Batch(world: World, done: seq<Event>, ok: bool)

  ghost predicate AllKnown(w: World, es: seq<Event>) {
    forall e | e in es :: EventKnown(w, e)
  }

  function ApplyAll(w: World, es: seq<Event>): (r: Batch)
    requires BoardCoherent(w.board, w.pieces) && AllKnown(w, es)
    ensures BoardCoherent(r.world.board, r.world.pieces) && Alike(w, r.world)
    ensures r.ok ==> |r.done| == |es|
  {
    if es == [] then Batch(w, [], true) else
      var n := |es| - 1;
      var before := ApplyAll(w, es[..n]);
      assert es[n] in es && EventKnown(before.world, es[n]);
      if !before.ok then before
      else if !Applicable(before.world, es[n]) then Batch(before.world, before.done, false)
      else
        var last := ApplyEvent(before.world, es[n]);
        Batch(last.world, before.done + [last.event], true)
  }

  /** The arbiter marks eliminated pieces before the engine applies any event. */
  function Mark(pieces: map<PieceId, PieceRec>, es: seq<Event>): map<PieceId, PieceRec> {
    if es == [] then pieces else
      var before := Mark(pieces, es[..|es| - 1]);
      var e := es[|es| - 1];
      if e.Elimination? && e.piece.id in before then SetState(before, e.piece.id, Captured) else before
  }

  lemma {:induction false} MarkOnlyStates(pieces: map<PieceId, PieceRec>, es: seq<Event>)
    ensures Mark(pieces, es).Keys == pieces.Keys
    ensures forall id | id in pieces ::
              Mark(pieces, es)[id] == pieces[id] || Mark(pieces, es)[id] == pieces[id].(state := Captured)
  {
    if es == [] {
    } else {
      MarkOnlyStates(pieces, es[..|es| - 1]);
    }
  }

  // ----- one tick -----

  /** Where the events of a call come from. */
  ghost predicate Sourced(a: Arbiter, ms: int, e: Event) {
    match e
    case Wake(piece) => exists r :: r in a.rests && r.piece == piece
    case Rest(piece, s, _) => IsRestState(s) && exists m :: m in a.motions && m.piece == piece && m.remaining <= ms
    case Elimination(piece, pos) => exists m :: m in a.motions && m.Move? && m.piece == piece && m.fromPos == pos
    case Arrival(piece, source, destination, captured, formerKind) =>
      captured == None && formerKind == None &&
      exists m :: m in a.motions && m.Move? && m.remaining <= ms && m.piece == piece && m.fromPos == source
        && m.toPos == destination
  }

  lemma {:induction false} InTrace(es: seq<Event>, e: Event)
    requires e in es
    ensures e in Trace(es, e.piece.id)
  {
    var n := |es| - 1;
    if es[n] == e {
    } else {
      assert es == es[..n] + [es[n]];
      InTrace(es[..n], e);
    }
  }

  lemma EventSourced(a: Arbiter, ms: int, e: Event)
    requires OneActivity(a) && e in AdvanceTime(a, ms).events
    ensures Sourced(a, ms, e)
  {
    var id := e.piece.id;
    InTrace(AdvanceTime(a, ms).events, e);
    if InMotion(a.motions, id) {
      var m :| m in a.motions && m.piece.id == id;
      Fate(a, ms, m);
    } else if AtRest(a.rests, id) {
      var r :| r in a.rests && r.piece.id == id;
      RestFate(a, ms, r);
    } else {
      NoFate(a, ms, id);
    }
  }

  /** The world in which the events of a tick are applied: time has passed, the board has not moved. */
  ghost function Ticked(w: World, ms: int): (r: World)
    requires Valid(w)
    ensures BoardCoherent(r.board, r.pieces) && AllKnown(r, AdvanceTime(w.arb, ms).events)
    ensures r.pieces.Keys == w.pieces.Keys
    ensures forall id | id in w.pieces ::
              r.pieces[id] == w.pieces[id] || r.pieces[id] == w.pieces[id].(state := Captured)
  {
    var out := AdvanceTime(w.arb, ms);
    assert forall e | e in out.events ::
             Known(w.pieces, e.piece) && (e.Arrival? ==> InBounds(w.board, e.destination)) by {
      forall e | e in out.events ensures Known(w.pieces, e.piece) && (e.Arrival? ==> InBounds(w.board, e.destination)) {
        EventSourced(w.arb, ms, e);
      }
    }
    MarkOnlyStates(w.pieces, out.events);
    w.(arb := out.arb, pieces := Mark(w.pieces, out.events))
  }

  ghost function Wait(w: World, ms: int): (r: Batch)
    requires Valid(w)
  {
    ApplyAll(Ticked(w, ms), AdvanceTime(w.arb, ms).events)
  }
}
