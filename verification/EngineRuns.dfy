/** Whole games: every interleaving of requests, ticks and resignations, and what all of them keep. */
module Runs {
  import opened Values
  import opened Arbitration
  import opened Rules
  import opened PieceFate
  import opened SimulatedTime
  import opened Engine
  import opened Anchoring
  import opened Soundness
  import opened Calmness
  import opened Replay
  import opened Stats
  import opened Material

  datatype Command =
    | Request(source: Position, destination: Position)
    | Leap(pos: Position)
    | Pass(ms: int)
    | Resign(winnerColor: Option<Color>)

  /** A game with its tracker. `ok` is false once a tick has raised; `forced`, `promotions` and `arrivals` only
      record what has happened. */
  datatype Game = Game(world: World, stats: Tracker, ok: bool, forced: bool, promotions: nat, arrivals: nat)

  ghost function Perform(g: Game, c: Command): Game
    requires Sound(g.world) && g.ok
  {
    match c
    case Request(source, destination) => g.(world := RequestMove(g.world, source, destination).0)
    case Leap(pos) => g.(world := RequestJump(g.world, pos).0)
    case Resign(winner) => g.(world := g.world.(gameOver := true, winner := winner), forced := true)
    case Pass(ms) =>
      var b := Wait(g.world, ms);
      if !b.ok then g.(world := b.world, ok := false)
      else
        var noted := Process(g.stats, b.done, ms, b.world.pieces);
        Game(b.world, noted.tracker, noted.ok, g.forced,
             g.promotions + Promotions(b.done, g.world.board.height), g.arrivals + ArrivalCount(b.done))
  }

  lemma PerformSound(g: Game, c: Command)
    requires Sound(g.world) && g.ok
    ensures Perform(g, c).ok ==> Sound(Perform(g, c).world)
  {
    match c
    case Request(source, destination) => MoveSound(g.world, source, destination);
    case Leap(pos) => JumpSound(g.world, pos);
    case Resign(_) =>
    case Pass(ms) => if Wait(g.world, ms).ok { TickSound(g.world, ms); }
  }

  /** Main result: in every reachable state, clean or not, the references are coherent, every piece has one
      activity, resting pieces have rest states and the marker is over a live JUMP. */
  ghost function Run(g: Game, cs: seq<Command>): (r: Game)
    requires Sound(g.world) && g.ok
    ensures r.ok ==> Sound(r.world)
  {
    if cs == [] then g else
      var before := Run(g, cs[..|cs| - 1]);
      if !before.ok then before else
        PerformSound(before, cs[|cs| - 1]);
        Perform(before, cs[|cs| - 1])
  }

  /** Every tick of the run is clean. */
  ghost predicate CleanRun(g: Game, cs: seq<Command>)
    requires Sound(g.world) && g.ok
  {
    cs == [] ||
    var before := Run(g, cs[..|cs| - 1]);
    CleanRun(g, cs[..|cs| - 1]) &&
    (before.ok && cs[|cs| - 1].Pass? ==> CleanTick(before.world.arb, cs[|cs| - 1].ms))
  }

  // ----- displacements in flight -----

  /** Every MOVE in flight is a displacement of its piece's kind. */
  ghost predicate MovesShaped(w: World) {
    forall m | m in w.arb.motions && m.Move? ::
      m.piece.id in w.pieces && Shape(w.pieces[m.piece.id].kind, m.piece.color, m.fromPos, m.toPos)
  }

  lemma ShapeMoves(kind: Kind, color: Color, p: Position, q: Position)
    requires Shape(kind, color, p, q)
    ensures p != q
  {
  }

  lemma TickEvents(w: World, ms: int)
    requires Valid(w) && MovesShaped(w)
    ensures var es := AdvanceTime(w.arb, ms).events;
            && Moved(es)
            && (forall e | e in es && e.Arrival? :: e.captured == None && e.formerKind == None)
            && (forall e | e in es :: Known(Ticked(w, ms).pieces, e.piece) && Shaped(Ticked(w, ms), e))
  {
    var es := AdvanceTime(w.arb, ms).events;
    forall e | e in es
      ensures e.Arrival? ==> e.destination != e.fromPos && e.captured == None && e.formerKind == None
      ensures Known(Ticked(w, ms).pieces, e.piece) && Shaped(Ticked(w, ms), e)
    {
      EventSourced(w.arb, ms, e);
      assert EventKnown(Ticked(w, ms), e);
      if e.Arrival? {
        var m :| m in w.arb.motions && m.Move? && m.piece == e.piece && m.fromPos == e.fromPos
            && m.toPos == e.destination;
        ShapeMoves(w.pieces[m.piece.id].kind, m.piece.color, m.fromPos, m.toPos);
      }
    }
  }

  lemma TickMovesShaped(w: World, ms: int)
    requires Calm(w) && MovesShaped(w) && CleanTick(w.arb, ms)
    ensures MovesShaped(Wait(w, ms).world)
  {
    var es := AdvanceTime(w.arb, ms).events;
    var v := Wait(w, ms).world;
    AnchoringExact(w, ms);
    TickEvents(w, ms);
    AdvanceShape(w.arb, ms);
    forall k | k in v.arb.motions && k.Move?
      ensures k.piece.id in v.pieces && Shape(v.pieces[k.piece.id].kind, k.piece.color, k.fromPos, k.toPos)
    {
      var m := Tick(k, -ms);
      assert m in w.arb.motions;
      StillActive(w.arb, ms, m);
      KindKept(Ticked(w, ms), es, m.piece.id);
    }
  }

  lemma RequestMovesShaped(w: World, source: Position, destination: Position)
    requires Sound(w) && MovesShaped(w)
    ensures MovesShaped(RequestMove(w, source, destination).0)
  {
    if RequestMove(w, source, destination).1 == Ok {
      LegalShape(w.board, w.pieces, w.allowFriendly, source, destination);
    }
  }

  // ----- one command -----

  ghost predicate Good(g: Game) {
    Calm(g.world) && MovesShaped(g.world) && KingsTracked(g.world, g.forced)
  }

  lemma SameKings(w: World, v: World, forced: bool)
    requires KingsTracked(w, forced) && v.board == w.board && v.gameOver == w.gameOver
    requires v.pieces.Keys == w.pieces.Keys && forall id | id in w.pieces :: v.pieces[id].kind == w.pieces[id].kind
    ensures KingsTracked(v, forced)
  {
    assert forall id :: OnBoard(v, id) <==> OnBoard(w, id);
    if KingMissing(v) {
      var id :| id in v.pieces && v.pieces[id].kind == King && !OnBoard(v, id);
      assert w.pieces[id].kind == King && !OnBoard(w, id);
    }
    if KingMissing(w) {
      var id :| id in w.pieces && w.pieces[id].kind == King && !OnBoard(w, id);
      assert v.pieces[id].kind == King && !OnBoard(v, id);
    }
  }

  lemma PassGood(g: Game, ms: int)
    requires g.ok && Good(g) && CleanTick(g.world.arb, ms)
    ensures Good(Perform(g, Pass(ms)))
  {
    var w := g.world;
    var es := AdvanceTime(w.arb, ms).events;
    TickCalm(w, ms);
    AnchoringExact(w, ms);
    TickEvents(w, ms);
    TickMovesShaped(w, ms);
    SameKings(w, Ticked(w, ms), g.forced);
    ReplayKings(Ticked(w, ms), es, g.forced);
  }

  /** Once the engine has taken a tick, it is up to the tracker whether the game goes on. */
  lemma TickGoesOn(g: Game, ms: int)
    requires Sound(g.world) && g.ok && Wait(g.world, ms).ok
    ensures Perform(g, Pass(ms)).world == Wait(g.world, ms).world
    ensures Perform(g, Pass(ms)).ok <==> forall e | e in AdvanceTime(g.world.arb, ms).events :: Lettered(e)
    ensures ColumnsFit(g.world) ==> Perform(g, Pass(ms)).ok
  {
    var b := Wait(g.world, ms);
    BatchRecordable(Ticked(g.world, ms), AdvanceTime(g.world.arb, ms).events);
    ProcessTotals(g.stats, b.done, ms, b.world.pieces);
    if ColumnsFit(g.world) {
      FitsLettered(Ticked(g.world, ms), AdvanceTime(g.world.arb, ms).events);
    }
  }

  /** After a clean tick the game goes on exactly when every arrival is in a column that has a letter. */
  lemma PassGoesOn(g: Game, ms: int)
    requires g.ok && Good(g) && CleanTick(g.world.arb, ms)
    ensures Perform(g, Pass(ms)).ok <==> forall e | e in AdvanceTime(g.world.arb, ms).events :: Lettered(e)
    ensures ColumnsFit(g.world) ==> Perform(g, Pass(ms)).ok
  {
    CleanTickSucceeds(g.world, ms);
    TickGoesOn(g, ms);
  }

  lemma RequestGood(g: Game, source: Position, destination: Position)
    requires g.ok && Good(g)
    ensures Good(Perform(g, Request(source, destination)))
  {
    MoveCalm(g.world, source, destination);
    RequestMovesShaped(g.world, source, destination);
    SameKings(g.world, RequestMove(g.world, source, destination).0, g.forced);
  }

  lemma LeapGood(g: Game, pos: Position)
    requires g.ok && Good(g)
    ensures Good(Perform(g, Leap(pos)))
  {
    JumpCalm(g.world, pos);
    SameKings(g.world, RequestJump(g.world, pos).0, g.forced);
  }

  lemma PerformGood(g: Game, c: Command)
    requires g.ok && Good(g) && (c.Pass? ==> CleanTick(g.world.arb, c.ms))
    ensures Good(Perform(g, c)) && (ColumnsFit(g.world) ==> Perform(g, c).ok && ColumnsFit(Perform(g, c).world))
  {
    match c
    case Request(source, destination) => RequestGood(g, source, destination);
    case Leap(pos) => LeapGood(g, pos);
    case Resign(_) =>
    case Pass(ms) =>
      PassGood(g, ms);
      PassGoesOn(g, ms);
  }

  /** Main result: along every clean run, on a board of any size, every active motion stays anchored, every piece
      on the board is in exactly the state its activity dictates, and game over holds exactly when it was forced or
      a king is missing. If every column has a letter, no tick raises. */
  lemma {:induction false} CleanRunIsGood(g: Game, cs: seq<Command>)
    requires g.ok && Good(g) && CleanRun(g, cs)
    ensures Good(Run(g, cs))
    ensures ColumnsFit(g.world) ==> Run(g, cs).ok && ColumnsFit(Run(g, cs).world)
  {
    if cs == [] {
    } else {
      var before := Run(g, cs[..|cs| - 1]);
      CleanRunIsGood(g, cs[..|cs| - 1]);
      if before.ok {
        PerformGood(before, cs[|cs| - 1]);
      }
    }
  }

  // ----- game over never goes back -----

  lemma {:induction false} GameOverGrows(w: World, es: seq<Event>)
    requires BoardCoherent(w.board, w.pieces) && AllKnown(w, es) && w.gameOver
    ensures ApplyAll(w, es).world.gameOver
  {
    if es == [] {
    } else {
      GameOverGrows(w, es[..|es| - 1]);
    }
  }

  /** In any run, clean or not, game over stays. */
  lemma {:induction false} GameOverForever(g: Game, cs: seq<Command>)
    requires Sound(g.world) && g.ok && g.world.gameOver
    ensures Run(g, cs).world.gameOver
  {
    if cs == [] {
    } else {
      GameOverForever(g, cs[..|cs| - 1]);
      var before := Run(g, cs[..|cs| - 1]);
      if before.ok && cs[|cs| - 1].Pass? {
        GameOverGrows(Ticked(before.world, cs[|cs| - 1].ms), AdvanceTime(before.world.arb, cs[|cs| - 1].ms).events);
      }
    }
  }

  // ----- geometry -----

  /** Changing only states moves nobody. */
  lemma StateChangeTravels(w: World, v: World)
    requires v.board == w.board && v.pieces.Keys == w.pieces.Keys
    requires forall id | id in w.pieces :: v.pieces[id] == w.pieces[id].(state := v.pieces[id].state)
    ensures Travels(w, v) && (PawnsShort(w) ==> PawnsShort(v))
  {
    assert forall id :: OnBoard(v, id) <==> OnBoard(w, id);
  }

  lemma TickGeometry(w: World, ms: int)
    requires Calm(w) && MovesShaped(w) && CleanTick(w.arb, ms)
    ensures Travels(w, Wait(w, ms).world)
    ensures PawnsShort(w) ==> PawnsShort(Wait(w, ms).world)
  {
    AnchoringExact(w, ms);
    TickEvents(w, ms);
    TickOrderly(w.arb, ms);
    ReplayGeometry(Ticked(w, ms), AdvanceTime(w.arb, ms).events, Pending(w.arb, ms));
    StateChangeTravels(w, Ticked(w, ms));
    TravelsOn(w, Ticked(w, ms), Wait(w, ms).world);
  }

  lemma PerformGeometry(g: Game, c: Command)
    requires g.ok && Good(g) && (c.Pass? ==> CleanTick(g.world.arb, c.ms))
    ensures Travels(g.world, Perform(g, c).world)
    ensures PawnsShort(g.world) ==> PawnsShort(Perform(g, c).world)
  {
    if c.Pass? {
      TickGeometry(g.world, c.ms);
    } else {
      StateChangeTravels(g.world, Perform(g, c).world);
    }
  }

  /** Main result: along every clean run pawns only advance or promote, none is left on its promotion row,
      bishops keep their square colour, and no piece comes back to the board. */
  lemma {:induction false} CleanRunGeometry(g: Game, cs: seq<Command>)
    requires g.ok && Good(g) && CleanRun(g, cs) && PawnsShort(g.world)
    ensures PawnsShort(Run(g, cs).world) && Travels(g.world, Run(g, cs).world)
  {
    if cs == [] {
    } else {
      var before := Run(g, cs[..|cs| - 1]);
      CleanRunIsGood(g, cs[..|cs| - 1]);
      CleanRunGeometry(g, cs[..|cs| - 1]);
      if before.ok {
        PerformGeometry(before, cs[|cs| - 1]);
        TravelsOn(g.world, before.world, Run(g, cs).world);
      }
    }
  }

  // ----- material -----

  /** Scores plus the value on the board, less what promotions added. */
  ghost function Books(g: Game, ids: seq<PieceId>): int
    requires Lists(ids, g.world)
  {
    g.stats.white + g.stats.black + BoardValue(g.stats.values, g.world, ids)
    - PromotionGain(g.stats.values) * g.promotions
  }

  lemma SameValue(values: map<Kind, int>, w: World, v: World, ids: seq<PieceId>)
    requires Lists(ids, w) && v.board.grid == w.board.grid
    requires v.pieces.Keys == w.pieces.Keys && forall id | id in w.pieces :: v.pieces[id].kind == w.pieces[id].kind
    ensures Lists(ids, v) && BoardValue(values, v, ids) == BoardValue(values, w, ids)
  {
    assert forall id :: OnBoard(v, id) <==> OnBoard(w, id);
    assert WorthMap(values, v) == WorthMap(values, w);
  }

  lemma Distribute(c: int, m: int, n: int)
    ensures c * (m + n) == c * m + c * n
  {
  }

  lemma TickMaterial(values: map<Kind, int>, w: World, ms: int, ids: seq<PieceId>)
    requires Calm(w) && MovesShaped(w) && CleanTick(w.arb, ms) && Lists(ids, w)
    requires forall e | e in AdvanceTime(w.arb, ms).events :: Lettered(e)
    ensures Booked(values, w, Wait(w, ms), ids)
  {
    AnchoringExact(w, ms);
    TickEvents(w, ms);
    SameValue(values, w, Ticked(w, ms), ids);
    ReplayMaterial(values, Ticked(w, ms), AdvanceTime(w.arb, ms).events, ids);
  }

  /** h is g after a batch was recorded, as far as the books go. */
  ghost predicate Succeeds(g: Game, b: Batch, h: Game) {
    && AllRecordable(b.done, b.world.pieces) && h.world == b.world
    && Recorded(g.stats, h.stats, Gains(g.stats.values, b.world.pieces, b.done), ArrivalCount(b.done))
    && h.promotions == g.promotions + Promotions(b.done, g.world.board.height)
    && h.arrivals == g.arrivals + ArrivalCount(b.done)
  }

  lemma BooksBalance(g: Game, b: Batch, h: Game, ids: seq<PieceId>)
    requires Lists(ids, g.world) && Booked(g.stats.values, g.world, b, ids) && Succeeds(g, b, h)
    ensures Lists(ids, h.world) && Books(h, ids) == Books(g, ids)
    ensures h.stats.values == g.stats.values
    ensures |h.stats.history| - h.arrivals == |g.stats.history| - g.arrivals
  {
    Distribute(PromotionGain(g.stats.values), g.promotions, Promotions(b.done, g.world.board.height));
  }

  lemma PassMaterial(g: Game, ms: int, ids: seq<PieceId>)
    requires g.ok && Good(g) && CleanTick(g.world.arb, ms) && Lists(ids, g.world) && Perform(g, Pass(ms)).ok
    ensures Lists(ids, Perform(g, Pass(ms)).world) && Books(Perform(g, Pass(ms)), ids) == Books(g, ids)
    ensures Perform(g, Pass(ms)).stats.values == g.stats.values
    ensures |Perform(g, Pass(ms)).stats.history| - Perform(g, Pass(ms)).arrivals == |g.stats.history| - g.arrivals
  {
    var b := Wait(g.world, ms);
    PassGoesOn(g, ms);
    TickMaterial(g.stats.values, g.world, ms, ids);
    ProcessTotals(g.stats, b.done, ms, b.world.pieces);
    BooksBalance(g, b, Perform(g, Pass(ms)), ids);
  }

  lemma PerformMaterial(g: Game, c: Command, ids: seq<PieceId>)
    requires g.ok && Good(g) && (c.Pass? ==> CleanTick(g.world.arb, c.ms)) && Lists(ids, g.world) && Perform(g, c).ok
    ensures var h := Perform(g, c);
            && Lists(ids, h.world) && Books(h, ids) == Books(g, ids)
            && |h.stats.history| - h.arrivals == |g.stats.history| - g.arrivals
            && h.stats.values == g.stats.values
  {
    if c.Pass? {
      PassMaterial(g, c.ms, ids);
    } else {
      OtherMaterial(g, Perform(g, c), ids);
    }
  }

  /** Requests and resignations move no value. */
  lemma OtherMaterial(g: Game, h: Game, ids: seq<PieceId>)
    requires Lists(ids, g.world) && h.world.board == g.world.board && h.world.pieces.Keys == g.world.pieces.Keys
    requires forall id | id in g.world.pieces :: h.world.pieces[id].kind == g.world.pieces[id].kind
    requires h.stats == g.stats && h.promotions == g.promotions && h.arrivals == g.arrivals
    ensures Lists(ids, h.world) && Books(h, ids) == Books(g, ids)
  {
    SameValue(g.stats.values, g.world, h.world, ids);
  }

  /** From g to h, scores plus the value of the pieces on the board changed only by promotions,
      and the history grew by one entry for each arrival. */
  ghost predicate MaterialConserved(g: Game, h: Game, ids: seq<PieceId>) {
    && Lists(ids, g.world) && Lists(ids, h.world) && h.stats.values == g.stats.values
    && h.stats.white + h.stats.black + BoardValue(h.stats.values, h.world, ids)
       == g.stats.white + g.stats.black + BoardValue(g.stats.values, g.world, ids)
          + PromotionGain(g.stats.values) * (h.promotions - g.promotions)
    && |h.stats.history| == |g.stats.history| + h.arrivals - g.arrivals
  }

  lemma EqualBooks(g: Game, h: Game, ids: seq<PieceId>)
    requires Lists(ids, g.world) && Lists(ids, h.world) && h.stats.values == g.stats.values
    requires Books(h, ids) == Books(g, ids)
    requires |h.stats.history| - h.arrivals == |g.stats.history| - g.arrivals
    ensures MaterialConserved(g, h, ids)
  {
    var c := PromotionGain(g.stats.values);
    Distribute(c, h.promotions, 0 - g.promotions);
    Distribute(c, g.promotions, 0 - g.promotions);
  }

  /** Main result: material is conserved along every clean run, as long as the tracker can record its moves. */
  lemma CleanRunConservesMaterial(g: Game, cs: seq<Command>, ids: seq<PieceId>)
    requires g.ok && Good(g) && CleanRun(g, cs) && Lists(ids, g.world)
    ensures Run(g, cs).ok || ColumnsFit(g.world) ==> MaterialConserved(g, Run(g, cs), ids)
  {
    CleanRunIsGood(g, cs);
    if Run(g, cs).ok {
      CleanRunBooks(g, cs, ids);
      EqualBooks(g, Run(g, cs), ids);
    }
  }

  lemma {:induction false} CleanRunBooks(g: Game, cs: seq<Command>, ids: seq<PieceId>)
    requires g.ok && Good(g) && CleanRun(g, cs) && Lists(ids, g.world) && Run(g, cs).ok
    ensures var h := Run(g, cs);
            && Lists(ids, h.world) && h.stats.values == g.stats.values && Books(h, ids) == Books(g, ids)
            && |h.stats.history| - h.arrivals == |g.stats.history| - g.arrivals
  {
    if cs == [] {
    } else {
      CleanRunIsGood(g, cs[..|cs| - 1]);
      CleanRunBooks(g, cs[..|cs| - 1], ids);
      PerformMaterial(Run(g, cs[..|cs| - 1]), cs[|cs| - 1], ids);
    }
  }

  /** With non-negative ticks the history is in chronological order, in every run. */
  lemma {:induction false} HistoryChronological(g: Game, cs: seq<Command>)
    requires Sound(g.world) && g.ok && Chronological(g.stats)
    requires forall c | c in cs && c.Pass? :: 0 <= c.ms
    ensures Chronological(Run(g, cs).stats)
  {
    if cs == [] {
    } else {
      var n := |cs| - 1;
      assert cs[n] in cs && forall c | c in cs[..n] :: c in cs;
      HistoryChronological(g, cs[..n]);
      var before := Run(g, cs[..n]);
      if before.ok && cs[n].Pass? {
        var b := Wait(before.world, cs[n].ms);
        if b.ok {
          ProcessChronological(before.stats, b.done, cs[n].ms, b.world.pieces);
        }
      }
    }
  }
}
