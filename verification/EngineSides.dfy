/** The two scores apart: what each color takes is credited to that color, over batches and over whole runs. */
module Sides {
  import opened Values
  import opened Arbitration
  import opened Engine
  import opened Anchoring
  import opened Soundness
  import opened Calmness
  import opened Replay
  import opened Stats
  import opened Material
  import opened Runs
  import Decimal

  // ----- a batch -----

  /** What one event is worth to a color: what its arriving piece takes, or an eliminated piece of the other color. */
  function Scores(values: map<Kind, int>, pieces: map<PieceId, PieceRec>, e: Event, c: Color): int
    requires Recordable(e, pieces)
  {
    match e
    case Arrival(piece, _, _, captured, _) =>
      if captured.Some? && piece.color == c then Worth(values, pieces[captured.value].kind) else 0
    case Elimination(piece, _) => if piece.color != c then Worth(values, pieces[piece.id].kind) else 0
    case _ => 0
  }

  function Scored(values: map<Kind, int>, pieces: map<PieceId, PieceRec>, es: seq<Event>, c: Color): int
    requires AllRecordable(es, pieces)
  {
    if es == [] then 0 else
      var n := |es| - 1;
      assert es[n] in es;
      Scored(values, pieces, es[..n], c) + Scores(values, pieces, es[n], c)
  }

  /** The history entry of an arrival, letter by letter. */
  function Written(e: Event, pieces: map<PieceId, PieceRec>, height: int, elapsedMs: int): MoveRecord
    requires e.Arrival? && Recordable(e, pieces)
  {
    var kind := if e.formerKind.Some? then e.formerKind.value else pieces[e.piece.id].kind;
    var letter := match kind
      case King => "K"
      case Queen => "Q"
      case Rook => "R"
      case Bishop => "B"
      case Knight => "N"
      case Pawn => "";
    MoveRecord(elapsedMs, letter + ['a' + e.destination.col as char] + Decimal.Text(height - e.destination.row),
               e.piece.color)
  }

  function WrittenAll(es: seq<Event>, pieces: map<PieceId, PieceRec>, height: int, elapsedMs: int): seq<MoveRecord>
    requires AllRecordable(es, pieces)
  {
    if es == [] then [] else
      var n := |es| - 1;
      assert es[n] in es;
      var before := WrittenAll(es[..n], pieces, height, elapsedMs);
      if es[n].Arrival? then before + [Written(es[n], pieces, height, elapsedMs)] else before
  }

  lemma RecordTells(t: Tracker, e: Event, pieces: map<PieceId, PieceRec>)
    requires Recordable(e, pieces)
    ensures var u := Record(t, e, pieces);
            && u.white == t.white + Scores(t.values, pieces, e, White)
            && u.black == t.black + Scores(t.values, pieces, e, Black)
            && u.values == t.values && u.boardHeight == t.boardHeight && u.elapsedMs == t.elapsedMs
            && u.history == t.history + if e.Arrival? then [Written(e, pieces, t.boardHeight, t.elapsedMs)] else []
  {
    if e.Arrival? {
      ColumnLetter(e.destination.col);
    }
  }

  /** What recording a list of events has done to a tracker. */
  ghost predicate Told(t: Tracker, u: Tracker, es: seq<Event>, pieces: map<PieceId, PieceRec>)
    requires AllRecordable(es, pieces)
  {
    && u.white == t.white + Scored(t.values, pieces, es, White)
    && u.black == t.black + Scored(t.values, pieces, es, Black)
    && u.values == t.values && u.boardHeight == t.boardHeight && u.elapsedMs == t.elapsedMs
    && u.history == t.history + WrittenAll(es, pieces, t.boardHeight, t.elapsedMs)
  }

  lemma ToldSnoc(t: Tracker, u: Tracker, es: seq<Event>, e: Event, pieces: map<PieceId, PieceRec>)
    requires AllRecordable(es, pieces) && AllRecordable(es + [e], pieces) && Recordable(e, pieces)
    requires Told(t, u, es, pieces)
    ensures Told(t, Record(u, e, pieces), es + [e], pieces)
  {
    RecordTells(u, e, pieces);
    assert (es + [e])[..|es|] == es;
  }

  lemma {:induction false} RecordAllTells(t: Tracker, es: seq<Event>, pieces: map<PieceId, PieceRec>)
    requires AllRecordable(es, pieces)
    ensures RecordAll(t, es, pieces).ok && Told(t, RecordAll(t, es, pieces).tracker, es, pieces)
  {
    if es == [] {
    } else {
      var n := |es| - 1;
      assert es[n] in es && forall e | e in es[..n] :: e in es;
      RecordAllTells(t, es[..n], pieces);
      ToldSnoc(t, RecordAll(t, es[..n], pieces).tracker, es[..n], es[n], pieces);
      assert es[..n] + [es[n]] == es;
    }
  }

  /** Main result: over a batch each score grows by what that color's arrivals take and by the eliminated pieces of the
      other color, and the history by one entry for each arrival, with its letters and the time after the batch. */
  lemma ProcessTells(t: Tracker, es: seq<Event>, dt: int, now: int, pieces: map<PieceId, PieceRec>)
    requires AllRecordable(es, pieces) && now == t.elapsedMs + dt
    ensures var r := Process(t, es, dt, pieces);
            && r.ok && r.tracker.white == t.white + Scored(t.values, pieces, es, White)
            && r.tracker.black == t.black + Scored(t.values, pieces, es, Black)
            && r.tracker.values == t.values && r.tracker.elapsedMs == now
            && r.tracker.history == t.history + WrittenAll(es, pieces, t.boardHeight, now)
  {
    var u := t.(elapsedMs := now);
    RecordAllTells(u, es, pieces);
    assert Process(t, es, dt, pieces) == RecordAll(u, es, pieces);
  }

  // ----- the value of one side -----

  /** A listing of all pieces of one color, each once. */
  ghost predicate ListsSide(ids: seq<PieceId>, w: World, c: Color) {
    NoRepeats(ids) && forall id :: id in ids <==> id in w.pieces && w.pieces[id].color == c
  }

  /** The value of the pieces of one color on the board. */
  ghost function SideValue(values: map<Kind, int>, w: World, ids: seq<PieceId>, c: Color): int
    requires ListsSide(ids, w, c)
  {
    Total(WorthMap(values, w), ids)
  }

  /** What a piece of color c that is taken is worth. */
  function LossOf(values: map<Kind, int>, pieces: map<PieceId, PieceRec>, taken: Option<PieceId>, c: Color): int
    requires taken.Some? ==> taken.value in pieces
  {
    if taken.Some? && pieces[taken.value].color == c then Worth(values, pieces[taken.value].kind) else 0
  }

  lemma StepSide(values: map<Kind, int>, w: World, e: Event, ids: seq<PieceId>, c: Color)
    requires BoardCoherent(w.board, w.pieces) && EventKnown(w, e) && Own(w, e) && ListsSide(ids, w, c)
    requires e.Arrival? ==> e.destination != e.fromPos
    ensures Applicable(w, e) && ListsSide(ids, ApplyEvent(w, e).world, c)
    ensures SideValue(values, ApplyEvent(w, e).world, ids, c) ==
            SideValue(values, w, ids, c) - LossOf(values, w.pieces, Victim(w, e), c)
            + (if Promotes(w, e) && e.piece.color == c then PromotionGain(values) else 0)
  {
    StepWorth(values, w, e);
    var f := WorthMap(values, w);
    var g := f;
    if Victim(w, e).Some? {
      var x := Victim(w, e).value;
      assert OnBoard(w, x);
      TotalUpdate(f, ids, x, 0);
      g := f[x := 0];
    }
    if Promotes(w, e) {
      VictimIsOther(w, e);
      assert g[e.piece.id] == Worth(values, Pawn);
      TotalUpdate(g, ids, e.piece.id, Worth(values, Queen));
    }
  }

  // ----- what a side loses in a batch -----

  /** Whatever the events took is a known piece. */
  ghost predicate TakenKnown(es: seq<Event>, pieces: map<PieceId, PieceRec>) {
    forall e | e in es && Taken(e).Some? :: Taken(e).value in pieces
  }

  function Losses(values: map<Kind, int>, pieces: map<PieceId, PieceRec>, es: seq<Event>, c: Color): int
    requires TakenKnown(es, pieces)
  {
    if es == [] then 0 else
      var n := |es| - 1;
      assert es[n] in es;
      Losses(values, pieces, es[..n], c) + LossOf(values, pieces, Taken(es[n]), c)
  }

  function SidePromotions(es: seq<Event>, height: int, c: Color): nat {
    if es == [] then 0 else
      var n := |es| - 1;
      SidePromotions(es[..n], height, c) + if CountsAsPromotion(es[n], height) && es[n].piece.color == c then 1 else 0
  }

  lemma {:induction false} LossesFrozen(values: map<Kind, int>, w: World, v: World, es: seq<Event>, c: Color)
    requires TakenAreOff(w, es) && TakenKnown(es, v.pieces) && w.pieces.Keys == v.pieces.Keys
    requires forall id | id in w.pieces && !OnBoard(w, id) ::
               v.pieces[id].kind == w.pieces[id].kind && v.pieces[id].color == w.pieces[id].color
    ensures Losses(values, v.pieces, es, c) == Losses(values, w.pieces, es, c)
  {
    if es == [] {
    } else {
      var n := |es| - 1;
      assert es[n] in es && forall e | e in es[..n] :: e in es;
      LossesFrozen(values, w, v, es[..n], c);
    }
  }

  lemma LossesSnoc(values: map<Kind, int>, pieces: map<PieceId, PieceRec>, es: seq<Event>, e: Event, height: int,
                   c: Color)
    requires TakenKnown(es + [e], pieces)
    ensures TakenKnown(es, pieces) && (Taken(e).Some? ==> Taken(e).value in pieces)
    ensures Losses(values, pieces, es + [e], c) == Losses(values, pieces, es, c) + LossOf(values, pieces, Taken(e), c)
    ensures SidePromotions(es + [e], height, c)
         == SidePromotions(es, height, c) + if CountsAsPromotion(e, height) && e.piece.color == c then 1 else 0
  {
    assert e in es + [e];
    assert forall x | x in es :: x in es + [e];
    assert (es + [e])[..|es|] == es;
  }

  /** The books of one side over a replay: its value on the board plus what it has lost changes by its promotions. */
  ghost predicate SideBooked(values: map<Kind, int>, w: World, r: Batch, ids: seq<PieceId>, c: Color)
    requires ListsSide(ids, w, c)
  {
    && AllRecordable(r.done, r.world.pieces) && TakenAreOff(r.world, r.done) && ListsSide(ids, r.world, c)
    && SideValue(values, r.world, ids, c) + Losses(values, r.world.pieces, r.done, c)
       == SideValue(values, w, ids, c) + PromotionGain(values) * SidePromotions(r.done, w.board.height, c)
  }

  lemma StepLosses(values: map<Kind, int>, w: World, e: Event, done: seq<Event>, c: Color)
    requires BoardCoherent(w.board, w.pieces) && EventKnown(w, e) && Own(w, e) && Lettered(e)
    requires e.Arrival? ==> e.destination != e.fromPos && e.captured == None && e.formerKind == None
    requires AllRecordable(done, w.pieces) && TakenAreOff(w, done)
    ensures Applicable(w, e)
    ensures var a := ApplyEvent(w, e);
            && TakenKnown(done + [a.event], a.world.pieces)
            && Losses(values, a.world.pieces, done + [a.event], c)
               == Losses(values, w.pieces, done, c) + LossOf(values, w.pieces, Victim(w, e), c)
            && SidePromotions(done + [a.event], w.board.height, c)
               == SidePromotions(done, w.board.height, c) + if Promotes(w, e) && e.piece.color == c then 1 else 0
  {
    StepTaken(w, e, done);
    var a := ApplyEvent(w, e);
    LossesSnoc(values, a.world.pieces, done, a.event, w.board.height, c);
    LossesFrozen(values, w, a.world, done, c);
    if Victim(w, e).Some? {
      OwnStep(w, e, Victim(w, e).value);
      VictimKeepsKind(w, e);
    }
  }

  lemma VictimKeepsKind(w: World, e: Event)
    requires BoardCoherent(w.board, w.pieces) && EventKnown(w, e) && Own(w, e) && Victim(w, e).Some?
    requires e.Arrival? ==> e.destination != e.fromPos
    ensures Applicable(w, e) && Victim(w, e).value in w.pieces
    ensures var x := Victim(w, e).value;
            ApplyEvent(w, e).world.pieces[x].kind == w.pieces[x].kind
            && ApplyEvent(w, e).world.pieces[x].color == w.pieces[x].color
  {
    if e.Arrival? {
      VictimIsOther(w, e);
    }
    OwnStep(w, e, Victim(w, e).value);
  }

  lemma StepSideBooked(values: map<Kind, int>, w: World, r: Batch, e: Event, ids: seq<PieceId>, c: Color)
    requires BoardCoherent(r.world.board, r.world.pieces) && EventKnown(r.world, e) && Own(r.world, e)
    requires Lettered(e) && r.world.board.height == w.board.height
    requires e.Arrival? ==> e.destination != e.fromPos && e.captured == None && e.formerKind == None
    requires ListsSide(ids, w, c) && SideBooked(values, w, r, ids, c)
    ensures Applicable(r.world, e)
    ensures SideBooked(values, w, Batch(ApplyEvent(r.world, e).world, r.done + [ApplyEvent(r.world, e).event], true),
                       ids, c)
  {
    StepTaken(r.world, e, r.done);
    StepSide(values, r.world, e, ids, c);
    StepLosses(values, r.world, e, r.done, c);
    OneMore(PromotionGain(values), SidePromotions(r.done, w.board.height, c));
  }

  lemma {:induction false} ReplaySide(values: map<Kind, int>, w: World, es: seq<Event>, ids: seq<PieceId>, c: Color)
    requires BoardCoherent(w.board, w.pieces) && AllKnown(w, es) && Faithful(w, es) && Moved(es)
    requires ListsSide(ids, w, c) && forall e | e in es :: Lettered(e)
    requires forall e | e in es && e.Arrival? :: e.captured == None && e.formerKind == None
    ensures ApplyAll(w, es).ok && SideBooked(values, w, ApplyAll(w, es), ids, c)
  {
    if es == [] {
    } else {
      var n := |es| - 1;
      assert es[n] in es && forall e | e in es[..n] :: e in es;
      ReplaySide(values, w, es[..n], ids, c);
      StepSideBooked(values, w, ApplyAll(w, es[..n]), es[n], ids, c);
      LastApplied(w, es);
    }
  }

  // ----- what one side loses the other scores -----

  /** No arrival takes a piece of its own color, and events name the colors of their pieces. */
  ghost predicate EnemyTakes(es: seq<Event>, pieces: map<PieceId, PieceRec>)
    requires AllRecordable(es, pieces)
  {
    forall e | e in es :: e.piece.color == pieces[e.piece.id].color &&
      (e.Arrival? && e.captured.Some? ==> pieces[e.captured.value].color != e.piece.color)
  }

  lemma {:induction false} ScoredIsLost(values: map<Kind, int>, pieces: map<PieceId, PieceRec>, es: seq<Event>,
                                        c: Color)
    requires AllRecordable(es, pieces) && EnemyTakes(es, pieces)
    ensures TakenKnown(es, pieces) && Scored(values, pieces, es, Opponent(c)) == Losses(values, pieces, es, c)
  {
    if es == [] {
    } else {
      var n := |es| - 1;
      assert es[n] in es && forall e | e in es[..n] :: e in es;
      ScoredIsLost(values, pieces, es[..n], c);
    }
  }

  // ----- runs -----

  function ScoreOf(t: Tracker, c: Color): int {
    if c == White then t.white else t.black
  }

  /** In every tick of the run, no arrival takes a piece of its own color. */
  ghost predicate NoFriendlyFire(g: Game, cs: seq<Command>)
    requires Sound(g.world) && g.ok
  {
    cs == [] ||
    var before := Run(g, cs[..|cs| - 1]);
    NoFriendlyFire(g, cs[..|cs| - 1]) &&
    (before.ok && cs[|cs| - 1].Pass? ==> TakesEnemies(Wait(before.world, cs[|cs| - 1].ms)))
  }

  ghost predicate TakesEnemies(b: Batch) {
    forall e | e in b.done && e.Arrival? && e.captured.Some? && e.captured.value in b.world.pieces ::
      b.world.pieces[e.captured.value].color != e.piece.color
  }

  /** How often pawns of a color are promoted by a command. */
  ghost function PromotedBy(g: Game, command: Command, c: Color): nat
    requires Sound(g.world) && g.ok
  {
    if command.Pass? then SidePromotions(Wait(g.world, command.ms).done, g.world.board.height, c) else 0
  }

  /** How often pawns of a color were promoted in a run. */
  ghost function SidePromoted(g: Game, cs: seq<Command>, c: Color): nat
    requires Sound(g.world) && g.ok
  {
    if cs == [] then 0 else
      var before := Run(g, cs[..|cs| - 1]);
      SidePromoted(g, cs[..|cs| - 1], c) + if before.ok then PromotedBy(before, cs[|cs| - 1], c) else 0
  }

  lemma TickedSide(values: map<Kind, int>, w: World, ms: int, ids: seq<PieceId>, c: Color)
    requires Valid(w) && ListsSide(ids, w, c)
    ensures ListsSide(ids, Ticked(w, ms), c)
    ensures SideValue(values, Ticked(w, ms), ids, c) == SideValue(values, w, ids, c)
  {
    OtherSide(values, w, Ticked(w, ms), ids, c);
  }

  lemma SameBooks(values: map<Kind, int>, w: World, v: World, r: Batch, ids: seq<PieceId>, c: Color)
    requires ListsSide(ids, w, c) && ListsSide(ids, v, c) && v.board.height == w.board.height
    requires SideValue(values, v, ids, c) == SideValue(values, w, ids, c) && SideBooked(values, v, r, ids, c)
    ensures SideBooked(values, w, r, ids, c)
  {
  }

  lemma TickSide(values: map<Kind, int>, w: World, ms: int, ids: seq<PieceId>, c: Color)
    requires Calm(w) && MovesShaped(w) && CleanTick(w.arb, ms) && ListsSide(ids, w, c)
    requires forall e | e in AdvanceTime(w.arb, ms).events :: Lettered(e)
    ensures Wait(w, ms).ok && SideBooked(values, w, Wait(w, ms), ids, c)
  {
    AnchoringExact(w, ms);
    TickEvents(w, ms);
    TickedSide(values, w, ms, ids, c);
    ReplaySide(values, Ticked(w, ms), AdvanceTime(w.arb, ms).events, ids, c);
    SameBooks(values, w, Ticked(w, ms), Wait(w, ms), ids, c);
  }

  /** Events keep the colors that they name. */
  lemma {:induction false} DoneNamesColors(w: World, es: seq<Event>)
    requires BoardCoherent(w.board, w.pieces) && AllKnown(w, es)
    ensures forall e | e in ApplyAll(w, es).done :: Known(ApplyAll(w, es).world.pieces, e.piece)
  {
    if es == [] {
    } else {
      var n := |es| - 1;
      assert es[n] in es && forall e | e in es[..n] :: e in es;
      DoneNamesColors(w, es[..n]);
      var before := ApplyAll(w, es[..n]);
      assert EventKnown(before.world, es[n]);
      if before.ok && Applicable(before.world, es[n]) {
        NamesColors(before.world, es[n], before.done);
        LastApplied(w, es);
      }
    }
  }

  lemma NamesColors(w: World, e: Event, done: seq<Event>)
    requires BoardCoherent(w.board, w.pieces) && EventKnown(w, e) && Applicable(w, e)
    requires forall x | x in done :: Known(w.pieces, x.piece)
    ensures forall x | x in done + [ApplyEvent(w, e).event] :: Known(ApplyEvent(w, e).world.pieces, x.piece)
  {
  }

  /** From g to h, the score against color c plus the value of its pieces on the board changed only by its
      promotions. */
  ghost predicate SideBalanced(g: Game, h: Game, ids: seq<PieceId>, c: Color, promoted: nat) {
    && ListsSide(ids, g.world, c) && ListsSide(ids, h.world, c) && h.stats.values == g.stats.values
    && ScoreOf(h.stats, Opponent(c)) + SideValue(g.stats.values, h.world, ids, c)
       == ScoreOf(g.stats, Opponent(c)) + SideValue(g.stats.values, g.world, ids, c)
          + PromotionGain(g.stats.values) * promoted
  }

  lemma BalanceOn(g: Game, h: Game, k: Game, ids: seq<PieceId>, c: Color, m: nat, n: nat, sum: nat)
    requires SideBalanced(g, h, ids, c, m) && SideBalanced(h, k, ids, c, n) && sum == m + n
    ensures SideBalanced(g, k, ids, c, sum)
  {
    Distribute(PromotionGain(g.stats.values), m, n);
  }

  lemma PassSide(g: Game, ms: int, ids: seq<PieceId>, c: Color)
    requires g.ok && Good(g) && CleanTick(g.world.arb, ms) && ListsSide(ids, g.world, c) && Perform(g, Pass(ms)).ok
    requires TakesEnemies(Wait(g.world, ms))
    ensures SideBalanced(g, Perform(g, Pass(ms)), ids, c, PromotedBy(g, Pass(ms), c))
  {
    var b := Wait(g.world, ms);
    PassGoesOn(g, ms);
    TickSide(g.stats.values, g.world, ms, ids, c);
    ProcessTells(g.stats, b.done, ms, g.stats.elapsedMs + ms, b.world.pieces);
    DoneNamesColors(Ticked(g.world, ms), AdvanceTime(g.world.arb, ms).events);
    ScoredIsLost(g.stats.values, b.world.pieces, b.done, c);
  }

  lemma OtherSide(values: map<Kind, int>, w: World, v: World, ids: seq<PieceId>, c: Color)
    requires ListsSide(ids, w, c) && v.board == w.board && v.pieces.Keys == w.pieces.Keys
    requires forall id | id in w.pieces :: v.pieces[id] == w.pieces[id].(state := v.pieces[id].state)
    ensures ListsSide(ids, v, c) && SideValue(values, v, ids, c) == SideValue(values, w, ids, c)
  {
    assert forall id :: OnBoard(v, id) <==> OnBoard(w, id);
    assert WorthMap(values, v) == WorthMap(values, w);
  }

  lemma PerformSide(g: Game, command: Command, ids: seq<PieceId>, c: Color)
    requires g.ok && Good(g) && ListsSide(ids, g.world, c) && Perform(g, command).ok
    requires command.Pass? ==> CleanTick(g.world.arb, command.ms) && TakesEnemies(Wait(g.world, command.ms))
    ensures SideBalanced(g, Perform(g, command), ids, c, PromotedBy(g, command, c))
  {
    if command.Pass? {
      PassSide(g, command.ms, ids, c);
    } else {
      OtherSide(g.stats.values, g.world, Perform(g, command).world, ids, c);
    }
  }

  /** The last command of a run that has not raised. */
  lemma LastCommand(g: Game, cs: seq<Command>, c: Color) returns (before: Game, command: Command)
    requires Sound(g.world) && g.ok && cs != [] && Run(g, cs).ok
    ensures before == Run(g, cs[..|cs| - 1]) && before.ok && command == cs[|cs| - 1]
    ensures Run(g, cs) == Perform(before, command)
    ensures SidePromoted(g, cs, c) == SidePromoted(g, cs[..|cs| - 1], c) + PromotedBy(before, command, c)
    ensures CleanRun(g, cs) ==>
              CleanRun(g, cs[..|cs| - 1]) && (command.Pass? ==> CleanTick(before.world.arb, command.ms))
    ensures NoFriendlyFire(g, cs) ==>
              NoFriendlyFire(g, cs[..|cs| - 1]) && (command.Pass? ==> TakesEnemies(Wait(before.world, command.ms)))
  {
    before, command := Run(g, cs[..|cs| - 1]), cs[|cs| - 1];
  }

  lemma NothingMoved(g: Game, ids: seq<PieceId>, c: Color)
    requires ListsSide(ids, g.world, c)
    ensures SideBalanced(g, g, ids, c, 0)
  {
  }

  lemma BalanceStep(g: Game, before: Game, command: Command, ids: seq<PieceId>, c: Color, m: nat, sum: nat)
    requires before.ok && Good(before) && Perform(before, command).ok && SideBalanced(g, before, ids, c, m)
    requires command.Pass? ==> CleanTick(before.world.arb, command.ms) && TakesEnemies(Wait(before.world, command.ms))
    requires sum == m + PromotedBy(before, command, c)
    ensures SideBalanced(g, Perform(before, command), ids, c, sum)
  {
    PerformSide(before, command, ids, c);
    BalanceOn(g, before, Perform(before, command), ids, c, m, PromotedBy(before, command, c), sum);
  }

  lemma {:induction false} CleanRunBalanced(g: Game, cs: seq<Command>, ids: seq<PieceId>, c: Color)
    requires g.ok && Good(g) && CleanRun(g, cs) && NoFriendlyFire(g, cs) && Run(g, cs).ok && ListsSide(ids, g.world, c)
    ensures SideBalanced(g, Run(g, cs), ids, c, SidePromoted(g, cs, c))
  {
    if cs == [] {
      NothingMoved(g, ids, c);
    } else {
      var before, command := LastCommand(g, cs, c);
      CleanRunIsGood(g, cs[..|cs| - 1]);
      CleanRunBalanced(g, cs[..|cs| - 1], ids, c);
      BalanceStep(g, before, command, ids, c, SidePromoted(g, cs[..|cs| - 1], c), SidePromoted(g, cs, c));
    }
  }

  /** Main result: over clean runs in which no arrival takes a piece of its own color, the score of each color plus the
      value of the opponent's pieces on the board is constant up to the opponent's promotions. */
  lemma CleanRunScores(g: Game, cs: seq<Command>, ids: seq<PieceId>, c: Color)
    requires g.ok && Good(g) && CleanRun(g, cs) && NoFriendlyFire(g, cs) && Run(g, cs).ok && ListsSide(ids, g.world, c)
    ensures var h := Run(g, cs);
            && ListsSide(ids, h.world, c) && h.stats.values == g.stats.values
            && (if c == White then h.stats.black else h.stats.white) + SideValue(g.stats.values, h.world, ids, c)
               == (if c == White then g.stats.black else g.stats.white) + SideValue(g.stats.values, g.world, ids, c)
                  + PromotionGain(g.stats.values) * SidePromoted(g, cs, c)
  {
    CleanRunBalanced(g, cs, ids, c);
  }
}
