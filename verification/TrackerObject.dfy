/** The statistics tracker as an object, and the tick of a session: engine first, then tracker. */
module TrackerObject {
  import opened Values
  import opened BoardObject
  import opened ArbiterObject
  import opened EngineObject
  import opened Engine
  import Arbitration
  import opened Stats
  import opened Material
  import opened Runs
  import opened Soundness
  import Decimal

  /** Recording stops at the first error. */
  lemma {:induction false} RecordStops(t: Tracker, es: seq<Event>, k: nat, pieces: map<PieceId, PieceRec>)
    requires k <= |es| && !RecordAll(t, es[..k], pieces).ok
    ensures RecordAll(t, es, pieces) == RecordAll(t, es[..k], pieces)
  {
    if k == |es| {
      assert es[..k] == es;
    } else {
      assert es[..|es| - 1][..k] == es[..k];
      RecordStops(t, es[..|es| - 1], k, pieces);
    }
  }

  /** The first k events have been recorded without an error. */
  ghost predicate Upto(t: Tracker, es: seq<Event>, k: nat, pieces: map<PieceId, PieceRec>, u: Tracker) {
    k <= |es| && RecordAll(t, es[..k], pieces) == Noted(u, true)
  }

  lemma RecordNext(t: Tracker, es: seq<Event>, k: nat, next: nat, pieces: map<PieceId, PieceRec>, u: Tracker)
    requires Upto(t, es, k, pieces, u) && k < |es| && next == k + 1
    ensures if Recordable(es[k], pieces) then Upto(t, es, next, pieces, Record(u, es[k], pieces))
            else RecordAll(t, es, pieces) == Noted(u, false)
  {
    assert es[..next][..k] == es[..k];
    if !Recordable(es[k], pieces) {
      RecordStops(t, es, next, pieces);
    }
  }

  class GameStatsTracker {
    const boardHeight: int
    const pieceScores: map<Kind, int>
    var scores: map<Color, int>
    var moveHistory: seq<MoveRecord>
    var elapsedMs: int

    constructor (boardHeight: int, pieceScores: map<Kind, int>)
      ensures Valid() && View() == Tracker(boardHeight, pieceScores, 0, 0, [], 0)
    {
      this.boardHeight, this.pieceScores := boardHeight, pieceScores;
      scores := map[White := 0, Black := 0];
      moveHistory, elapsedMs := [], 0;
    }

    ghost predicate Valid()
      reads this
    {
      scores.Keys == {White, Black}
    }

    ghost function View(): Tracker
      requires Valid()
      reads this
    {
      Tracker(boardHeight, pieceScores, scores[White], scores[Black], moveHistory, elapsedMs)
    }

    method AddScore(attacker: Color, kind: Kind)
      requires Valid()
      modifies this
      ensures Valid() && View() == Credit(old(View()), attacker, kind)
    {
      scores := scores[attacker := scores[attacker] + if kind in pieceScores then pieceScores[kind] else 0];
    }

    /** Fails where the index of the column letter would raise IndexError. */
    method RecordMove(e: GameEvent, ghost store: map<PieceId, Piece>) returns (ok: bool)
      requires Valid() && e.ArrivalEvent? && ResultHolds(store, e)
      modifies this
      ensures Valid() && ok == Recordable(EventView(e), Recs(store))
      ensures View() ==
              if ok then old(View()).(history := old(View()).history + [Entry(old(View()), EventView(e), Recs(store))])
              else old(View())
    {
      ok := 0 <= e.destination.col < |COL_LETTERS|;
      if ok {
        var kind := if e.prePromotionKind.Some? then e.prePromotionKind.value else e.piece.kind;
        var letter := COL_LETTERS[e.destination.col];
        var row := boardHeight - e.destination.row;
        moveHistory := moveHistory +
          [MoveRecord(elapsedMs, KindLetter(kind) + [letter] + Decimal.Text(row), e.piece.color)];
      }
    }

    method RecordOne(e: GameEvent, ghost store: map<PieceId, Piece>) returns (ok: bool)
      requires Valid() && ResultHolds(store, e)
      modifies this
      ensures Valid() && ok == Recordable(EventView(e), Recs(store))
      ensures View() == if ok then Record(old(View()), EventView(e), Recs(store)) else old(View())
    {
      ok := true;
      if e.ArrivalEvent? {
        ok := RecordMove(e, store);
        if ok && e.capturedPiece.Some? {
          AddScore(e.piece.color, e.capturedPiece.value.kind);
        }
      } else if e.EliminationEvent? {
        AddScore(if e.piece.color == Black then White else Black, e.piece.kind);
      }
    }

    /** The result is false where the program raises IndexError; what was recorded before stays. */
    method Process(events: seq<GameEvent>, deltaMs: int, ghost store: map<PieceId, Piece>) returns (ok: bool)
      requires Valid() && forall e | e in events :: ResultHolds(store, e)
      modifies this
      ensures Valid()
      ensures Noted(View(), ok) == Stats.Process(old(View()), EventViews(events), deltaMs, Recs(store))
    {
      elapsedMs := elapsedMs + deltaMs;
      ok := RecordEach(events, store);
    }

    /** The loop over the events of a batch. */
    method RecordEach(events: seq<GameEvent>, ghost store: map<PieceId, Piece>) returns (ok: bool)
      requires Valid() && forall e | e in events :: ResultHolds(store, e)
      modifies this
      ensures Valid() && Noted(View(), ok) == RecordAll(old(View()), EventViews(events), Recs(store))
    {
      ghost var t, recs, es := View(), Recs(store), EventViews(events);
      var i := 0;
      while i != |events|
        invariant 0 <= i <= |events| && Valid() && Recs(store) == recs
        invariant Upto(t, es, i, recs, View())
      {
        var next := i + 1;
        RecordNext(t, es, i, next, recs, View());
        assert ResultHolds(store, events[i]);
        ok := RecordOne(events[i], store);
        if !ok {
          return;
        }
        i := next;
      }
      assert es[..|events|] == es;
      ok := true;
    }
  }

  /** `GameSession.tick`: advances the engine and feeds what happened to the tracker. Together with the two
      requests and the resignation these are the commands of a run. */
  method SessionTick(engine: GameEngine, stats: GameStatsTracker, ms: int, ghost g: Game)
    returns (ok: bool, events: seq<GameEvent>)
    requires engine.Valid() && stats.Valid()
    requires g.ok && g.world == engine.View() && g.stats == stats.View()
    modifies engine, engine.board, engine.arbiter, engine.arbiter.activeMotions, engine.store.Values, stats
    ensures ok == Perform(g, Pass(ms)).ok && engine.View() == Perform(g, Pass(ms)).world
    ensures stats.Valid() && stats.View() == Perform(g, Pass(ms)).stats
    ensures ok ==> engine.Valid()
  {
    ok, events := engine.Wait(ms);
    if ok {
      ok := Feed(stats, events, ms, engine);
    }
  }

  /** Feeds the events of a tick to the tracker. */
  method Feed(stats: GameStatsTracker, events: seq<GameEvent>, ms: int, engine: GameEngine) returns (ok: bool)
    requires engine.Valid() && stats.Valid()
    requires forall e | e in events :: ResultHolds(engine.store, e)
    modifies stats
    ensures stats.Valid() && engine.Valid() && engine.View() == old(engine.View())
    ensures Noted(stats.View(), ok) == Stats.Process(old(stats.View()), EventViews(events), ms, engine.View().pieces)
  {
    ok := stats.Process(events, ms, engine.store);
  }
}
