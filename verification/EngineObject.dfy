/** The engine as an object. Every method is proved to compute the corresponding function of Engine, and to keep the
    reachable-state invariant Soundness.Sound. */
module EngineObject {
  import opened Values
  import opened Arbitration
  import opened Rules
  import opened BoardObject
  import opened MovementObject
  import opened ArbiterObject
  import opened Engine
  import opened Anchoring
  import opened Soundness

  /** The pieces an applied event refers to belong to the store. */
  ghost predicate ResultHolds(store: map<PieceId, Piece>, e: GameEvent) {
    Holds(store, e.piece) && (e.ArrivalEvent? && e.capturedPiece.Some? ==> Holds(store, e.capturedPiece.value))
  }

  class GameEngine {
    const board: Board
    const ruleEngine: RuleEngine
    const arbiter: RealTimeArbiter
    var gameOver: bool
    var winnerColor: Option<Color>
    /** The pieces of the game by id. */
    ghost const store: map<PieceId, Piece>

    constructor (board: Board, ruleEngine: RuleEngine, arbiter: RealTimeArbiter, ghost store: map<PieceId, Piece>)
      requires board.Valid(store) && arbiter.Valid(store)
      requires arbiter.activeMotions == [] && arbiter.activeRests == [] && arbiter.airbornePos == None
      requires BoardCoherent(board.View(), Recs(store))
      ensures this.board == board && this.ruleEngine == ruleEngine && this.arbiter == arbiter && this.store == store
      ensures Valid() && !gameOver && winnerColor == None
    {
      this.board, this.ruleEngine, this.arbiter, this.store := board, ruleEngine, arbiter, store;
      gameOver, winnerColor := false, None;
    }

    ghost function View(): World
      reads this, board, arbiter, arbiter.activeMotions, store.Values
    {
      World(board.View(), Recs(store), arbiter.View(), gameOver, winnerColor, ruleEngine.allowFriendlyCapture)
    }

    /** The objects belong together. */
    ghost predicate Wired()
      reads this, board, arbiter
    {
      board.Valid(store) && arbiter.Valid(store)
    }

    ghost predicate Valid()
      reads this, board, arbiter, arbiter.activeMotions, store.Values
    {
      Wired() && Sound(View())
    }

    method ForceGameOver(winner: Option<Color>)
      modifies this
      ensures gameOver && winnerColor == winner
      ensures old(Valid()) ==> Valid() && View() == old(View()).(gameOver := true, winner := winner)
    {
      gameOver := true;
      winnerColor := winner;
    }

    /** Whether a piece is in motion or at rest. */
    method IsBusy(piece: Piece) returns (busy: bool)
      requires Valid() && Holds(store, piece)
      ensures busy == Busy(View(), piece.id)
    {
      busy := arbiter.HasActiveMotion(piece) || piece.state == LongRest || piece.state == ShortRest;
      assert forall i | 0 <= i < |arbiter.activeMotions| ::
        arbiter.activeMotions[i] in arbiter.activeMotions && View().arb.motions[i] == arbiter.activeMotions[i].View();
    }

    method RequestMove(source: Position, destination: Position) returns (reason: MoveReason)
      requires Valid()
      modifies this, arbiter, store.Values
      ensures Valid() && (View(), reason) == Engine.RequestMove(old(View()), source, destination)
    {
      MoveSound(View(), source, destination);
      if gameOver {
        return GameOver;
      }
      var piece := board.GetPiece(source);
      if piece == None {
        return NoPiece;
      }
      var busy := IsBusy(piece.value);
      if busy {
        return MotionInProgress;
      }
      var verdict := ruleEngine.ValidateMove(board, source, destination, store);
      if verdict != Legal {
        return ReasonOf(verdict);
      }
      arbiter.StartMotion(piece.value, source, destination, store);
      return Ok;
    }

    method RequestJump(pos: Position) returns (reason: MoveReason)
      requires Valid()
      modifies this, arbiter, store.Values
      ensures Valid() && (View(), reason) == Engine.RequestJump(old(View()), pos)
    {
      JumpSound(View(), pos);
      if gameOver {
        return GameOver;
      }
      var piece := board.GetPiece(pos);
      if piece == None {
        return NoPiece;
      }
      var busy := IsBusy(piece.value);
      if busy || arbiter.airbornePos.Some? {
        return MotionInProgress;
      }
      arbiter.StartJump(piece.value, pos, store);
      return Ok;
    }

    method ApplyElimination(e: GameEvent)
      requires Wired() && BoardCoherent(board.View(), Recs(store)) && e.EliminationEvent? && Holds(store, e.piece)
      modifies this, board
      ensures Wired() && EventKnown(old(View()), EventView(e))
      ensures View() == ApplyEvent(old(View()), EventView(e)).world
    {
      var removed := board.RemovePiece(e.currentPos);
      if e.piece.kind == King {
        gameOver := true;
      }
    }

    /** The default promotion policy. */
    method PromoteIfLast(piece: Piece)
      requires Stored(store) && Holds(store, piece)
      modifies piece
      ensures Recs(store) == Promote(old(Recs(store)), piece.id, board.height)
    {
      if piece.kind != Pawn {
        return;
      }
      var promotionRow := if piece.color == White then 0 else board.height - 1;
      if piece.cell.row == promotionRow {
        ghost var before := Recs(store);
        piece.kind := Queen;
        OnePieceWritten(store, before, piece);
      }
    }

    /** Not `ok` stands for the KeyError of `Board.move_piece`. */
    method ApplyArrival(e: GameEvent) returns (ok: bool, applied: GameEvent)
      requires Wired() && BoardCoherent(board.View(), Recs(store)) && e.ArrivalEvent? && Holds(store, e.piece)
      requires e.capturedPiece == None && EventKnown(View(), EventView(e))
      modifies this, board, store.Values
      ensures Wired() && ok == Applicable(old(View()), EventView(e))
      ensures !ok ==> View() == old(View())
      ensures ok ==> View() == ApplyEvent(old(View()), EventView(e)).world
      ensures ok ==> EventView(applied) == ApplyEvent(old(View()), EventView(e)).event && ResultHolds(store, applied)
    {
      var kindBeforePromotion := e.piece.kind;
      assert Recs(store)[e.piece.id].kind == kindBeforePromotion;
      var captured;
      ghost var w := View();
      ok, captured := MoveAndPromote(e);
      applied := e;
      if !ok {
        return;
      }
      assert View() == Engine.ApplyArrival(w, EventView(e)).world.(gameOver := w.gameOver);
      NoteCapture(captured);
      applied := ArrivalEvent(e.piece, e.fromPos, e.destination, captured, Some(kindBeforePromotion));
    }

    /** The default game-over policy, applied to a captured piece. */
    method NoteCapture(captured: Option<Piece>)
      requires Stored(store) && (captured.Some? ==> Holds(store, captured.value))
      modifies this
      ensures View() == old(View()).(gameOver := old(View()).gameOver || IsKing(old(View()).pieces, IdOf(captured)))
      ensures old(Wired()) ==> Wired()
    {
      if captured.Some? && captured.value.kind == King {
        gameOver := true;
      }
    }

    /** The part of ApplyArrival that changes the board and the pieces. */
    method MoveAndPromote(e: GameEvent) returns (ok: bool, captured: Option<Piece>)
      requires Wired() && e.ArrivalEvent? && Holds(store, e.piece)
      modifies board, store.Values
      ensures Wired() && ok == (e.fromPos in old(board.View()).grid)
      ensures !ok ==> board.View() == old(board.View()) && Recs(store) == old(Recs(store))
      ensures captured.Some? ==> Holds(store, captured.value)
      ensures ok ==> IdOf(captured) == Relocate(old(board.View()).grid, e.fromPos, e.destination).1
      ensures ok ==> board.View().grid == Relocate(old(board.View()).grid, e.fromPos, e.destination).0
      ensures ok ==> Recs(store) == Promote(SetCell(Seize(old(Recs(store)), IdOf(captured)),
                                                    old(board.View()).grid[e.fromPos], e.destination),
                                            e.piece.id, board.height)
    {
      ok, captured := board.MovePiece(e.fromPos, e.destination, store);
      if ok {
        PromoteIfLast(e.piece);
      }
    }

    method ApplyState(e: GameEvent)
      requires Wired() && BoardCoherent(board.View(), Recs(store)) && (e.RestEvent? || e.IdleEvent?)
               && Holds(store, e.piece)
      modifies e.piece
      ensures Wired() && EventKnown(old(View()), EventView(e))
      ensures View() == ApplyEvent(old(View()), EventView(e)).world
    {
      SetPieceState(e.piece, if e.RestEvent? then e.restState else Idle, store);
    }

    /** One turn of the loop in Wait. */
    method ApplyOne(e: GameEvent) returns (ok: bool, applied: GameEvent)
      requires Wired() && BoardCoherent(board.View(), Recs(store)) && Holds(store, e.piece)
      requires (e.ArrivalEvent? ==> e.capturedPiece == None) && EventKnown(View(), EventView(e))
      modifies this, board, store.Values
      ensures Wired() && ok == Applicable(old(View()), EventView(e))
      ensures !ok ==> View() == old(View())
      ensures ok ==> View() == ApplyEvent(old(View()), EventView(e)).world
      ensures ok ==> EventView(applied) == ApplyEvent(old(View()), EventView(e)).event && ResultHolds(store, applied)
    {
      ok, applied := true, e;
      match e
      case EliminationEvent(_, _) => ApplyElimination(e);
      case ArrivalEvent(_, _, _, _, _) => ok, applied := ApplyArrival(e);
      case RestEvent(_, _, _) => ApplyState(e);
      case IdleEvent(_) => ApplyState(e);
    }

    /** Applies the events in order until one raises. */
    method ApplyEvents(raw: seq<GameEvent>) returns (ok: bool, result: seq<GameEvent>)
      requires Wired() && BoardCoherent(board.View(), Recs(store)) && EventsHold(store, raw)
      requires AllKnown(View(), EventViews(raw))
      modifies this, board, store.Values
      ensures Wired() && View() == ApplyAll(old(View()), EventViews(raw)).world
      ensures ok == ApplyAll(old(View()), EventViews(raw)).ok
      ensures ok ==> EventViews(result) == ApplyAll(old(View()), EventViews(raw)).done
      ensures forall e | e in result :: ResultHolds(store, e)
    {
      ghost var w, es := View(), EventViews(raw);
      result := [];
      for i := 0 to |raw|
        invariant Wired() && AllKnown(w, es[..i])
        invariant View() == ApplyAll(w, es[..i]).world && ApplyAll(w, es[..i]).ok
        invariant EventViews(result) == ApplyAll(w, es[..i]).done
        invariant forall e | e in result :: ResultHolds(store, e)
      {
        assert raw[i] in raw;
        KnownAt(w, es, i);
        var applied;
        ok, applied := ApplyOne(raw[i]);
        if !ok {
          FailsAt(w, es, i);
          return;
        }
        ApplyNext(w, es, i);
        EventViewsSnoc(result, applied);
        result := result + [applied];
      }
      assert es[..|raw|] == es;
      ok := true;
    }

    /** Lets time pass, before any event is applied. */
    method Advance(ms: int) returns (raw: seq<GameEvent>)
      requires Valid()
      modifies arbiter, arbiter.activeMotions, store.Values
      ensures Wired() && View() == Ticked(old(View()), ms) && EventsHold(store, raw)
      ensures EventViews(raw) == Arbitration.AdvanceTime(old(View()).arb, ms).events
    {
      ghost var w := View();
      raw := arbiter.AdvanceTime(ms, store);
      TickedIs(w, ms, Outcome(arbiter.View(), EventViews(raw)), Recs(store));
    }

    /** Not `ok` means that the call raised; the events before the failing one stay applied. */
    method Wait(ms: int) returns (ok: bool, result: seq<GameEvent>)
      requires Valid()
      modifies this, board, arbiter, arbiter.activeMotions, store.Values
      ensures Wired() && View() == Engine.Wait(old(View()), ms).world && ok == Engine.Wait(old(View()), ms).ok
      ensures ok ==> Valid() && EventViews(result) == Engine.Wait(old(View()), ms).done
      ensures forall e | e in result :: ResultHolds(store, e)
    {
      ghost var w := View();
      var raw := Advance(ms);
      ok, result := ApplyEvents(raw);
      if ok {
        TickSound(w, ms);
      }
    }
  }

  lemma TickedIs(w: World, ms: int, out: Outcome, recs: map<PieceId, PieceRec>)
    requires Valid(w) && out == Arbitration.AdvanceTime(w.arb, ms) && recs == Mark(w.pieces, out.events)
    ensures Ticked(w, ms) == w.(arb := out.arb, pieces := recs)
    ensures out.events == Arbitration.AdvanceTime(w.arb, ms).events
  {
  }

  lemma KnownAt(w: World, es: seq<Event>, k: nat)
    requires BoardCoherent(w.board, w.pieces) && AllKnown(w, es) && k < |es|
    ensures AllKnown(w, es[..k]) && EventKnown(ApplyAll(w, es[..k]).world, es[k])
  {
    assert es[k] in es && forall e | e in es[..k] :: e in es;
  }

  /** After the first event that raises, nothing more is applied. */
  lemma {:induction false} FailsFrom(w: World, es: seq<Event>, upto: seq<Event>)
    requires BoardCoherent(w.board, w.pieces) && AllKnown(w, es) && AllKnown(w, upto) && upto <= es
    requires !ApplyAll(w, upto).ok
    ensures !ApplyAll(w, es).ok && ApplyAll(w, es).world == ApplyAll(w, upto).world
  {
    if |upto| == |es| {
      assert upto == es;
    } else {
      assert forall e | e in es[..|es| - 1] :: e in es;
      FailsFrom(w, es[..|es| - 1], upto);
    }
  }

  lemma FailsLast(w: World, es: seq<Event>)
    requires BoardCoherent(w.board, w.pieces) && AllKnown(w, es) && es != [] && AllKnown(w, es[..|es| - 1])
    requires ApplyAll(w, es[..|es| - 1]).ok && !Applicable(ApplyAll(w, es[..|es| - 1]).world, es[|es| - 1])
    ensures !ApplyAll(w, es).ok && ApplyAll(w, es).world == ApplyAll(w, es[..|es| - 1]).world
  {
  }

  lemma FailsAt(w: World, es: seq<Event>, k: nat)
    requires BoardCoherent(w.board, w.pieces) && AllKnown(w, es) && k < |es| && AllKnown(w, es[..k])
    requires ApplyAll(w, es[..k]).ok && !Applicable(ApplyAll(w, es[..k]).world, es[k])
    ensures !ApplyAll(w, es).ok && ApplyAll(w, es).world == ApplyAll(w, es[..k]).world
  {
    var upto := es[..k + 1];
    assert upto[..|upto| - 1] == es[..k] && upto[|upto| - 1] == es[k];
    assert forall e | e in upto :: e in es;
    FailsLast(w, upto);
    FailsFrom(w, es, upto);
  }
}
