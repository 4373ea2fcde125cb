/** What clean ticks keep: every active motion anchored, and every piece on the board in exactly the state
    its motion or rest entry dictates. */
module Calmness {
  import opened Values
  import opened Arbitration
  import opened Rules
  import opened PieceFate
  import opened SimulatedTime
  import opened Engine
  import opened Anchoring
  import opened Soundness

  /** The state that the activity of a piece dictates. */
  ghost predicate Fits(a: Arbiter, id: PieceId, s: PieceState) {
    && (forall m | m in a.motions && m.piece.id == id :: s == if m.Move? then PieceState.Moving else Jumping)
    && (AtRest(a.rests, id) ==> IsRestState(s))
    && (!InMotion(a.motions, id) && !AtRest(a.rests, id) ==> s == Idle)
  }

  ghost predicate StatesExact(w: World) {
    forall id | id in w.pieces && OnBoard(w, id) :: Fits(w.arb, id, w.pieces[id].state)
  }

  ghost predicate Calm(w: World) {
    Sound(w) && Anchored(w) && StatesExact(w)
  }

  /** A faithfully eliminated piece is off the board for good. */
  lemma EliminatedLeaves(w: World, es: seq<Event>, e: Event)
    requires BoardCoherent(w.board, w.pieces) && AllKnown(w, es) && Faithful(w, es)
    requires e in es && e.Elimination?
    ensures !OnBoard(ApplyAll(w, es).world, e.piece.id)
  {
    var k :| 0 <= k < |es| && es[k] == e;
    FaithfulPrefix(w, es, k);
    FaithfulSucceeds(w, es[..k]);
    ApplyNext(w, es, k);
    var v := ApplyAll(w, es[..k]).world;
    forall p | p in v.board.grid && v.board.grid[p] == e.piece.id ensures p == e.currentPos {
      Injective(v, p, e.currentPos);
    }
    NeverBack(w, es, k + 1, e.piece.id);
  }

  /** Along a faithful tick, a piece that stays on the board was not eliminated. */
  lemma StayerNotEliminated(w: World, ms: int, id: PieceId)
    requires Valid(w) && Faithful(Ticked(w, ms), AdvanceTime(w.arb, ms).events)
    requires OnBoard(Wait(w, ms).world, id)
    ensures forall e | e in Trace(AdvanceTime(w.arb, ms).events, id) :: !e.Elimination?
  {
    var es := AdvanceTime(w.arb, ms).events;
    forall e | e in Trace(es, id) ensures !e.Elimination? {
      TraceMembers(es, id, e);
      if e.Elimination? {
        EliminatedLeaves(Ticked(w, ms), es, e);
      }
    }
  }

  lemma TickStateExact(w: World, ms: int, id: PieceId)
    requires Calm(w) && CleanTick(w.arb, ms)
    requires Wait(w, ms).ok && id in w.pieces && OnBoard(Wait(w, ms).world, id)
    ensures Fits(AdvanceTime(w.arb, ms).arb, id, Wait(w, ms).world.pieces[id].state)
  {
    AnchoringExact(w, ms);
    StayerNotEliminated(w, ms, id);
    TickState(w, ms, id);
    if InMotion(w.arb.motions, id) {
      var m :| m in w.arb.motions && m.piece.id == id;
      MoverFits(w, ms, m);
    } else {
      IdlerFits(w, ms, id);
    }
  }

  lemma IdlerFits(w: World, ms: int, id: PieceId)
    requires Calm(w) && id in w.pieces && OnBoard(w, id) && !InMotion(w.arb.motions, id)
    ensures Fits(AdvanceTime(w.arb, ms).arb, id,
                 StateAfter(Trace(AdvanceTime(w.arb, ms).events, id), id, w.pieces[id].state))
  {
    var after := AdvanceTime(w.arb, ms).arb;
    assert Fits(w.arb, id, w.pieces[id].state);
    IdlerStaysOut(w.arb, ms, id);
    IdlerStartsNoRest(w.arb, ms, id);
    RestsAfter(w.arb, ms, id);
    NoRests(after.rests, id);
    NoRests(RestsLeft(w.arb.rests, ms), id);
    RestsShape(w.arb.rests, ms);
    if AtRest(w.arb.rests, id) {
      var r :| r in w.arb.rests && r.piece.id == id;
      RestFate(w.arb, ms, r);
      WakeTrace(w.arb.rests, ms, r);
    } else {
      NoFate(w.arb, ms, id);
    }
  }

  lemma StateOfEnd(m: Motion, timing: Timing, t: seq<Event>, s: PieceState)
    requires Ends(m, timing, t) && !t[0].Elimination?
    ensures StateAfter(t, m.piece.id, s) == if m.Move? then LongRest else ShortRest
  {
  }

  lemma MotionsOfPiece(a: Arbiter, ms: int, m: Motion)
    requires OneActivity(a) && m in a.motions
    ensures forall k | k in AdvanceTime(a, ms).arb.motions && k.piece.id == m.piece.id :: k == Tick(m, ms)
  {
    AdvanceShape(a, ms);
    forall k | k in AdvanceTime(a, ms).arb.motions && k.piece.id == m.piece.id ensures k == Tick(m, ms) {
      assert Tick(k, -ms) in a.motions;
      UniqueMotion(a.motions, m, Tick(k, -ms));
    }
  }

  lemma MoverFits(w: World, ms: int, m: Motion)
    requires Calm(w) && m in w.arb.motions && m.piece.id in w.pieces && OnBoard(w, m.piece.id)
    requires forall e | e in Trace(AdvanceTime(w.arb, ms).events, m.piece.id) :: !e.Elimination?
    ensures Fits(AdvanceTime(w.arb, ms).arb, m.piece.id,
                 StateAfter(Trace(AdvanceTime(w.arb, ms).events, m.piece.id), m.piece.id, w.pieces[m.piece.id].state))
  {
    var id := m.piece.id;
    var after := AdvanceTime(w.arb, ms).arb;
    var t := Trace(AdvanceTime(w.arb, ms).events, id);
    Fate(w.arb, ms, m);
    MotionsOfPiece(w.arb, ms, m);
    assert Fits(w.arb, id, w.pieces[id].state);
    if t == [] {
      AdvanceKeepsOneActivity(w.arb, ms);
      assert Tick(m, ms) in after.motions;
    } else {
      RestsAfter(w.arb, ms, id);
      NoRests(after.rests, id);
      NewRestsOfEnd(Tick(m, ms), w.arb.timing, t);
      StateOfEnd(Tick(m, ms), w.arb.timing, t, w.pieces[id].state);
      assert AtRest(after.rests, id);
    }
  }

  /** A clean tick is faithful and keeps the state calm. */
  lemma TickCalm(w: World, ms: int)
    requires Calm(w) && CleanTick(w.arb, ms)
    ensures Wait(w, ms).ok && Calm(Wait(w, ms).world)
  {
    CleanTickSucceeds(w, ms);
    TickSound(w, ms);
    forall id | id in Wait(w, ms).world.pieces && OnBoard(Wait(w, ms).world, id)
      ensures Fits(Wait(w, ms).world.arb, id, Wait(w, ms).world.pieces[id].state)
    {
      TickStateExact(w, ms, id);
    }
  }

  /** Starting an activity for the idle piece on p. */
  lemma StartCalm(w: World, p: Position, m: Motion, v: World)
    requires Calm(w) && p in w.board.grid && !Busy(w, w.board.grid[p])
    requires m.piece == TokenOf(w, w.board.grid[p]) && m.fromPos == p
    requires v.arb.motions == w.arb.motions + [m] && v.arb.rests == w.arb.rests && v.board == w.board
    requires v.pieces == SetState(w.pieces, m.piece.id, if m.Move? then PieceState.Moving else Jumping)
    ensures Anchored(v) && StatesExact(v)
  {
    NotBusy(w, m.piece.id);
    forall id ensures InMotion(v.arb.motions, id) <==> InMotion(w.arb.motions, id) || id == m.piece.id {
      if InMotion(w.arb.motions, id) {
        var x :| x in w.arb.motions && x.piece.id == id;
        assert x in v.arb.motions;
      }
      assert m in v.arb.motions;
    }
    forall id | id in v.pieces && OnBoard(v, id) ensures Fits(v.arb, id, v.pieces[id].state) {
      assert OnBoard(w, id);
      assert Fits(w.arb, id, w.pieces[id].state);
    }
    forall x | x in v.arb.motions ensures At(v, x) {
      assert x == m || At(w, x);
    }
  }

  lemma MoveCalm(w: World, source: Position, destination: Position)
    requires Calm(w)
    ensures Calm(RequestMove(w, source, destination).0)
  {
    MoveSound(w, source, destination);
    var v := RequestMove(w, source, destination).0;
    if RequestMove(w, source, destination).1 == Ok {
      StartCalm(w, source, v.arb.motions[|w.arb.motions|], v);
    }
  }

  lemma JumpCalm(w: World, pos: Position)
    requires Calm(w)
    ensures Calm(RequestJump(w, pos).0)
  {
    JumpSound(w, pos);
    var v := RequestJump(w, pos).0;
    if RequestJump(w, pos).1 == Ok {
      StartCalm(w, pos, v.arb.motions[|w.arb.motions|], v);
    }
  }
}
