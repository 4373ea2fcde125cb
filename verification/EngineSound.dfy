/** What every reachable state keeps, clean or not: coherent references, one activity per piece, rest states
    for resting pieces, and an airborne marker only over a live JUMP. */
module Soundness {
  import opened Values
  import opened Arbitration
  import opened Rules
  import opened CollisionKernel
  import opened MotionConservation
  import opened PieceFate
  import opened SimulatedTime
  import opened Engine
  import opened Anchoring

  ghost predicate RestStates(w: World) {
    forall r | r in w.arb.rests && r.piece.id in w.pieces && OnBoard(w, r.piece.id) ::
      IsRestState(w.pieces[r.piece.id].state)
  }

  ghost predicate MarkerLive(a: Arbiter) {
    a.airborne.Some? ==> exists m :: m in a.motions && m.Jump? && m.fromPos == a.airborne.value
  }

  ghost predicate Sound(w: World) {
    Valid(w) && RestStates(w) && MarkerLive(w.arb)
  }

  // ----- states after a batch -----

  /** The state a batch leaves a piece in that is still on the board. */
  function StateAfter(es: seq<Event>, id: PieceId, s: PieceState): PieceState {
    if es == [] then s else
      var e := es[|es| - 1];
      if e.piece.id == id && e.Rest? then e.restState
      else if e.piece.id == id && e.Wake? then Idle
      else StateAfter(es[..|es| - 1], id, s)
  }

  lemma {:induction false} StateOfTrace(es: seq<Event>, id: PieceId, s: PieceState)
    ensures StateAfter(es, id, s) == StateAfter(Trace(es, id), id, s)
  {
    if es == [] {
    } else {
      var n := |es| - 1;
      StateOfTrace(es[..n], id, s);
      if es[n].piece.id == id {
        assert (Trace(es[..n], id) + [es[n]])[..|Trace(es[..n], id)|] == Trace(es[..n], id);
      }
    }
  }

  lemma StepState(w: World, e: Event, id: PieceId)
    requires BoardCoherent(w.board, w.pieces) && EventKnown(w, e) && Applicable(w, e)
    requires OnBoard(ApplyEvent(w, e).world, id)
    ensures OnBoard(w, id)
    ensures ApplyEvent(w, e).world.pieces[id].state == StateAfter([e], id, w.pieces[id].state)
  {
    if !OnBoard(w, id) {
      NoReturn(w, e, id);
    }
  }

  lemma {:induction false} BatchState(w: World, es: seq<Event>, id: PieceId)
    requires BoardCoherent(w.board, w.pieces) && AllKnown(w, es)
    requires ApplyAll(w, es).ok && OnBoard(ApplyAll(w, es).world, id)
    ensures OnBoard(w, id)
    ensures ApplyAll(w, es).world.pieces[id].state == StateAfter(es, id, w.pieces[id].state)
  {
    if es == [] {
    } else {
      var n := |es| - 1;
      assert forall e | e in es[..n] :: e in es;
      var v := ApplyAll(w, es[..n]).world;
      assert es[n] in es && EventKnown(v, es[n]);
      StepState(v, es[n], id);
      BatchState(w, es[..n], id);
    }
  }

  lemma {:induction false} Unmarked(pieces: map<PieceId, PieceRec>, es: seq<Event>, id: PieceId)
    requires id in pieces && forall e | e in Trace(es, id) :: !e.Elimination?
    ensures id in Mark(pieces, es) && Mark(pieces, es)[id] == pieces[id]
  {
    if es == [] {
    } else {
      var n := |es| - 1;
      MarkOnlyStates(pieces, es[..n]);
      Unmarked(pieces, es[..n], id);
    }
  }

  /** The state of a piece after a tick that left it on the board and did not eliminate it. */
  lemma TickState(w: World, ms: int, id: PieceId)
    requires Valid(w) && Wait(w, ms).ok && OnBoard(Wait(w, ms).world, id)
    requires forall e | e in Trace(AdvanceTime(w.arb, ms).events, id) :: !e.Elimination?
    ensures OnBoard(w, id)
    ensures Wait(w, ms).world.pieces[id].state
         == StateAfter(Trace(AdvanceTime(w.arb, ms).events, id), id, w.pieces[id].state)
  {
    var es := AdvanceTime(w.arb, ms).events;
    BatchState(Ticked(w, ms), es, id);
    StateOfTrace(es, id, w.pieces[id].state);
    assert OnBoard(w, id) && id in w.pieces;
    Unmarked(w.pieces, es, id);
  }

  // ----- rest states -----

  /** A rest entry after a tick either runs on or was started in it. */
  lemma RestOrigin(a: Arbiter, ms: int, r: RestEntry)
    requires OneActivity(a) && r in AdvanceTime(a, ms).arb.rests
    ensures var t := Trace(AdvanceTime(a, ms).events, r.piece.id);
            (t == [] && RestEntry(r.piece, r.remaining + ms) in a.rests)
            || (t != [] && t[|t| - 1].Rest? && IsRestState(t[|t| - 1].restState) && t[|t| - 1].piece == r.piece
                && forall e | e in t :: !e.Elimination?)
  {
    var id := r.piece.id;
    var t := Trace(AdvanceTime(a, ms).events, id);
    RestsAfter(a, ms, id);
    RestsOfMembers(AdvanceTime(a, ms).arb.rests, r, id);
    if r in RestsOf(RestsLeft(a.rests, ms), id) {
      RestsOfMembers(RestsLeft(a.rests, ms), r, id);
      RestsShape(a.rests, ms);
      RestFate(a, ms, RestEntry(r.piece, r.remaining + ms));
    } else {
      assert r in NewRests(t);
      if InMotion(a.motions, id) {
        var m :| m in a.motions && m.piece.id == id;
        Fate(a, ms, m);
        NewRestsOfEnd(Tick(m, ms), a.timing, t);
      } else {
        IdlerStartsNoRest(a, ms, id);
      }
    }
  }

  lemma TickRestStates(w: World, ms: int)
    requires Valid(w) && RestStates(w) && Wait(w, ms).ok
    ensures RestStates(Wait(w, ms).world)
  {
    var v := Wait(w, ms).world;
    forall r | r in v.arb.rests && OnBoard(v, r.piece.id) ensures IsRestState(v.pieces[r.piece.id].state) {
      RestOrigin(w.arb, ms, r);
      TickState(w, ms, r.piece.id);
    }
  }

  // ----- the marker -----

  lemma {:induction false} JumpsStay(ms: seq<Motion>, arriving: Motion, j: Motion)
    requires arriving.Move? && j in ms && j.Jump?
    ensures j in OnTime(ms, arriving)
  {
    OnTimeMembers(ms, arriving, j);
  }

  lemma {:induction false} MarkerWhileMoving(a: Arbiter, due: seq<Motion>, j: Motion)
    requires forall d | d in due :: d.Move?
    requires j in a.motions && j.Jump?
    ensures j in ResolveAll(a, due).arb.motions
    ensures ResolveAll(a, due).arb.airborne in {None, a.airborne}
  {
    if due == [] {
    } else {
      var n := |due| - 1;
      assert due[n] in due;
      MarkerWhileMoving(a, due[..n], j);
      JumpsStay(ResolveAll(a, due[..n]).arb.motions, due[n], j);
    }
  }

  lemma {:induction false} AllJumps(ms: seq<Motion>)
    ensures forall m | m in Jumps(ms) :: m.Jump?
    ensures forall m | m in Moves(ms) :: m.Move?
  {
    if ms == [] {
    } else {
      AllJumps(ms[..|ms| - 1]);
    }
  }

  /** After a tick, a set marker is still over a live JUMP: landing clears it, and nothing else ends a JUMP. */
  lemma MarkerAfter(a: Arbiter, ms: int)
    requires OneActivity(a) && MarkerLive(a)
    ensures MarkerLive(AdvanceTime(a, ms).arb)
  {
    AdvancePhases(a, ms);
    var due := DueNow(a, ms);
    var kept := Kept(due, Sweep(due, |due|), |due|);
    AllJumps(kept);
    if Jumps(kept) != [] {
      assert Schedule(due)[|Schedule(due)| - 1] in Jumps(kept);
    } else {
      assert Schedule(due) == Moves(kept);
      if a.airborne.Some? {
        var j :| j in a.motions && j.Jump? && j.fromPos == a.airborne.value;
        JumpNotDue(a, ms, j);
        MarkerWhileMoving(Resolving(a, ms), Schedule(due), Tick(j, ms));
      } else {
        MarkerStaysOff(Resolving(a, ms), Schedule(due));
      }
    }
  }

  lemma {:induction false} MarkerStaysOff(a: Arbiter, due: seq<Motion>)
    requires a.airborne == None
    ensures ResolveAll(a, due).arb.airborne == None
  {
    if due == [] {
    } else {
      MarkerStaysOff(a, due[..|due| - 1]);
    }
  }

  /** If no JUMP lands in the call, every JUMP is still flying when the due motions are resolved. */
  lemma JumpNotDue(a: Arbiter, ms: int, j: Motion)
    requires OneActivity(a) && j in a.motions && j.Jump?
    requires Jumps(Kept(DueNow(a, ms), Sweep(DueNow(a, ms), |DueNow(a, ms)|), |DueNow(a, ms)|)) == []
    ensures Tick(j, ms) in Resolving(a, ms).motions
  {
    var moved := Elapsed(a.motions, ms);
    var due := DueNow(a, ms);
    var i :| 0 <= i < |a.motions| && a.motions[i] == j;
    assert moved[i] == Tick(j, ms);
    SplitMembers(moved, Tick(j, ms));
    if Tick(j, ms) in due {
      var k :| 0 <= k < |due| && due[k] == Tick(j, ms);
      SplitDistinct(moved);
      KeptMembers(due, Sweep(due, |due|), |due|, k);
      SweepIsKernel(due, k);
      SplitMembers(Kept(due, Sweep(due, |due|), |due|), due[k]);
    }
  }

  // ----- commands -----

  /** The pieces and targets of what runs after a tick are those of before. */
  lemma TickArbCoherent(w: World, ms: int)
    requires Valid(w)
    ensures ArbCoherent(w.board, w.pieces, AdvanceTime(w.arb, ms).arb)
  {
    AdvanceShape(w.arb, ms);
    forall m | m in AdvanceTime(w.arb, ms).arb.motions
      ensures Known(w.pieces, m.piece) && (m.Move? ==> InBounds(w.board, m.toPos))
    {
      assert Tick(m, -ms) in w.arb.motions;
    }
    forall r | r in AdvanceTime(w.arb, ms).arb.rests ensures Known(w.pieces, r.piece) {
      RestOrigin(w.arb, ms, r);
      var es := AdvanceTime(w.arb, ms).events;
      var t := Trace(es, r.piece.id);
      if t != [] {
        TraceMembers(es, r.piece.id, t[|t| - 1]);
        EventSourced(w.arb, ms, t[|t| - 1]);
      }
    }
  }

  lemma CoherentOn(b: BoardState, pieces: map<PieceId, PieceRec>, a: Arbiter, c: BoardState,
                   others: map<PieceId, PieceRec>)
    requires ArbCoherent(b, pieces, a) && SameRoster(pieces, others) && b.width == c.width && b.height == c.height
    ensures ArbCoherent(c, others, a)
  {
  }

  lemma TickSound(w: World, ms: int)
    requires Sound(w) && Wait(w, ms).ok
    ensures Sound(Wait(w, ms).world)
  {
    var v := Wait(w, ms).world;
    AdvanceKeepsOneActivity(w.arb, ms);
    TickRestStates(w, ms);
    MarkerAfter(w.arb, ms);
    TickArbCoherent(w, ms);
    assert Alike(Ticked(w, ms), v);
    CoherentOn(w.board, w.pieces, v.arb, v.board, v.pieces);
  }

  /** A piece that is not busy has no activity, so starting one keeps it to one. */
  lemma NotBusy(w: World, id: PieceId)
    requires Valid(w) && RestStates(w) && OnBoard(w, id) && !Busy(w, id)
    ensures !InMotion(w.arb.motions, id) && !AtRest(w.arb.rests, id)
  {
    forall m | m in w.arb.motions ensures m.piece.id != id {
      var i :| 0 <= i < |w.arb.motions| && w.arb.motions[i] == m;
    }
  }

  /** Starting an activity for a piece that is not busy. */
  lemma StartSound(w: World, m: Motion, s: PieceState, v: World)
    requires Sound(w) && Known(w.pieces, m.piece) && OnBoard(w, m.piece.id) && !Busy(w, m.piece.id)
    requires m.Move? ==> InBounds(w.board, m.toPos)
    requires v.arb == w.arb.(motions := w.arb.motions + [m], airborne := v.arb.airborne)
    requires v.arb.airborne == if m.Jump? then Some(m.fromPos) else w.arb.airborne
    requires v.board == w.board && v.pieces == SetState(w.pieces, m.piece.id, s)
    ensures Sound(v)
  {
    NotBusy(w, m.piece.id);
    DistinctSnoc(w.arb.motions, m);
    assert m in v.arb.motions && forall x | x in w.arb.motions :: x in v.arb.motions;
    assert SameRoster(w.pieces, v.pieces);
  }

  lemma MoveSound(w: World, source: Position, destination: Position)
    requires Sound(w)
    ensures Sound(RequestMove(w, source, destination).0)
  {
    if RequestMove(w, source, destination).1 == Ok {
      var id := w.board.grid[source];
      LegalShape(w.board, w.pieces, w.allowFriendly, source, destination);
      var m := Move(TokenOf(w, id), source, destination, Distance(source, destination) * w.arb.timing.msPerSquare);
      StartSound(w, m, PieceState.Moving, RequestMove(w, source, destination).0);
    }
  }

  lemma JumpSound(w: World, pos: Position)
    requires Sound(w)
    ensures Sound(RequestJump(w, pos).0)
  {
    if RequestJump(w, pos).1 == Ok {
      var m := Jump(TokenOf(w, w.board.grid[pos]), pos, w.arb.timing.jumpMs);
      StartSound(w, m, Jumping, RequestJump(w, pos).0);
    }
  }
}
