/** What the airborne marker protects: the cell of a JUMP through a tick, clean or not. */
module Airborne {
  import opened Values
  import opened Arbitration
  import opened MotionConservation
  import opened PieceFate
  import opened Engine
  import opened Anchoring
  import opened Soundness
  import opened Calmness
  import opened Forecast

  // ----- the marker over an anchored JUMP -----

  /** All JUMPs from p, and there is one, are of colour c. */
  ghost predicate JumpersAre(ms: seq<Motion>, p: Position, c: Color) {
    && (exists m :: m in ms && m.Jump? && m.fromPos == p)
    && (forall m | m in ms && m.Jump? && m.fromPos == p :: m.piece.color == c)
  }

  lemma {:induction false} JumperFound(ms: seq<Motion>, p: Position, c: Color)
    requires JumpersAre(ms, p, c)
    ensures JumperColor(ms, p) == Some(c)
  {
    assert ms == [ms[0]] + ms[1..];
    if ms[0].Jump? && ms[0].fromPos == p {
    } else {
      var m :| m in ms && m.Jump? && m.fromPos == p;
      assert m in ms[1..];
      JumperFound(ms[1..], p, c);
    }
  }

  /** A JUMP that is in flight when the due motions are resolved. */
  ghost predicate Aloft(w: World, ms: int, j: Motion) {
    Valid(w) && Anchored(w) && j in w.arb.motions && j.Jump? && j.remaining > ms
  }

  lemma AnchoredJumper(w: World, ms: int, j: Motion)
    requires Aloft(w, ms, j)
    ensures JumperColor(Resolving(w.arb, ms).motions, j.fromPos) == Some(j.piece.color)
  {
    var moved := Elapsed(w.arb.motions, ms);
    var i :| 0 <= i < |w.arb.motions| && w.arb.motions[i] == j;
    assert moved[i] == Tick(j, ms);
    SplitMembers(moved, Tick(j, ms));
    forall m | m in Flying(moved) && m.Jump? && m.fromPos == j.fromPos ensures m.piece.color == j.piece.color {
      SplitMembers(moved, m);
      var l :| 0 <= l < |moved| && moved[l] == m;
      assert w.arb.motions[l] in w.arb.motions && At(w, w.arb.motions[l]) && At(w, j);
      UniqueMotion(w.arb.motions, j, w.arb.motions[l]);
    }
    JumperFound(Flying(moved), j.fromPos, j.piece.color);
  }

  /** An enemy MOVE onto the cell of a JUMP of colour c over p. */
  predicate Intrudes(m: Motion, p: Position, c: Color) {
    m.Move? && m.toPos == p && m.piece.color != c
  }

  ghost predicate FirstIntruder(s: seq<Motion>, l: nat, p: Position, c: Color)
    requires l < |s|
  {
    Intrudes(s[l], p, c) && forall i | 0 <= i < l :: !Intrudes(s[i], p, c)
  }

  /** Which MOVE the marker captures, read off the scheduled motions. */
  lemma MarkerCaptures(w: World, ms: int, j: Motion, l: nat)
    requires Aloft(w, ms, j) && l < |Schedule(DueNow(w.arb, ms))|
    ensures w.arb.airborne == Some(j.fromPos) ==>
              (Shielded(Resolving(w.arb, ms), Schedule(DueNow(w.arb, ms)), l) <==>
               FirstIntruder(Schedule(DueNow(w.arb, ms)), l, j.fromPos, j.piece.color))
    ensures w.arb.airborne != Some(j.fromPos) && Schedule(DueNow(w.arb, ms))[l].Move?
              && Schedule(DueNow(w.arb, ms))[l].toPos == j.fromPos ==>
              !Shielded(Resolving(w.arb, ms), Schedule(DueNow(w.arb, ms)), l)
  {
    AnchoredJumper(w, ms, j);
    var b, s := Resolving(w.arb, ms), Schedule(DueNow(w.arb, ms));
    if b.airborne == Some(j.fromPos) {
      forall i | 0 <= i <= l ensures s[i].Move? && AirCaptured(b, s[i]) <==> Intrudes(s[i], j.fromPos, j.piece.color) {
      }
    }
  }

  /** Main result: of all MOVEs that come due under the marker and survive the collision pass, exactly the first
      intruder is eliminated, and every other one arrives: a second intruder lands on the jumper's cell. */
  lemma AirCapture(w: World, ms: int, j: Motion, k: nat)
    requires Aloft(w, ms, j) && w.arb.airborne == Some(j.fromPos)
    requires k < |Schedule(DueNow(w.arb, ms))|
    requires FirstIntruder(Schedule(DueNow(w.arb, ms)), k, j.fromPos, j.piece.color)
    ensures forall l: nat | l < |Schedule(DueNow(w.arb, ms))| && Schedule(DueNow(w.arb, ms))[l].Move? ::
              var m := Schedule(DueNow(w.arb, ms))[l];
              Trace(AdvanceTime(w.arb, ms).events, m.piece.id) ==
              if l == k then [Elimination(m.piece, m.fromPos)]
              else [Landing(m), Rest(m.piece, LongRest, w.arb.timing.longRestMs)]
  {
    var s := Schedule(DueNow(w.arb, ms));
    forall l: nat | l < |s| && s[l].Move?
      ensures Trace(AdvanceTime(w.arb, ms).events, s[l].piece.id) ==
              if l == k then [Elimination(s[l].piece, s[l].fromPos)]
              else [Landing(s[l]), Rest(s[l].piece, LongRest, w.arb.timing.longRestMs)]
    {
      MarkerCaptures(w, ms, j, l);
      ScheduledFate(w.arb, ms, l);
    }
  }

  // ----- the cell of the jumper -----

  ghost predicate LandedOn(es: seq<Event>, p: Position) {
    exists e :: e in es && e.Arrival? && e.destination == p
  }

  /** The piece is on p, or after a landing on p off the board. */
  ghost predicate Held(w: World, p: Position, id: PieceId, landed: bool) {
    if landed then !OnBoard(w, id) else p in w.board.grid && w.board.grid[p] == id
  }

  lemma LandedSnoc(es: seq<Event>, p: Position)
    requires es != []
    ensures var e := es[|es| - 1];
            LandedOn(es, p) <==> LandedOn(es[..|es| - 1], p) || (e.Arrival? && e.destination == p)
  {
    assert es == es[..|es| - 1] + [es[|es| - 1]];
  }

  lemma HeldStep(v: World, e: Event, p: Position, id: PieceId, landed: bool)
    requires BoardCoherent(v.board, v.pieces) && EventKnown(v, e) && Applicable(v, e)
    requires e.Arrival? || e.Elimination? ==> SourceOf(e) != p
    requires Held(v, p, id, landed)
    ensures Held(ApplyEvent(v, e).world, p, id, landed || (e.Arrival? && e.destination == p))
  {
    var g := ApplyEvent(v, e).world.board.grid;
    if landed {
      NoReturn(v, e, id);
    } else if e.Arrival? && e.destination == p {
      OtherPiece(v, SourceOf(e), p);
      forall q | q in g ensures g[q] != id {
        if q != p {
          OtherPiece(v, q, p);
        }
      }
    } else {
      ElsewhereUnchanged(v, e, p);
    }
  }

  lemma HeldLast(w: World, es: seq<Event>, p: Position, id: PieceId)
    requires BoardCoherent(w.board, w.pieces) && AllKnown(w, es) && ApplyAll(w, es).ok && es != []
    requires es[|es| - 1].Arrival? || es[|es| - 1].Elimination? ==> SourceOf(es[|es| - 1]) != p
    requires AllKnown(w, es[..|es| - 1]) && Held(ApplyAll(w, es[..|es| - 1]).world, p, id, LandedOn(es[..|es| - 1], p))
    ensures Held(ApplyAll(w, es).world, p, id, LandedOn(es, p))
  {
    var n := |es| - 1;
    assert es[..n + 1] == es;
    ApplyNext(w, es, n);
    HeldStep(ApplyAll(w, es[..n]).world, es[n], p, id, LandedOn(es[..n], p));
    LandedSnoc(es, p);
  }

  /** A piece whose cell no event empties stays there until an arrival lands on it, and is then gone for good. */
  lemma {:induction false} CellHeld(w: World, es: seq<Event>, p: Position, id: PieceId)
    requires BoardCoherent(w.board, w.pieces) && AllKnown(w, es) && ApplyAll(w, es).ok
    requires p in w.board.grid && w.board.grid[p] == id
    requires forall e | e in es && (e.Arrival? || e.Elimination?) :: SourceOf(e) != p
    ensures Held(ApplyAll(w, es).world, p, id, LandedOn(es, p))
  {
    if es == [] {
    } else {
      var n := |es| - 1;
      assert forall e | e in es[..n] :: e in es;
      assert es[n] in es;
      CellHeld(w, es[..n], p, id);
      HeldLast(w, es, p, id);
    }
  }

  /** No event of a tick starts on the cell of an anchored JUMP. */
  lemma SourcesElsewhere(w: World, ms: int, j: Motion)
    requires Valid(w) && Anchored(w) && j in w.arb.motions && j.Jump?
    ensures forall e | e in AdvanceTime(w.arb, ms).events && (e.Arrival? || e.Elimination?) :: SourceOf(e) != j.fromPos
  {
    forall e | e in AdvanceTime(w.arb, ms).events && (e.Arrival? || e.Elimination?) ensures SourceOf(e) != j.fromPos {
      EventSourced(w.arb, ms, e);
      var m :| m in w.arb.motions && m.Move? && m.piece == e.piece && m.fromPos == SourceOf(e);
      if m.fromPos == j.fromPos {
        assert At(w, m) && At(w, j);
        UniqueMotion(w.arb.motions, m, j);
      }
    }
  }

  /** A MOVE lands on p exactly when a scheduled one with that target is not captured. */
  lemma LandedOnMotions(a: Arbiter, ms: int, p: Position)
    ensures LandedOn(AdvanceTime(a, ms).events, p) <==>
            exists l: nat :: GetsThrough(a, ms, l) && Schedule(DueNow(a, ms))[l].toPos == p
  {
    var es := AdvanceTime(a, ms).events;
    if LandedOn(es, p) {
      var e :| e in es && e.Arrival? && e.destination == p;
      var k :| 0 <= k < |es| && es[k] == e;
      var l := ArrivalInCall(a, ms, k, es);
    }
    if exists l: nat :: GetsThrough(a, ms, l) && Schedule(DueNow(a, ms))[l].toPos == p {
      var l: nat :| GetsThrough(a, ms, l) && Schedule(DueNow(a, ms))[l].toPos == p;
      LandingInCall(a, ms, l, es);
      assert es[|BeforeTurn(a, ms, l)|] in es;
    }
  }

  /** Nothing that comes due takes the cell p of a JUMP of colour c: no MOVE onto p, or under the marker at most one,
      by an enemy. */
  ghost predicate Safe(a: Arbiter, ms: int, p: Position, c: Color) {
    var s := Schedule(DueNow(a, ms));
    forall l: nat | l < |s| && s[l].Move? && s[l].toPos == p :: a.airborne == Some(p) && FirstIntruder(s, l, p, c)
  }

  lemma SafeMeans(w: World, ms: int, j: Motion)
    requires Aloft(w, ms, j)
    ensures Safe(w.arb, ms, j.fromPos, j.piece.color) <==> !LandedOn(AdvanceTime(w.arb, ms).events, j.fromPos)
  {
    LandedOnMotions(w.arb, ms, j.fromPos);
    var s := Schedule(DueNow(w.arb, ms));
    forall l: nat | l < |s| && s[l].Move? && s[l].toPos == j.fromPos
      ensures GetsThrough(w.arb, ms, l) <==>
              !(w.arb.airborne == Some(j.fromPos) && FirstIntruder(s, l, j.fromPos, j.piece.color))
    {
      MarkerCaptures(w, ms, j, l);
    }
    if Safe(w.arb, ms, j.fromPos, j.piece.color) {
      assert forall l: nat | GetsThrough(w.arb, ms, l) :: s[l].toPos != j.fromPos;
    }
  }

  /** Main result: a JUMP with time left goes on, whatever else the tick does; and in any tick that does not raise,
      its piece keeps its cell exactly when the motions that come due are safe for it, and is lost otherwise. */
  lemma AirborneSafety(w: World, ms: int, j: Motion)
    requires Aloft(w, ms, j)
    ensures Tick(j, ms) in AdvanceTime(w.arb, ms).arb.motions
    ensures Wait(w, ms).ok ==>
              if Safe(w.arb, ms, j.fromPos, j.piece.color) then At(Wait(w, ms).world, j)
              else !OnBoard(Wait(w, ms).world, j.piece.id)
  {
    Fate(w.arb, ms, j);
    assert At(w, j);
    if Wait(w, ms).ok {
      SourcesElsewhere(w, ms, j);
      SafeMeans(w, ms, j);
      CellHeld(Ticked(w, ms), AdvanceTime(w.arb, ms).events, j.fromPos, j.piece.id);
    }
  }

  /** Through a clean tick, every JUMP that stays in flight keeps its piece on its cell. */
  lemma JumpKept(w: World, ms: int, j: Motion)
    requires Calm(w) && CleanTick(w.arb, ms) && Aloft(w, ms, j)
    ensures Tick(j, ms) in Wait(w, ms).world.arb.motions && At(Wait(w, ms).world, j)
    ensures Safe(w.arb, ms, j.fromPos, j.piece.color)
  {
    TickCalm(w, ms);
    AirborneSafety(w, ms, j);
    assert At(Wait(w, ms).world, Tick(j, ms));
  }
}
