/** When a moving piece really is where its motion starts: the exact condition on a tick. */
module Anchoring {
  import opened Values
  import opened Arbitration
  import opened PieceFate
  import opened SimulatedTime
  import opened Engine

  /** The piece of motion m stands on the cell the motion starts from. */
  ghost predicate At(w: World, m: Motion) {
    m.fromPos in w.board.grid && w.board.grid[m.fromPos] == m.piece.id
  }

  ghost predicate Anchored(w: World) {
    forall m | m in w.arb.motions :: At(w, m)
  }

  /** An event that ends a MOVE by touching the board. */
  predicate Concludes(e: Event, id: PieceId) {
    (e.Arrival? || e.Elimination?) && e.piece.id == id
  }

  ghost predicate Concluded(es: seq<Event>, id: PieceId) {
    exists e :: e in es && Concludes(e, id)
  }

  /** The event moves or removes its own piece and no other. */
  ghost predicate Own(w: World, e: Event) {
    match e
    case Arrival(piece, source, _, _, _) => source in w.board.grid && w.board.grid[source] == piece.id
    case Elimination(piece, pos) => pos in w.board.grid && w.board.grid[pos] == piece.id
    case _ => true
  }

  ghost predicate Faithful(w: World, es: seq<Event>)
    requires BoardCoherent(w.board, w.pieces) && AllKnown(w, es)
  {
    es == [] ||
    var n := |es| - 1;
    (forall e | e in es[..n] :: EventKnown(w, e)) && Faithful(w, es[..n]) && Own(ApplyAll(w, es[..n]).world, es[n])
  }

  /** Replaying the events, no arrival lands on the source of a pending motion of another piece. */
  ghost predicate Clean(pending: set<Motion>, es: seq<Event>) {
    es == [] ||
    var n := |es| - 1;
    && Clean(pending, es[..n])
    && (es[n].Arrival? ==>
          forall m | m in pending && m.piece.id != es[n].piece.id && m.fromPos == es[n].destination ::
            Concluded(es[..n], m.piece.id))
  }

  /** The motions that can still need their source cell: all but the JUMPs that land in this call. */
  ghost function Pending(a: Arbiter, ms: int): set<Motion> {
    set m | m in a.motions && !(m.Jump? && m.remaining <= ms)
  }

  /** The condition, on the arbiter alone, that a caller can compute before the tick. */
  ghost predicate CleanTick(a: Arbiter, ms: int) {
    Clean(Pending(a, ms), AdvanceTime(a, ms).events)
  }

  function SourceOf(e: Event): Position
    requires e.Arrival? || e.Elimination?
  {
    if e.Arrival? then e.fromPos else e.currentPos
  }

  /** Each concluding event ends one of the given motions, and no piece is concluded twice. */
  ghost predicate Orderly(pending: set<Motion>, es: seq<Event>) {
    && (forall m, n | m in pending && n in pending && m.piece.id == n.piece.id :: m == n)
    && (forall e | e in es && (e.Arrival? || e.Elimination?) ::
          exists m :: m in pending && m.piece == e.piece && m.fromPos == SourceOf(e))
    && (forall k | 0 <= k < |es| && (es[k].Arrival? || es[k].Elimination?) :: !Concluded(es[..k], es[k].piece.id))
  }

  lemma OrderlyPrefix(pending: set<Motion>, es: seq<Event>)
    requires es != [] && Orderly(pending, es)
    ensures Orderly(pending, es[..|es| - 1])
    ensures forall id :: Concluded(es, id) <==> Concluded(es[..|es| - 1], id) || Concludes(es[|es| - 1], id)
  {
    var n := |es| - 1;
    assert es == es[..n] + [es[n]];
    forall k | 0 <= k < n ensures es[..n][..k] == es[..k] {}
    forall id ensures Concluded(es, id) <==> Concluded(es[..n], id) || Concludes(es[n], id) {
      if Concluded(es, id) {
        var e :| e in es && Concludes(e, id);
        assert e in es[..n] || e == es[n];
      }
    }
  }

  lemma Injective(w: World, p: Position, q: Position)
    requires BoardCoherent(w.board, w.pieces)
    requires p in w.board.grid && q in w.board.grid && w.board.grid[p] == w.board.grid[q]
    ensures p == q
  {
  }

  lemma OtherPiece(w: World, p: Position, q: Position)
    requires BoardCoherent(w.board, w.pieces)
    requires p in w.board.grid && q in w.board.grid && p != q
    ensures w.board.grid[p] != w.board.grid[q]
  {
  }

  /** A cell that the event neither empties nor fills is as before. */
  lemma ElsewhereUnchanged(w: World, e: Event, p: Position)
    requires BoardCoherent(w.board, w.pieces) && EventKnown(w, e) && Applicable(w, e)
    requires e.Arrival? || e.Elimination? ==> p != SourceOf(e)
    requires e.Arrival? ==> p != e.destination
    ensures var g := ApplyEvent(w, e).world.board.grid;
            (p in g <==> p in w.board.grid) && (p in g ==> g[p] == w.board.grid[p])
  {
  }

  /** No event brings a piece back. */
  lemma NoReturn(w: World, e: Event, id: PieceId)
    requires BoardCoherent(w.board, w.pieces) && EventKnown(w, e) && Applicable(w, e)
    requires !OnBoard(w, id)
    ensures !OnBoard(ApplyEvent(w, e).world, id)
  {
  }

  lemma NotBackAtLast(w: World, es: seq<Event>, id: PieceId)
    requires BoardCoherent(w.board, w.pieces) && AllKnown(w, es) && es != [] && AllKnown(w, es[..|es| - 1])
    requires !OnBoard(ApplyAll(w, es[..|es| - 1]).world, id)
    ensures !OnBoard(ApplyAll(w, es).world, id)
  {
    var n := |es| - 1;
    var before := ApplyAll(w, es[..n]);
    assert es[n] in es && EventKnown(before.world, es[n]);
    if before.ok && Applicable(before.world, es[n]) {
      NoReturn(before.world, es[n], id);
    }
  }

  lemma {:induction false} NeverBackFrom(w: World, es: seq<Event>, before: seq<Event>, id: PieceId)
    requires BoardCoherent(w.board, w.pieces) && AllKnown(w, es) && before <= es
    requires AllKnown(w, before) && !OnBoard(ApplyAll(w, before).world, id)
    ensures !OnBoard(ApplyAll(w, es).world, id)
  {
    if |before| == |es| {
      assert before == es;
    } else {
      assert forall e | e in es[..|es| - 1] :: e in es;
      NeverBackFrom(w, es[..|es| - 1], before, id);
      NotBackAtLast(w, es, id);
    }
  }

  lemma NeverBack(w: World, es: seq<Event>, k: nat, id: PieceId)
    requires BoardCoherent(w.board, w.pieces) && AllKnown(w, es) && k <= |es|
    requires AllKnown(w, es[..k]) && !OnBoard(ApplyAll(w, es[..k]).world, id)
    ensures !OnBoard(ApplyAll(w, es).world, id)
  {
    NeverBackFrom(w, es, es[..k], id);
  }

  lemma {:induction false} FaithfulSucceeds(w: World, es: seq<Event>)
    requires BoardCoherent(w.board, w.pieces) && AllKnown(w, es) && Faithful(w, es)
    ensures ApplyAll(w, es).ok
  {
    if es == [] {
    } else {
      FaithfulSucceeds(w, es[..|es| - 1]);
    }
  }

  lemma {:induction false} FaithfulPrefix(w: World, es: seq<Event>, k: nat)
    requires BoardCoherent(w.board, w.pieces) && AllKnown(w, es) && Faithful(w, es) && k < |es|
    ensures AllKnown(w, es[..k]) && Faithful(w, es[..k]) && Own(ApplyAll(w, es[..k]).world, es[k])
  {
    var n := |es| - 1;
    if k == n {
    } else {
      assert es[..n][..k] == es[..k];
      FaithfulPrefix(w, es[..n], k);
    }
  }

  /** One step of the replay: the event is its own, and a motion that is not concluded stays anchored
      unless an arrival lands on it, in which case its piece is gone. */
  lemma StepAnchored(w: World, e: Event, m: Motion)
    requires BoardCoherent(w.board, w.pieces) && EventKnown(w, e) && Own(w, e)
    requires At(w, m) && !Concludes(e, m.piece.id)
    ensures Applicable(w, e)
    ensures var v := ApplyEvent(w, e).world;
            if e.Arrival? && e.destination == m.fromPos then !At(v, m) && !OnBoard(v, m.piece.id) else At(v, m)
  {
    if e.Arrival? || e.Elimination? {
      assert m.fromPos != SourceOf(e);
    }
    if e.Arrival? && e.destination == m.fromPos {
      var v := ApplyEvent(w, e).world;
      OtherPiece(w, SourceOf(e), m.fromPos);
      forall p | p in v.board.grid ensures v.board.grid[p] != m.piece.id {
        if p != e.destination {
          OtherPiece(w, p, m.fromPos);
        }
      }
    } else {
      ElsewhereUnchanged(w, e, m.fromPos);
    }
  }

  /** Clean events are faithful and leave every motion that is not concluded anchored. */
  lemma {:induction false} CleanReplay(w: World, es: seq<Event>, pending: set<Motion>)
    requires BoardCoherent(w.board, w.pieces) && AllKnown(w, es)
    requires Orderly(pending, es) && Clean(pending, es)
    requires forall m | m in pending :: At(w, m)
    ensures Faithful(w, es)
    ensures forall m | m in pending && !Concluded(es, m.piece.id) :: At(ApplyAll(w, es).world, m)
  {
    if es == [] {
    } else {
      var n := |es| - 1;
      var e := es[n];
      OrderlyPrefix(pending, es);
      CleanReplay(w, es[..n], pending);
      FaithfulSucceeds(w, es[..n]);
      var v := ApplyAll(w, es[..n]).world;
      assert e in es && EventKnown(v, e);
      if e.Arrival? || e.Elimination? {
        var m :| m in pending && m.piece == e.piece && m.fromPos == SourceOf(e);
        assert At(v, m);
      }
      assert Own(v, e);
      forall m | m in pending && !Concluded(es, m.piece.id) ensures At(ApplyAll(w, es).world, m) {
        StepAnchored(v, e, m);
      }
    }
  }

  /** Along faithful events, a motion that is not concluded is anchored or has lost its piece for good. */
  lemma {:induction false} AnchoredOrLost(w: World, es: seq<Event>, m: Motion)
    requires BoardCoherent(w.board, w.pieces) && AllKnown(w, es) && Faithful(w, es)
    requires At(w, m) && !Concluded(es, m.piece.id)
    ensures At(ApplyAll(w, es).world, m) || !OnBoard(ApplyAll(w, es).world, m.piece.id)
  {
    if es == [] {
    } else {
      var n := |es| - 1;
      assert forall e | e in es[..n] :: e in es;
      FaithfulSucceeds(w, es[..n]);
      AnchoredOrLost(w, es[..n], m);
      var v := ApplyAll(w, es[..n]).world;
      assert es[n] in es && EventKnown(v, es[n]);
      if At(v, m) {
        StepAnchored(v, es[n], m);
      } else {
        NoReturn(v, es[n], m.piece.id);
      }
    }
  }

  lemma ApplyNext(w: World, es: seq<Event>, k: nat)
    requires BoardCoherent(w.board, w.pieces) && AllKnown(w, es) && k < |es|
    requires AllKnown(w, es[..k]) && ApplyAll(w, es[..k]).ok && Applicable(ApplyAll(w, es[..k]).world, es[k])
    ensures AllKnown(w, es[..k + 1]) && EventKnown(ApplyAll(w, es[..k]).world, es[k])
    ensures ApplyAll(w, es[..k + 1]).ok
    ensures ApplyAll(w, es[..k + 1]).world == ApplyEvent(ApplyAll(w, es[..k]).world, es[k]).world
    ensures ApplyAll(w, es[..k + 1]).done
            == ApplyAll(w, es[..k]).done + [ApplyEvent(ApplyAll(w, es[..k]).world, es[k]).event]
  {
    var upto := es[..k + 1];
    assert upto[..k] == es[..k] && upto[k] == es[k];
    assert forall e | e in upto :: e in es;
    assert es[k] in es;
  }

  /** An arrival on the source of a motion that is not concluded takes that motion's piece off the board. */
  lemma LandingLoses(w: World, es: seq<Event>, k: nat, m: Motion)
    requires BoardCoherent(w.board, w.pieces) && AllKnown(w, es) && Faithful(w, es) && At(w, m)
    requires k < |es| && es[k].Arrival? && es[k].destination == m.fromPos
    requires m.piece.id != es[k].piece.id && !Concluded(es[..k], m.piece.id)
    ensures AllKnown(w, es[..k + 1]) && !OnBoard(ApplyAll(w, es[..k + 1]).world, m.piece.id)
  {
    FaithfulPrefix(w, es, k);
    FaithfulSucceeds(w, es[..k]);
    AnchoredOrLost(w, es[..k], m);
    ApplyNext(w, es, k);
    var v := ApplyAll(w, es[..k]).world;
    if At(v, m) {
      StepAnchored(v, es[k], m);
    } else {
      NoReturn(v, es[k], m.piece.id);
    }
  }

  /** A piece that has left the board is not concluded by a later faithful event. */
  lemma LostNotConcluded(w: World, es: seq<Event>, k: nat, j: nat, id: PieceId)
    requires BoardCoherent(w.board, w.pieces) && AllKnown(w, es) && Faithful(w, es)
    requires k <= j < |es| && AllKnown(w, es[..k]) && !OnBoard(ApplyAll(w, es[..k]).world, id)
    ensures !Concludes(es[j], id)
  {
    FaithfulPrefix(w, es, j);
    assert es[..j][..k] == es[..k];
    NeverBack(w, es[..j], k, id);
  }

  /** ... and then that motion can neither be concluded nor stay anchored. */
  lemma UncleanLoses(w: World, es: seq<Event>, k: nat, m: Motion)
    requires BoardCoherent(w.board, w.pieces) && AllKnown(w, es) && Faithful(w, es) && At(w, m)
    requires k < |es| && es[k].Arrival? && es[k].destination == m.fromPos
    requires m.piece.id != es[k].piece.id && !Concluded(es[..k], m.piece.id)
    ensures !Concluded(es, m.piece.id) && !At(ApplyAll(w, es).world, m)
  {
    var id := m.piece.id;
    LandingLoses(w, es, k, m);
    NeverBack(w, es, k + 1, id);
    forall e | e in es ensures !Concludes(e, id) {
      var j :| 0 <= j < |es| && es[j] == e;
      if j < k {
        assert es[..k][j] == e;
      } else if j > k {
        LostNotConcluded(w, es, k + 1, j, id);
      }
    }
  }

  lemma {:induction false} FaithfulIsClean(w: World, es: seq<Event>, pending: set<Motion>, n: nat)
    requires BoardCoherent(w.board, w.pieces) && AllKnown(w, es)
    requires Orderly(pending, es) && Faithful(w, es) && n <= |es|
    requires forall m | m in pending :: At(w, m)
    requires forall m | m in pending && !Concluded(es, m.piece.id) :: At(ApplyAll(w, es).world, m)
    ensures Clean(pending, es[..n])
  {
    if n == 0 {
    } else {
      var k := n - 1;
      FaithfulIsClean(w, es, pending, k);
      assert es[..n][..k] == es[..k];
      if es[k].Arrival? {
        forall m | m in pending && m.piece.id != es[k].piece.id && m.fromPos == es[k].destination
          ensures Concluded(es[..k], m.piece.id)
        {
          if !Concluded(es[..k], m.piece.id) {
            UncleanLoses(w, es, k, m);
          }
        }
      }
    }
  }

  /** For any orderly events: clean exactly when faithful with every unconcluded motion still anchored. */
  lemma ReplayExact(w: World, es: seq<Event>, pending: set<Motion>)
    requires BoardCoherent(w.board, w.pieces) && AllKnown(w, es) && Orderly(pending, es)
    requires forall m | m in pending :: At(w, m)
    ensures Clean(pending, es) <==>
            Faithful(w, es) && forall m | m in pending && !Concluded(es, m.piece.id) :: At(ApplyAll(w, es).world, m)
  {
    assert es[..|es|] == es;
    if Clean(pending, es) {
      CleanReplay(w, es, pending);
    }
    if Faithful(w, es) && (forall m | m in pending && !Concluded(es, m.piece.id) :: At(ApplyAll(w, es).world, m)) {
      FaithfulIsClean(w, es, pending, |es|);
    }
  }

  // ----- the events of a tick are orderly -----

  lemma {:induction false} TraceMembers(es: seq<Event>, id: PieceId, e: Event)
    ensures e in Trace(es, id) <==> e in es && e.piece.id == id
  {
    if es == [] {
    } else {
      assert es == es[..|es| - 1] + [es[|es| - 1]];
      TraceMembers(es[..|es| - 1], id, e);
    }
  }

  /** Only the first event about a piece can conclude it. */
  lemma FirstConcludes(a: Arbiter, ms: int, id: PieceId)
    requires OneActivity(a)
    ensures var t := Trace(AdvanceTime(a, ms).events, id); forall j | 0 < j < |t| :: !Concludes(t[j], id)
  {
    if InMotion(a.motions, id) {
      var m :| m in a.motions && m.piece.id == id;
      Fate(a, ms, m);
    } else if AtRest(a.rests, id) {
      var r :| r in a.rests && r.piece.id == id;
      RestFate(a, ms, r);
    } else {
      NoFate(a, ms, id);
    }
  }

  lemma ConcludedOnce(a: Arbiter, ms: int, k: nat)
    requires OneActivity(a) && k < |AdvanceTime(a, ms).events|
    ensures var es := AdvanceTime(a, ms).events;
            es[k].Arrival? || es[k].Elimination? ==> !Concluded(es[..k], es[k].piece.id)
  {
    var es := AdvanceTime(a, ms).events;
    var id := es[k].piece.id;
    assert es == es[..k] + [es[k]] + es[k + 1..];
    TraceConcat(es[..k] + [es[k]], es[k + 1..], id);
    TraceSnoc(es[..k], es[k], id);
    FirstConcludes(a, ms, id);
    var j := |Trace(es[..k], id)|;
    assert Trace(es, id)[j] == es[k];
    if Concluded(es[..k], id) {
      var e :| e in es[..k] && Concludes(e, id);
      TraceMembers(es[..k], id, e);
    }
  }

  lemma TickOrderly(a: Arbiter, ms: int)
    requires OneActivity(a)
    ensures Orderly(Pending(a, ms), AdvanceTime(a, ms).events)
  {
    var es := AdvanceTime(a, ms).events;
    forall e | e in es && (e.Arrival? || e.Elimination?)
      ensures exists m :: m in Pending(a, ms) && m.piece == e.piece && m.fromPos == SourceOf(e)
    {
      EventSourced(a, ms, e);
      var m :| m in a.motions && m.Move? && m.piece == e.piece && m.fromPos == SourceOf(e);
      assert m in Pending(a, ms);
    }
    forall k | 0 <= k < |es| && (es[k].Arrival? || es[k].Elimination?) ensures !Concluded(es[..k], es[k].piece.id) {
      ConcludedOnce(a, ms, k);
    }
  }

  /** The motions still active after a call are the pending ones that no event concludes. */
  lemma StillActive(a: Arbiter, ms: int, m: Motion)
    requires OneActivity(a) && m in a.motions
    ensures Tick(m, ms) in AdvanceTime(a, ms).arb.motions <==>
            m in Pending(a, ms) && !Concluded(AdvanceTime(a, ms).events, m.piece.id)
  {
    var es := AdvanceTime(a, ms).events;
    var t := Trace(es, m.piece.id);
    Fate(a, ms, m);
    forall e ensures e in t <==> e in es && e.piece.id == m.piece.id {
      TraceMembers(es, m.piece.id, e);
    }
    if t != [] {
      assert t[0] in t;
    }
  }

  lemma AnchoredThenPending(w: World, ms: int, v: World)
    requires Valid(w) && v.arb == AdvanceTime(w.arb, ms).arb && Anchored(v)
    ensures forall m | m in Pending(w.arb, ms) && !Concluded(AdvanceTime(w.arb, ms).events, m.piece.id) :: At(v, m)
  {
    forall m | m in Pending(w.arb, ms) && !Concluded(AdvanceTime(w.arb, ms).events, m.piece.id) ensures At(v, m) {
      StillActive(w.arb, ms, m);
      assert At(v, Tick(m, ms));
    }
  }

  lemma PendingThenAnchored(w: World, ms: int, v: World)
    requires Valid(w) && v.arb == AdvanceTime(w.arb, ms).arb
    requires forall m | m in Pending(w.arb, ms) && !Concluded(AdvanceTime(w.arb, ms).events, m.piece.id) :: At(v, m)
    ensures Anchored(v)
  {
    AdvanceShape(w.arb, ms);
    forall k | k in v.arb.motions ensures At(v, k) {
      var m := Tick(k, -ms);
      assert m in w.arb.motions && Tick(m, ms) == k;
      StillActive(w.arb, ms, m);
      assert At(v, m);
    }
  }

  lemma AnchoredMeansPending(w: World, ms: int)
    requires Valid(w)
    ensures var es := AdvanceTime(w.arb, ms).events;
            Anchored(Wait(w, ms).world) <==>
            forall m | m in Pending(w.arb, ms) && !Concluded(es, m.piece.id) :: At(Wait(w, ms).world, m)
  {
    var es, v := AdvanceTime(w.arb, ms).events, Wait(w, ms).world;
    if Anchored(v) {
      AnchoredThenPending(w, ms, v);
    }
    if forall m | m in Pending(w.arb, ms) && !Concluded(es, m.piece.id) :: At(v, m) {
      PendingThenAnchored(w, ms, v);
    }
  }

  /** Main result: starting anchored, a tick keeps every active motion anchored, moves with each arrival and
      removes with each elimination exactly that event's own piece, if and only if it is clean. */
  lemma AnchoringExact(w: World, ms: int)
    requires Valid(w) && Anchored(w)
    ensures CleanTick(w.arb, ms) <==>
            Faithful(Ticked(w, ms), AdvanceTime(w.arb, ms).events) && Anchored(Wait(w, ms).world)
  {
    TickOrderly(w.arb, ms);
    forall m | m in Pending(w.arb, ms) ensures At(Ticked(w, ms), m) {
      assert At(w, m);
    }
    ReplayExact(Ticked(w, ms), AdvanceTime(w.arb, ms).events, Pending(w.arb, ms));
    AnchoredMeansPending(w, ms);
  }

  lemma CleanTickSucceeds(w: World, ms: int)
    requires Valid(w) && Anchored(w) && CleanTick(w.arb, ms)
    ensures Wait(w, ms).ok && Anchored(Wait(w, ms).world)
  {
    AnchoringExact(w, ms);
    FaithfulSucceeds(Ticked(w, ms), AdvanceTime(w.arb, ms).events);
  }
}
