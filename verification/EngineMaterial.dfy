/** Material is conserved: what leaves the board is scored, what is promoted is counted. */
module Material {
  import opened Values
  import opened Arbitration
  import opened Engine
  import opened Anchoring
  import opened Replay
  import opened Stats

  /** The value each piece contributes to the board. */
  ghost function WorthMap(values: map<Kind, int>, w: World): map<PieceId, int> {
    map id | id in w.pieces :: if OnBoard(w, id) then Worth(values, w.pieces[id].kind) else 0
  }

  ghost function Total(f: map<PieceId, int>, ids: seq<PieceId>): int
    requires forall id | id in ids :: id in f
  {
    if ids == [] then 0 else
      assert ids[|ids| - 1] in ids;
      Total(f, ids[..|ids| - 1]) + f[ids[|ids| - 1]]
  }

  /** A listing of all pieces of the game, each once. */
  ghost predicate Lists(ids: seq<PieceId>, w: World) {
    NoRepeats(ids) && forall id :: id in ids <==> id in w.pieces
  }

  /** The value of the pieces on the board. */
  ghost function BoardValue(values: map<Kind, int>, w: World, ids: seq<PieceId>): int
    requires Lists(ids, w)
  {
    Total(WorthMap(values, w), ids)
  }

  lemma {:induction false} TotalUpdate(f: map<PieceId, int>, ids: seq<PieceId>, x: PieceId, y: int)
    requires NoRepeats(ids) && x in f && forall id | id in ids :: id in f
    ensures Total(f[x := y], ids) == Total(f, ids) + if x in ids then y - f[x] else 0
  {
    if ids == [] {
    } else {
      var n := |ids| - 1;
      assert ids == ids[..n] + [ids[n]];
      TotalUpdate(f, ids[..n], x, y);
    }
  }

  function PromotionGain(values: map<Kind, int>): int {
    Worth(values, Queen) - Worth(values, Pawn)
  }

  lemma VictimIsOther(w: World, e: Event)
    requires BoardCoherent(w.board, w.pieces) && Own(w, e) && e.Arrival?
    ensures Victim(w, e) != Some(e.piece.id)
  {
    if e.destination in w.board.grid && w.board.grid[e.destination] == e.piece.id {
      Injective(w, e.destination, e.fromPos);
    }
  }

  /** The contributions after an own event. */
  ghost function WorthAfter(values: map<Kind, int>, w: World, e: Event): map<PieceId, int>
    requires Known(w.pieces, e.piece)
  {
    var f := WorthMap(values, w);
    var g := if Victim(w, e).Some? then f[Victim(w, e).value := 0] else f;
    if Promotes(w, e) then g[e.piece.id := Worth(values, Queen)] else g
  }

  /** What an own event does to one piece, in the terms of its worth. */
  lemma StepWorthOf(values: map<Kind, int>, w: World, e: Event, id: PieceId)
    requires BoardCoherent(w.board, w.pieces) && EventKnown(w, e) && Own(w, e) && id in w.pieces
    requires e.Arrival? ==> e.destination != e.fromPos
    ensures Applicable(w, e) && WorthMap(values, ApplyEvent(w, e).world)[id] == WorthAfter(values, w, e)[id]
  {
    OwnStep(w, e, id);
    if e.Arrival? {
      VictimIsOther(w, e);
      OwnStep(w, e, e.piece.id);
    }
  }

  lemma StepWorth(values: map<Kind, int>, w: World, e: Event)
    requires BoardCoherent(w.board, w.pieces) && EventKnown(w, e) && Own(w, e)
    requires e.Arrival? ==> e.destination != e.fromPos
    ensures Applicable(w, e) && WorthMap(values, ApplyEvent(w, e).world) == WorthAfter(values, w, e)
  {
    forall id | id in w.pieces
      ensures Applicable(w, e) && WorthMap(values, ApplyEvent(w, e).world)[id] == WorthAfter(values, w, e)[id]
    {
      StepWorthOf(values, w, e, id);
    }
    OwnStep(w, e, e.piece.id);
    assert WorthAfter(values, w, e).Keys == w.pieces.Keys;
  }

  lemma StepMaterial(values: map<Kind, int>, w: World, e: Event, ids: seq<PieceId>)
    requires BoardCoherent(w.board, w.pieces) && EventKnown(w, e) && Own(w, e) && Lists(ids, w)
    requires e.Arrival? ==> e.destination != e.fromPos
    ensures Applicable(w, e) && Lists(ids, ApplyEvent(w, e).world)
    ensures BoardValue(values, ApplyEvent(w, e).world, ids) ==
            BoardValue(values, w, ids)
            - (if Victim(w, e).Some? then Worth(values, w.pieces[Victim(w, e).value].kind) else 0)
            + (if Promotes(w, e) then PromotionGain(values) else 0)
  {
    StepWorth(values, w, e);
    var f := WorthMap(values, w);
    var g := f;
    if Victim(w, e).Some? {
      var x := Victim(w, e).value;
      assert OnBoard(w, x);
      TotalUpdate(f, ids, x, 0);
      g := f[x := 0];
    }
    if Promotes(w, e) {
      VictimIsOther(w, e);
      assert g[e.piece.id] == Worth(values, Pawn);
      TotalUpdate(g, ids, e.piece.id, Worth(values, Queen));
    }
  }

  // ----- gains -----

  function GainOf(values: map<Kind, int>, pieces: map<PieceId, PieceRec>, e: Event): int
    requires Recordable(e, pieces)
  {
    match e
    case Arrival(_, _, _, captured, _) => if captured.Some? then Worth(values, pieces[captured.value].kind) else 0
    case Elimination(piece, _) => Worth(values, pieces[piece.id].kind)
    case _ => 0
  }

  ghost predicate AllRecordable(es: seq<Event>, pieces: map<PieceId, PieceRec>) {
    forall e | e in es :: Recordable(e, pieces)
  }

  function Gains(values: map<Kind, int>, pieces: map<PieceId, PieceRec>, es: seq<Event>): int
    requires AllRecordable(es, pieces)
  {
    if es == [] then 0 else
      var n := |es| - 1;
      assert es[n] in es;
      Gains(values, pieces, es[..n]) + GainOf(values, pieces, es[n])
  }

  predicate CountsAsPromotion(e: Event, height: int) {
    e.Arrival? && e.formerKind == Some(Pawn) && e.destination.row == PromotionRow(e.piece.color, height)
  }

  function Promotions(es: seq<Event>, height: int): nat {
    if es == [] then 0 else
      var n := |es| - 1;
      Promotions(es[..n], height) + if CountsAsPromotion(es[n], height) then 1 else 0
  }

  function ArrivalCount(es: seq<Event>): nat {
    if es == [] then 0 else ArrivalCount(es[..|es| - 1]) + if es[|es| - 1].Arrival? then 1 else 0
  }

  /** The piece that an applied event took. */
  function Taken(e: Event): Option<PieceId> {
    if e.Elimination? then Some(e.piece.id) else if e.Arrival? then e.captured else None
  }

  /** Whatever the events took is off the board. */
  ghost predicate TakenAreOff(w: World, es: seq<Event>) {
    forall e | e in es && Taken(e).Some? :: Taken(e).value in w.pieces && !OnBoard(w, Taken(e).value)
  }

  /** Scores depend only on kinds of pieces that are gone, so a later event does not change them. */
  lemma {:induction false} GainsFrozen(values: map<Kind, int>, w: World, v: World, es: seq<Event>)
    requires AllRecordable(es, w.pieces) && AllRecordable(es, v.pieces) && TakenAreOff(w, es)
    requires w.pieces.Keys == v.pieces.Keys
    requires forall id | id in w.pieces && !OnBoard(w, id) :: v.pieces[id].kind == w.pieces[id].kind
    ensures Gains(values, v.pieces, es) == Gains(values, w.pieces, es)
  {
    if es == [] {
    } else {
      var n := |es| - 1;
      assert es[n] in es;
      assert forall e | e in es[..n] :: e in es;
      GainsFrozen(values, w, v, es[..n]);
    }
  }

  ghost predicate ColumnsFit(w: World) {
    w.board.width <= |COL_LETTERS|
  }

  lemma FitsLettered(w: World, es: seq<Event>)
    requires AllKnown(w, es) && ColumnsFit(w)
    ensures forall e | e in es :: Lettered(e)
  {
  }

  /** Recording depends only on which pieces exist. */
  lemma SameRecordable(es: seq<Event>, x: map<PieceId, PieceRec>, y: map<PieceId, PieceRec>)
    requires x.Keys == y.Keys
    ensures AllRecordable(es, x) <==> AllRecordable(es, y)
  {
    forall e ensures Recordable(e, x) <==> Recordable(e, y) {
    }
  }

  lemma RecordableSnoc(es: seq<Event>, e: Event, pieces: map<PieceId, PieceRec>)
    ensures AllRecordable(es + [e], pieces) <==> AllRecordable(es, pieces) && Recordable(e, pieces)
  {
    assert e in es + [e];
    assert forall x | x in es :: x in es + [e];
  }

  lemma StepRecordable(w: World, e: Event)
    requires BoardCoherent(w.board, w.pieces) && EventKnown(w, e) && Applicable(w, e)
    ensures Recordable(ApplyEvent(w, e).event, ApplyEvent(w, e).world.pieces) <==> Lettered(e)
  {
  }

  /** What a batch did, clean or not, can be recorded exactly when every column it used has a letter. */
  lemma {:induction false} BatchRecordable(w: World, es: seq<Event>)
    requires BoardCoherent(w.board, w.pieces) && AllKnown(w, es) && ApplyAll(w, es).ok
    ensures AllRecordable(ApplyAll(w, es).done, ApplyAll(w, es).world.pieces) <==> forall e | e in es :: Lettered(e)
  {
    if es == [] {
    } else {
      var n := |es| - 1;
      assert es == es[..n] + [es[n]];
      assert forall e | e in es[..n] :: e in es;
      BatchRecordable(w, es[..n]);
      LastApplied(w, es);
      var before := ApplyAll(w, es[..n]);
      var last := ApplyEvent(before.world, es[n]);
      StepRecordable(before.world, es[n]);
      SameRecordable(before.done, before.world.pieces, last.world.pieces);
      RecordableSnoc(before.done, last.event, last.world.pieces);
    }
  }

  /** One event of a faithful replay. */
  lemma StepTaken(w: World, e: Event, done: seq<Event>)
    requires BoardCoherent(w.board, w.pieces) && EventKnown(w, e) && Own(w, e) && Lettered(e)
    requires e.Arrival? ==> e.destination != e.fromPos && e.captured == None && e.formerKind == None
    requires AllRecordable(done, w.pieces) && TakenAreOff(w, done)
    ensures Applicable(w, e)
    ensures var a := ApplyEvent(w, e);
            && AllRecordable(done + [a.event], a.world.pieces) && TakenAreOff(a.world, done + [a.event])
            && Taken(a.event) == Victim(w, e)
            && (CountsAsPromotion(a.event, w.board.height) <==> Promotes(w, e))
            && a.event.Arrival? == e.Arrival?
    ensures forall id | id in w.pieces && !OnBoard(w, id) ::
              ApplyEvent(w, e).world.pieces[id].kind == w.pieces[id].kind
  {
    OwnStep(w, e, e.piece.id);
    var a := ApplyEvent(w, e);
    forall id | id in w.pieces
      ensures OnBoard(a.world, id) <==> OnBoard(w, id) && Victim(w, e) != Some(id)
      ensures !OnBoard(w, id) ==> a.world.pieces[id].kind == w.pieces[id].kind
    {
      OwnStep(w, e, id);
    }
    forall x | x in done + [a.event]
      ensures Recordable(x, a.world.pieces)
      ensures Taken(x).Some? ==> Taken(x).value in a.world.pieces && !OnBoard(a.world, Taken(x).value)
    {
      assert x in done || x == a.event;
    }
  }

  /** The books of a replay: value on the board plus value taken is constant up to promotions. */
  ghost predicate Booked(values: map<Kind, int>, w: World, r: Batch, ids: seq<PieceId>)
    requires Lists(ids, w)
  {
    && r.ok && AllRecordable(r.done, r.world.pieces) && TakenAreOff(r.world, r.done) && Lists(ids, r.world)
    && BoardValue(values, r.world, ids) + Gains(values, r.world.pieces, r.done)
       == BoardValue(values, w, ids) + PromotionGain(values) * Promotions(r.done, w.board.height)
  }

  /** Gains and promotions after one more event. */
  lemma StepGains(values: map<Kind, int>, w: World, e: Event, done: seq<Event>)
    requires BoardCoherent(w.board, w.pieces) && EventKnown(w, e) && Own(w, e) && Lettered(e)
    requires e.Arrival? ==> e.destination != e.fromPos && e.captured == None && e.formerKind == None
    requires AllRecordable(done, w.pieces) && TakenAreOff(w, done)
    ensures Applicable(w, e) && AllRecordable(done + [ApplyEvent(w, e).event], ApplyEvent(w, e).world.pieces)
    ensures Gains(values, ApplyEvent(w, e).world.pieces, done + [ApplyEvent(w, e).event])
         == Gains(values, w.pieces, done)
            + if Victim(w, e).Some? then Worth(values, w.pieces[Victim(w, e).value].kind) else 0
    ensures Promotions(done + [ApplyEvent(w, e).event], w.board.height)
         == Promotions(done, w.board.height) + if Promotes(w, e) then 1 else 0
  {
    StepTaken(w, e, done);
    var last := ApplyEvent(w, e);
    assert AllRecordable(done, last.world.pieces) by {
      assert forall x | x in done :: x in done + [last.event];
    }
    GainsFrozen(values, w, last.world, done);
    GainsSnoc(values, last.world.pieces, done, last.event, w.board.height);
    LastGain(values, w, e);
  }

  /** The sum that the books keep, after one more event. */
  lemma StepBalance(values: map<Kind, int>, w: World, e: Event, done: seq<Event>, ids: seq<PieceId>, start: int)
    requires BoardCoherent(w.board, w.pieces) && EventKnown(w, e) && Own(w, e) && Lettered(e)
    requires e.Arrival? ==> e.destination != e.fromPos && e.captured == None && e.formerKind == None
    requires AllRecordable(done, w.pieces) && TakenAreOff(w, done) && Lists(ids, w)
    requires BoardValue(values, w, ids) + Gains(values, w.pieces, done)
             == start + PromotionGain(values) * Promotions(done, w.board.height)
    ensures Applicable(w, e) && Lists(ids, ApplyEvent(w, e).world)
    ensures AllRecordable(done + [ApplyEvent(w, e).event], ApplyEvent(w, e).world.pieces)
    ensures BoardValue(values, ApplyEvent(w, e).world, ids)
            + Gains(values, ApplyEvent(w, e).world.pieces, done + [ApplyEvent(w, e).event])
         == start + PromotionGain(values) * Promotions(done + [ApplyEvent(w, e).event], w.board.height)
  {
    StepMaterial(values, w, e, ids);
    StepGains(values, w, e, done);
    OneMore(PromotionGain(values), Promotions(done, w.board.height));
  }

  lemma StepBooked(values: map<Kind, int>, w: World, r: Batch, e: Event, ids: seq<PieceId>)
    requires BoardCoherent(r.world.board, r.world.pieces) && EventKnown(r.world, e) && Own(r.world, e)
    requires Lettered(e) && r.world.board.height == w.board.height
    requires e.Arrival? ==> e.destination != e.fromPos && e.captured == None && e.formerKind == None
    requires Lists(ids, w) && Booked(values, w, r, ids)
    ensures Applicable(r.world, e)
    ensures Booked(values, w, Batch(ApplyEvent(r.world, e).world, r.done + [ApplyEvent(r.world, e).event], true), ids)
  {
    StepTaken(r.world, e, r.done);
    StepBalance(values, r.world, e, r.done, ids, BoardValue(values, w, ids));
  }

  lemma OneMore(c: int, n: int)
    ensures c * (n + 1) == c * n + c
  {
  }

  lemma GainsSnoc(values: map<Kind, int>, pieces: map<PieceId, PieceRec>, es: seq<Event>, e: Event, height: int)
    requires AllRecordable(es + [e], pieces) && AllRecordable(es, pieces)
    ensures Recordable(e, pieces)
    ensures Gains(values, pieces, es + [e]) == Gains(values, pieces, es) + GainOf(values, pieces, e)
    ensures Promotions(es + [e], height) == Promotions(es, height) + if CountsAsPromotion(e, height) then 1 else 0
  {
    assert e in es + [e];
    assert (es + [e])[..|es|] == es;
  }

  /** The last event of a replay. */
  lemma LastApplied(w: World, es: seq<Event>)
    requires BoardCoherent(w.board, w.pieces) && AllKnown(w, es) && es != [] && AllKnown(w, es[..|es| - 1])
    requires ApplyAll(w, es[..|es| - 1]).ok && Applicable(ApplyAll(w, es[..|es| - 1]).world, es[|es| - 1])
    ensures EventKnown(ApplyAll(w, es[..|es| - 1]).world, es[|es| - 1])
    ensures var before := ApplyAll(w, es[..|es| - 1]);
            var last := ApplyEvent(before.world, es[|es| - 1]);
            ApplyAll(w, es) == Batch(last.world, before.done + [last.event], true)
  {
    assert es[|es| - 1] in es;
  }

  lemma {:induction false} ReplayMaterial(values: map<Kind, int>, w: World, es: seq<Event>, ids: seq<PieceId>)
    requires BoardCoherent(w.board, w.pieces) && AllKnown(w, es) && Faithful(w, es) && Moved(es)
    requires Lists(ids, w) && forall e | e in es :: Lettered(e)
    requires forall e | e in es && e.Arrival? :: e.captured == None && e.formerKind == None
    ensures Booked(values, w, ApplyAll(w, es), ids)
  {
    if es == [] {
    } else {
      var n := |es| - 1;
      assert forall e | e in es[..n] :: e in es;
      assert es[n] in es;
      ReplayMaterial(values, w, es[..n], ids);
      var before := ApplyAll(w, es[..n]);
      StepBooked(values, w, before, es[n], ids);
      LastApplied(w, es);
    }
  }

  lemma {:induction false} DoneArrivals(w: World, es: seq<Event>)
    requires BoardCoherent(w.board, w.pieces) && AllKnown(w, es) && ApplyAll(w, es).ok
    ensures ArrivalCount(ApplyAll(w, es).done) == ArrivalCount(es)
  {
    if es == [] {
    } else {
      var n := |es| - 1;
      assert forall e | e in es[..n] :: e in es;
      DoneArrivals(w, es[..n]);
      var before := ApplyAll(w, es[..n]);
      LastApplied(w, es);
      assert (before.done + [ApplyEvent(before.world, es[n]).event])[..n] == before.done;
    }
  }

  lemma LastGain(values: map<Kind, int>, w: World, e: Event)
    requires BoardCoherent(w.board, w.pieces) && EventKnown(w, e) && Own(w, e) && Lettered(e)
    requires e.Arrival? ==> e.destination != e.fromPos && e.captured == None && e.formerKind == None
    ensures Applicable(w, e) && Recordable(ApplyEvent(w, e).event, ApplyEvent(w, e).world.pieces)
    ensures GainOf(values, ApplyEvent(w, e).world.pieces, ApplyEvent(w, e).event)
         == if Victim(w, e).Some? then Worth(values, w.pieces[Victim(w, e).value].kind) else 0
  {
    StepTaken(w, e, []);
    var a := ApplyEvent(w, e);
    assert a.event in [] + [a.event];
    if e.Arrival? {
      VictimIsOther(w, e);
    }
    if Victim(w, e).Some? {
      OwnStep(w, e, Victim(w, e).value);
    }
  }

  // ----- the tracker -----

  /** History entries carry times that never decrease and never lie in the future. */
  ghost predicate Chronological(t: Tracker) {
    && (forall i, j | 0 <= i < j < |t.history| :: t.history[i].elapsedMs <= t.history[j].elapsedMs)
    && (forall i | 0 <= i < |t.history| :: t.history[i].elapsedMs <= t.elapsedMs)
  }

  /** u is t after recording the events. */
  ghost predicate Recorded(t: Tracker, u: Tracker, gains: int, arrivals: nat) {
    && u.white + u.black == t.white + t.black + gains
    && |u.history| == |t.history| + arrivals
    && u.values == t.values && u.boardHeight == t.boardHeight
  }

  lemma RecordTotals(t: Tracker, e: Event, pieces: map<PieceId, PieceRec>)
    requires Recordable(e, pieces)
    ensures Recorded(t, Record(t, e, pieces), GainOf(t.values, pieces, e), if e.Arrival? then 1 else 0)
    ensures Record(t, e, pieces).elapsedMs == t.elapsedMs
    ensures Chronological(t) ==> Chronological(Record(t, e, pieces))
  {
  }

  lemma {:induction false} RecordAllTotals(t: Tracker, es: seq<Event>, pieces: map<PieceId, PieceRec>)
    ensures RecordAll(t, es, pieces).ok <==> AllRecordable(es, pieces)
    ensures AllRecordable(es, pieces) ==>
              Recorded(t, RecordAll(t, es, pieces).tracker, Gains(t.values, pieces, es), ArrivalCount(es))
  {
    if es == [] {
    } else {
      var n := |es| - 1;
      RecordAllTotals(t, es[..n], pieces);
      assert es == es[..n] + [es[n]];
      RecordableSnoc(es[..n], es[n], pieces);
      if AllRecordable(es, pieces) {
        RecordTotals(RecordAll(t, es[..n], pieces).tracker, es[n], pieces);
      }
    }
  }

  /** Also when recording stops at an error. */
  lemma {:induction false} RecordAllChronological(t: Tracker, es: seq<Event>, pieces: map<PieceId, PieceRec>)
    requires Chronological(t)
    ensures Chronological(RecordAll(t, es, pieces).tracker)
  {
    if es == [] {
    } else {
      var n := |es| - 1;
      RecordAllChronological(t, es[..n], pieces);
      var before := RecordAll(t, es[..n], pieces);
      if before.ok && Recordable(es[n], pieces) {
        RecordTotals(before.tracker, es[n], pieces);
      }
    }
  }

  /** The tracker takes a whole batch exactly when all of it can be recorded. */
  lemma ProcessTotals(t: Tracker, es: seq<Event>, dt: int, pieces: map<PieceId, PieceRec>)
    ensures Process(t, es, dt, pieces).ok <==> AllRecordable(es, pieces)
    ensures AllRecordable(es, pieces) ==>
              Recorded(t, Process(t, es, dt, pieces).tracker, Gains(t.values, pieces, es), ArrivalCount(es))
  {
    RecordAllTotals(t.(elapsedMs := t.elapsedMs + dt), es, pieces);
  }

  lemma ProcessChronological(t: Tracker, es: seq<Event>, dt: nat, pieces: map<PieceId, PieceRec>)
    requires Chronological(t)
    ensures Chronological(Process(t, es, dt, pieces).tracker)
  {
    RecordAllChronological(t.(elapsedMs := t.elapsedMs + dt), es, pieces);
  }
}
