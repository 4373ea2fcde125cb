/** What faithful events do to kinds, cells and presence on the board: the kings, the geometry of a run
    and the pieces a batch takes. */
module Replay {
  import opened Values
  import opened Arbitration
  import opened Rules
  import opened PieceFate
  import opened Engine
  import opened Anchoring

  /** The piece an own event takes off the board. */
  function Victim(w: World, e: Event): Option<PieceId> {
    if e.Elimination? then Some(e.piece.id)
    else if e.Arrival? && e.destination != e.fromPos && e.destination in w.board.grid
    then Some(w.board.grid[e.destination])
    else None
  }

  predicate Promotes(w: World, e: Event)
    requires Known(w.pieces, e.piece)
  {
    e.Arrival? && w.pieces[e.piece.id].kind == Pawn && e.destination.row == PromotionRow(e.piece.color, w.board.height)
  }

  /** Everything an own event does to a piece, whichever piece that is. */
  lemma OwnStep(w: World, e: Event, id: PieceId)
    requires BoardCoherent(w.board, w.pieces) && EventKnown(w, e) && Own(w, e) && id in w.pieces
    requires e.Arrival? ==> e.destination != e.fromPos
    ensures Applicable(w, e)
    ensures var v := ApplyEvent(w, e).world;
            && v.pieces[id].kind == (if id == e.piece.id && Promotes(w, e) then Queen else w.pieces[id].kind)
            && v.pieces[id].cell == (if id == e.piece.id && e.Arrival? then e.destination else w.pieces[id].cell)
            && (OnBoard(v, id) <==> OnBoard(w, id) && Victim(w, e) != Some(id))
            && v.gameOver == (w.gameOver || (Victim(w, e).Some? && w.pieces[Victim(w, e).value].kind == King))
  {
    if e.Arrival? {
      ArrivalPresence(w, e, id);
      if e.destination in w.board.grid && w.board.grid[e.destination] == e.piece.id {
        Injective(w, e.destination, e.fromPos);
      }
    } else if e.Elimination? {
      var v := ApplyEvent(w, e).world;
      if OnBoard(w, id) {
        var p :| p in w.board.grid && w.board.grid[p] == id;
        if id != e.piece.id {
          assert p in v.board.grid && v.board.grid[p] == id;
        } else {
          Injective(w, p, e.currentPos);
        }
      }
      forall p | p in w.board.grid && w.board.grid[p] == e.piece.id ensures p == e.currentPos {
        Injective(w, p, e.currentPos);
      }
    }
  }

  lemma ArrivalPresence(w: World, e: Event, id: PieceId)
    requires BoardCoherent(w.board, w.pieces) && EventKnown(w, e) && e.Arrival? && Own(w, e)
    requires e.destination != e.fromPos
    ensures OnBoard(ApplyArrival(w, e).world, id) <==> OnBoard(w, id) && Victim(w, e) != Some(id)
  {
    var g, h := w.board.grid, ApplyArrival(w, e).world.board.grid;
    if OnBoard(w, id) && Victim(w, e) != Some(id) {
      var p :| p in g && g[p] == id;
      if p == e.fromPos {
        assert h[e.destination] == id;
      } else {
        assert h[p] == id;
      }
    }
    if Victim(w, e) == Some(id) {
      OtherPiece(w, e.destination, e.fromPos);
      forall p | p in h ensures h[p] != id {
        if p != e.destination {
          OtherPiece(w, p, e.destination);
        }
      }
    }
  }

  // ----- the kings -----

  /** Some king is missing from the board. */
  ghost predicate KingMissing(w: World) {
    exists id :: id in w.pieces && w.pieces[id].kind == King && !OnBoard(w, id)
  }

  ghost predicate KingsTracked(w: World, forced: bool) {
    w.gameOver <==> forced || KingMissing(w)
  }

  ghost predicate Moved(es: seq<Event>) {
    forall e | e in es && e.Arrival? :: e.destination != e.fromPos
  }

  lemma StepKings(w: World, e: Event, forced: bool)
    requires BoardCoherent(w.board, w.pieces) && EventKnown(w, e) && Own(w, e)
    requires e.Arrival? ==> e.destination != e.fromPos
    requires KingsTracked(w, forced)
    ensures Applicable(w, e) && KingsTracked(ApplyEvent(w, e).world, forced)
  {
    OwnStep(w, e, e.piece.id);
    var v := ApplyEvent(w, e).world;
    forall id | id in w.pieces
      ensures v.pieces[id].kind == King <==> w.pieces[id].kind == King
      ensures OnBoard(v, id) <==> OnBoard(w, id) && Victim(w, e) != Some(id)
    {
      OwnStep(w, e, id);
    }
    if KingMissing(w) {
      var id :| id in w.pieces && w.pieces[id].kind == King && !OnBoard(w, id);
      assert id in v.pieces && v.pieces[id].kind == King && !OnBoard(v, id);
    }
    if Victim(w, e).Some? && w.pieces[Victim(w, e).value].kind == King {
      var id := Victim(w, e).value;
      assert id in v.pieces && v.pieces[id].kind == King && !OnBoard(v, id);
    }
  }

  lemma {:induction false} ReplayKings(w: World, es: seq<Event>, forced: bool)
    requires BoardCoherent(w.board, w.pieces) && AllKnown(w, es) && Faithful(w, es) && Moved(es)
    requires KingsTracked(w, forced)
    ensures KingsTracked(ApplyAll(w, es).world, forced)
  {
    if es == [] {
    } else {
      var n := |es| - 1;
      assert forall e | e in es[..n] :: e in es;
      assert es[n] in es;
      ReplayKings(w, es[..n], forced);
      FaithfulSucceeds(w, es[..n]);
      StepKings(ApplyAll(w, es[..n]).world, es[n], forced);
    }
  }

  // ----- geometry -----

  /** What can have become of a piece: pawns only advance or promote, bishops keep their square colour. */
  predicate Travelled(a: PieceRec, b: PieceRec) {
    && a.color == b.color
    && (a.kind == b.kind || (a.kind == Pawn && b.kind == Queen))
    && (b.kind == Pawn ==> Forward(b.color) * (b.cell.row - a.cell.row) >= 0)
    && (b.kind == Bishop ==> (b.cell.row + b.cell.col) % 2 == (a.cell.row + a.cell.col) % 2)
  }

  ghost predicate Travels(w: World, v: World) {
    w.pieces.Keys == v.pieces.Keys &&
    forall id | id in v.pieces && OnBoard(v, id) :: OnBoard(w, id) && Travelled(w.pieces[id], v.pieces[id])
  }

  lemma TravelsOn(u: World, v: World, w: World)
    requires Travels(u, v) && Travels(v, w)
    ensures Travels(u, w)
  {
  }

  /** No pawn stands on its promotion row. */
  ghost predicate PawnsShort(w: World) {
    forall id | id in w.pieces && OnBoard(w, id) && w.pieces[id].kind == Pawn ::
      w.pieces[id].cell.row != PromotionRow(w.pieces[id].color, w.board.height)
  }

  /** The arrival is a displacement of the piece's present kind. */
  ghost predicate Shaped(w: World, e: Event)
    requires Known(w.pieces, e.piece)
  {
    e.Arrival? ==> Shape(w.pieces[e.piece.id].kind, e.piece.color, e.fromPos, e.destination)
  }

  /** Displacements of pawns go forward, and those of bishops keep the color of the square. */
  lemma ShapeTravels(kind: Kind, color: Color, p: Position, q: Position)
    requires Shape(kind, color, p, q)
    ensures kind == Pawn ==> Forward(color) * (q.row - p.row) >= 0
    ensures kind == Bishop ==> (q.row + q.col) % 2 == (p.row + p.col) % 2
  {
  }

  /** One event from the point of view of one piece that stays on the board. */
  lemma StepGeometryOf(w: World, e: Event, id: PieceId)
    requires BoardCoherent(w.board, w.pieces) && EventKnown(w, e) && Own(w, e) && Shaped(w, e)
    requires e.Arrival? ==> e.destination != e.fromPos
    requires id in w.pieces && Applicable(w, e) && OnBoard(ApplyEvent(w, e).world, id)
    ensures OnBoard(w, id) && Travelled(w.pieces[id], ApplyEvent(w, e).world.pieces[id])
    ensures PawnsShort(w) && ApplyEvent(w, e).world.pieces[id].kind == Pawn ==>
            ApplyEvent(w, e).world.pieces[id].cell.row != PromotionRow(w.pieces[id].color, w.board.height)
  {
    OwnStep(w, e, id);
    if e.Arrival? && id == e.piece.id {
      assert w.pieces[id].cell == e.fromPos && w.pieces[id].color == e.piece.color;
      ShapeTravels(w.pieces[id].kind, e.piece.color, e.fromPos, e.destination);
    }
  }

  lemma StepGeometry(w: World, e: Event)
    requires BoardCoherent(w.board, w.pieces) && EventKnown(w, e) && Own(w, e) && Shaped(w, e)
    requires e.Arrival? ==> e.destination != e.fromPos
    ensures Applicable(w, e) && Travels(w, ApplyEvent(w, e).world)
    ensures PawnsShort(w) ==> PawnsShort(ApplyEvent(w, e).world)
  {
    OwnStep(w, e, e.piece.id);
    var v := ApplyEvent(w, e).world;
    forall id | id in v.pieces && OnBoard(v, id)
      ensures OnBoard(w, id) && Travelled(w.pieces[id], v.pieces[id])
      ensures PawnsShort(w) && v.pieces[id].kind == Pawn ==>
              v.pieces[id].cell.row != PromotionRow(v.pieces[id].color, v.board.height)
    {
      StepGeometryOf(w, e, id);
    }
  }

  /** A piece keeps its kind until an event concludes its motion. */
  lemma {:induction false} KindKept(w: World, es: seq<Event>, id: PieceId)
    requires BoardCoherent(w.board, w.pieces) && AllKnown(w, es) && Faithful(w, es) && Moved(es)
    requires id in w.pieces && !Concluded(es, id)
    ensures ApplyAll(w, es).world.pieces[id].kind == w.pieces[id].kind
  {
    if es == [] {
    } else {
      var n := |es| - 1;
      assert forall e | e in es[..n] :: e in es;
      assert es[n] in es;
      KindKept(w, es[..n], id);
      FaithfulSucceeds(w, es[..n]);
      OwnStep(ApplyAll(w, es[..n]).world, es[n], id);
    }
  }

  lemma {:induction false} ReplayGeometry(w: World, es: seq<Event>, pending: set<Motion>)
    requires BoardCoherent(w.board, w.pieces) && AllKnown(w, es) && Faithful(w, es) && Moved(es)
    requires Orderly(pending, es) && forall e | e in es :: Shaped(w, e)
    ensures Travels(w, ApplyAll(w, es).world)
    ensures PawnsShort(w) ==> PawnsShort(ApplyAll(w, es).world)
  {
    if es == [] {
    } else {
      var n := |es| - 1;
      assert forall e | e in es[..n] :: e in es;
      assert es[n] in es;
      OrderlyPrefix(pending, es);
      ReplayGeometry(w, es[..n], pending);
      FaithfulSucceeds(w, es[..n]);
      var v := ApplyAll(w, es[..n]).world;
      if es[n].Arrival? {
        KindKept(w, es[..n], es[n].piece.id);
      }
      StepGeometry(v, es[n]);
      TravelsOn(w, v, ApplyAll(w, es).world);
    }
  }
}
