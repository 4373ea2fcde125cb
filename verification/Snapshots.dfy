/** How far a motion has got, as clients are shown it. */
module Snapshots {
  import opened Values
  import opened Arbitration
  import opened Rules
  import opened PieceFate
  import opened SimulatedTime
  import opened Engine
  import opened Soundness
  import opened Calmness
  import opened Runs
  import opened Endgame

  /** The first motion of a piece. */
  function MotionFor(ms: seq<Motion>, id: PieceId): Option<Motion> {
    if ms == [] then None
    else if ms[0].piece.id == id then Some(ms[0])
    else MotionFor(ms[1..], id)
  }

  lemma {:induction false} MotionForFound(ms: seq<Motion>, id: PieceId)
    ensures MotionFor(ms, id) == None <==> !InMotion(ms, id)
    ensures MotionFor(ms, id).Some? ==> MotionFor(ms, id).value in ms && MotionFor(ms, id).value.piece.id == id
  {
    if ms == [] {
    } else {
      assert ms == [ms[0]] + ms[1..] && ms[0] in ms;
      MotionForFound(ms[1..], id);
    }
  }

  lemma MotionForUnique(ms: seq<Motion>, m: Motion)
    requires DistinctMotions(ms) && m in ms
    ensures MotionFor(ms, m.piece.id) == Some(m)
  {
    MotionForFound(ms, m.piece.id);
    UniqueMotion(ms, m, MotionFor(ms, m.piece.id).value);
  }

  /** The target and the fraction of the way covered; nothing and 1 for a piece that stands still. */
  datatype Info = Info(target: Option<Position>, progress: real)

  function Fraction(total: int, remaining: int): real
    requires total > 0
  {
    var t := (total - remaining) as real / total as real;
    if t < 1.0 then t else 1.0
  }

  function InfoOf(m: Motion, msPerSquare: int): Info {
    if m.Jump? || m.toPos == m.fromPos then Info(None, 1.0)
    else
      var total := Distance(m.fromPos, m.toPos) * msPerSquare;
      Info(Some(m.toPos), if total > 0 then Fraction(total, m.remaining) else 1.0)
  }

  function MotionInfo(a: Arbiter, id: PieceId): Info {
    match MotionFor(a.motions, id)
    case None => Info(None, 1.0)
    case Some(m) => InfoOf(m, a.timing.msPerSquare)
  }

  // ----- time left -----

  predicate Positive(t: Timing) {
    t.msPerSquare > 0 && t.jumpMs > 0
  }

  function FullTime(t: Timing, m: Motion): int {
    if m.Move? then Distance(m.fromPos, m.toPos) * t.msPerSquare else t.jumpMs
  }

  /** Every motion has some time left, and no more than it started with. */
  ghost predicate OnSchedule(a: Arbiter) {
    forall m | m in a.motions :: 0 < m.remaining <= FullTime(a.timing, m) && (m.Move? ==> m.toPos != m.fromPos)
  }

  lemma StartOnSchedule(a: Arbiter, piece: Token, source: Position, destination: Position)
    requires OnSchedule(a) && Positive(a.timing) && source != destination
    ensures OnSchedule(StartMotion(a, piece, source, destination))
  {
    assert Distance(source, destination) >= 1;
    assert Distance(source, destination) * a.timing.msPerSquare >= a.timing.msPerSquare;
  }

  lemma PerformOnSchedule(g: Game, c: Command)
    requires Sound(g.world) && g.ok && Positive(g.world.arb.timing) && OnSchedule(g.world.arb)
    requires c.Pass? ==> 0 <= c.ms
    ensures Perform(g, c).world.arb.timing == g.world.arb.timing && OnSchedule(Perform(g, c).world.arb)
  {
    var w := g.world;
    match c
    case Request(source, destination) =>
      if RequestMove(w, source, destination).1 == Ok {
        LegalShape(w.board, w.pieces, w.allowFriendly, source, destination);
        StartOnSchedule(w.arb, TokenOf(w, w.board.grid[source]), source, destination);
      }
    case Leap(_) =>
    case Resign(_) =>
    case Pass(ms) =>
      AdvanceShape(w.arb, ms);
      TimingKept(w.arb, ms);
      forall m | m in AdvanceTime(w.arb, ms).arb.motions ensures 0 < m.remaining <= FullTime(w.arb.timing, m) {
        assert Tick(m, -ms) in w.arb.motions;
      }
  }

  lemma TimingKept(a: Arbiter, ms: int)
    ensures AdvanceTime(a, ms).arb.timing == a.timing
  {
    MotionConservation.AdvanceRests(a, ms);
  }

  /** Main result: along every run with non-negative ticks, clean or not, the time left of every motion stays
      in (0, the time it started with]. */
  lemma {:induction false} RunOnSchedule(g: Game, cs: seq<Command>)
    requires Sound(g.world) && g.ok && Positive(g.world.arb.timing) && OnSchedule(g.world.arb)
    requires forall c | c in cs && c.Pass? :: 0 <= c.ms
    ensures Run(g, cs).world.arb.timing == g.world.arb.timing && OnSchedule(Run(g, cs).world.arb)
  {
    if cs == [] {
    } else {
      var n := |cs| - 1;
      assert cs[n] in cs && forall c | c in cs[..n] :: c in cs;
      RunOnSchedule(g, cs[..n]);
      if Run(g, cs[..n]).ok {
        PerformOnSchedule(Run(g, cs[..n]), cs[n]);
      }
    }
  }

  // ----- progress -----

  lemma FractionInRange(total: int, remaining: int)
    requires 0 < remaining <= total
    ensures 0.0 <= Fraction(total, remaining) < 1.0
    ensures Fraction(total, remaining) == (total - remaining) as real / total as real
  {
    var x, y := (total - remaining) as real, total as real;
    assert x < y && x / y < y / y;
  }

  lemma Divides(x: real, y: real, d: real)
    requires x <= y && 0.0 < d
    ensures x / d <= y / d
  {
    assert y / d - x / d == (y - x) / d;
  }

  lemma FractionGrows(total: int, remaining: int, later: int)
    requires 0 < later <= remaining <= total
    ensures Fraction(total, remaining) <= Fraction(total, later)
  {
    FractionInRange(total, remaining);
    FractionInRange(total, later);
    Divides((total - remaining) as real, (total - later) as real, total as real);
  }

  /** A MOVE in flight is shown with its target and a fraction in [0, 1). */
  lemma ProgressInRange(a: Arbiter, m: Motion)
    requires OnSchedule(a) && DistinctMotions(a.motions) && m in a.motions && m.Move?
    ensures MotionInfo(a, m.piece.id).target == Some(m.toPos)
    ensures 0.0 <= MotionInfo(a, m.piece.id).progress < 1.0
    ensures MotionInfo(a, m.piece.id).progress
         == (FullTime(a.timing, m) - m.remaining) as real / FullTime(a.timing, m) as real
  {
    MotionForUnique(a.motions, m);
    FractionInRange(FullTime(a.timing, m), m.remaining);
  }

  /** The fraction of a MOVE of n squares: the time gone over the time of n squares. */
  lemma ProgressTells(a: Arbiter, m: Motion, n: int)
    requires OnSchedule(a) && DistinctMotions(a.motions) && m in a.motions && m.Move?
    requires -n <= m.toPos.row - m.fromPos.row <= n && -n <= m.toPos.col - m.fromPos.col <= n
    requires m.toPos.row - m.fromPos.row in {n, -n} || m.toPos.col - m.fromPos.col in {n, -n}
    ensures 0 < n * a.timing.msPerSquare
    ensures MotionInfo(a, m.piece.id).progress
         == (n * a.timing.msPerSquare - m.remaining) as real / (n * a.timing.msPerSquare) as real
  {
    assert Distance(m.fromPos, m.toPos) == n;
    ProgressInRange(a, m);
  }

  /** A piece that jumps or has no motion is shown in place. */
  lemma ShownInPlace(a: Arbiter, id: PieceId)
    requires forall m | m in a.motions && m.piece.id == id :: m.Jump?
    ensures MotionInfo(a, id) == Info(None, 1.0)
  {
    MotionForFound(a.motions, id);
  }

  /** The piece is in motion at the start and after every command. */
  ghost predicate KeepsMoving(g: Game, cs: seq<Command>, id: PieceId)
    requires Sound(g.world) && g.ok
  {
    && InMotion(Run(g, cs).world.arb.motions, id)
    && (cs == [] || KeepsMoving(g, cs[..|cs| - 1], id))
  }

  lemma StepIsOneMotion(g: Game, c: Command, k: Motion)
    requires Sound(g.world) && g.ok && Perform(g, c).ok && k in g.world.arb.motions
    requires InMotion(Perform(g, c).world.arb.motions, k.piece.id)
    ensures Tick(k, Passed([c])) in Perform(g, c).world.arb.motions
  {
    assert Passed([c]) == Passed([]) + if c.Pass? then c.ms else 0;
    if c.Pass? {
      MotionsOfPiece(g.world.arb, c.ms, k);
      var x :| x in Perform(g, c).world.arb.motions && x.piece.id == k.piece.id;
    } else {
      assert Tick(k, 0) == k;
    }
  }

  lemma PassedNext(cs: seq<Command>)
    requires cs != []
    ensures Passed(cs) == Passed(cs[..|cs| - 1]) + Passed([cs[|cs| - 1]])
  {
    assert [cs[|cs| - 1]][..0] == [];
  }

  /** As long as a piece keeps moving it is in the same motion, shortened by the time passed. */
  lemma {:induction false} FlightIsOneMotion(g: Game, cs: seq<Command>, m: Motion)
    requires Sound(g.world) && g.ok && m in g.world.arb.motions && Run(g, cs).ok && KeepsMoving(g, cs, m.piece.id)
    ensures Tick(m, Passed(cs)) in Run(g, cs).world.arb.motions
  {
    if cs == [] {
      assert Tick(m, 0) == m;
    } else {
      var n := |cs| - 1;
      FlightIsOneMotion(g, cs[..n], m);
      PassedNext(cs);
      var before := Run(g, cs[..n]);
      var k := Tick(m, Passed(cs[..n]));
      assert Run(g, cs) == Perform(before, cs[n]);
      StepIsOneMotion(before, cs[n], k);
      assert Tick(k, Passed([cs[n]])) == Tick(m, Passed(cs));
    }
  }

  /** Main result: while a piece started by the engine stays in flight, clients see one target and a fraction in
      [0, 1) that never decreases. */
  lemma ProgressNeverDecreases(g: Game, cs: seq<Command>, m: Motion)
    requires Sound(g.world) && g.ok && Positive(g.world.arb.timing) && OnSchedule(g.world.arb) && Run(g, cs).ok
    requires forall c | c in cs && c.Pass? :: 0 <= c.ms
    requires m in g.world.arb.motions && m.Move?
    requires KeepsMoving(g, cs, m.piece.id)
    ensures MotionInfo(Run(g, cs).world.arb, m.piece.id).target == MotionInfo(g.world.arb, m.piece.id).target
    ensures MotionInfo(g.world.arb, m.piece.id).progress <= MotionInfo(Run(g, cs).world.arb, m.piece.id).progress < 1.0
  {
    var later := Tick(m, Passed(cs));
    FlightIsOneMotion(g, cs, m);
    RunOnSchedule(g, cs);
    PassedNonNegative(cs);
    ProgressInRange(g.world.arb, m);
    ProgressInRange(Run(g, cs).world.arb, later);
    MotionForUnique(g.world.arb.motions, m);
    MotionForUnique(Run(g, cs).world.arb.motions, later);
    FractionGrows(FullTime(g.world.arb.timing, m), m.remaining, later.remaining);
  }

  lemma {:induction false} PassedNonNegative(cs: seq<Command>)
    requires forall c | c in cs && c.Pass? :: 0 <= c.ms
    ensures 0 <= Passed(cs)
  {
    if cs == [] {
    } else {
      var n := |cs| - 1;
      assert cs[n] in cs && forall c | c in cs[..n] :: c in cs;
      PassedNonNegative(cs[..n]);
    }
  }

  // ----- what a snapshot shows -----

  datatype PieceShot = PieceShot(id: PieceId, kind: Kind, color: Color, cell: Position, state: PieceState, info: Info)

  function ShotOf(w: World, id: PieceId): PieceShot
    requires id in w.pieces
  {
    var p := w.pieces[id];
    PieceShot(id, p.kind, p.color, p.cell, p.state, MotionInfo(w.arb, id))
  }

  /** The shots are those of the pieces on the board that are not marked captured, each once. */
  ghost predicate Shows(w: World, shots: seq<PieceShot>)
    requires BoardCoherent(w.board, w.pieces)
  {
    && NoRepeats(shots)
    && forall s :: s in shots <==> exists p :: p in w.board.grid && Visible(w, p, s)
  }

  predicate Visible(w: World, p: Position, s: PieceShot)
    requires p in w.board.grid && w.board.grid[p] in w.pieces
  {
    s == ShotOf(w, w.board.grid[p]) && s.state != Captured
  }

  /** The snapshot in the terms of the pieces: for every cell with a piece that is not marked captured there is exactly
      one shot, of that piece's kind, color, cell and state; and there are no other shots. */
  lemma ShotsTell(w: World, shots: seq<PieceShot>)
    requires BoardCoherent(w.board, w.pieces) && Shows(w, shots)
    ensures forall i, j | 0 <= i < j < |shots| :: shots[i].id != shots[j].id
    ensures forall s | s in shots ::
              s.cell in w.board.grid && w.board.grid[s.cell] == s.id && s.id in w.pieces && s.state != Captured
              && s.kind == w.pieces[s.id].kind && s.color == w.pieces[s.id].color
              && s.cell == w.pieces[s.id].cell && s.state == w.pieces[s.id].state
    ensures forall p | p in w.board.grid && w.pieces[w.board.grid[p]].state != Captured ::
              exists s :: s in shots && s.cell == p
  {
    forall s | s in shots ensures s.cell in w.board.grid && s == ShotOf(w, w.board.grid[s.cell]) {
      var p :| p in w.board.grid && Visible(w, p, s);
    }
    forall i, j | 0 <= i < j < |shots| ensures shots[i].id != shots[j].id {
      assert shots[i] in shots && shots[j] in shots;
    }
    forall p | p in w.board.grid && w.pieces[w.board.grid[p]].state != Captured
      ensures exists s :: s in shots && s.cell == p
    {
      var s := ShotOf(w, w.board.grid[p]);
      assert Visible(w, p, s);
      assert s in shots && s.cell == p;
    }
  }

  /** In a calm state the snapshot leaves no piece on the board out: nothing there is marked captured. */
  lemma CalmShowsAll(w: World, shots: seq<PieceShot>, p: Position)
    requires Calm(w) && Shows(w, shots) && p in w.board.grid
    ensures ShotOf(w, w.board.grid[p]) in shots
  {
    var id := w.board.grid[p];
    assert OnBoard(w, id) && Fits(w.arb, id, w.pieces[id].state);
    if InMotion(w.arb.motions, id) {
      var m :| m in w.arb.motions && m.piece.id == id;
    }
    assert Visible(w, p, ShotOf(w, id));
  }
}
