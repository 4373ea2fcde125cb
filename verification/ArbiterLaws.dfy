/** What one call of AdvanceTime does, said of motions and events alone: who may eliminate whom, who arrives, and
    what is left behind. */
module ArbiterLaws {
  import opened Values
  import opened Arbitration
  import opened CollisionKernel
  import opened MotionConservation
  import opened PieceFate
  import opened SimulatedTime
  import opened Engine
  import opened Anchoring
  import opened Soundness
  import opened Forecast

  // ----- only enemies eliminate -----

  /** The event eliminates the MOVE x, and y is an enemy that contends with x: a MOVE with the same target or with
      the two cells swapped, or a JUMP on the target. */
  ghost predicate Falls(x: Motion, y: Motion, e: Event) {
    && x.Move? && e.Elimination? && x.piece == e.piece && x.fromPos == e.currentPos
    && y.piece.color != x.piece.color
    && (if y.Move? then y.toPos == x.toPos || (y.toPos == x.fromPos && y.fromPos == x.toPos) else y.fromPos == x.toPos)
  }

  ghost predicate Beaten(ms: seq<Motion>, e: Event) {
    exists x, y :: x in ms && y in ms && Falls(x, y, e)
  }

  lemma {:induction false} LateBeaten(ms: seq<Motion>, d: Motion, e: Event)
    requires d.Move? && e in LateEvents(ms, d)
    ensures exists x :: x in ms && Falls(x, d, e)
  {
    var n := |ms| - 1;
    if e in LateEvents(ms[..n], d) {
      LateBeaten(ms[..n], d, e);
      var x :| x in ms[..n] && Falls(x, d, e);
      assert x in ms;
    } else {
      assert Falls(ms[n], d, e) && ms[n] in ms;
    }
  }

  lemma {:induction false} JumperThere(ms: seq<Motion>, p: Position)
    requires JumperColor(ms, p).Some?
    ensures exists y :: y in ms && y.Jump? && y.fromPos == p && y.piece.color == JumperColor(ms, p).value
  {
    if ms[0].Jump? && ms[0].fromPos == p {
      assert ms[0] in ms;
    } else {
      JumperThere(ms[1..], p);
      var y :| y in ms[1..] && y.Jump? && y.fromPos == p && y.piece.color == JumperColor(ms[1..], p).value;
      assert y in ms;
    }
  }

  lemma ResolveOneBeaten(b: Arbiter, d: Motion, e: Event, all: seq<Motion>)
    requires (forall m | m in b.motions :: m in all) && d in all
    requires e in ResolveOne(b, d).events && e.Elimination?
    ensures Beaten(all, e)
  {
    if e in LateOf(b, d) {
      LateBeaten(b.motions, d, e);
    } else {
      var left := OnTime(b.motions, d);
      JumperThere(left, d.toPos);
      var y :| y in left && y.Jump? && y.fromPos == d.toPos && y.piece.color == JumperColor(left, d.toPos).value;
      OnTimeMembers(b.motions, d, y);
      assert Falls(d, y, e);
    }
  }

  lemma {:induction false} ResolveAllBeaten(b: Arbiter, s: seq<Motion>, e: Event, all: seq<Motion>)
    requires (forall m | m in b.motions :: m in all) && (forall m | m in s :: m in all)
    requires e in ResolveAll(b, s).events && e.Elimination?
    ensures Beaten(all, e)
  {
    var n := |s| - 1;
    var before := ResolveAll(b, s[..n]);
    assert forall m | m in s[..n] :: m in s;
    if e in before.events {
      ResolveAllBeaten(b, s[..n], e, all);
    } else {
      ResolveAllSubset(b, s[..n]);
      ResolveOneBeaten(before.arb, s[n], e, all);
    }
  }

  lemma StrikesBeaten(due: seq<Motion>, e: Event)
    requires Within(Sweep(due, |due|), -1, |due|) && e in Strikes(due, Sweep(due, |due|))
    ensures Beaten(due, e)
  {
    var out := Sweep(due, |due|);
    var p :| 0 <= p < |out| && Strikes(due, out)[p] == e;
    var k := out[p];
    assert k in out;
    SweepMeaning(due, |due|, k);
    var i: nat :| i < k && Survives(due, i) && Clash(due[i], due[k]);
    assert Falls(due[k], due[i], e) && due[i] in due && due[k] in due;
  }

  lemma {:induction false} KeptFrom(due: seq<Motion>, out: seq<nat>, n: nat)
    requires n <= |due|
    ensures forall m | m in Kept(due, out, n) :: m in due
  {
    if n == 0 {
    } else {
      KeptFrom(due, out, n - 1);
    }
  }

  lemma ScheduledFrom(due: seq<Motion>)
    ensures forall m | m in Schedule(due) :: m in due
  {
    var kept := Kept(due, Sweep(due, |due|), |due|);
    KeptFrom(due, Sweep(due, |due|), |due|);
    forall m | m in Schedule(due) ensures m in due {
      SplitMembers(kept, m);
    }
  }

  /** The same with the time of a call already off the motions. */
  lemma CallBeaten(a: Arbiter, ms: int, e: Event)
    requires e in AdvanceTime(a, ms).events && e.Elimination?
    ensures Beaten(Elapsed(a.motions, ms), e)
  {
    var moved, due, b := Elapsed(a.motions, ms), DueNow(a, ms), Resolving(a, ms);
    CallEvents(a, ms);
    WakesAreWakes(a.rests, ms);
    SweepInRange(due, |due|);
    forall m ensures (m in due ==> m in moved) && (m in b.motions ==> m in moved) {
      SplitMembers(moved, m);
    }
    ScheduledFrom(due);
    if e in ResolveAll(b, Schedule(due)).events {
      ResolveAllBeaten(b, Schedule(due), e, moved);
    } else {
      StrikesBeaten(due, e);
      var x, y :| x in due && y in due && Falls(x, y, e);
      assert x in moved && y in moved;
    }
  }

  /** Main result: only enemies eliminate. For every elimination, of any motion list, there is a MOVE of the piece, and
      an enemy that contends with it: a MOVE with the same target or with the two cells swapped, or a JUMP on the
      target. */
  lemma EliminatedByEnemy(a: Arbiter, ms: int, e: Event) returns (x: Motion, y: Motion)
    requires e in AdvanceTime(a, ms).events && e.Elimination?
    ensures x in a.motions && x.Move? && x.piece == e.piece && x.fromPos == e.currentPos
    ensures y in a.motions && y.piece.color != x.piece.color
    ensures y.Move? ==> y.toPos == x.toPos || (y.toPos == x.fromPos && y.fromPos == x.toPos)
    ensures y.Jump? ==> y.fromPos == x.toPos
  {
    var moved := Elapsed(a.motions, ms);
    CallBeaten(a, ms, e);
    var u, v :| u in moved && v in moved && Falls(u, v, e);
    var i :| 0 <= i < |moved| && moved[i] == u;
    var j :| 0 <= j < |moved| && moved[j] == v;
    x, y := a.motions[i], a.motions[j];
  }

  /** Friends never eliminate each other: while all active motions are of one color, nothing is eliminated. */
  lemma FriendsAreSafe(a: Arbiter, ms: int, c: Color)
    requires forall m | m in a.motions :: m.piece.color == c
    ensures forall e | e in AdvanceTime(a, ms).events :: !e.Elimination?
  {
    forall e | e in AdvanceTime(a, ms).events ensures !e.Elimination? {
      if e.Elimination? {
        var x, y := EliminatedByEnemy(a, ms, e);
      }
    }
  }

  // ----- enemies that contend do not both arrive -----

  ghost predicate Arrived(es: seq<Event>, m: Motion) {
    exists e :: e in es && e.Arrival? && e.piece == m.piece
  }

  lemma ScheduledIndex(due: seq<Motion>, x: Motion) returns (k: nat)
    requires DistinctMotions(due) && x in Schedule(due)
    ensures k < |due| && due[k] == x && Survives(due, k)
  {
    ScheduledFrom(due);
    k :| k < |due| && due[k] == x;
    ScheduleShape(due, k);
  }

  lemma ScheduledAs(a: Arbiter, ms: int, m: Motion, l: nat) returns (k: nat)
    requires OneActivity(a) && m in a.motions
    requires l < |Schedule(DueNow(a, ms))| && Schedule(DueNow(a, ms))[l].piece == m.piece
    ensures k < |DueNow(a, ms)| && DueNow(a, ms)[k] == Tick(m, ms) && Survives(DueNow(a, ms), k)
  {
    ScheduledIsMotion(a, ms, l);
    UniqueMotion(a.motions, m, Tick(Schedule(DueNow(a, ms))[l], -ms));
    SplitDistinct(Elapsed(a.motions, ms));
    k := ScheduledIndex(DueNow(a, ms), Tick(m, ms));
  }

  /** A MOVE that arrives has come due and survived the collision pass. */
  lemma ArrivedSurvives(a: Arbiter, ms: int, m: Motion, es: seq<Event>) returns (k: nat)
    requires OneActivity(a) && m in a.motions && es == AdvanceTime(a, ms).events && Arrived(es, m)
    ensures k < |DueNow(a, ms)| && DueNow(a, ms)[k] == Tick(m, ms) && Survives(DueNow(a, ms), k)
  {
    var e :| e in es && e.Arrival? && e.piece == m.piece;
    var i :| 0 <= i < |es| && es[i] == e;
    var l := ArrivalInCall(a, ms, i, es);
    k := ScheduledAs(a, ms, m, l);
  }

  /** Main result: of two enemy MOVEs that come due in the same call with the same target or with their cells swapped,
      at most one arrives. */
  lemma EnemiesDoNotBothArrive(a: Arbiter, ms: int, x: Motion, y: Motion)
    requires OneActivity(a) && x in a.motions && y in a.motions && x.Move? && y.Move?
    requires x.remaining <= ms && y.remaining <= ms && x.piece.color != y.piece.color
    requires x.toPos == y.toPos || (x.toPos == y.fromPos && x.fromPos == y.toPos)
    ensures !(exists e :: e in AdvanceTime(a, ms).events && e.Arrival? && e.piece == x.piece)
         || !(exists e :: e in AdvanceTime(a, ms).events && e.Arrival? && e.piece == y.piece)
  {
    var es, due := AdvanceTime(a, ms).events, DueNow(a, ms);
    if Arrived(es, x) && Arrived(es, y) {
      var i := ArrivedSurvives(a, ms, x, es);
      var k := ArrivedSurvives(a, ms, y, es);
      SurvivorsDoNotClash(due, i, k);
    }
  }

  lemma SurvivorsDoNotClash(due: seq<Motion>, i: nat, k: nat)
    requires i < |due| && k < |due| && Survives(due, i) && Survives(due, k)
    ensures due[i].Move? && due[k].Move? && due[i].piece.color != due[k].piece.color ==>
              due[i].toPos != due[k].toPos && !(due[i].toPos == due[k].fromPos && due[i].fromPos == due[k].toPos)
  {
    if due[i].Move? && due[k].Move? && due[i].piece.color != due[k].piece.color {
      if i < k {
        assert !Clash(due[i], due[k]);
      } else if k < i {
        assert !Clash(due[k], due[i]);
      }
    }
  }

  /** The collision pass spelled out: a due motion is out exactly when it is a MOVE and an earlier motion that is not
      out is an enemy MOVE with the same target or with the two cells swapped. */
  lemma LosesToEarlier(due: seq<Motion>, k: nat)
    requires k < |due|
    ensures k in Sweep(due, |due|) <==>
            exists i: nat :: (
              i < k && i !in Sweep(due, |due|) && due[i].Move? && due[k].Move?
              && due[i].piece.color != due[k].piece.color
              && (due[i].toPos == due[k].toPos || (due[i].toPos == due[k].fromPos && due[i].fromPos == due[k].toPos)))
  {
    forall i: nat | i < |due| ensures i in Sweep(due, |due|) <==> !Survives(due, i) {
      SweepIsKernel(due, i);
    }
    forall i: nat | i < k
      ensures Clash(due[i], due[k]) <==>
              due[i].Move? && due[k].Move? && due[i].piece.color != due[k].piece.color &&
              (due[i].toPos == due[k].toPos || (due[i].toPos == due[k].fromPos && due[i].fromPos == due[k].toPos))
    {
    }
    if k in Sweep(due, |due|) {
      var i: nat :| i < k && Survives(due, i) && Clash(due[i], due[k]);
      assert i !in Sweep(due, |due|);
    }
  }

  lemma StruckInPrelude(a: Arbiter, ms: int, k: nat)
    requires k < |DueNow(a, ms)| && !Survives(DueNow(a, ms), k)
    ensures Elimination(DueNow(a, ms)[k].piece, DueNow(a, ms)[k].fromPos) in Prelude(a, ms)
  {
    var due := DueNow(a, ms);
    var out := Sweep(due, |due|);
    SweepIsKernel(due, k);
    SweepInRange(due, |due|);
    var p :| 0 <= p < |out| && out[p] == k;
    assert Strikes(due, out)[p] == Elimination(due[k].piece, due[k].fromPos);
  }

  lemma DueIndex(a: Arbiter, ms: int, y: Motion) returns (q: nat)
    requires y in a.motions && y.remaining <= ms
    ensures q < |DueNow(a, ms)| && DueNow(a, ms)[q] == Tick(y, ms)
  {
    var j :| 0 <= j < |a.motions| && a.motions[j] == y;
    assert Elapsed(a.motions, ms)[j] == Tick(y, ms);
    SplitMembers(Elapsed(a.motions, ms), Tick(y, ms));
    q :| 0 <= q < |DueNow(a, ms)| && DueNow(a, ms)[q] == Tick(y, ms);
  }

  /** The loser of a contention is reported before anything is resolved. */
  lemma LoserInPrelude(a: Arbiter, ms: int, x: Motion, y: Motion, p: nat)
    requires x.Move? && y in a.motions && y.Move? && y.remaining <= ms && x.piece.color != y.piece.color
    requires x.toPos == y.toPos || (x.toPos == y.fromPos && x.fromPos == y.toPos)
    requires p < |DueNow(a, ms)| && DueNow(a, ms)[p] == Tick(x, ms) && Survives(DueNow(a, ms), p)
    ensures Elimination(y.piece, y.fromPos) in Prelude(a, ms)
  {
    var q := DueIndex(a, ms, y);
    if Survives(DueNow(a, ms), q) {
      SurvivorsDoNotClash(DueNow(a, ms), p, q);
    }
    StruckInPrelude(a, ms, q);
  }

  lemma ConcludedBefore(pending: set<Motion>, es: seq<Event>, e: Event, i: nat, k: nat)
    requires Orderly(pending, es) && i < |es| && k < |es| && e in es[..i] && e.Elimination?
    requires es[k].Elimination? && es[k].piece.id == e.piece.id
    ensures k < i
  {
    if i <= k {
      assert es[..i] == es[..k][..i];
      assert e in es[..k] && Concludes(e, e.piece.id);
    }
  }

  /** Of two enemy MOVEs that contend in one call, the loser is reported before the winner arrives, so that what the
      loser gives up is not the cell the winner has taken. */
  lemma LosersFirst(a: Arbiter, ms: int, x: Motion, y: Motion, i: nat, k: nat)
    requires OneActivity(a) && x in a.motions && y in a.motions && x.Move? && y.Move?
    requires x.remaining <= ms && y.remaining <= ms && x.piece.color != y.piece.color
    requires x.toPos == y.toPos || (x.toPos == y.fromPos && x.fromPos == y.toPos)
    requires i < |AdvanceTime(a, ms).events| && k < |AdvanceTime(a, ms).events|
    requires AdvanceTime(a, ms).events[i].Arrival? && AdvanceTime(a, ms).events[i].piece == x.piece
    requires AdvanceTime(a, ms).events[k].Elimination? && AdvanceTime(a, ms).events[k].piece == y.piece
    ensures k < i
  {
    var es := AdvanceTime(a, ms).events;
    var l := ArrivalInCall(a, ms, i, es);
    var p := ScheduledAs(a, ms, x, l);
    LoserInPrelude(a, ms, x, y, p);
    TickOrderly(a, ms);
    ConcludedBefore(Pending(a, ms), es, Elimination(y.piece, y.fromPos), i, k);
  }

  /** A cell on which a piece arrives is no enemy's target any more. */
  lemma NoRivalLeft(a: Arbiter, ms: int, e: Event, m: Motion)
    requires e in AdvanceTime(a, ms).events && e.Arrival?
    requires m in AdvanceTime(a, ms).arb.motions && m.Move? && m.toPos == e.destination
    ensures m.piece.color == e.piece.color
  {
    var es, b, s := AdvanceTime(a, ms).events, Resolving(a, ms), Schedule(DueNow(a, ms));
    var i :| 0 <= i < |es| && es[i] == e;
    var l := ArrivalInCall(a, ms, i, es);
    AdvancePhases(a, ms);
    StillFlying(b, s, m);
    assert !Late(m, s[l]);
  }

  // ----- what the events say -----

  /** An arrival tells source and target of a MOVE of its piece that has come due. */
  lemma ArrivalTells(a: Arbiter, ms: int, e: Event) returns (m: Motion)
    requires e in AdvanceTime(a, ms).events && e.Arrival?
    ensures m in a.motions && m.Move? && m.remaining <= ms
    ensures e.piece == m.piece && e.fromPos == m.fromPos && e.destination == m.toPos
    ensures e.captured == None && e.formerKind == None
  {
    var es, moved := AdvanceTime(a, ms).events, Elapsed(a.motions, ms);
    var i :| 0 <= i < |es| && es[i] == e;
    var l := ArrivalInCall(a, ms, i, es);
    var x := Schedule(DueNow(a, ms))[l];
    ScheduledFrom(DueNow(a, ms));
    SplitMembers(moved, x);
    var j :| 0 <= j < |moved| && moved[j] == x;
    m := a.motions[j];
  }

  /** A MOVE that arrives then rests long, and a JUMP that comes due rests short; a piece that rests has arrived
      or landed in no other way. */
  lemma RestsTold(a: Arbiter, ms: int, m: Motion)
    requires OneActivity(a) && m in a.motions
    ensures var t := Trace(AdvanceTime(a, ms).events, m.piece.id);
            && (m.Jump? ==> t == if m.remaining <= ms then [Rest(m.piece, ShortRest, a.timing.shortRestMs)] else [])
            && (m.Move? ==> t in {[], [Elimination(m.piece, m.fromPos)],
                                  [Arrival(m.piece, m.fromPos, m.toPos, None, None),
                                   Rest(m.piece, LongRest, a.timing.longRestMs)]})
  {
    Fate(a, ms, m);
  }

  /** A landing clears the marker, wherever it was. */
  lemma LandingClearsMarker(a: Arbiter, ms: int, j: Motion)
    requires OneActivity(a) && j in a.motions && j.Jump? && j.remaining <= ms
    ensures AdvanceTime(a, ms).arb.airborne == None
  {
    AdvancePhases(a, ms);
    var due, s := DueNow(a, ms), Schedule(DueNow(a, ms));
    var kept := Kept(due, Sweep(due, |due|), |due|);
    AllJumps(kept);
    if Jumps(kept) == [] {
      JumpNotDue(a, ms, j);
      SplitMembers(Elapsed(a.motions, ms), Tick(j, ms));
      assert false;
    }
    assert s[|s| - 1] in Jumps(kept);
  }

  /** The number of squares of a move is the least that covers both its rows and its columns. */
  lemma DistanceIsLeast(p: Position, q: Position, n: int)
    ensures Distance(p, q) <= n <==> -n <= q.row - p.row <= n && -n <= q.col - p.col <= n
  {
  }

  // ----- the order of arrivals -----

  /** The list is base at increasing indices. */
  ghost predicate Picks(sub: seq<Motion>, f: seq<nat>, base: seq<Motion>) {
    && |f| == |sub| && (forall i | 0 <= i < |f| :: f[i] < |base| && base[f[i]] == sub[i])
    && forall i, j | 0 <= i < j < |f| :: f[i] < f[j]
  }

  lemma PicksSnoc(sub: seq<Motion>, f: seq<nat>, base: seq<Motion>)
    requires base != [] && Picks(sub, f, base[..|base| - 1])
    ensures Picks(sub, f, base) && Picks(sub + [base[|base| - 1]], f + [|base| - 1], base)
  {
  }

  lemma {:induction false} DuePicks(ms: seq<Motion>) returns (f: seq<nat>)
    ensures Picks(Due(ms), f, ms)
  {
    if ms == [] {
      f := [];
    } else {
      f := DuePicks(ms[..|ms| - 1]);
      PicksSnoc(Due(ms[..|ms| - 1]), f, ms);
      if ms[|ms| - 1].remaining <= 0 {
        f := f + [|ms| - 1];
      }
    }
  }

  lemma {:induction false} MovesPicks(ms: seq<Motion>) returns (f: seq<nat>)
    ensures Picks(Moves(ms), f, ms)
  {
    if ms == [] {
      f := [];
    } else {
      f := MovesPicks(ms[..|ms| - 1]);
      PicksSnoc(Moves(ms[..|ms| - 1]), f, ms);
      if ms[|ms| - 1].Move? {
        f := f + [|ms| - 1];
      }
    }
  }

  lemma {:induction false} KeptPicks(due: seq<Motion>, out: seq<nat>, n: nat) returns (f: seq<nat>)
    requires n <= |due|
    ensures Picks(Kept(due, out, n), f, due[..n])
  {
    if n == 0 {
      f := [];
    } else {
      f := KeptPicks(due, out, n - 1);
      assert due[..n][..n - 1] == due[..n - 1];
      PicksSnoc(Kept(due, out, n - 1), f, due[..n]);
      if n - 1 !in out {
        f := f + [n - 1];
      }
    }
  }

  lemma PicksOn(x: seq<Motion>, f: seq<nat>, y: seq<Motion>, g: seq<nat>, z: seq<Motion>) returns (h: seq<nat>)
    requires Picks(x, f, y) && Picks(y, g, z)
    ensures Picks(x, h, z)
  {
    h := seq(|f|, i requires 0 <= i < |f| => g[f[i]]);
  }

  /** The scheduled MOVEs are in the order in which they were started. */
  lemma ScheduledInOrder(moved: seq<Motion>, i: nat, j: nat, p: nat, q: nat)
    requires DistinctMotions(moved) && i < j < |Schedule(Due(moved))| && Schedule(Due(moved))[j].Move?
    requires p < |moved| && q < |moved|
    requires moved[p] == Schedule(Due(moved))[i] && moved[q] == Schedule(Due(moved))[j]
    ensures p < q
  {
    var due := Due(moved);
    var kept := Kept(due, Sweep(due, |due|), |due|);
    AllJumps(kept);
    if j >= |Moves(kept)| {
      assert Schedule(due)[j] in Jumps(kept);
    }
    var f := MovesPicks(kept);
    var g := KeptPicks(due, Sweep(due, |due|), |due|);
    assert due[..|due|] == due;
    var h := DuePicks(moved);
    var fg := PicksOn(Moves(kept), f, kept, g, due);
    var all := PicksOn(Moves(kept), fg, due, h, moved);
    SameIndex(moved, all[i], p);
    SameIndex(moved, all[j], q);
  }

  lemma SameIndex(ms: seq<Motion>, i: nat, j: nat)
    requires DistinctMotions(ms) && i < |ms| && j < |ms| && ms[i] == ms[j]
    ensures i == j
  {
  }

  lemma TurnsGrow(b: Arbiter, s: seq<Motion>, i: nat, j: nat)
    requires i <= j < |s| && MovesFirst(s) && s[i].Move?
    ensures |Before(b, s, i)| <= |Before(b, s, j)|
  {
    if i < j {
      TurnEvents(b, s, i);
      assert s[..j][..i + 1] == s[..i + 1];
      EventsGrow(b, s[..j], i + 1);
    }
  }

  /** Arrivals are reported in the order in which the MOVEs were started. */
  lemma ArrivalsInOrder(a: Arbiter, ms: int, i: nat, k: nat, p: nat, q: nat)
    requires OneActivity(a) && i < k < |AdvanceTime(a, ms).events|
    requires AdvanceTime(a, ms).events[i].Arrival? && AdvanceTime(a, ms).events[k].Arrival?
    requires p < |a.motions| && a.motions[p].piece == AdvanceTime(a, ms).events[i].piece
    requires q < |a.motions| && a.motions[q].piece == AdvanceTime(a, ms).events[k].piece
    ensures p < q
  {
    var es, moved, s := AdvanceTime(a, ms).events, Elapsed(a.motions, ms), Schedule(DueNow(a, ms));
    var l := ArrivalInCall(a, ms, i, es);
    var m := ArrivalInCall(a, ms, k, es);
    ScheduleMovesFirst(DueNow(a, ms));
    if m <= l {
      TurnsGrow(Resolving(a, ms), s, m, l);
    }
    ScheduledAt(a, ms, l, p);
    ScheduledAt(a, ms, m, q);
    ScheduledInOrder(moved, l, m, p, q);
  }

  lemma ScheduledAt(a: Arbiter, ms: int, l: nat, p: nat)
    requires OneActivity(a) && l < |Schedule(DueNow(a, ms))| && p < |a.motions|
    requires Schedule(DueNow(a, ms))[l].piece == a.motions[p].piece
    ensures Elapsed(a.motions, ms)[p] == Schedule(DueNow(a, ms))[l] && DistinctMotions(Elapsed(a.motions, ms))
  {
    ScheduledIsMotion(a, ms, l);
    assert a.motions[p] in a.motions;
    UniqueMotion(a.motions, a.motions[p], Tick(Schedule(DueNow(a, ms))[l], -ms));
  }
}
