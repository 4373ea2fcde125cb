/** What a call of AdvanceTime will do, read off the list of motions alone: which due MOVEs arrive, which one is
    captured in the air, and whether the tick is clean. */
module Forecast {
  import opened Values
  import opened Arbitration
  import opened CollisionKernel
  import opened MotionConservation
  import opened PieceFate
  import opened Engine
  import opened Anchoring
  import opened Soundness

  // ----- the marker while MOVEs are resolved -----

  lemma JumperSnoc(ms: seq<Motion>, m: Motion, p: Position)
    ensures JumperColor(ms + [m], p) ==
            if JumperColor(ms, p).Some? then JumperColor(ms, p)
            else if m.Jump? && m.fromPos == p then Some(m.piece.color) else None
  {
    if ms == [] {
      assert ms + [m] == [m];
    } else {
      assert (ms + [m])[1..] == ms[1..] + [m];
      JumperSnoc(ms[1..], m, p);
    }
  }

  /** JUMPs are never late. */
  lemma {:induction false} OnTimeJumper(ms: seq<Motion>, d: Motion, p: Position)
    requires d.Move?
    ensures JumperColor(OnTime(ms, d), p) == JumperColor(ms, p)
  {
    if ms == [] {
    } else {
      var n := |ms| - 1;
      OnTimeJumper(ms[..n], d, p);
      JumperSnoc(ms[..n], ms[n], p);
      JumperSnoc(OnTime(ms[..n], d), ms[n], p);
      assert ms == ms[..n] + [ms[n]];
    }
  }

  /** The first MOVE of s that the marker of b captures in the air. */
  ghost predicate Shielded(b: Arbiter, s: seq<Motion>, l: nat)
    requires l < |s|
  {
    && s[l].Move? && AirCaptured(b, s[l])
    && forall i | 0 <= i < l && s[i].Move? :: !AirCaptured(b, s[i])
  }

  ghost predicate AllMoves(s: seq<Motion>) {
    forall i | 0 <= i < |s| :: s[i].Move?
  }

  /** The marker is as it was until one MOVE is captured, and then off. */
  lemma {:induction false} MarkerNow(b: Arbiter, s: seq<Motion>, p: Position)
    requires AllMoves(s) && b.airborne == Some(p)
    ensures JumperColor(ResolveAll(b, s).arb.motions, p) == JumperColor(b.motions, p)
    ensures ResolveAll(b, s).arb.airborne == None <==> exists i :: 0 <= i < |s| && AirCaptured(b, s[i])
    ensures ResolveAll(b, s).arb.airborne in {None, Some(p)}
  {
    if s == [] {
    } else {
      var n := |s| - 1;
      var before := ResolveAll(b, s[..n]).arb;
      MarkerNow(b, s[..n], p);
      OnTimeJumper(before.motions, s[n], p);
      assert forall i | 0 <= i < n :: s[..n][i] == s[i];
      assert before.airborne == None ==> exists i :: 0 <= i < |s| && AirCaptured(b, s[i]) by {
        if before.airborne == None {
          var i :| 0 <= i < n && AirCaptured(b, s[..n][i]);
          assert AirCaptured(b, s[i]);
        }
      }
    }
  }

  lemma {:induction false} MarkerOff(b: Arbiter, s: seq<Motion>)
    requires b.airborne == None
    ensures ResolveAll(b, s).arb.airborne == None
  {
    if s == [] {
    } else {
      MarkerOff(b, s[..|s| - 1]);
    }
  }

  /** Whether a MOVE is captured when its turn comes, from the state before any is resolved. */
  lemma CapturedInTurn(b: Arbiter, s: seq<Motion>, d: Motion)
    requires AllMoves(s) && d.Move?
    ensures var r := ResolveAll(b, s).arb;
            AirCaptured(r.(motions := OnTime(r.motions, d)), d) <==> Shielded(b, s + [d], |s|)
  {
    var r := ResolveAll(b, s).arb;
    OnTimeJumper(r.motions, d, d.toPos);
    assert forall i | 0 <= i < |s| :: (s + [d])[i] == s[i];
    if b.airborne == None {
      MarkerOff(b, s);
    } else {
      MarkerNow(b, s, b.airborne.value);
    }
  }

  // ----- where an arrival stands among the events -----

  /** What is reported before the l-th motion itself. */
  ghost function Before(b: Arbiter, s: seq<Motion>, l: nat): seq<Event>
    requires l < |s|
  {
    var r := ResolveAll(b, s[..l]);
    r.events + LateOf(r.arb, s[l])
  }

  ghost predicate MovesFirst(s: seq<Motion>) {
    forall i, j | 0 <= i < j < |s| && s[j].Move? :: s[i].Move?
  }

  lemma ResolveNext(b: Arbiter, s: seq<Motion>, l: nat)
    requires l < |s|
    ensures var r := ResolveAll(b, s[..l]);
            ResolveAll(b, s[..l + 1]) == Outcome(ResolveOne(r.arb, s[l]).arb, r.events + ResolveOne(r.arb, s[l]).events)
  {
    assert s[..l + 1][..l] == s[..l];
  }

  /** What a MOVE reports after the late losers when its turn comes. */
  function OwnEvents(d: Motion, captured: bool, timing: Timing): seq<Event>
    requires d.Move?
  {
    if captured then [Elimination(d.piece, d.fromPos)] else [Landing(d), Rest(d.piece, LongRest, timing.longRestMs)]
  }

  lemma MoveEvents(r: Arbiter, d: Motion, captured: bool)
    requires d.Move? && captured == AirCaptured(r.(motions := OnTime(r.motions, d)), d)
    ensures ResolveOne(r, d).events == LateOf(r, d) + OwnEvents(d, captured, r.timing)
  {
  }

  lemma Regroup(x: seq<Event>, y: seq<Event>, z: seq<Event>)
    ensures x + (y + z) == x + y + z
  {
  }

  lemma ShieldedPrefix(b: Arbiter, s: seq<Motion>, l: nat)
    requires l < |s|
    ensures Shielded(b, s[..l] + [s[l]], l) <==> Shielded(b, s, l)
  {
    assert forall i | 0 <= i <= l :: (s[..l] + [s[l]])[i] == s[i];
  }

  /** The events of the l-th motion follow what is reported before it. */
  lemma TurnEvents(b: Arbiter, s: seq<Motion>, l: nat)
    requires l < |s| && MovesFirst(s) && s[l].Move?
    ensures ResolveAll(b, s[..l + 1]).events == Before(b, s, l) + OwnEvents(s[l], Shielded(b, s, l), b.timing)
  {
    var r := ResolveAll(b, s[..l]);
    ShieldedPrefix(b, s, l);
    CapturedInTurn(b, s[..l], s[l]);
    MoveEvents(r.arb, s[l], Shielded(b, s, l));
    ResolveAllRests(b, s[..l]);
    ResolveNext(b, s, l);
    Regroup(r.events, LateOf(r.arb, s[l]), OwnEvents(s[l], Shielded(b, s, l), b.timing));
  }

  lemma {:induction false} EventsGrow(b: Arbiter, s: seq<Motion>, n: nat)
    requires n <= |s|
    ensures ResolveAll(b, s[..n]).events <= ResolveAll(b, s).events
  {
    if n == |s| {
      assert s[..n] == s;
    } else {
      assert s[..|s| - 1][..n] == s[..n];
      EventsGrow(b, s[..|s| - 1], n);
    }
  }

  lemma LandingAt(b: Arbiter, s: seq<Motion>, l: nat)
    requires l < |s| && MovesFirst(s) && s[l].Move? && !Shielded(b, s, l)
    ensures var es := ResolveAll(b, s).events;
            |Before(b, s, l)| < |es| && es[|Before(b, s, l)|] == Landing(s[l])
              && es[..|Before(b, s, l)|] == Before(b, s, l)
  {
    TurnEvents(b, s, l);
    EventsGrow(b, s, l + 1);
  }

  lemma {:induction false} LateOnlyEliminates(ms: seq<Motion>, d: Motion)
    requires d.Move?
    ensures forall i | 0 <= i < |LateEvents(ms, d)| :: LateEvents(ms, d)[i].Elimination?
  {
    if ms == [] {
    } else {
      LateOnlyEliminates(ms[..|ms| - 1], d);
    }
  }

  /** The arrival at position k is that of a scheduled MOVE that is not captured. */
  ghost predicate LandsAt(b: Arbiter, s: seq<Motion>, es: seq<Event>, k: nat, l: nat)
    requires k < |es|
  {
    l < |s| && s[l].Move? && !Shielded(b, s, l) && es[k] == Landing(s[l]) && es[..k] == Before(b, s, l)
  }

  lemma {:induction false} ArrivalAt(b: Arbiter, s: seq<Motion>, k: nat) returns (l: nat)
    requires MovesFirst(s) && k < |ResolveAll(b, s).events| && ResolveAll(b, s).events[k].Arrival?
    ensures LandsAt(b, s, ResolveAll(b, s).events, k, l)
  {
    var n := |s| - 1;
    var r := ResolveAll(b, s[..n]);
    if k < |r.events| {
      l := ArrivalAt(b, s[..n], k);
      assert s[..n][..l] == s[..l];
      assert ResolveAll(b, s).events[..k] == r.events[..k];
    } else {
      l := n;
      LastArrivalAt(b, s, k);
    }
  }

  lemma OnlyOwn(x: seq<Event>, late: seq<Event>, own: seq<Event>, k: nat)
    requires |x| <= k < |x + late + own| && (x + late + own)[k].Arrival?
    requires forall i | 0 <= i < |late| :: late[i].Elimination?
    requires forall i | 0 <= i < |own| && own[i].Arrival? :: i == 0
    ensures k == |x + late|
  {
  }

  lemma LastArrivalAt(b: Arbiter, s: seq<Motion>, k: nat)
    requires s != [] && MovesFirst(s) && k < |ResolveAll(b, s).events| && ResolveAll(b, s).events[k].Arrival?
    requires |ResolveAll(b, s[..|s| - 1]).events| <= k
    ensures LandsAt(b, s, ResolveAll(b, s).events, k, |s| - 1)
  {
    var l := |s| - 1;
    var r := ResolveAll(b, s[..l]);
    assert s[..l + 1] == s;
    ResolveNext(b, s, l);
    if s[l].Move? {
      TurnEvents(b, s, l);
      LateOnlyEliminates(r.arb.motions, s[l]);
      OnlyOwn(r.events, LateOf(r.arb, s[l]), OwnEvents(s[l], Shielded(b, s, l), b.timing), k);
    }
  }

  // ----- which pending motions are concluded by then -----

  lemma QuietNotConcluded(es: seq<Event>, id: PieceId)
    requires Trace(es, id) == []
    ensures !Concluded(es, id)
  {
    forall e | e in es ensures !Concludes(e, id) {
      TraceMembers(es, id, e);
    }
  }

  lemma EndsConcluded(es: seq<Event>, m: Motion, timing: Timing)
    requires m.Move? && Ends(m, timing, Trace(es, m.piece.id))
    ensures Concluded(es, m.piece.id)
  {
    var e := Trace(es, m.piece.id)[0];
    TraceMembers(es, m.piece.id, e);
    assert Concludes(e, m.piece.id);
  }

  lemma ConcludedConcat(x: seq<Event>, y: seq<Event>, id: PieceId)
    ensures Concluded(x + y, id) <==> Concluded(x, id) || Concluded(y, id)
  {
    if Concluded(x, id) {
      var e :| e in x && Concludes(e, id);
      assert e in x + y;
    }
    if Concluded(y, id) {
      var e :| e in y && Concludes(e, id);
      assert e in x + y;
    }
  }

  /** A motion in flight stays in flight until a MOVE takes its target. */
  lemma {:induction false} StillFlying(b: Arbiter, s: seq<Motion>, x: Motion)
    ensures x in ResolveAll(b, s).arb.motions <==>
            x in b.motions && forall i | 0 <= i < |s| && s[i].Move? :: !Late(x, s[i])
  {
    if s == [] {
    } else {
      var n := |s| - 1;
      StillFlying(b, s[..n], x);
      assert forall i | 0 <= i < n :: s[..n][i] == s[i];
      if s[n].Move? {
        OnTimeMembers(ResolveAll(b, s[..n]).arb.motions, s[n], x);
      }
    }
  }

  /** What is late for one MOVE, about the piece of a motion in flight. */
  lemma LateConcluded(r: Arbiter, d: Motion, x: Motion)
    requires DistinctMotions(r.motions) && x in r.motions && d.Move?
    ensures Concluded(LateOf(r, d), x.piece.id) <==> Late(x, d)
  {
    LateTrace(r.motions, d, x.piece.id);
    if Late(x, d) {
      EndsConcluded(LateOf(r, d), x, r.timing);
    } else {
      QuietNotConcluded(LateOf(r, d), x.piece.id);
    }
  }

  ghost predicate LateUpTo(s: seq<Motion>, n: nat, x: Motion)
    requires n <= |s|
  {
    exists i :: 0 <= i < n && s[i].Move? && Late(x, s[i])
  }

  /** After n resolutions a motion in flight is concluded if one of them took its target. */
  lemma FlyingConcluded(b: Arbiter, s: seq<Motion>, n: nat, x: Motion)
    requires DistinctMotions(b.motions) && x in b.motions && n <= |s| && !InMotion(s, x.piece.id)
    ensures var r := ResolveAll(b, s[..n]);
            (Concluded(r.events, x.piece.id) <==> LateUpTo(s, n, x)) && (x in r.arb.motions <==> !LateUpTo(s, n, x))
  {
    var r := ResolveAll(b, s[..n]);
    assert forall y | y in s[..n] :: y in s;
    assert forall i | 0 <= i < n :: s[..n][i] == s[i];
    FlyingTrace(b, s[..n], x);
    StillFlying(b, s[..n], x);
    if x in r.arb.motions {
      QuietNotConcluded(r.events, x.piece.id);
    } else {
      EndsConcluded(r.events, x, b.timing);
    }
  }

  /** A motion in flight is concluded before the l-th landing if a MOVE up to the l-th has taken its target. */
  lemma FlyingGone(b: Arbiter, s: seq<Motion>, l: nat, x: Motion)
    requires DistinctMotions(b.motions) && x in b.motions && l < |s| && s[l].Move? && !InMotion(s, x.piece.id)
    ensures Concluded(Before(b, s, l), x.piece.id) <==> exists i :: 0 <= i <= l && s[i].Move? && Late(x, s[i])
  {
    var r := ResolveAll(b, s[..l]);
    FlyingConcluded(b, s, l, x);
    ConcludedConcat(r.events, LateOf(r.arb, s[l]), x.piece.id);
    ResolveAllShape(b, s[..l]);
    if x in r.arb.motions {
      LateConcluded(r.arb, s[l], x);
    }
  }

  /** A due survivor is concluded before the l-th landing if its own turn was earlier. */
  lemma ScheduledGone(b: Arbiter, s: seq<Motion>, l: nat, i: nat)
    requires DistinctMotions(b.motions) && DistinctMotions(s) && l < |s| && i < |s|
    requires s[i].Move? && s[i].remaining <= 0 && !InMotion(b.motions, s[i].piece.id)
    ensures Concluded(Before(b, s, l), s[i].piece.id) <==> i < l
  {
    var x := s[i];
    var r := ResolveAll(b, s[..l]);
    ConcludedConcat(r.events, LateOf(r.arb, s[l]), x.piece.id);
    if i < l {
      assert s[..l][i] == x;
      DueTrace(b, s[..l], i);
      EndsConcluded(r.events, x, b.timing);
    } else {
      assert !InMotion(s[..l], x.piece.id);
      Unmentioned(b, s[..l], x.piece.id);
      QuietNotConcluded(r.events, x.piece.id);
      ResolveAllShape(b, s[..l]);
      QuietLate(r.arb, s[l], x.piece.id);
      QuietNotConcluded(LateOf(r.arb, s[l]), x.piece.id);
    }
  }

  // ----- a whole call -----

  /** The events before any motion is resolved: wake-ups, then the losers of the collision pass. */
  ghost function Prelude(a: Arbiter, ms: int): seq<Event> {
    var due := DueNow(a, ms);
    SweepInRange(due, |due|);
    WakeEvents(a.rests, ms) + Strikes(due, Sweep(due, |due|))
  }

  lemma CallEvents(a: Arbiter, ms: int)
    ensures AdvanceTime(a, ms).events == Prelude(a, ms) + ResolveAll(Resolving(a, ms), Schedule(DueNow(a, ms))).events
  {
    AdvancePhases(a, ms);
  }

  lemma {:induction false} WakesAreWakes(rests: seq<RestEntry>, ms: int)
    ensures forall i | 0 <= i < |WakeEvents(rests, ms)| :: WakeEvents(rests, ms)[i].Wake?
  {
    if rests == [] {
    } else {
      WakesAreWakes(rests[..|rests| - 1], ms);
    }
  }

  lemma NoEarlyArrival(a: Arbiter, ms: int)
    ensures forall i | 0 <= i < |Prelude(a, ms)| :: !Prelude(a, ms)[i].Arrival?
  {
    SweepInRange(DueNow(a, ms), |DueNow(a, ms)|);
    WakesAreWakes(a.rests, ms);
  }

  lemma ScheduleMovesFirst(due: seq<Motion>)
    ensures MovesFirst(Schedule(due))
  {
    var kept := Kept(due, Sweep(due, |due|), |due|);
    AllJumps(kept);
    forall i | 0 <= i < |Moves(kept)| ensures Moves(kept)[i].Move? {
      assert Moves(kept)[i] in Moves(kept);
    }
    forall i | 0 <= i < |Jumps(kept)| ensures Jumps(kept)[i].Jump? {
      assert Jumps(kept)[i] in Jumps(kept);
    }
  }

  lemma Behind(x: seq<Event>, y: seq<Event>, k: nat)
    requires |x| <= k < |x + y|
    ensures (x + y)[k] == y[k - |x|] && (x + y)[..k] == x + y[..k - |x|]
  {
  }

  /** The l-th scheduled motion is a MOVE that reaches its target. */
  ghost predicate GetsThrough(a: Arbiter, ms: int, l: nat) {
    var s := Schedule(DueNow(a, ms));
    l < |s| && s[l].Move? && !Shielded(Resolving(a, ms), s, l)
  }

  /** What the call reports before the l-th scheduled motion itself. */
  ghost function BeforeTurn(a: Arbiter, ms: int, l: nat): seq<Event>
    requires l < |Schedule(DueNow(a, ms))|
  {
    Prelude(a, ms) + Before(Resolving(a, ms), Schedule(DueNow(a, ms)), l)
  }

  lemma LandingInCall(a: Arbiter, ms: int, l: nat, es: seq<Event>)
    requires GetsThrough(a, ms, l) && es == AdvanceTime(a, ms).events
    ensures var k := |BeforeTurn(a, ms, l)|;
            k < |es| && es[k] == Landing(Schedule(DueNow(a, ms))[l]) && es[..k] == BeforeTurn(a, ms, l)
  {
    var b, s := Resolving(a, ms), Schedule(DueNow(a, ms));
    CallEvents(a, ms);
    ScheduleMovesFirst(DueNow(a, ms));
    LandingAt(b, s, l);
    Behind(Prelude(a, ms), ResolveAll(b, s).events, |BeforeTurn(a, ms, l)|);
  }

  lemma ArrivalInCall(a: Arbiter, ms: int, k: nat, es: seq<Event>) returns (l: nat)
    requires es == AdvanceTime(a, ms).events && k < |es| && es[k].Arrival?
    ensures GetsThrough(a, ms, l) && es[k] == Landing(Schedule(DueNow(a, ms))[l]) && es[..k] == BeforeTurn(a, ms, l)
  {
    var b, s := Resolving(a, ms), Schedule(DueNow(a, ms));
    CallEvents(a, ms);
    ScheduleMovesFirst(DueNow(a, ms));
    NoEarlyArrival(a, ms);
    Behind(Prelude(a, ms), ResolveAll(b, s).events, k);
    l := ArrivalAt(b, s, k - |Prelude(a, ms)|);
  }

  /** Main result: what becomes of a MOVE that comes due and survives the collision pass. It is eliminated if it is
      the first that the marker captures; every other one arrives, also a second intruder. */
  lemma ScheduledFate(a: Arbiter, ms: int, l: nat)
    requires OneActivity(a) && l < |Schedule(DueNow(a, ms))| && Schedule(DueNow(a, ms))[l].Move?
    ensures var m := Schedule(DueNow(a, ms))[l];
            Trace(AdvanceTime(a, ms).events, m.piece.id) ==
            if Shielded(Resolving(a, ms), Schedule(DueNow(a, ms)), l) then [Elimination(m.piece, m.fromPos)]
            else [Landing(m), Rest(m.piece, LongRest, a.timing.longRestMs)]
  {
    var m, es := Schedule(DueNow(a, ms))[l], AdvanceTime(a, ms).events;
    ScheduledIsMotion(a, ms, l);
    Fate(a, ms, Tick(m, -ms));
    if GetsThrough(a, ms, l) {
      LandingInCall(a, ms, l, es);
      InTrace(es, Landing(m));
    } else {
      ShieldedEvent(a, ms, l, es);
      InTrace(es, Elimination(m.piece, m.fromPos));
    }
  }

  lemma ScheduledIsMotion(a: Arbiter, ms: int, l: nat)
    requires OneActivity(a) && l < |Schedule(DueNow(a, ms))|
    ensures Tick(Schedule(DueNow(a, ms))[l], -ms) in a.motions
  {
    var moved, m := Elapsed(a.motions, ms), Schedule(DueNow(a, ms))[l];
    SplitDistinct(moved);
    ScheduleSubset(DueNow(a, ms));
    SplitMembers(moved, m);
    var i :| 0 <= i < |moved| && moved[i] == m;
    assert Tick(m, -ms) == a.motions[i];
  }

  lemma ShieldedEvent(a: Arbiter, ms: int, l: nat, es: seq<Event>)
    requires l < |Schedule(DueNow(a, ms))| && Shielded(Resolving(a, ms), Schedule(DueNow(a, ms)), l)
    requires es == AdvanceTime(a, ms).events
    ensures var m := Schedule(DueNow(a, ms))[l]; Elimination(m.piece, m.fromPos) in es
  {
    var b, s := Resolving(a, ms), Schedule(DueNow(a, ms));
    var turn := ResolveAll(b, s[..l + 1]).events;
    CallEvents(a, ms);
    ScheduleMovesFirst(DueNow(a, ms));
    TurnEvents(b, s, l);
    EventsGrow(b, s, l + 1);
    assert turn[|Before(b, s, l)|] == Elimination(s[l].piece, s[l].fromPos);
    assert es[|Prelude(a, ms)| + |Before(b, s, l)|] == Elimination(s[l].piece, s[l].fromPos);
  }

  // ----- a clean tick -----

  /** By the time the l-th scheduled motion lands, m has been concluded: it came due and lost the collision pass or
      had its turn before, or it has time left and lost its target to a MOVE up to the l-th. */
  ghost predicate Gone(a: Arbiter, ms: int, m: Motion, l: nat)
    requires l < |Schedule(DueNow(a, ms))|
  {
    var s := Schedule(DueNow(a, ms));
    if m.remaining <= ms then Tick(m, ms) !in s[l..]
    else exists i :: 0 <= i <= l && s[i].Move? && Late(Tick(m, ms), s[i])
  }

  lemma PreludeConcludes(a: Arbiter, ms: int, m: Motion)
    requires OneActivity(a) && m in a.motions
    ensures Concluded(Prelude(a, ms), m.piece.id) <==> m.remaining <= ms && Tick(m, ms) !in Schedule(DueNow(a, ms))
  {
    var id, x, due := m.piece.id, Tick(m, ms), DueNow(a, ms);
    PendingSplit(a, ms, m);
    var strikes := Strikes(due, Sweep(due, |due|));
    SweepDistinct(due, |due|);
    AsleepTrace(a.rests, ms, id);
    QuietNotConcluded(WakeEvents(a.rests, ms), id);
    ConcludedConcat(WakeEvents(a.rests, ms), strikes, id);
    StrikesTrace(due, Sweep(due, |due|), id);
    if m.remaining <= ms {
      var k :| 0 <= k < |due| && due[k] == x;
      SweepIsKernel(due, k);
      ScheduleShape(due, k);
      if Survives(due, k) {
        QuietNotConcluded(strikes, id);
      } else {
        KernelMove(due, k);
        EndsConcluded(strikes, x, a.timing);
      }
    } else {
      QuietNotConcluded(strikes, id);
    }
  }

  /** An active motion is either among the due ones or in flight, and its piece is not in the other list. */
  lemma PendingSplit(a: Arbiter, ms: int, m: Motion)
    requires OneActivity(a) && m in a.motions
    ensures DistinctMotions(DueNow(a, ms)) && DistinctMotions(Resolving(a, ms).motions)
    ensures Within(Sweep(DueNow(a, ms), |DueNow(a, ms)|), -1, |DueNow(a, ms)|)
    ensures m.remaining <= ms ==> Tick(m, ms) in DueNow(a, ms) && !InMotion(Resolving(a, ms).motions, m.piece.id)
    ensures m.remaining > ms ==> Tick(m, ms) in Resolving(a, ms).motions && !InMotion(DueNow(a, ms), m.piece.id)
  {
    var moved := Elapsed(a.motions, ms);
    var i :| 0 <= i < |a.motions| && a.motions[i] == m;
    assert moved[i] == Tick(m, ms);
    SplitDistinct(moved);
    SplitMembers(moved, Tick(m, ms));
    MembersAvoid(moved, Tick(m, ms));
    SweepInRange(DueNow(a, ms), |DueNow(a, ms)|);
  }

  lemma GoneMeans(a: Arbiter, ms: int, m: Motion, l: nat)
    requires OneActivity(a) && m in Pending(a, ms) && l < |Schedule(DueNow(a, ms))| && Schedule(DueNow(a, ms))[l].Move?
    ensures Concluded(BeforeTurn(a, ms, l), m.piece.id) <==> Gone(a, ms, m, l)
  {
    var b, due, s, x := Resolving(a, ms), DueNow(a, ms), Schedule(DueNow(a, ms)), Tick(m, ms);
    PendingSplit(a, ms, m);
    PreludeConcludes(a, ms, m);
    ConcludedConcat(Prelude(a, ms), Before(b, s, l), m.piece.id);
    ScheduleSubset(due);
    if m.remaining > ms {
      FlyingGone(b, s, l, x);
    } else if x in s {
      var i :| 0 <= i < |s| && s[i] == x;
      DistinctSchedule(due);
      ScheduledGone(b, s, l, i);
      if i >= l { assert s[l..][i - l] == x; }
    }
  }

  lemma DistinctSchedule(due: seq<Motion>)
    requires DistinctMotions(due)
    ensures DistinctMotions(Schedule(due))
  {
    if due == [] {
      assert Sweep(due, 0) == [] && Kept(due, [], 0) == [];
    } else {
      ScheduleShape(due, 0);
    }
  }

  /** No MOVE that arrives lands on the source of another piece's pending motion, unless that has been concluded. */
  ghost predicate CleanOnMotions(a: Arbiter, ms: int) {
    forall l: nat, m | GetsThrough(a, ms, l) && m in Pending(a, ms) ::
      var x := Schedule(DueNow(a, ms))[l];
      m.piece.id != x.piece.id && m.fromPos == x.toPos ==> Gone(a, ms, m, l)
  }

  ghost predicate CleanAt(pending: set<Motion>, es: seq<Event>, k: nat)
    requires k < |es|
  {
    es[k].Arrival? ==>
      forall m | m in pending && m.piece.id != es[k].piece.id && m.fromPos == es[k].destination ::
        Concluded(es[..k], m.piece.id)
  }

  lemma {:induction false} CleanMeans(pending: set<Motion>, es: seq<Event>)
    ensures Clean(pending, es) <==> forall k: nat | k < |es| :: CleanAt(pending, es, k)
  {
    if es == [] {
    } else {
      var n := |es| - 1;
      CleanMeans(pending, es[..n]);
      forall k: nat | k < n ensures CleanAt(pending, es[..n], k) <==> CleanAt(pending, es, k) {
        assert es[..n][..k] == es[..k] && es[..n][k] == es[k];
      }
      assert Clean(pending, es) <==> Clean(pending, es[..n]) && CleanAt(pending, es, n);
    }
  }

  /** Main result: the condition of a clean tick, on the motions alone. */
  lemma CleanOnMotionsExact(a: Arbiter, ms: int)
    requires OneActivity(a)
    ensures CleanTick(a, ms) <==> CleanOnMotions(a, ms)
  {
    var es := AdvanceTime(a, ms).events;
    CleanMeans(Pending(a, ms), es);
    if CleanTick(a, ms) {
      forall l: nat, m | GetsThrough(a, ms, l) && m in Pending(a, ms)
        ensures var x := Schedule(DueNow(a, ms))[l];
                m.piece.id != x.piece.id && m.fromPos == x.toPos ==> Gone(a, ms, m, l)
      {
        LandingInCall(a, ms, l, es);
        GoneMeans(a, ms, m, l);
        assert CleanAt(Pending(a, ms), es, |BeforeTurn(a, ms, l)|);
      }
    }
    if CleanOnMotions(a, ms) {
      forall k: nat | k < |es| ensures CleanAt(Pending(a, ms), es, k) {
        if es[k].Arrival? {
          CleanArrival(a, ms, es, k);
        }
      }
    }
  }

  lemma CleanArrival(a: Arbiter, ms: int, es: seq<Event>, k: nat)
    requires OneActivity(a) && CleanOnMotions(a, ms)
    requires es == AdvanceTime(a, ms).events && k < |es| && es[k].Arrival?
    ensures CleanAt(Pending(a, ms), es, k)
  {
    var l := ArrivalInCall(a, ms, k, es);
    forall m | m in Pending(a, ms) && m.piece.id != es[k].piece.id && m.fromPos == es[k].destination
      ensures Concluded(es[..k], m.piece.id)
    {
      GoneMeans(a, ms, m, l);
    }
  }
}
