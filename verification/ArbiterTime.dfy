/** How simulated time composes: splitting a tick, keeping one activity per piece, and draining. */
module SimulatedTime {
  import opened Values
  import opened Arbitration
  import opened MotionConservation
  import opened PieceFate

  // ----- one activity per piece -----

  ghost function RestsOf(rs: seq<RestEntry>, id: PieceId): seq<RestEntry> {
    if rs == [] then [] else
      var n := |rs| - 1;
      if rs[n].piece.id == id then RestsOf(rs[..n], id) + [rs[n]] else RestsOf(rs[..n], id)
  }

  lemma {:induction false} RestsOfConcat(x: seq<RestEntry>, y: seq<RestEntry>, id: PieceId)
    ensures RestsOf(x + y, id) == RestsOf(x, id) + RestsOf(y, id)
  {
    if y == [] {
      assert x + y == x;
    } else {
      var n := |y| - 1;
      assert (x + y)[..|x + y| - 1] == x + y[..n];
      RestsOfConcat(x, y[..n], id);
    }
  }

  lemma {:induction false} RestsOfTrace(es: seq<Event>, id: PieceId)
    ensures RestsOf(NewRests(es), id) == NewRests(Trace(es, id))
  {
    if es == [] {
    } else {
      var n := |es| - 1;
      RestsOfTrace(es[..n], id);
      EventSnoc(Trace(es[..n], id), es[n], Rests, es[n].piece);
      if es[n].Rest? {
        var r := RestEntry(es[n].piece, es[n].duration);
        assert (NewRests(es[..n]) + [r])[..|NewRests(es[..n])|] == NewRests(es[..n]);
      }
    }
  }

  lemma {:induction false} RestsOfMembers(rs: seq<RestEntry>, r: RestEntry, id: PieceId)
    ensures r in RestsOf(rs, id) <==> r in rs && r.piece.id == id
  {
    if rs == [] {
    } else {
      assert rs == rs[..|rs| - 1] + [rs[|rs| - 1]];
      RestsOfMembers(rs[..|rs| - 1], r, id);
    }
  }

  lemma {:induction false} RestsOfPair(rs: seq<RestEntry>, i: nat, j: nat)
    requires i < j < |rs| && rs[i].piece.id == rs[j].piece.id
    ensures |RestsOf(rs, rs[i].piece.id)| >= 2
  {
    var n := |rs| - 1;
    if j < n {
      RestsOfPair(rs[..n], i, j);
    } else {
      assert rs[..n][i] in rs[..n];
      RestsOfMembers(rs[..n], rs[i], rs[i].piece.id);
    }
  }

  lemma {:induction false} RestsOfUnique(rs: seq<RestEntry>, r: RestEntry)
    requires DistinctRests(rs) && r in rs
    ensures RestsOf(rs, r.piece.id) == [r]
  {
    var id := r.piece.id;
    var n := |rs| - 1;
    if rs[n] == r {
      if RestsOf(rs[..n], id) != [] {
        var x := RestsOf(rs[..n], id)[0];
        RestsOfMembers(rs[..n], x, id);
      }
    } else {
      RestsOfUnique(rs[..n], r);
    }
  }

  /** The rest entries of a piece after a call: the one that runs on, or the one its ended motion starts. */
  lemma RestsAfter(a: Arbiter, ms: int, id: PieceId)
    ensures RestsOf(AdvanceTime(a, ms).arb.rests, id)
         == RestsOf(RestsLeft(a.rests, ms), id) + NewRests(Trace(AdvanceTime(a, ms).events, id))
  {
    AdvanceRests(a, ms);
    RestsOfConcat(RestsLeft(a.rests, ms), NewRests(AdvanceTime(a, ms).events), id);
    RestsOfTrace(AdvanceTime(a, ms).events, id);
  }

  lemma NewRestsOfEnd(m: Motion, timing: Timing, t: seq<Event>)
    requires Ends(m, timing, t)
    ensures NewRests(t) == if |t| == 1 && t[0].Elimination? then []
                           else [RestEntry(m.piece, if m.Move? then timing.longRestMs else timing.shortRestMs)]
  {
    if |t| == 1 {
      EventSnoc([], t[0], Rests, m.piece);
      assert t == [] + [t[0]];
    } else {
      EventSnoc([], t[0], Rests, m.piece);
      EventSnoc([] + [t[0]], t[1], Rests, m.piece);
      assert t == [] + [t[0]] + [t[1]];
    }
  }

  /** What a piece does after a call, from what it did before. */
  ghost predicate ActivityAfter(a: Arbiter, ms: int, id: PieceId) {
    var after := AdvanceTime(a, ms).arb;
    && |RestsOf(after.rests, id)| <= 1
    && !(InMotion(after.motions, id) && AtRest(after.rests, id))
  }

  lemma NoRests(rs: seq<RestEntry>, id: PieceId)
    ensures !AtRest(rs, id) <==> RestsOf(rs, id) == []
  {
    if RestsOf(rs, id) != [] {
      RestsOfMembers(rs, RestsOf(rs, id)[0], id);
    }
    forall r ensures r in rs && r.piece.id == id ==> r in RestsOf(rs, id) {
      RestsOfMembers(rs, r, id);
    }
  }

  lemma MotionEnded(a: Arbiter, ms: int, m: Motion, after: seq<Motion>)
    requires DistinctMotions(a.motions) && m in a.motions && Tick(m, ms) !in after
    requires forall k | k in after :: Tick(k, -ms) in a.motions
    ensures !InMotion(after, m.piece.id)
  {
    forall k | k in after ensures k.piece.id != m.piece.id {
      if k.piece.id == m.piece.id {
        UniqueMotion(a.motions, m, Tick(k, -ms));
      }
    }
  }

  /** The rests of a piece that was moving are those its end starts. */
  lemma MoverRests(a: Arbiter, ms: int, m: Motion)
    requires OneActivity(a) && m in a.motions
    ensures RestsOf(AdvanceTime(a, ms).arb.rests, m.piece.id) == NewRests(Trace(AdvanceTime(a, ms).events, m.piece.id))
  {
    RestsAfter(a, ms, m.piece.id);
    RestsShape(a.rests, ms);
    NoRests(RestsLeft(a.rests, ms), m.piece.id);
    assert [] + NewRests(Trace(AdvanceTime(a, ms).events, m.piece.id))
        == NewRests(Trace(AdvanceTime(a, ms).events, m.piece.id));
  }

  lemma MoverActivityAfter(a: Arbiter, ms: int, m: Motion)
    requires OneActivity(a) && m in a.motions
    ensures ActivityAfter(a, ms, m.piece.id)
  {
    var t := Trace(AdvanceTime(a, ms).events, m.piece.id);
    MoverRests(a, ms, m);
    NoRests(AdvanceTime(a, ms).arb.rests, m.piece.id);
    Fate(a, ms, m);
    if t == [] {
      assert NewRests(t) == [];
    } else {
      NewRestsOfEnd(Tick(m, ms), a.timing, t);
      AdvanceShape(a, ms);
      MotionEnded(a, ms, m, AdvanceTime(a, ms).arb.motions);
    }
  }

  lemma RestsLeftAtMostOne(rs: seq<RestEntry>, ms: int, id: PieceId)
    requires DistinctRests(rs)
    ensures |RestsOf(RestsLeft(rs, ms), id)| <= 1
  {
    RestsShape(rs, ms);
    NoRests(RestsLeft(rs, ms), id);
    if AtRest(RestsLeft(rs, ms), id) {
      var x :| x in RestsLeft(rs, ms) && x.piece.id == id;
      RestsOfUnique(RestsLeft(rs, ms), x);
    }
  }

  lemma IdlerStartsNoRest(a: Arbiter, ms: int, id: PieceId)
    requires OneActivity(a) && !InMotion(a.motions, id)
    ensures NewRests(Trace(AdvanceTime(a, ms).events, id)) == []
  {
    if AtRest(a.rests, id) {
      var r :| r in a.rests && r.piece.id == id;
      RestFate(a, ms, r);
      EventSnoc([], Wake(r.piece), Rests, r.piece);
      assert [] + [Wake(r.piece)] == [Wake(r.piece)];
    } else {
      NoFate(a, ms, id);
    }
  }

  lemma IdlerStaysOut(a: Arbiter, ms: int, id: PieceId)
    requires DistinctMotions(a.motions) && !InMotion(a.motions, id)
    ensures !InMotion(AdvanceTime(a, ms).arb.motions, id)
  {
    AdvanceShape(a, ms);
    forall k | k in AdvanceTime(a, ms).arb.motions ensures k.piece.id != id {
      assert Tick(k, -ms) in a.motions;
    }
  }

  lemma IdlerActivityAfter(a: Arbiter, ms: int, id: PieceId)
    requires OneActivity(a) && !InMotion(a.motions, id)
    ensures ActivityAfter(a, ms, id)
  {
    RestsAfter(a, ms, id);
    RestsLeftAtMostOne(a.rests, ms, id);
    IdlerStartsNoRest(a, ms, id);
    IdlerStaysOut(a, ms, id);
  }

  lemma PieceActivityAfter(a: Arbiter, ms: int, id: PieceId)
    requires OneActivity(a)
    ensures ActivityAfter(a, ms, id)
  {
    if InMotion(a.motions, id) {
      var m :| m in a.motions && m.piece.id == id;
      MoverActivityAfter(a, ms, m);
    } else {
      IdlerActivityAfter(a, ms, id);
    }
  }

  /** Time keeps every piece to one activity. */
  lemma AdvanceKeepsOneActivity(a: Arbiter, ms: int)
    requires OneActivity(a)
    ensures OneActivity(AdvanceTime(a, ms).arb)
  {
    var after := AdvanceTime(a, ms).arb;
    AdvanceShape(a, ms);
    forall i, j | 0 <= i < j < |after.rests| ensures after.rests[i].piece.id != after.rests[j].piece.id {
      PieceActivityAfter(a, ms, after.rests[i].piece.id);
      if after.rests[i].piece.id == after.rests[j].piece.id {
        RestsOfPair(after.rests, i, j);
      }
    }
    forall m, r | m in after.motions && r in after.rests ensures m.piece.id != r.piece.id {
      PieceActivityAfter(a, ms, m.piece.id);
    }
  }

  // ----- splitting a tick -----

  ghost predicate Outlasts(a: Arbiter, ms: int) {
    && (forall m | m in a.motions :: m.remaining > ms)
    && (forall r | r in a.rests :: r.remaining > ms)
  }

  lemma {:induction false} RestsSplit(rs: seq<RestEntry>, x: int, y: int)
    requires forall r | r in rs :: r.remaining > x
    ensures WakeEvents(rs, x) == [] && |RestsLeft(rs, x)| == |rs|
    ensures RestsLeft(RestsLeft(rs, x), y) == RestsLeft(rs, x + y)
    ensures WakeEvents(RestsLeft(rs, x), y) == WakeEvents(rs, x + y)
  {
    if rs == [] {
    } else {
      var n := |rs| - 1;
      RestsSplit(rs[..n], x, y);
      assert RestsLeft(rs, x)[..n] == RestsLeft(rs[..n], x);
    }
  }

  lemma {:induction false} AllFly(ms: seq<Motion>)
    requires forall m | m in ms :: m.remaining > 0
    ensures Due(ms) == [] && Flying(ms) == ms
  {
    if ms == [] {
    } else {
      AllFly(ms[..|ms| - 1]);
      assert ms == ms[..|ms| - 1] + [ms[|ms| - 1]];
    }
  }

  /** A tick shorter than everything that is running only shortens it. */
  lemma QuietTick(a: Arbiter, x: int)
    requires Outlasts(a, x)
    ensures AdvanceTime(a, x) == Outcome(Later(a, x), [])
  {
    RestsSplit(a.rests, x, 0);
    var moved := Elapsed(a.motions, x);
    forall m | m in moved ensures m.remaining > 0 {
      var i :| 0 <= i < |moved| && moved[i] == m;
      assert a.motions[i] in a.motions;
    }
    AllFly(moved);
    AdvancePhases(a, x);
    assert Sweep([], 0) == [] && Kept([], [], 0) == [] && Strikes([], []) == [];
    assert Schedule([]) == [];
    if a.motions == [] { assert moved == []; }
  }

  /** A call depends on its state and its time only through these parts. */
  lemma SamePhases(a: Arbiter, x: int, b: Arbiter, y: int)
    requires Elapsed(a.motions, x) == Elapsed(b.motions, y) && RestsLeft(a.rests, x) == RestsLeft(b.rests, y)
    requires WakeEvents(a.rests, x) == WakeEvents(b.rests, y) && a.timing == b.timing && a.airborne == b.airborne
    ensures AdvanceTime(a, x) == AdvanceTime(b, y)
  {
    AdvancePhases(a, x);
    AdvancePhases(b, y);
    assert Resolving(a, x) == Resolving(b, y);
  }

  /** Waiting x and then y is the same as waiting x + y, as long as everything outlasts x. */
  lemma TickSplit(a: Arbiter, x: int, y: int)
    requires Outlasts(a, x)
    ensures AdvanceTime(a, x).events == []
    ensures AdvanceTime(AdvanceTime(a, x).arb, y) == AdvanceTime(a, x + y)
  {
    QuietTick(a, x);
    LaterTick(a, x, y, x + y);
  }

  lemma LaterTick(a: Arbiter, x: int, y: int, z: int)
    requires Outlasts(a, x) && x + y == z
    ensures AdvanceTime(Later(a, x), y) == AdvanceTime(a, z)
  {
    RestsSplit(a.rests, x, y);
    LaterSplit(a, x, y, z);
    SamePhases(Later(a, x), y, a, z);
  }

  function Sum(ticks: seq<int>): int {
    if ticks == [] then 0 else ticks[0] + Sum(ticks[1..])
  }

  /** The outcome of a sequence of calls: the final state and all events. */
  function Ticks(a: Arbiter, ticks: seq<int>): Outcome
    decreases ticks
  {
    if ticks == [] then Outcome(a, []) else
      var first := AdvanceTime(a, ticks[0]);
      var rest := Ticks(first.arb, ticks[1..]);
      Outcome(rest.arb, first.events + rest.events)
  }

  lemma OutlastsLater(a: Arbiter, x: int, y: int)
    requires Outlasts(a, x + y) && 0 <= y
    ensures Outlasts(a, x) && Outlasts(AdvanceTime(a, x).arb, y)
  {
    QuietTick(a, x);
    var moved := Elapsed(a.motions, x);
    forall m | m in moved ensures m.remaining > y {
      var i :| 0 <= i < |moved| && moved[i] == m;
      assert a.motions[i] in a.motions;
    }
    RestsLeftBound(a.rests, x, y);
  }

  lemma {:induction false} RestsLeftBound(rs: seq<RestEntry>, x: int, y: int)
    requires forall r | r in rs :: r.remaining > x + y
    ensures forall r | r in RestsLeft(rs, x) :: r.remaining > y
  {
    if rs == [] {
    } else {
      assert rs == rs[..|rs| - 1] + [rs[|rs| - 1]];
      RestsLeftBound(rs[..|rs| - 1], x, y);
    }
  }

  lemma SumNonNegative(ticks: seq<int>)
    requires forall t | t in ticks :: 0 <= t
    ensures 0 <= Sum(ticks)
  {
    if ticks == [] {
    } else {
      assert ticks[0] in ticks && forall t | t in ticks[1..] :: t in ticks;
      SumNonNegative(ticks[1..]);
    }
  }

  /** The state when ms have passed and everything has outlasted them. */
  function Later(a: Arbiter, ms: int): Arbiter {
    a.(motions := Elapsed(a.motions, ms), rests := RestsLeft(a.rests, ms))
  }

  lemma LaterSplit(a: Arbiter, x: int, y: int, z: int)
    requires Outlasts(a, x) && x + y == z
    ensures Later(Later(a, x), y) == Later(a, z)
  {
    RestsSplit(a.rests, x, y);
    assert Elapsed(Elapsed(a.motions, x), y) == Elapsed(a.motions, z);
  }

  lemma {:induction false} RestsNow(rs: seq<RestEntry>)
    requires forall r | r in rs :: r.remaining > 0
    ensures RestsLeft(rs, 0) == rs
  {
    if rs == [] {
    } else {
      RestsNow(rs[..|rs| - 1]);
      assert rs == rs[..|rs| - 1] + [rs[|rs| - 1]];
    }
  }

  lemma LaterNow(a: Arbiter)
    requires Outlasts(a, 0)
    ensures Later(a, 0) == a
  {
    RestsNow(a.rests);
    assert Elapsed(a.motions, 0) == a.motions;
  }

  lemma TicksNext(a: Arbiter, ticks: seq<int>, b: Arbiter)
    requires ticks != [] && AdvanceTime(a, ticks[0]) == Outcome(b, [])
    ensures Ticks(a, ticks) == Ticks(b, ticks[1..])
  {
    assert [] + Ticks(b, ticks[1..]).events == Ticks(b, ticks[1..]).events;
  }

  /** Ticks that everything outlasts only let their sum pass. */
  lemma {:induction false} QuietTicks(a: Arbiter, ticks: seq<int>)
    requires (forall t | t in ticks :: 0 <= t) && Outlasts(a, Sum(ticks))
    ensures Ticks(a, ticks) == Outcome(Later(a, Sum(ticks)), [])
    decreases ticks
  {
    if ticks == [] {
      LaterNow(a);
    } else {
      var x, y := ticks[0], Sum(ticks[1..]);
      assert ticks[0] in ticks && forall t | t in ticks[1..] :: t in ticks;
      SumNonNegative(ticks[1..]);
      OutlastsLater(a, x, y);
      QuietTick(a, x);
      TicksNext(a, ticks, Later(a, x));
      QuietTicks(Later(a, x), ticks[1..]);
      LaterSplit(a, x, y, Sum(ticks));
    }
  }

  lemma TickFrom(b: Arbiter, a: Arbiter, x: int, y: int, z: int)
    requires Outlasts(a, x) && b == Later(a, x) && x + y == z
    ensures AdvanceTime(b, y) == AdvanceTime(a, z)
  {
    LaterTick(a, x, y, z);
  }

  /** Any sequence of ticks before a last one can be merged into it. */
  lemma TicksMerge(a: Arbiter, ticks: seq<int>, last: int, total: int)
    requires (forall t | t in ticks :: 0 <= t) && total == Sum(ticks) + last
    requires Outlasts(a, Sum(ticks))
    ensures Ticks(a, ticks).events == []
    ensures AdvanceTime(Ticks(a, ticks).arb, last) == AdvanceTime(a, total)
  {
    QuietTicks(a, ticks);
    TickFrom(Ticks(a, ticks).arb, a, Sum(ticks), last, total);
  }

  // ----- draining -----

  lemma {:induction false} OnTimeSubset(ms: seq<Motion>, arriving: Motion)
    requires arriving.Move?
    ensures forall m | m in OnTime(ms, arriving) :: m in ms
  {
    forall m | m in OnTime(ms, arriving) ensures m in ms {
      OnTimeMembers(ms, arriving, m);
    }
  }

  lemma {:induction false} ResolveAllSubset(a: Arbiter, due: seq<Motion>)
    ensures forall m | m in ResolveAll(a, due).arb.motions :: m in a.motions
  {
    if due == [] {
    } else {
      var n := |due| - 1;
      ResolveAllSubset(a, due[..n]);
      if due[n].Move? {
        OnTimeSubset(ResolveAll(a, due[..n]).arb.motions, due[n]);
      }
    }
  }

  /** After a call, all time left is positive and came from more time left. */
  lemma MotionsShrink(a: Arbiter, ms: int, bound: int)
    requires forall m | m in a.motions :: m.remaining <= bound
    ensures forall m | m in AdvanceTime(a, ms).arb.motions :: 0 < m.remaining <= bound - ms
  {
    AdvancePhases(a, ms);
    var moved := Elapsed(a.motions, ms);
    ResolveAllSubset(Resolving(a, ms), Schedule(DueNow(a, ms)));
    forall m | m in AdvanceTime(a, ms).arb.motions ensures 0 < m.remaining <= bound - ms {
      SplitMembers(moved, m);
      var i :| 0 <= i < |moved| && moved[i] == m;
      assert a.motions[i] in a.motions;
    }
  }

  /** All motions are over once the ticks add up to the longest one. */
  lemma {:induction false} MotionsDrain(a: Arbiter, ticks: seq<int>, bound: int)
    requires ticks != [] && Sum(ticks) >= bound
    requires forall m | m in a.motions :: m.remaining <= bound
    ensures Ticks(a, ticks).arb.motions == []
    decreases ticks
  {
    MotionsShrink(a, ticks[0], bound);
    var b := AdvanceTime(a, ticks[0]).arb;
    if |ticks| == 1 {
      assert Sum(ticks) == ticks[0] + Sum([]);
      assert Ticks(a, ticks).arb == Ticks(b, []).arb;
      EmptyOrSome(b.motions);
    } else {
      MotionsDrain(b, ticks[1..], bound - ticks[0]);
    }
  }

  lemma StillAir(a: Arbiter, ms: int)
    requires a.motions == []
    ensures AdvanceTime(a, ms) == Outcome(a.(rests := RestsLeft(a.rests, ms)), WakeEvents(a.rests, ms))
  {
  }

  lemma {:induction false} RestsShrink(rs: seq<RestEntry>, ms: int, bound: int)
    requires forall r | r in rs :: r.remaining <= bound
    ensures forall r | r in RestsLeft(rs, ms) :: 0 < r.remaining <= bound - ms
  {
    if rs == [] {
    } else {
      assert rs == rs[..|rs| - 1] + [rs[|rs| - 1]];
      RestsShrink(rs[..|rs| - 1], ms, bound);
    }
  }

  /** Without motions, all rests are over once the ticks add up to the longest one, and the only events are wake-ups. */
  lemma {:induction false} RestsDrain(a: Arbiter, ticks: seq<int>, bound: int)
    requires a.motions == []
    requires ticks != [] && Sum(ticks) >= bound
    requires forall r | r in a.rests :: r.remaining <= bound
    ensures Ticks(a, ticks).arb.motions == [] && Ticks(a, ticks).arb.rests == []
    decreases ticks
  {
    StillAir(a, ticks[0]);
    RestsShrink(a.rests, ticks[0], bound);
    var b := AdvanceTime(a, ticks[0]).arb;
    if |ticks| == 1 {
      assert Sum(ticks) == ticks[0] + Sum([]);
      assert Ticks(a, ticks).arb == Ticks(b, []).arb;
      EmptyOrSome(b.rests);
    } else {
      RestsDrain(b, ticks[1..], bound - ticks[0]);
    }
  }

  lemma {:induction false} ResolveAllRestBound(a: Arbiter, due: seq<Motion>, bound: int)
    requires Max(a.timing.longRestMs, a.timing.shortRestMs) <= bound
    requires forall r | r in a.rests :: r.remaining <= bound
    ensures ResolveAll(a, due).arb.timing == a.timing
    ensures forall r | r in ResolveAll(a, due).arb.rests :: r.remaining <= bound
  {
    if due == [] {
    } else {
      ResolveAllRestBound(a, due[..|due| - 1], bound);
    }
  }

  /** No rest ever has more time left than the longer of the two configured durations. */
  lemma RestsBounded(a: Arbiter, ms: int, bound: int)
    requires 0 <= ms && Max(a.timing.longRestMs, a.timing.shortRestMs) <= bound
    requires forall r | r in a.rests :: r.remaining <= bound
    ensures forall r | r in AdvanceTime(a, ms).arb.rests :: r.remaining <= bound
  {
    RestsShrink(a.rests, ms, bound);
    AdvancePhases(a, ms);
    ResolveAllRestBound(Resolving(a, ms), Schedule(DueNow(a, ms)), bound);
  }
}
