/** No motion is lost and none is resolved twice in one call of AdvanceTime. */
module MotionConservation {
  import opened Values
  import opened Arbitration
  import opened CollisionKernel

  /** The ways in which a batch of events can mention a piece. */
  datatype Sort = Arrives | Eliminated | Lands | Rests | Wakes

  predicate Is(e: Event, sort: Sort) {
    match sort
    case Arrives => e.Arrival?
    case Eliminated => e.Elimination?
    case Lands => e.Rest? && e.restState == ShortRest
    case Rests => e.Rest?
    case Wakes => e.Wake?
  }

  /** How often piece t is mentioned in the given way. */
  ghost function Tally(es: seq<Event>, sort: Sort, t: Token): nat {
    if es == [] then 0 else
      var n := |es| - 1;
      Tally(es[..n], sort, t) + if Is(es[n], sort) && es[n].piece == t then 1 else 0
  }

  /** How many motions of the list belong to piece t. */
  ghost function Motions(ms: seq<Motion>, t: Token): nat {
    if ms == [] then 0 else Motions(ms[..|ms| - 1], t) + if ms[|ms| - 1].piece == t then 1 else 0
  }

  /** The rest entries that the Rest events of a batch announce. */
  ghost function NewRests(es: seq<Event>): seq<RestEntry> {
    if es == [] then [] else
      var n := |es| - 1;
      if es[n].Rest? then NewRests(es[..n]) + [RestEntry(es[n].piece, es[n].duration)] else NewRests(es[..n])
  }

  lemma EventSnoc(x: seq<Event>, e: Event, sort: Sort, t: Token)
    ensures Tally(x + [e], sort, t) == Tally(x, sort, t) + if Is(e, sort) && e.piece == t then 1 else 0
    ensures NewRests(x + [e]) == NewRests(x) + if e.Rest? then [RestEntry(e.piece, e.duration)] else []
  {
    assert (x + [e])[..|x|] == x;
  }

  lemma MotionSnoc(x: seq<Motion>, m: Motion, t: Token)
    ensures Motions(x + [m], t) == Motions(x, t) + if m.piece == t then 1 else 0
  {
    assert (x + [m])[..|x|] == x;
  }

  lemma {:induction false} TallyConcat(x: seq<Event>, y: seq<Event>, sort: Sort, t: Token)
    ensures Tally(x + y, sort, t) == Tally(x, sort, t) + Tally(y, sort, t)
  {
    if y == [] {
      assert x + y == x;
    } else {
      var n := |y| - 1;
      assert (x + y)[..|x + y| - 1] == x + y[..n];
      TallyConcat(x, y[..n], sort, t);
    }
  }

  lemma {:induction false} NewRestsConcat(x: seq<Event>, y: seq<Event>)
    ensures NewRests(x + y) == NewRests(x) + NewRests(y)
  {
    if y == [] {
      assert x + y == x;
    } else {
      var n := |y| - 1;
      assert (x + y)[..|x + y| - 1] == x + y[..n];
      NewRestsConcat(x, y[..n]);
    }
  }

  lemma {:induction false} MotionsConcat(x: seq<Motion>, y: seq<Motion>, t: Token)
    ensures Motions(x + y, t) == Motions(x, t) + Motions(y, t)
  {
    if y == [] {
      assert x + y == x;
    } else {
      assert (x + y)[..|x + y| - 1] == x + y[..|y| - 1];
      MotionsConcat(x, y[..|y| - 1], t);
    }
  }

  lemma {:induction false} MotionsSplit(ms: seq<Motion>, t: Token)
    ensures Motions(ms, t) == Motions(Due(ms), t) + Motions(Flying(ms), t)
    ensures Motions(ms, t) == Motions(Moves(ms), t) + Motions(Jumps(ms), t)
  {
    if ms == [] {
    } else {
      var n := |ms| - 1;
      MotionsSplit(ms[..n], t);
      MotionSnoc(Due(ms[..n]), ms[n], t);
      MotionSnoc(Flying(ms[..n]), ms[n], t);
      MotionSnoc(Moves(ms[..n]), ms[n], t);
      MotionSnoc(Jumps(ms[..n]), ms[n], t);
    }
  }

  lemma {:induction false} MotionsElapsed(ms: seq<Motion>, dt: int, t: Token)
    ensures Motions(Elapsed(ms, dt), t) == Motions(ms, t)
  {
    if ms == [] {
    } else {
      var n := |ms| - 1;
      assert Elapsed(ms, dt)[..n] == Elapsed(ms[..n], dt);
      MotionsElapsed(ms[..n], dt, t);
    }
  }

  // ----- the collision pass -----

  ghost function Below(due: seq<Motion>, out: seq<nat>, n: nat, t: Token): nat
    requires n <= |due|
  {
    if n == 0 then 0 else
      Below(due, out, n - 1, t) + if n - 1 in out && due[n - 1].piece == t then 1 else 0
  }

  lemma {:induction false} BelowOneMore(due: seq<Motion>, out: seq<nat>, k: nat, n: nat, t: Token)
    requires n <= |due| && k < |due| && k !in out
    ensures Below(due, [], n, t) == 0
    ensures Below(due, out + [k], n, t) == Below(due, out, n, t) + if k < n && due[k].piece == t then 1 else 0
  {
    if n == 0 {
    } else {
      BelowOneMore(due, out, k, n - 1, t);
    }
  }

  lemma {:induction false} StrikesTally(due: seq<Motion>, out: seq<nat>, t: Token)
    requires Within(out, -1, |due|) && NoRepeats(out)
    ensures Tally(Strikes(due, out), Eliminated, t) == Below(due, out, |due|, t)
  {
    if out == [] {
      if due != [] { BelowOneMore(due, [], 0, |due|, t); }
    } else {
      var n := |out| - 1;
      StrikesTally(due, out[..n], t);
      assert Strikes(due, out)[..n] == Strikes(due, out[..n]);
      assert out == out[..n] + [out[n]];
      BelowOneMore(due, out[..n], out[n], |due|, t);
    }
  }

  lemma {:induction false} StrikesOnly(due: seq<Motion>, out: seq<nat>, sort: Sort, t: Token)
    requires Within(out, -1, |due|)
    ensures sort != Eliminated ==> Tally(Strikes(due, out), sort, t) == 0
    ensures NewRests(Strikes(due, out)) == []
  {
    if out == [] {
    } else {
      var n := |out| - 1;
      StrikesOnly(due, out[..n], sort, t);
      assert Strikes(due, out)[..n] == Strikes(due, out[..n]);
    }
  }

  lemma {:induction false} KeptMotions(due: seq<Motion>, out: seq<nat>, n: nat, t: Token)
    requires n <= |due|
    ensures Motions(due[..n], t) == Motions(Kept(due, out, n), t) + Below(due, out, n, t)
  {
    if n == 0 {
    } else {
      KeptMotions(due, out, n - 1, t);
      assert due[..n][..n - 1] == due[..n - 1];
      MotionSnoc(Kept(due, out, n - 1), due[n - 1], t);
    }
  }

  // ----- resolving -----

  lemma {:induction false} LateTally(ms: seq<Motion>, m: Motion, sort: Sort, t: Token)
    requires m.Move?
    ensures Motions(ms, t) == Motions(OnTime(ms, m), t) + Tally(LateEvents(ms, m), Eliminated, t)
    ensures sort != Eliminated ==> Tally(LateEvents(ms, m), sort, t) == 0
    ensures NewRests(LateEvents(ms, m)) == []
  {
    if ms == [] {
    } else {
      var n := |ms| - 1;
      LateTally(ms[..n], m, sort, t);
      MotionSnoc(OnTime(ms[..n], m), ms[n], t);
      var e := Elimination(ms[n].piece, ms[n].fromPos);
      EventSnoc(LateEvents(ms[..n], m), e, Eliminated, t);
      EventSnoc(LateEvents(ms[..n], m), e, sort, t);
    }
  }

  /** The books balance for piece t: its motions before are those after plus the three ways to end one,
      and it starts one rest for each arrival and each landing. */
  ghost predicate Balanced(before: nat, after: Outcome, t: Token) {
    && before == Motions(after.arb.motions, t) + Tally(after.events, Arrives, t)
                 + Tally(after.events, Eliminated, t) + Tally(after.events, Lands, t)
    && Tally(after.events, Rests, t) == Tally(after.events, Arrives, t) + Tally(after.events, Lands, t)
  }

  lemma TallyOwn(late: seq<Event>, own: seq<Event>, sort: Sort, t: Token)
    requires 1 <= |own| <= 2
    ensures Tally(late + own, sort, t) == Tally(late, sort, t)
              + (if Is(own[0], sort) && own[0].piece == t then 1 else 0)
              + (if |own| == 2 && Is(own[1], sort) && own[1].piece == t then 1 else 0)
  {
    EventSnoc(late, own[0], sort, t);
    if |own| == 1 {
      assert late + own == late + [own[0]];
    } else {
      EventSnoc(late + [own[0]], own[1], sort, t);
      assert late + own == late + [own[0]] + [own[1]];
    }
  }

  lemma ResolveOneBalanced(a: Arbiter, m: Motion, t: Token)
    ensures Balanced(Motions(a.motions, t) + (if m.piece == t then 1 else 0), ResolveOne(a, m), t)
  {
    var r := ResolveOne(a, m);
    var late := if m.Move? then LateEvents(a.motions, m) else [];
    var own := r.events[|late|..];
    assert r.events == late + own;
    forall sort ensures Tally(r.events, sort, t) == Tally(late, sort, t)
              + (if Is(own[0], sort) && own[0].piece == t then 1 else 0)
              + (if |own| == 2 && Is(own[1], sort) && own[1].piece == t then 1 else 0)
    {
      TallyOwn(late, own, sort, t);
    }
    if m.Move? {
      LateTally(a.motions, m, Arrives, t);
      LateTally(a.motions, m, Lands, t);
      LateTally(a.motions, m, Rests, t);
    }
  }

  /** What one resolution adds to events that start no rest. */
  lemma RestsAfterLate(late: seq<Event>, x: Event, y: Event)
    requires NewRests(late) == [] && !x.Rest? && y.Rest?
    ensures NewRests(late + [x]) == []
    ensures NewRests(late + [x, y]) == [RestEntry(y.piece, y.duration)]
  {
    EventSnoc(late, x, Rests, x.piece);
    EventSnoc(late + [x], y, Rests, y.piece);
    assert late + [x, y] == late + [x] + [y];
  }

  lemma ResolveOneRests(a: Arbiter, m: Motion)
    ensures ResolveOne(a, m).arb.rests == a.rests + NewRests(ResolveOne(a, m).events)
    ensures ResolveOne(a, m).arb.timing == a.timing
  {
    if m.Move? {
      var late := LateEvents(a.motions, m);
      var rest := Rest(m.piece, LongRest, a.timing.longRestMs);
      LateTally(a.motions, m, Arrives, m.piece);
      RestsAfterLate(late, Elimination(m.piece, m.fromPos), rest);
      RestsAfterLate(late, Landing(m), rest);
    } else {
      EventSnoc([], Rest(m.piece, ShortRest, a.timing.shortRestMs), Rests, m.piece);
      assert [] + ResolveOne(a, m).events == ResolveOne(a, m).events;
    }
  }

  lemma {:induction false} ResolveAllBalanced(a: Arbiter, due: seq<Motion>, t: Token)
    ensures Balanced(Motions(a.motions, t) + Motions(due, t), ResolveAll(a, due), t)
  {
    if due == [] {
    } else {
      var n := |due| - 1;
      ResolveAllBalanced(a, due[..n], t);
      var before := ResolveAll(a, due[..n]);
      var last := ResolveOne(before.arb, due[n]);
      ResolveOneBalanced(before.arb, due[n], t);
      TallyConcat(before.events, last.events, Arrives, t);
      TallyConcat(before.events, last.events, Eliminated, t);
      TallyConcat(before.events, last.events, Lands, t);
      TallyConcat(before.events, last.events, Rests, t);
    }
  }

  lemma {:induction false} ResolveAllRests(a: Arbiter, due: seq<Motion>)
    ensures ResolveAll(a, due).arb.rests == a.rests + NewRests(ResolveAll(a, due).events)
    ensures ResolveAll(a, due).arb.timing == a.timing
  {
    if due == [] {
    } else {
      var n := |due| - 1;
      ResolveAllRests(a, due[..n]);
      var before := ResolveAll(a, due[..n]);
      ResolveOneRests(before.arb, due[n]);
      NewRestsConcat(before.events, ResolveOne(before.arb, due[n]).events);
    }
  }

  lemma {:induction false} WakesOnly(rests: seq<RestEntry>, ms: int, sort: Sort, t: Token)
    ensures sort != Wakes ==> Tally(WakeEvents(rests, ms), sort, t) == 0
    ensures NewRests(WakeEvents(rests, ms)) == []
  {
    if rests == [] {
    } else {
      var n := |rests| - 1;
      WakesOnly(rests[..n], ms, sort, t);
      if rests[n].remaining - ms <= 0 {
        EventSnoc(WakeEvents(rests[..n], ms), Wake(rests[n].piece), sort, t);
      }
    }
  }

  /** The state in which the due motions of a call are resolved. */
  function Resolving(a: Arbiter, ms: int): Arbiter {
    a.(rests := RestsLeft(a.rests, ms), motions := Flying(Elapsed(a.motions, ms)))
  }

  function DueNow(a: Arbiter, ms: int): seq<Motion> {
    Due(Elapsed(a.motions, ms))
  }

  /** The phases of a call, whether or not the motion list is empty. */
  lemma AdvancePhases(a: Arbiter, ms: int)
    ensures Within(Sweep(DueNow(a, ms), |DueNow(a, ms)|), -1, |DueNow(a, ms)|)
    ensures AdvanceTime(a, ms) == Outcome(ResolveAll(Resolving(a, ms), Schedule(DueNow(a, ms))).arb,
              WakeEvents(a.rests, ms) + Strikes(DueNow(a, ms), Sweep(DueNow(a, ms), |DueNow(a, ms)|))
              + ResolveAll(Resolving(a, ms), Schedule(DueNow(a, ms))).events)
  {
    SweepInRange(DueNow(a, ms), |DueNow(a, ms)|);
  }

  /** Every motion of a piece that is active before the call is still active after it, or arrives, or is
      eliminated, or lands, and exactly one of these; for any motion list whatsoever. */
  lemma AdvanceConserves(a: Arbiter, ms: int, t: Token)
    ensures Balanced(Motions(a.motions, t), AdvanceTime(a, ms), t)
  {
    AdvancePhases(a, ms);
    var moved := Elapsed(a.motions, ms);
    var due := DueNow(a, ms);
    var out := Sweep(due, |due|);
    var kept := Kept(due, out, |due|);
    MotionsElapsed(a.motions, ms, t);
    MotionsSplit(moved, t);
    SweepDistinct(due, |due|);
    StrikesTally(due, out, t);
    KeptMotions(due, out, |due|, t);
    assert due[..|due|] == due;
    MotionsSplit(kept, t);
    MotionsConcat(Moves(kept), Jumps(kept), t);
    var r := ResolveAll(Resolving(a, ms), Schedule(due));
    ResolveAllBalanced(Resolving(a, ms), Schedule(due), t);
    forall sort | sort != Wakes
      ensures Tally(AdvanceTime(a, ms).events, sort, t)
           == Tally(Strikes(due, out), sort, t) + Tally(r.events, sort, t)
    {
      WakesOnly(a.rests, ms, sort, t);
      TallyConcat(WakeEvents(a.rests, ms), Strikes(due, out), sort, t);
      TallyConcat(WakeEvents(a.rests, ms) + Strikes(due, out), r.events, sort, t);
    }
    StrikesOnly(due, out, Arrives, t);
    StrikesOnly(due, out, Lands, t);
    StrikesOnly(due, out, Rests, t);
  }

  /** Wake-ups and same-tick eliminations start no rest. */
  lemma QuietStart(rests: seq<RestEntry>, ms: int, due: seq<Motion>)
    ensures Within(Sweep(due, |due|), -1, |due|)
    ensures NewRests(WakeEvents(rests, ms)) == [] && NewRests(Strikes(due, Sweep(due, |due|))) == []
  {
    SweepInRange(due, |due|);
    StrikesOnly(due, Sweep(due, |due|), Arrives, Token("", White));
    WakesOnly(rests, ms, Arrives, Token("", White));
  }

  /** The rest list after a call: the rests with time left, then one entry for each Rest event, in order. */
  lemma AdvanceRests(a: Arbiter, ms: int)
    ensures AdvanceTime(a, ms).arb.rests == RestsLeft(a.rests, ms) + NewRests(AdvanceTime(a, ms).events)
    ensures AdvanceTime(a, ms).arb.timing == a.timing
  {
    AdvancePhases(a, ms);
    var due := DueNow(a, ms);
    var out := Sweep(due, |due|);
    var r := ResolveAll(Resolving(a, ms), Schedule(due));
    ResolveAllRests(Resolving(a, ms), Schedule(due));
    QuietStart(a.rests, ms, due);
    NewRestsConcat(WakeEvents(a.rests, ms), Strikes(due, out));
    NewRestsConcat(WakeEvents(a.rests, ms) + Strikes(due, out), r.events);
  }
}
