/** What one call of AdvanceTime reports about each single piece, when no piece has two activities. */
module PieceFate {
  import opened Values
  import opened Arbitration
  import opened CollisionKernel
  import opened MotionConservation

  ghost predicate DistinctMotions(ms: seq<Motion>) {
    forall i, j | 0 <= i < j < |ms| :: ms[i].piece.id != ms[j].piece.id
  }

  ghost predicate DistinctRests(rs: seq<RestEntry>) {
    forall i, j | 0 <= i < j < |rs| :: rs[i].piece.id != rs[j].piece.id
  }

  ghost predicate InMotion(ms: seq<Motion>, id: PieceId) {
    exists m :: m in ms && m.piece.id == id
  }

  ghost predicate AtRest(rs: seq<RestEntry>, id: PieceId) {
    exists r :: r in rs && r.piece.id == id
  }

  /** A piece has at most one motion and at most one rest entry, never both. */
  ghost predicate OneActivity(a: Arbiter) {
    && DistinctMotions(a.motions)
    && DistinctRests(a.rests)
    && forall m, r | m in a.motions && r in a.rests :: m.piece.id != r.piece.id
  }

  /** The events of one piece, in order. */
  ghost function Trace(es: seq<Event>, id: PieceId): seq<Event> {
    if es == [] then [] else
      var n := |es| - 1;
      if es[n].piece.id == id then Trace(es[..n], id) + [es[n]] else Trace(es[..n], id)
  }

  /** The four things a motion can come to, m being the motion with its time already advanced. */
  ghost predicate Ends(m: Motion, timing: Timing, t: seq<Event>) {
    || (m.Move? && t == [Elimination(m.piece, m.fromPos)])
    || (m.Move? && m.remaining <= 0 && t == [Landing(m), Rest(m.piece, LongRest, timing.longRestMs)])
    || (m.Jump? && m.remaining <= 0 && t == [Rest(m.piece, ShortRest, timing.shortRestMs)])
  }

  lemma TraceSnoc(x: seq<Event>, e: Event, id: PieceId)
    ensures Trace(x + [e], id) == if e.piece.id == id then Trace(x, id) + [e] else Trace(x, id)
  {
    assert (x + [e])[..|x|] == x;
  }

  lemma {:induction false} TraceConcat(x: seq<Event>, y: seq<Event>, id: PieceId)
    ensures Trace(x + y, id) == Trace(x, id) + Trace(y, id)
  {
    if y == [] {
      assert x + y == x;
    } else {
      var n := |y| - 1;
      assert (x + y)[..|x + y| - 1] == x + y[..n];
      TraceConcat(x, y[..n], id);
      assert Trace(x, id) + (Trace(y[..n], id) + [y[n]]) == (Trace(x, id) + Trace(y[..n], id)) + [y[n]];
    }
  }

  // ----- membership in the filtered lists -----

  lemma {:induction false} SplitMembers(ms: seq<Motion>, m: Motion)
    ensures m in Due(ms) <==> m in ms && m.remaining <= 0
    ensures m in Flying(ms) <==> m in ms && m.remaining > 0
    ensures m in Moves(ms) <==> m in ms && m.Move?
    ensures m in Jumps(ms) <==> m in ms && m.Jump?
  {
    if ms == [] {
    } else {
      var n := |ms| - 1;
      SplitMembers(ms[..n], m);
      assert ms == ms[..n] + [ms[n]];
    }
  }

  lemma {:induction false} SplitDistinct(ms: seq<Motion>)
    requires DistinctMotions(ms)
    ensures DistinctMotions(Due(ms)) && DistinctMotions(Flying(ms))
    ensures DistinctMotions(Moves(ms)) && DistinctMotions(Jumps(ms))
  {
    if ms == [] {
    } else {
      var n := |ms| - 1;
      SplitDistinct(ms[..n]);
      forall m ensures m in Due(ms[..n]) || m in Flying(ms[..n]) || m in Moves(ms[..n]) || m in Jumps(ms[..n])
                       ==> m.piece.id != ms[n].piece.id
      {
        SplitMembers(ms[..n], m);
      }
      DistinctSnoc(Due(ms[..n]), ms[n]);
      DistinctSnoc(Flying(ms[..n]), ms[n]);
      DistinctSnoc(Moves(ms[..n]), ms[n]);
      DistinctSnoc(Jumps(ms[..n]), ms[n]);
    }
  }

  lemma DistinctSnoc(ms: seq<Motion>, m: Motion)
    requires DistinctMotions(ms)
    ensures DistinctMotions(ms + [m]) <==> !InMotion(ms, m.piece.id)
  {
    if InMotion(ms, m.piece.id) {
      var x :| x in ms && x.piece.id == m.piece.id;
      var i :| 0 <= i < |ms| && ms[i] == x;
      assert (ms + [m])[i] == x && (ms + [m])[|ms|] == m;
    } else {
      forall i | 0 <= i < |ms| ensures ms[i].piece.id != m.piece.id {
        assert ms[i] in ms;
      }
    }
  }

  lemma DistinctConcat(x: seq<Motion>, y: seq<Motion>)
    requires DistinctMotions(x) && DistinctMotions(y)
    requires forall m, n | m in x && n in y :: m.piece.id != n.piece.id
    ensures DistinctMotions(x + y)
  {
    forall i, j | 0 <= i < j < |x + y| ensures (x + y)[i].piece.id != (x + y)[j].piece.id {
      if i < |x| <= j {
        assert x[i] in x && y[j - |x|] in y;
      }
    }
  }

  /** In a list without repeated pieces, a piece has only one motion. */
  lemma UniqueMotion(ms: seq<Motion>, m: Motion, n: Motion)
    requires DistinctMotions(ms) && m in ms && n in ms && m.piece.id == n.piece.id
    ensures m == n
  {
  }

  lemma {:induction false} KeptMembers(due: seq<Motion>, out: seq<nat>, n: nat, k: nat)
    requires n <= |due| && k < |due| && DistinctMotions(due)
    ensures DistinctMotions(Kept(due, out, n))
    ensures due[k] in Kept(due, out, n) <==> k < n && k !in out
    ensures forall m | m in Kept(due, out, n) :: m in due[..n]
  {
    if n == 0 {
    } else {
      KeptMembers(due, out, n - 1, k);
      assert due[..n] == due[..n - 1] + [due[n - 1]];
      DistinctSnoc(Kept(due, out, n - 1), due[n - 1]);
    }
  }

  lemma {:induction false} OnTimeMembers(ms: seq<Motion>, arriving: Motion, m: Motion)
    requires arriving.Move?
    ensures m in OnTime(ms, arriving) <==> m in ms && !Late(m, arriving)
  {
    if ms == [] {
    } else {
      var n := |ms| - 1;
      OnTimeMembers(ms[..n], arriving, m);
      assert ms == ms[..n] + [ms[n]];
    }
  }

  lemma {:induction false} LateTrace(ms: seq<Motion>, arriving: Motion, id: PieceId)
    requires arriving.Move? && DistinctMotions(ms)
    ensures DistinctMotions(OnTime(ms, arriving))
    ensures !InMotion(ms, id) ==> Trace(LateEvents(ms, arriving), id) == []
    ensures forall m | m in ms && m.piece.id == id ::
              Trace(LateEvents(ms, arriving), id) == if Late(m, arriving) then [Elimination(m.piece, m.fromPos)] else []
  {
    if ms == [] {
    } else {
      var n := |ms| - 1;
      LateTrace(ms[..n], arriving, id);
      forall m ensures m in OnTime(ms[..n], arriving) ==> m.piece.id != ms[n].piece.id {
        OnTimeMembers(ms[..n], arriving, m);
      }
      DistinctSnoc(OnTime(ms[..n], arriving), ms[n]);
      TraceSnoc(LateEvents(ms[..n], arriving), Elimination(ms[n].piece, ms[n].fromPos), id);
      assert ms == ms[..n] + [ms[n]];
      if ms[n].piece.id == id {
        assert !InMotion(ms[..n], id);
      } else {
        assert InMotion(ms[..n], id) ==> InMotion(ms, id);
      }
    }
  }

  lemma ResolveOneShape(a: Arbiter, d: Motion)
    requires DistinctMotions(a.motions)
    ensures DistinctMotions(ResolveOne(a, d).arb.motions)
    ensures forall m | m in ResolveOne(a, d).arb.motions :: m in a.motions
  {
    if d.Move? {
      LateTrace(a.motions, d, d.piece.id);
      forall m ensures m in OnTime(a.motions, d) <==> m in a.motions && !Late(m, d) {
        OnTimeMembers(a.motions, d, m);
      }
    }
  }

  ghost function LateOf(a: Arbiter, d: Motion): seq<Event> {
    if d.Move? then LateEvents(a.motions, d) else []
  }

  /** One or two more events about the same piece. */
  lemma TraceOwn(late: seq<Event>, x: Event, y: Event, id: PieceId)
    requires x.piece.id == y.piece.id
    ensures Trace(late + [x], id) == if x.piece.id == id then Trace(late, id) + [x] else Trace(late, id)
    ensures Trace(late + [x, y], id) == if x.piece.id == id then Trace(late, id) + [x, y] else Trace(late, id)
  {
    TraceSnoc(late, x, id);
    TraceSnoc(late + [x], y, id);
    assert late + [x, y] == late + [x] + [y];
  }

  /** The trace of one resolution: the late losers first, then what happens to d itself. */
  lemma ResolveOneTrace(a: Arbiter, d: Motion, id: PieceId)
    ensures id != d.piece.id ==> Trace(ResolveOne(a, d).events, id) == Trace(LateOf(a, d), id)
    ensures id == d.piece.id && d.remaining <= 0 && Trace(LateOf(a, d), id) == [] ==>
              Ends(d, a.timing, Trace(ResolveOne(a, d).events, id))
  {
    var late := LateOf(a, d);
    if d.Move? {
      var rest := Rest(d.piece, LongRest, a.timing.longRestMs);
      TraceOwn(late, Elimination(d.piece, d.fromPos), rest, id);
      TraceOwn(late, Landing(d), rest, id);
    } else {
      var rest := Rest(d.piece, ShortRest, a.timing.shortRestMs);
      TraceOwn([], rest, rest, id);
      assert [] + [rest] == [rest];
    }
  }

  lemma QuietLate(a: Arbiter, d: Motion, id: PieceId)
    requires DistinctMotions(a.motions) && !InMotion(a.motions, id)
    ensures Trace(LateOf(a, d), id) == []
  {
    if d.Move? {
      LateTrace(a.motions, d, id);
    }
  }

  lemma {:induction false} ResolveAllShape(a: Arbiter, due: seq<Motion>)
    requires DistinctMotions(a.motions)
    ensures DistinctMotions(ResolveAll(a, due).arb.motions)
    ensures forall m | m in ResolveAll(a, due).arb.motions :: m in a.motions
  {
    if due == [] {
    } else {
      ResolveAllShape(a, due[..|due| - 1]);
      ResolveOneShape(ResolveAll(a, due[..|due| - 1]).arb, due[|due| - 1]);
    }
  }

  /** One more resolution says nothing about a piece that does not take part. */
  lemma QuietStep(r: Outcome, d: Motion, id: PieceId)
    requires DistinctMotions(r.arb.motions) && !InMotion(r.arb.motions, id) && d.piece.id != id
    ensures Trace(r.events + ResolveOne(r.arb, d).events, id) == Trace(r.events, id)
  {
    ResolveOneTrace(r.arb, d, id);
    QuietLate(r.arb, d, id);
    TraceConcat(r.events, ResolveOne(r.arb, d).events, id);
  }

  lemma {:induction false} Unmentioned(a: Arbiter, due: seq<Motion>, id: PieceId)
    requires DistinctMotions(a.motions) && !InMotion(a.motions, id) && !InMotion(due, id)
    ensures Trace(ResolveAll(a, due).events, id) == []
  {
    if due == [] {
    } else {
      var n := |due| - 1;
      NotMovingPrefix(due, id);
      Unmentioned(a, due[..n], id);
      ResolveAllShape(a, due[..n]);
      QuietStep(ResolveAll(a, due[..n]), due[n], id);
    }
  }

  lemma NotMovingPrefix(ms: seq<Motion>, id: PieceId)
    requires ms != [] && !InMotion(ms, id)
    ensures !InMotion(ms[..|ms| - 1], id) && ms[|ms| - 1].piece.id != id
  {
    assert ms == ms[..|ms| - 1] + [ms[|ms| - 1]];
    assert forall m | m in ms[..|ms| - 1] :: m in ms;
  }

  /** A motion is in flight silently, or has been eliminated late. */
  ghost predicate FlownSoFar(r: Outcome, m: Motion) {
    if m in r.arb.motions then Trace(r.events, m.piece.id) == []
    else m.Move? && !InMotion(r.arb.motions, m.piece.id)
         && Trace(r.events, m.piece.id) == [Elimination(m.piece, m.fromPos)]
  }

  /** What the late check of one resolution does to a motion in flight. */
  lemma LateStep(b: Arbiter, d: Motion, m: Motion)
    requires DistinctMotions(b.motions) && m in b.motions && d.piece.id != m.piece.id
    ensures if m in ResolveOne(b, d).arb.motions then Trace(ResolveOne(b, d).events, m.piece.id) == []
            else m.Move? && Trace(ResolveOne(b, d).events, m.piece.id) == [Elimination(m.piece, m.fromPos)]
  {
    ResolveOneTrace(b, d, m.piece.id);
    if d.Move? {
      LateTrace(b.motions, d, m.piece.id);
      OnTimeMembers(b.motions, d, m);
    }
  }

  lemma FlyingStep(r: Outcome, d: Motion, m: Motion)
    requires DistinctMotions(r.arb.motions) && d.piece.id != m.piece.id && FlownSoFar(r, m)
    ensures FlownSoFar(Outcome(ResolveOne(r.arb, d).arb, r.events + ResolveOne(r.arb, d).events), m)
  {
    ResolveOneShape(r.arb, d);
    if m in r.arb.motions {
      LateStep(r.arb, d, m);
      TraceConcat(r.events, ResolveOne(r.arb, d).events, m.piece.id);
      forall k | k in ResolveOne(r.arb, d).arb.motions && k.piece.id == m.piece.id ensures k == m {
        UniqueMotion(r.arb.motions, k, m);
      }
    } else {
      QuietStep(r, d, m.piece.id);
    }
  }

  lemma {:induction false} Flown(a: Arbiter, due: seq<Motion>, m: Motion)
    requires DistinctMotions(a.motions) && m in a.motions && !InMotion(due, m.piece.id)
    ensures FlownSoFar(ResolveAll(a, due), m)
  {
    if due == [] {
    } else {
      var n := |due| - 1;
      NotMovingPrefix(due, m.piece.id);
      Flown(a, due[..n], m);
      ResolveAllShape(a, due[..n]);
      FlyingStep(ResolveAll(a, due[..n]), due[n], m);
    }
  }

  /** A motion in flight while others are resolved. */
  lemma FlyingTrace(a: Arbiter, due: seq<Motion>, m: Motion)
    requires DistinctMotions(a.motions) && m in a.motions && !InMotion(due, m.piece.id)
    ensures if m in ResolveAll(a, due).arb.motions then Trace(ResolveAll(a, due).events, m.piece.id) == []
            else m.Move? && Trace(ResolveAll(a, due).events, m.piece.id) == [Elimination(m.piece, m.fromPos)]
  {
    Flown(a, due, m);
  }

  /** The turn of a motion that nothing has been reported about. */
  lemma OwnTurn(r: Outcome, d: Motion)
    requires DistinctMotions(r.arb.motions) && !InMotion(r.arb.motions, d.piece.id) && d.remaining <= 0
    requires Trace(r.events, d.piece.id) == []
    ensures Ends(d, r.arb.timing, Trace(r.events + ResolveOne(r.arb, d).events, d.piece.id))
  {
    var own := ResolveOne(r.arb, d).events;
    ResolveOneTrace(r.arb, d, d.piece.id);
    QuietLate(r.arb, d, d.piece.id);
    TraceConcat(r.events, own, d.piece.id);
    assert [] + Trace(own, d.piece.id) == Trace(own, d.piece.id);
  }

  /** A motion among those being resolved. */
  lemma {:induction false} DueTrace(a: Arbiter, due: seq<Motion>, k: nat)
    requires DistinctMotions(a.motions) && DistinctMotions(due)
    requires k < |due| && due[k].remaining <= 0 && !InMotion(a.motions, due[k].piece.id)
    ensures Ends(due[k], a.timing, Trace(ResolveAll(a, due).events, due[k].piece.id))
  {
    var n := |due| - 1;
    var id := due[k].piece.id;
    ResolveAllShape(a, due[..n]);
    ResolveAllRests(a, due[..n]);
    assert !InMotion(ResolveAll(a, due[..n]).arb.motions, id);
    if k == n {
      assert !InMotion(due[..n], id);
      Unmentioned(a, due[..n], id);
      OwnTurn(ResolveAll(a, due[..n]), due[n]);
    } else {
      assert due[..n][k] == due[k];
      DueTrace(a, due[..n], k);
      QuietStep(ResolveAll(a, due[..n]), due[n], id);
    }
  }

  lemma {:induction false} StrikesTrace(due: seq<Motion>, out: seq<nat>, id: PieceId)
    requires DistinctMotions(due) && Within(out, -1, |due|) && NoRepeats(out)
    ensures forall k: nat | k < |due| && due[k].piece.id == id ::
              Trace(Strikes(due, out), id) == if k in out then [Elimination(due[k].piece, due[k].fromPos)] else []
    ensures !InMotion(due, id) ==> Trace(Strikes(due, out), id) == []
  {
    if out == [] {
    } else {
      var n := |out| - 1;
      StrikesTrace(due, out[..n], id);
      assert Strikes(due, out)[..n] == Strikes(due, out[..n]);
      assert out == out[..n] + [out[n]];
      assert due[out[n]] in due;
    }
  }

  lemma {:induction false} RestsShape(rests: seq<RestEntry>, ms: int)
    requires DistinctRests(rests)
    ensures DistinctRests(RestsLeft(rests, ms))
    ensures forall r | r in RestsLeft(rests, ms) :: r.remaining > 0 && RestEntry(r.piece, r.remaining + ms) in rests
  {
    if rests == [] {
    } else {
      var n := |rests| - 1;
      RestsShape(rests[..n], ms);
      assert rests == rests[..n] + [rests[n]];
      var left := RestsLeft(rests[..n], ms);
      forall i | 0 <= i < |left| ensures left[i].piece.id != rests[n].piece.id {
        assert left[i] in left;
      }
    }
  }

  lemma {:induction false} AsleepTrace(rests: seq<RestEntry>, ms: int, id: PieceId)
    requires !AtRest(rests, id)
    ensures Trace(WakeEvents(rests, ms), id) == []
  {
    if rests == [] {
    } else {
      var n := |rests| - 1;
      assert rests == rests[..n] + [rests[n]];
      assert forall r | r in rests[..n] :: r in rests;
      AsleepTrace(rests[..n], ms, id);
      TraceSnoc(WakeEvents(rests[..n], ms), Wake(rests[n].piece), id);
    }
  }

  /** A rest entry wakes its piece when it runs out and otherwise stays with its time reduced. */
  lemma {:induction false} WakeTrace(rests: seq<RestEntry>, ms: int, r: RestEntry)
    requires DistinctRests(rests) && r in rests
    ensures Trace(WakeEvents(rests, ms), r.piece.id) == if r.remaining <= ms then [Wake(r.piece)] else []
    ensures r.remaining > ms ==> RestEntry(r.piece, r.remaining - ms) in RestsLeft(rests, ms)
  {
    var n := |rests| - 1;
    var id := r.piece.id;
    TraceSnoc(WakeEvents(rests[..n], ms), Wake(rests[n].piece), id);
    if r == rests[n] {
      AsleepTrace(rests[..n], ms, id);
    } else {
      WakeTrace(rests[..n], ms, r);
    }
  }

  /** The list that is resolved: the due survivors, each once. */
  lemma ScheduleShape(due: seq<Motion>, k: nat)
    requires DistinctMotions(due) && k < |due|
    ensures DistinctMotions(Schedule(due))
    ensures due[k] in Schedule(due) <==> Survives(due, k)
    ensures forall m | m in Schedule(due) :: m in due
  {
    var out := Sweep(due, |due|);
    var kept := Kept(due, out, |due|);
    KeptMembers(due, out, |due|, k);
    SweepIsKernel(due, k);
    SplitDistinct(kept);
    forall m ensures (m in Moves(kept) <==> m in kept && m.Move?) && (m in Jumps(kept) <==> m in kept && m.Jump?) {
      SplitMembers(kept, m);
    }
    DistinctConcat(Moves(kept), Jumps(kept));
  }

  /** The trace of a call is put together from its three phases. */
  lemma TracePhases(a: Arbiter, ms: int, id: PieceId)
    requires DistinctMotions(a.motions)
    ensures DistinctMotions(DueNow(a, ms)) && DistinctMotions(Flying(Elapsed(a.motions, ms)))
    ensures Within(Sweep(DueNow(a, ms), |DueNow(a, ms)|), -1, |DueNow(a, ms)|)
    ensures NoRepeats(Sweep(DueNow(a, ms), |DueNow(a, ms)|))
    ensures Trace(AdvanceTime(a, ms).events, id) ==
            Trace(WakeEvents(a.rests, ms), id)
            + Trace(Strikes(DueNow(a, ms), Sweep(DueNow(a, ms), |DueNow(a, ms)|)), id)
            + Trace(ResolveAll(Resolving(a, ms), Schedule(DueNow(a, ms))).events, id)
    ensures AdvanceTime(a, ms).arb.motions == ResolveAll(Resolving(a, ms), Schedule(DueNow(a, ms))).arb.motions
  {
    AdvancePhases(a, ms);
    var due := DueNow(a, ms);
    SweepDistinct(due, |due|);
    SplitDistinct(Elapsed(a.motions, ms));
    var strikes := Strikes(due, Sweep(due, |due|));
    TraceConcat(WakeEvents(a.rests, ms), strikes, id);
    TraceConcat(WakeEvents(a.rests, ms) + strikes, ResolveAll(Resolving(a, ms), Schedule(due)).events, id);
  }

  lemma AdvanceShape(a: Arbiter, ms: int)
    requires DistinctMotions(a.motions)
    ensures DistinctMotions(AdvanceTime(a, ms).arb.motions)
    ensures forall m | m in AdvanceTime(a, ms).arb.motions :: m.remaining > 0 && Tick(m, -ms) in a.motions
  {
    AdvancePhases(a, ms);
    var moved := Elapsed(a.motions, ms);
    SplitDistinct(moved);
    ResolveAllShape(Resolving(a, ms), Schedule(DueNow(a, ms)));
    forall m | m in AdvanceTime(a, ms).arb.motions ensures m.remaining > 0 && Tick(m, -ms) in a.motions {
      SplitMembers(moved, m);
      var i :| 0 <= i < |moved| && moved[i] == m;
      assert Tick(m, -ms) == a.motions[i];
    }
  }

  lemma ScheduleSubset(due: seq<Motion>)
    requires DistinctMotions(due)
    ensures forall m | m in Schedule(due) :: m in due
  {
    if due != [] {
      ScheduleShape(due, 0);
    } else {
      assert Sweep(due, 0) == [] && Kept(due, [], 0) == [];
    }
  }

  /** A motion that has come due ends in exactly one way: in the collision pass or when it is resolved. */
  lemma DueFate(b: Arbiter, due: seq<Motion>, k: nat)
    requires DistinctMotions(due) && DistinctMotions(b.motions) && k < |due| && due[k].remaining <= 0
    requires !InMotion(b.motions, due[k].piece.id)
    requires Within(Sweep(due, |due|), -1, |due|) && NoRepeats(Sweep(due, |due|))
    ensures Ends(due[k], b.timing, Trace(Strikes(due, Sweep(due, |due|)), due[k].piece.id)
                                   + Trace(ResolveAll(b, Schedule(due)).events, due[k].piece.id))
  {
    var id := due[k].piece.id;
    StrikesTrace(due, Sweep(due, |due|), id);
    ScheduleShape(due, k);
    SweepIsKernel(due, k);
    if Survives(due, k) {
      var j :| 0 <= j < |Schedule(due)| && Schedule(due)[j] == due[k];
      DueTrace(b, Schedule(due), j);
    } else {
      KernelMove(due, k);
      forall m | m in Schedule(due) ensures m.piece.id != id {
        if m.piece.id == id { UniqueMotion(due, m, due[k]); }
      }
      Unmentioned(b, Schedule(due), id);
    }
  }

  /** A motion with time left is not mentioned by the collision pass; it goes on, or is eliminated late. */
  lemma FlyingFate(b: Arbiter, due: seq<Motion>, x: Motion)
    requires DistinctMotions(due) && DistinctMotions(b.motions) && x in b.motions && x.remaining > 0
    requires !InMotion(due, x.piece.id) && Within(Sweep(due, |due|), -1, |due|) && NoRepeats(Sweep(due, |due|))
    ensures var t := Trace(Strikes(due, Sweep(due, |due|)), x.piece.id)
                     + Trace(ResolveAll(b, Schedule(due)).events, x.piece.id);
            if t == [] then x in ResolveAll(b, Schedule(due)).arb.motions
            else Ends(x, b.timing, t) && x !in ResolveAll(b, Schedule(due)).arb.motions
  {
    ScheduleSubset(due);
    StrikesTrace(due, Sweep(due, |due|), x.piece.id);
    assert !InMotion(Schedule(due), x.piece.id);
    FlyingTrace(b, Schedule(due), x);
  }

  /** The fate of a moving piece in one call. With time left it goes on silently, unless it is a MOVE that is
      eliminated late; when it comes due it ends in exactly one way. */
  lemma Fate(a: Arbiter, ms: int, m: Motion)
    requires OneActivity(a) && m in a.motions
    ensures var t := Trace(AdvanceTime(a, ms).events, m.piece.id);
            if t == [] then m.remaining > ms && Tick(m, ms) in AdvanceTime(a, ms).arb.motions
            else Ends(Tick(m, ms), a.timing, t) && Tick(m, ms) !in AdvanceTime(a, ms).arb.motions
  {
    var moved, x := Elapsed(a.motions, ms), Tick(m, ms);
    var i :| 0 <= i < |a.motions| && a.motions[i] == m;
    assert moved[i] == x;
    SplitDistinct(moved);
    FateOf(a, ms, x);
  }

  /** What a motion x, with its time already advanced, has come to: t is reported, and `after` is still active. */
  ghost predicate Fated(x: Motion, timing: Timing, t: seq<Event>, after: seq<Motion>) {
    if t == [] then x.remaining > 0 && x in after else Ends(x, timing, t) && x !in after
  }

  lemma FatedBy(x: Motion, timing: Timing, wakes: seq<Event>, strikes: seq<Event>, own: seq<Event>, after: seq<Motion>,
                t: seq<Event>, active: seq<Motion>)
    requires Fated(x, timing, strikes + own, after) && wakes == [] && t == wakes + strikes + own && active == after
    ensures Fated(x, timing, t, active)
  {
    assert t == strikes + own;
  }

  /** The two phases that deal with motions. */
  lemma FateParts(b: Arbiter, moved: seq<Motion>, due: seq<Motion>, x: Motion)
    requires DistinctMotions(moved) && x in moved && due == Due(moved) && b.motions == Flying(moved)
    requires DistinctMotions(due) && DistinctMotions(b.motions)
    requires Within(Sweep(due, |due|), -1, |due|) && NoRepeats(Sweep(due, |due|))
    ensures Fated(x, b.timing, Trace(Strikes(due, Sweep(due, |due|)), x.piece.id)
                               + Trace(ResolveAll(b, Schedule(due)).events, x.piece.id),
                  ResolveAll(b, Schedule(due)).arb.motions)
  {
    SplitMembers(moved, x);
    MembersAvoid(moved, x);
    if x.remaining > 0 {
      FlyingFate(b, due, x);
    } else {
      var k :| 0 <= k < |due| && due[k] == x;
      DueFate(b, due, k);
      ResolveAllShape(b, Schedule(due));
    }
  }

  lemma FateOf(a: Arbiter, ms: int, x: Motion)
    requires OneActivity(a) && x in Elapsed(a.motions, ms) && DistinctMotions(Elapsed(a.motions, ms))
    requires Tick(x, -ms) in a.motions
    ensures Fated(x, a.timing, Trace(AdvanceTime(a, ms).events, x.piece.id), AdvanceTime(a, ms).arb.motions)
  {
    var id, due, b := x.piece.id, DueNow(a, ms), Resolving(a, ms);
    TracePhases(a, ms, id);
    AsleepTrace(a.rests, ms, id);
    FateParts(b, Elapsed(a.motions, ms), due, x);
    FatedBy(x, a.timing, Trace(WakeEvents(a.rests, ms), id), Trace(Strikes(due, Sweep(due, |due|)), id),
            Trace(ResolveAll(b, Schedule(due)).events, id), ResolveAll(b, Schedule(due)).arb.motions,
            Trace(AdvanceTime(a, ms).events, id), AdvanceTime(a, ms).arb.motions);
  }

  /** Only one of the two halves of the list mentions the piece of x. */
  lemma MembersAvoid(moved: seq<Motion>, x: Motion)
    requires DistinctMotions(moved) && x in moved
    ensures x.remaining > 0 ==> !InMotion(Due(moved), x.piece.id)
    ensures x.remaining <= 0 ==> !InMotion(Flying(moved), x.piece.id)
    ensures forall y | y in Due(moved) && y.piece.id == x.piece.id :: y == x
  {
    forall y
      ensures y in Due(moved) <==> y in moved && y.remaining <= 0
      ensures y in Flying(moved) <==> y in moved && y.remaining > 0
    {
      SplitMembers(moved, y);
    }
  }

  lemma KernelMove(due: seq<Motion>, k: nat)
    requires k < |due| && !Survives(due, k)
    ensures due[k].Move?
  {
  }

  /** A rest runs on silently or ends with one Wake event. */
  lemma RestFate(a: Arbiter, ms: int, r: RestEntry)
    requires OneActivity(a) && r in a.rests
    ensures Trace(AdvanceTime(a, ms).events, r.piece.id) == if r.remaining <= ms then [Wake(r.piece)] else []
  {
    NoMotionTrace(a, ms, r.piece.id);
    WakeTrace(a.rests, ms, r);
  }

  lemma NoMotionTrace(a: Arbiter, ms: int, id: PieceId)
    requires DistinctMotions(a.motions) && !InMotion(a.motions, id)
    ensures Trace(AdvanceTime(a, ms).events, id) == Trace(WakeEvents(a.rests, ms), id)
  {
    var moved := Elapsed(a.motions, ms);
    var due := DueNow(a, ms);
    TracePhases(a, ms, id);
    ScheduleSubset(due);
    forall m | m in moved ensures m.piece.id != id {
      var i :| 0 <= i < |moved| && moved[i] == m;
      assert a.motions[i] in a.motions;
    }
    forall m ensures (m in due ==> m in moved) && (m in Flying(moved) ==> m in moved) {
      SplitMembers(moved, m);
    }
    StrikesTrace(due, Sweep(due, |due|), id);
    Unmentioned(Resolving(a, ms), Schedule(due), id);
  }

  /** Nothing is reported about a piece without an activity. */
  lemma NoFate(a: Arbiter, ms: int, id: PieceId)
    requires OneActivity(a) && !InMotion(a.motions, id) && !AtRest(a.rests, id)
    ensures Trace(AdvanceTime(a, ms).events, id) == []
  {
    NoMotionTrace(a, ms, id);
    AsleepTrace(a.rests, ms, id);
  }
}
