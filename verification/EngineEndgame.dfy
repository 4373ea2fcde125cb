/** Where games start, and how they come to rest once they are over. */
module Endgame {
  import opened Values
  import opened Arbitration
  import opened MotionConservation
  import opened PieceFate
  import opened SimulatedTime
  import opened Engine
  import opened Anchoring
  import opened Soundness
  import opened Calmness
  import opened Replay
  import opened Stats
  import opened Material
  import opened Runs

  /** A game before its first command: every piece idle on the board, nothing in flight, nothing over. */
  ghost predicate Opening(g: Game) {
    && g.ok && !g.forced && !g.world.gameOver
    && g.world.arb.motions == [] && g.world.arb.rests == [] && g.world.arb.airborne == None
    && BoardCoherent(g.world.board, g.world.pieces)
    && forall id | id in g.world.pieces :: OnBoard(g.world, id) && g.world.pieces[id].state == Idle
  }

  lemma OpeningIsGood(g: Game)
    requires Opening(g)
    ensures Good(g)
  {
  }

  // ----- draining -----

  function Passed(cs: seq<Command>): int {
    if cs == [] then 0 else
      var n := |cs| - 1;
      Passed(cs[..n]) + if cs[n].Pass? then cs[n].ms else 0
  }

  ghost predicate HasPass(cs: seq<Command>) {
    exists c :: c in cs && c.Pass?
  }

  /** Once a game is over, no command starts a motion, and time only shortens those in flight. */
  lemma {:induction false} OverMotionsShrink(g: Game, cs: seq<Command>, bound: int)
    requires Sound(g.world) && g.ok && g.world.gameOver
    requires forall m | m in g.world.arb.motions :: m.remaining <= bound
    ensures Run(g, cs).ok ==> forall m | m in Run(g, cs).world.arb.motions ::
              m.remaining <= bound - Passed(cs) && (HasPass(cs) ==> 0 < m.remaining)
  {
    if cs == [] {
    } else {
      var n := |cs| - 1;
      var before := Run(g, cs[..n]);
      assert cs == cs[..n] + [cs[n]];
      OverMotionsShrink(g, cs[..n], bound);
      GameOverForever(g, cs[..n]);
      if before.ok {
        if cs[n].Pass? {
          MotionsShrink(before.world.arb, cs[n].ms, bound - Passed(cs[..n]));
        } else {
          assert HasPass(cs) ==> HasPass(cs[..n]);
        }
      }
    }
  }

  /** After game over, all motions are gone as soon as the ticks add up to the longest one. */
  lemma OverDrains(g: Game, cs: seq<Command>, bound: int)
    requires Sound(g.world) && g.ok && g.world.gameOver
    requires forall m | m in g.world.arb.motions :: m.remaining <= bound
    requires HasPass(cs) && Passed(cs) >= bound
    ensures Run(g, cs).ok ==> Run(g, cs).world.arb.motions == []
  {
    OverMotionsShrink(g, cs, bound);
    EmptyOrSome(Run(g, cs).world.arb.motions);
  }

  lemma {:induction false} WakesLeaveBoard(w: World, es: seq<Event>)
    requires BoardCoherent(w.board, w.pieces) && AllKnown(w, es)
    requires forall e | e in es :: e.Wake?
    ensures ApplyAll(w, es).ok && ApplyAll(w, es).world.board == w.board && ApplyAll(w, es).done == es
  {
    if es == [] {
    } else {
      var n := |es| - 1;
      assert es[n] in es && es == es[..n] + [es[n]];
      WakesLeaveBoard(w, es[..n]);
    }
  }

  lemma {:induction false} AllWake(rests: seq<RestEntry>, ms: int)
    ensures forall e | e in WakeEvents(rests, ms) :: e.Wake?
  {
    if rests == [] {
    } else {
      AllWake(rests[..|rests| - 1], ms);
    }
  }

  lemma StillTick(w: World, ms: int)
    requires Valid(w) && w.arb.motions == []
    ensures var b := Wait(w, ms); b.ok && b.world.board == w.board && b.world.arb.motions == []
    ensures forall e | e in AdvanceTime(w.arb, ms).events :: e.Wake?
  {
    var es := AdvanceTime(w.arb, ms).events;
    StillAir(w.arb, ms);
    AllWake(w.arb.rests, ms);
    WakesLeaveBoard(Ticked(w, ms), es);
  }

  lemma StillPass(g: Game, ms: int)
    requires Sound(g.world) && g.ok && g.world.arb.motions == []
    ensures var h := Perform(g, Pass(ms)); h.ok && h.world.board == g.world.board && h.world.arb.motions == []
  {
    StillTick(g.world, ms);
    TickGoesOn(g, ms);
  }

  /** A finished game without motions stays exactly on its board, and no tick raises. */
  lemma {:induction false} StillBoard(g: Game, cs: seq<Command>)
    requires Sound(g.world) && g.ok && g.world.gameOver && g.world.arb.motions == []
    ensures Run(g, cs).ok && Run(g, cs).world.board == g.world.board && Run(g, cs).world.arb.motions == []
  {
    if cs == [] {
    } else {
      var n := |cs| - 1;
      StillBoard(g, cs[..n]);
      GameOverForever(g, cs[..n]);
      if cs[n].Pass? {
        StillPass(Run(g, cs[..n]), cs[n].ms);
      }
    }
  }

  lemma {:induction false} RunConcat(g: Game, xs: seq<Command>, ys: seq<Command>)
    requires Sound(g.world) && g.ok && Run(g, xs).ok
    ensures Run(g, xs + ys) == Run(Run(g, xs), ys)
  {
    if ys == [] {
      assert xs + ys == xs;
    } else {
      var n := |ys| - 1;
      assert (xs + ys)[..|xs + ys| - 1] == xs + ys[..n];
      RunConcat(g, xs, ys[..n]);
    }
  }

  /** A game whose tick has raised does not go on. */
  lemma {:induction false} RunStuck(g: Game, xs: seq<Command>, ys: seq<Command>)
    requires Sound(g.world) && g.ok && !Run(g, xs).ok
    ensures Run(g, xs + ys) == Run(g, xs)
  {
    if ys == [] {
      assert xs + ys == xs;
    } else {
      var n := |ys| - 1;
      assert (xs + ys)[..|xs + ys| - 1] == xs + ys[..n];
      RunStuck(g, xs, ys[..n]);
    }
  }

  /** Main result: from the moment the ticks after game over add up to the longest motion, the board never
      changes again and no tick raises any more, whatever commands follow and clean or not. */
  lemma BoardFinallyConstant(g: Game, drain: seq<Command>, later: seq<Command>, bound: int)
    requires Sound(g.world) && g.ok && g.world.gameOver
    requires forall m | m in g.world.arb.motions :: m.remaining <= bound
    requires HasPass(drain) && Passed(drain) >= bound
    ensures Run(g, drain + later).world.board == Run(g, drain).world.board
    ensures Run(g, drain + later).ok <==> Run(g, drain).ok
  {
    if Run(g, drain).ok {
      GameOverForever(g, drain);
      OverDrains(g, drain, bound);
      StillBoard(Run(g, drain), later);
      RunConcat(g, drain, later);
    } else {
      RunStuck(g, drain, later);
    }
  }

  // ----- the number of calls, for equal ticks -----

  /** max(1, ceil(bound / ms)). */
  function CallsFor(bound: int, ms: int): nat
    requires ms > 0
  {
    if bound <= 0 then 1 else (bound + ms - 1) / ms
  }

  function Equal(ms: int, n: nat): seq<int> {
    seq(n, _ => ms)
  }

  lemma {:induction false} SumEqual(ms: int, n: nat)
    ensures Sum(Equal(ms, n)) == n * ms
  {
    if n == 0 {
    } else {
      assert Equal(ms, n)[1..] == Equal(ms, n - 1);
      SumEqual(ms, n - 1);
    }
  }

  lemma CallsCover(bound: int, ms: int)
    requires ms > 0
    ensures CallsFor(bound, ms) >= 1 && CallsFor(bound, ms) * ms >= bound
  {
    if bound > 0 {
      var q, r := (bound + ms - 1) / ms, (bound + ms - 1) % ms;
      assert bound + ms - 1 == q * ms + r;
      assert q == 0 ==> q * ms == 0;
    }
  }

  /** Without new commands, all motions are gone after max(1, ceil(longest / ms)) calls of ms each,
      and all rests after a further max(1, ceil(bound / ms)). */
  lemma DrainInCalls(a: Arbiter, ms: int, longest: int, bound: int)
    requires ms > 0 && Max(a.timing.longRestMs, a.timing.shortRestMs) <= bound
    requires forall m | m in a.motions :: m.remaining <= longest
    requires forall r | r in a.rests :: r.remaining <= bound
    ensures var b := Ticks(a, Equal(ms, CallsFor(longest, ms))).arb;
            b.motions == [] && Ticks(b, Equal(ms, CallsFor(bound, ms))).arb.rests == []
  {
    CallsCover(longest, ms);
    CallsCover(bound, ms);
    SumEqual(ms, CallsFor(longest, ms));
    SumEqual(ms, CallsFor(bound, ms));
    MotionsDrain(a, Equal(ms, CallsFor(longest, ms)), longest);
    TicksRestsBounded(a, Equal(ms, CallsFor(longest, ms)), bound);
    RestsDrain(Ticks(a, Equal(ms, CallsFor(longest, ms))).arb, Equal(ms, CallsFor(bound, ms)), bound);
  }

  lemma {:induction false} TicksRestsBounded(a: Arbiter, ticks: seq<int>, bound: int)
    requires Max(a.timing.longRestMs, a.timing.shortRestMs) <= bound && forall t | t in ticks :: 0 <= t
    requires forall r | r in a.rests :: r.remaining <= bound
    ensures forall r | r in Ticks(a, ticks).arb.rests :: r.remaining <= bound
    decreases ticks
  {
    if ticks == [] {
    } else {
      assert ticks[0] in ticks && forall t | t in ticks[1..] :: t in ticks;
      RestsBounded(a, ticks[0], bound);
      AdvanceRests(a, ticks[0]);
      TicksRestsBounded(AdvanceTime(a, ticks[0]).arb, ticks[1..], bound);
    }
  }
}
