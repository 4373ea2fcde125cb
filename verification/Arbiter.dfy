/** Simulated time: concurrent motions, rest timers and the airborne marker, as a function on values.
    `ArbiterObject.RealTimeArbiter` is proved to compute exactly these functions. */
module Arbitration {
  import opened Values

  datatype Timing = Timing(msPerSquare: int, jumpMs: int, longRestMs: int, shortRestMs: int)

  datatype RestEntry = RestEntry(piece: Token, remaining: int)

  datatype Arbiter = Arbiter(timing: Timing, motions: seq<Motion>, rests: seq<RestEntry>, airborne: Option<Position>)

  datatype Outcome = Outcome(arb: Arbiter, events: seq<Event>)

  // ----- starting a motion -----

  function Distance(a: Position, b: Position): nat {
    Max(Abs(b.row - a.row), Abs(b.col - a.col))
  }

  function StartMotion(a: Arbiter, piece: Token, source: Position, destination: Position): Arbiter {
    a.(motions := a.motions + [Move(piece, source, destination, Distance(source, destination) * a.timing.msPerSquare)])
  }

  function StartJump(a: Arbiter, piece: Token, pos: Position): Arbiter {
    a.(motions := a.motions + [Jump(piece, pos, a.timing.jumpMs)], airborne := Some(pos))
  }

  // ----- timers -----

  function RestsLeft(rests: seq<RestEntry>, ms: int): seq<RestEntry> {
    if rests == [] then [] else
      var n := |rests| - 1;
      var left := RestsLeft(rests[..n], ms);
      if rests[n].remaining - ms <= 0 then left else left + [RestEntry(rests[n].piece, rests[n].remaining - ms)]
  }

  function WakeEvents(rests: seq<RestEntry>, ms: int): seq<Event> {
    if rests == [] then [] else
      var n := |rests| - 1;
      var woken := WakeEvents(rests[..n], ms);
      if rests[n].remaining - ms <= 0 then woken + [Wake(rests[n].piece)] else woken
  }

  function Tick(m: Motion, ms: int): Motion {
    m.(remaining := m.remaining - ms)
  }

  function Elapsed(motions: seq<Motion>, ms: int): (r: seq<Motion>)
    ensures |r| == |motions|
  {
    seq(|motions|, i requires 0 <= i < |motions| => Tick(motions[i], ms))
  }

  function Due(motions: seq<Motion>): seq<Motion> {
    if motions == [] then [] else
      var n := |motions| - 1;
      if motions[n].remaining <= 0 then Due(motions[..n]) + [motions[n]] else Due(motions[..n])
  }

  function Flying(motions: seq<Motion>): seq<Motion> {
    if motions == [] then [] else
      var n := |motions| - 1;
      if motions[n].remaining > 0 then Flying(motions[..n]) + [motions[n]] else Flying(motions[..n])
  }

  // ----- collisions between motions that come due in the same call -----

  /** Two enemy MOVEs that share a target or swap cells. */
  predicate Clash(m1: Motion, m2: Motion) {
    m1.Move? && m2.Move? && m2.piece.color != m1.piece.color &&
    (m2.toPos == m1.toPos || (m1.toPos == m2.fromPos && m2.toPos == m1.fromPos))
  }

  /** Indices in (i, j) that motion i strikes, given the indices already out. */
  function Struck(due: seq<Motion>, i: nat, j: nat, out: seq<nat>): seq<nat>
    requires i < |due| && j <= |due|
  {
    if j <= i + 1 then [] else
      var before := Struck(due, i, j - 1, out);
      if j - 1 !in out && Clash(due[i], due[j - 1]) then before + [j - 1] else before
  }

  /** Indices eliminated by the first n motions, in the order of their elimination. */
  function Sweep(due: seq<Motion>, n: nat): seq<nat>
    requires n <= |due|
  {
    if n == 0 then [] else
      var out := Sweep(due, n - 1);
      if n - 1 in out || !due[n - 1].Move? then out else out + Struck(due, n - 1, |due|, out)
  }

  function Kept(due: seq<Motion>, out: seq<nat>, n: nat): seq<Motion>
    requires n <= |due|
  {
    if n == 0 then []
    else if n - 1 in out then Kept(due, out, n - 1)
    else Kept(due, out, n - 1) + [due[n - 1]]
  }

  function Strikes(due: seq<Motion>, out: seq<nat>): seq<Event>
    requires Within(out, -1, |due|)
  {
    seq(|out|, k requires 0 <= k < |out| => Elimination(due[out[k]].piece, due[out[k]].fromPos))
  }

  function Moves(motions: seq<Motion>): seq<Motion> {
    if motions == [] then [] else
      var n := |motions| - 1;
      if motions[n].Move? then Moves(motions[..n]) + [motions[n]] else Moves(motions[..n])
  }

  function Jumps(motions: seq<Motion>): seq<Motion> {
    if motions == [] then [] else
      var n := |motions| - 1;
      if motions[n].Jump? then Jumps(motions[..n]) + [motions[n]] else Jumps(motions[..n])
  }

  // ----- resolving one due motion -----

  /** A MOVE still in flight that loses its target to the arriving enemy. */
  predicate Late(other: Motion, arriving: Motion)
    requires arriving.Move?
  {
    other.Move? && other.toPos == arriving.toPos && other.piece.color != arriving.piece.color
  }

  function OnTime(motions: seq<Motion>, arriving: Motion): seq<Motion>
    requires arriving.Move?
  {
    if motions == [] then [] else
      var n := |motions| - 1;
      if Late(motions[n], arriving) then OnTime(motions[..n], arriving)
      else OnTime(motions[..n], arriving) + [motions[n]]
  }

  function LateEvents(motions: seq<Motion>, arriving: Motion): seq<Event>
    requires arriving.Move?
  {
    if motions == [] then [] else
      var n := |motions| - 1;
      var before := LateEvents(motions[..n], arriving);
      if Late(motions[n], arriving) then before + [Elimination(motions[n].piece, motions[n].fromPos)] else before
  }

  /** The colour of the first motion that is a JUMP from p. */
  function JumperColor(motions: seq<Motion>, p: Position): Option<Color> {
    if motions == [] then None
    else if motions[0].Jump? && motions[0].fromPos == p then Some(motions[0].piece.color)
    else JumperColor(motions[1..], p)
  }

  predicate AirCaptured(a: Arbiter, arriving: Motion)
    requires arriving.Move?
  {
    a.airborne == Some(arriving.toPos) &&
    var c := JumperColor(a.motions, arriving.toPos);
    c.Some? && arriving.piece.color != c.value
  }

  function Landing(m: Motion): Event
    requires m.Move?
  {
    Arrival(m.piece, m.fromPos, m.toPos, None, None)
  }

  function ResolveOne(a: Arbiter, m: Motion): Outcome {
    match m
    case Jump(piece, _, _) =>
      Outcome(a.(airborne := None, rests := a.rests + [RestEntry(piece, a.timing.shortRestMs)]),
              [Rest(piece, ShortRest, a.timing.shortRestMs)])
    case Move(piece, fromPos, toPos, _) =>
      var late := LateEvents(a.motions, m);
      var b := a.(motions := OnTime(a.motions, m));
      if AirCaptured(b, m) then
        Outcome(b.(airborne := None), late + [Elimination(piece, fromPos)])
      else
        Outcome(b.(rests := b.rests + [RestEntry(piece, a.timing.longRestMs)]),
                late + [Landing(m), Rest(piece, LongRest, a.timing.longRestMs)])
  }

  function ResolveAll(a: Arbiter, due: seq<Motion>): Outcome {
    if due == [] then Outcome(a, []) else
      var n := |due| - 1;
      var before := ResolveAll(a, due[..n]);
      var last := ResolveOne(before.arb, due[n]);
      Outcome(last.arb, before.events + last.events)
  }

  /** MOVEs are resolved before JUMPs, each in the order they were started. */
  function Schedule(due: seq<Motion>): seq<Motion> {
    var kept := Kept(due, Sweep(due, |due|), |due|);
    Moves(kept) + Jumps(kept)
  }

  lemma SweepInRange(due: seq<Motion>, n: nat)
    requires n <= |due|
    ensures Within(Sweep(due, n), -1, |due|)
  {
    if n == 0 {
    } else {
      SweepInRange(due, n - 1);
      var out := Sweep(due, n - 1);
      StruckMeaning(due, n - 1, |due|, out);
    }
  }

  lemma StruckMeaning(due: seq<Motion>, i: nat, j: nat, out: seq<nat>)
    requires i < |due| && j <= |due|
    ensures forall k: nat :: k in Struck(due, i, j, out) <==> i < k < j && k !in out && Clash(due[i], due[k])
    ensures Within(Struck(due, i, j, out), i, j)
  {
  }

  function AdvanceTime(a: Arbiter, ms: int): Outcome {
    var awake := a.(rests := RestsLeft(a.rests, ms));
    var idle := WakeEvents(a.rests, ms);
    if a.motions == [] then Outcome(awake, idle) else
      var moved := Elapsed(a.motions, ms);
      var due := Due(moved);
      SweepInRange(due, |due|);
      var r := ResolveAll(awake.(motions := Flying(moved)), Schedule(due));
      Outcome(r.arb, idle + Strikes(due, Sweep(due, |due|)) + r.events)
  }
}
