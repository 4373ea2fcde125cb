/** The arbiter as the program runs it: lists of mutable motions and rest timers. Every method is proved
    to compute the corresponding function of Arbitration, and to write piece states as Engine.Mark says. */
module ArbiterObject {
  import opened Values
  import opened Arbitration
  import opened BoardObject
  import opened Engine
  import opened MotionConservation

  datatype MotionType = MOVE | JUMP

  class ActiveMotion {
    const motionType: MotionType
    const piece: Piece
    const fromPos: Position
    const toPos: Option<Position>
    var remainingMs: int

    constructor (motionType: MotionType, piece: Piece, fromPos: Position, toPos: Option<Position>, remainingMs: int)
      ensures this.motionType == motionType && this.piece == piece && this.fromPos == fromPos
      ensures this.toPos == toPos && this.remainingMs == remainingMs
    {
      this.motionType, this.piece, this.fromPos, this.toPos, this.remainingMs :=
        motionType, piece, fromPos, toPos, remainingMs;
    }

    /** Only a MOVE has a destination. */
    predicate WellFormed() {
      motionType == MOVE <==> toPos.Some?
    }

    function View(): Motion
      reads this
    {
      if motionType == MOVE && toPos.Some? then Move(piece.AsToken(), fromPos, toPos.value, remainingMs)
      else Jump(piece.AsToken(), fromPos, remainingMs)
    }
  }

  datatype GameEvent =
    | ArrivalEvent(piece: Piece, fromPos: Position, destination: Position,
                   capturedPiece: Option<Piece>, prePromotionKind: Option<Kind>)
    | EliminationEvent(piece: Piece, currentPos: Position)
    | RestEvent(piece: Piece, restState: PieceState, durationMs: int)
    | IdleEvent(piece: Piece)

  function EventView(e: GameEvent): Event {
    match e
    case ArrivalEvent(piece, fromPos, destination, captured, kind) =>
      Arrival(piece.AsToken(), fromPos, destination, IdOf(captured), kind)
    case EliminationEvent(piece, pos) => Elimination(piece.AsToken(), pos)
    case RestEvent(piece, s, duration) => Rest(piece.AsToken(), s, duration)
    case IdleEvent(piece) => Wake(piece.AsToken())
  }

  function EventViews(es: seq<GameEvent>): (r: seq<Event>)
    ensures |r| == |es| && forall i | 0 <= i < |es| :: r[i] == EventView(es[i])
  {
    seq(|es|, i requires 0 <= i < |es| => EventView(es[i]))
  }

  function Views(ms: seq<ActiveMotion>): (r: seq<Motion>)
    reads ms
    ensures |r| == |ms| && forall i | 0 <= i < |ms| :: r[i] == ms[i].View()
  {
    if ms == [] then [] else Views(ms[..|ms| - 1]) + [ms[|ms| - 1].View()]
  }

  function RestViews(rs: seq<(Piece, int)>): (r: seq<RestEntry>)
    ensures |r| == |rs| && forall i | 0 <= i < |rs| :: r[i] == RestEntry(rs[i].0.AsToken(), rs[i].1)
  {
    seq(|rs|, i requires 0 <= i < |rs| => RestEntry(rs[i].0.AsToken(), rs[i].1))
  }

  ghost predicate AllHold(store: map<PieceId, Piece>, ms: seq<ActiveMotion>) {
    forall m | m in ms :: m.WellFormed() && Holds(store, m.piece)
  }

  ghost predicate EventsHold(store: map<PieceId, Piece>, es: seq<GameEvent>) {
    forall e | e in es :: Holds(store, e.piece) && (e.ArrivalEvent? ==> e.capturedPiece == None)
  }

  // ----- marking -----

  lemma MarkSnoc(pieces: map<PieceId, PieceRec>, es: seq<Event>, e: Event)
    ensures Mark(pieces, es + [e]) == if e.Elimination? && e.piece.id in Mark(pieces, es)
                                      then SetState(Mark(pieces, es), e.piece.id, Captured) else Mark(pieces, es)
  {
    assert (es + [e])[..|es|] == es;
  }

  lemma {:induction false} MarkConcat(pieces: map<PieceId, PieceRec>, x: seq<Event>, y: seq<Event>)
    ensures Mark(pieces, x + y) == Mark(Mark(pieces, x), y)
  {
    if y == [] {
      assert x + y == x;
    } else {
      var n := |y| - 1;
      assert (x + y)[..|x + y| - 1] == x + y[..n];
      MarkConcat(pieces, x, y[..n]);
    }
  }

  lemma {:induction false} MarkQuiet(pieces: map<PieceId, PieceRec>, x: seq<Event>, y: seq<Event>)
    requires forall e | e in y :: !e.Elimination?
    ensures Mark(pieces, x + y) == Mark(pieces, x)
  {
    if y == [] {
      assert x + y == x;
    } else {
      var n := |y| - 1;
      assert (x + y)[..|x + y| - 1] == x + y[..n];
      MarkQuiet(pieces, x, y[..n]);
    }
  }

  lemma {:induction false} WakesDoNotMark(pieces: map<PieceId, PieceRec>, rests: seq<RestEntry>, ms: int)
    ensures Mark(pieces, WakeEvents(rests, ms)) == pieces
  {
    if rests == [] {
    } else {
      var n := |rests| - 1;
      WakesDoNotMark(pieces, rests[..n], ms);
      MarkSnoc(pieces, WakeEvents(rests[..n], ms), Wake(rests[n].piece));
    }
  }

  lemma NoMark(pieces: map<PieceId, PieceRec>, e: Event)
    requires !e.Elimination?
    ensures Mark(pieces, [e]) == pieces
  {
    MarkSnoc(pieces, [], e);
    assert [] + [e] == [e];
  }

  lemma EventViewsConcat(x: seq<GameEvent>, y: seq<GameEvent>)
    ensures EventViews(x + y) == EventViews(x) + EventViews(y)
  {
  }

  // ----- the list comprehensions -----

  function DueObjects(ms: seq<ActiveMotion>): seq<ActiveMotion>
    reads ms
  {
    if ms == [] then [] else
      var n := |ms| - 1;
      if ms[n].remainingMs <= 0 then DueObjects(ms[..n]) + [ms[n]] else DueObjects(ms[..n])
  }

  function FlyingObjects(ms: seq<ActiveMotion>): seq<ActiveMotion>
    reads ms
  {
    if ms == [] then [] else
      var n := |ms| - 1;
      if ms[n].remainingMs > 0 then FlyingObjects(ms[..n]) + [ms[n]] else FlyingObjects(ms[..n])
  }

  function MoveObjects(ms: seq<ActiveMotion>): seq<ActiveMotion>
    reads ms
  {
    if ms == [] then [] else
      var n := |ms| - 1;
      if ms[n].motionType == MOVE then MoveObjects(ms[..n]) + [ms[n]] else MoveObjects(ms[..n])
  }

  function JumpObjects(ms: seq<ActiveMotion>): seq<ActiveMotion>
    reads ms
  {
    if ms == [] then [] else
      var n := |ms| - 1;
      if ms[n].motionType == JUMP then JumpObjects(ms[..n]) + [ms[n]] else JumpObjects(ms[..n])
  }

  function Survivors(ms: seq<ActiveMotion>, eliminated: set<ActiveMotion>): seq<ActiveMotion> {
    if ms == [] then [] else
      var n := |ms| - 1;
      if ms[n] in eliminated then Survivors(ms[..n], eliminated) else Survivors(ms[..n], eliminated) + [ms[n]]
  }

  /** The stable sort that puts MOVEs before JUMPs. */
  function SortedMovesFirst(ms: seq<ActiveMotion>): seq<ActiveMotion>
    reads ms
  {
    MoveObjects(ms) + JumpObjects(ms)
  }

  ghost predicate Subset(r: seq<ActiveMotion>, ms: seq<ActiveMotion>) {
    (forall m | m in r :: m in ms) && (NoRepeats(ms) ==> NoRepeats(r))
  }

  lemma ViewsConcat(x: seq<ActiveMotion>, y: seq<ActiveMotion>)
    ensures Views(x + y) == Views(x) + Views(y)
  {
  }

  lemma SubsetSnoc(r: seq<ActiveMotion>, ms: seq<ActiveMotion>)
    requires ms != [] && Subset(r, ms[..|ms| - 1])
    ensures Subset(r, ms) && Subset(r + [ms[|ms| - 1]], ms)
  {
    var n := |ms| - 1;
    assert ms == ms[..n] + [ms[n]];
    if NoRepeats(ms) {
      assert NoRepeats(ms[..n]);
      forall i | 0 <= i < |r| ensures r[i] != ms[n] {
        assert r[i] in r;
        var k :| 0 <= k < n && ms[k] == r[i];
      }
    }
  }

  lemma {:induction false} SplitObjects(ms: seq<ActiveMotion>)
    ensures Views(DueObjects(ms)) == Due(Views(ms)) && Subset(DueObjects(ms), ms)
    ensures Views(FlyingObjects(ms)) == Flying(Views(ms)) && Subset(FlyingObjects(ms), ms)
  {
    if ms == [] {
    } else {
      var n := |ms| - 1;
      SplitObjects(ms[..n]);
      assert Views(ms)[..n] == Views(ms[..n]);
      ViewsConcat(DueObjects(ms[..n]), [ms[n]]);
      ViewsConcat(FlyingObjects(ms[..n]), [ms[n]]);
      SubsetSnoc(DueObjects(ms[..n]), ms);
      SubsetSnoc(FlyingObjects(ms[..n]), ms);
    }
  }

  lemma SubsetHolds(r: seq<ActiveMotion>, ms: seq<ActiveMotion>, store: map<PieceId, Piece>)
    requires Subset(r, ms) && NoRepeats(ms) && AllHold(store, ms)
    ensures NoRepeats(r) && AllHold(store, r)
  {
  }

  /** The two list comprehensions that part the motions. */
  method SplitDue(ms: seq<ActiveMotion>, ghost store: map<PieceId, Piece>)
    returns (due: seq<ActiveMotion>, flying: seq<ActiveMotion>)
    requires NoRepeats(ms) && AllHold(store, ms)
    ensures NoRepeats(due) && AllHold(store, due) && Views(due) == Due(Views(ms))
    ensures NoRepeats(flying) && AllHold(store, flying) && Views(flying) == Flying(Views(ms))
  {
    due := DueObjects(ms);
    flying := FlyingObjects(ms);
    SplitObjects(ms);
    SubsetHolds(due, ms, store);
    SubsetHolds(flying, ms, store);
  }

  lemma {:induction false} SortObjects(ms: seq<ActiveMotion>)
    requires forall m | m in ms :: m.WellFormed()
    ensures Views(MoveObjects(ms)) == Moves(Views(ms)) && Subset(MoveObjects(ms), ms)
    ensures Views(JumpObjects(ms)) == Jumps(Views(ms)) && Subset(JumpObjects(ms), ms)
    ensures Views(SortedMovesFirst(ms)) == Moves(Views(ms)) + Jumps(Views(ms))
  {
    if ms == [] {
    } else {
      var n := |ms| - 1;
      assert ms[n] in ms && forall m | m in ms[..n] :: m in ms;
      SortObjects(ms[..n]);
      assert Views(ms)[..n] == Views(ms[..n]);
      ViewsConcat(MoveObjects(ms[..n]), [ms[n]]);
      ViewsConcat(JumpObjects(ms[..n]), [ms[n]]);
      SubsetSnoc(MoveObjects(ms[..n]), ms);
      SubsetSnoc(JumpObjects(ms[..n]), ms);
    }
    ViewsConcat(MoveObjects(ms), JumpObjects(ms));
  }

  /** The eliminated objects are those at the eliminated indices. */
  ghost predicate Indexed(ms: seq<ActiveMotion>, eliminated: set<ActiveMotion>, out: seq<nat>) {
    forall k | 0 <= k < |ms| :: ms[k] in eliminated <==> k in out
  }

  lemma {:induction false} SurvivorsKept(ms: seq<ActiveMotion>, eliminated: set<ActiveMotion>, out: seq<nat>, n: nat)
    requires n <= |ms| && Indexed(ms, eliminated, out)
    ensures Views(Survivors(ms[..n], eliminated)) == Kept(Views(ms), out, n)
  {
    if n == 0 {
    } else {
      SurvivorsKept(ms, eliminated, out, n - 1);
      assert ms[..n][..n - 1] == ms[..n - 1];
      ViewsConcat(Survivors(ms[..n - 1], eliminated), [ms[n - 1]]);
    }
  }

  lemma {:induction false} SurvivorsSubset(ms: seq<ActiveMotion>, eliminated: set<ActiveMotion>)
    ensures Subset(Survivors(ms, eliminated), ms)
  {
    if ms == [] {
    } else {
      SurvivorsSubset(ms[..|ms| - 1], eliminated);
      SubsetSnoc(Survivors(ms[..|ms| - 1], eliminated), ms);
    }
  }

  // ----- list.remove and list.pop -----

  /** Equality of the motion dataclass, which compares the pieces field by field. */
  predicate SameFields(a: ActiveMotion, b: ActiveMotion)
    reads a, b, a.piece, b.piece
  {
    && a.motionType == b.motionType && a.fromPos == b.fromPos && a.toPos == b.toPos && a.remainingMs == b.remainingMs
    && a.piece.id == b.piece.id && a.piece.Rec() == b.piece.Rec()
  }

  method RemoveFirst(ms: seq<ActiveMotion>, x: ActiveMotion, ghost k: nat) returns (r: seq<ActiveMotion>)
    requires k < |ms| && ms[k] == x
    requires forall i | 0 <= i < k :: !SameFields(ms[i], x)
    ensures r == ms[..k] + ms[k + 1..]
  {
    var i := 0;
    while !SameFields(ms[i], x)
      invariant 0 <= i <= k
      decreases k - i
    {
      i := i + 1;
    }
    r := ms[..i] + ms[i + 1..];
  }

  ghost predicate Ascending(finished: seq<nat>, n: nat) {
    && (forall i | 0 <= i < |finished| :: finished[i] < n)
    && (forall i, j | 0 <= i < j < |finished| :: finished[i] < finished[j])
  }

  /** Popping the given ascending indices, last one first. */
  ghost function Popped(rs: seq<(Piece, int)>, finished: seq<nat>): seq<(Piece, int)>
    requires Ascending(finished, |rs|)
    decreases finished
  {
    if finished == [] then rs else
      var n := |finished| - 1;
      Popped(rs[..finished[n]] + rs[finished[n] + 1..], finished[..n])
  }

  /** Taking one entry out of a longer list. */
  lemma CutSnoc(rs: seq<(Piece, int)>, x: (Piece, int), f: nat)
    requires f <= |rs|
    ensures f < |rs| ==> (rs + [x])[..f] + (rs + [x])[f + 1..] == rs[..f] + rs[f + 1..] + [x]
    ensures f == |rs| ==> (rs + [x])[..f] + (rs + [x])[f + 1..] == rs
  {
  }

  lemma {:induction false} PoppedSnoc(rs: seq<(Piece, int)>, x: (Piece, int), finished: seq<nat>)
    requires Ascending(finished, |rs|)
    ensures Popped(rs + [x], finished) == Popped(rs, finished) + [x]
    decreases finished
  {
    if finished == [] {
    } else {
      var n := |finished| - 1;
      CutSnoc(rs, x, finished[n]);
      PoppedSnoc(rs[..finished[n]] + rs[finished[n] + 1..], x, finished[..n]);
    }
  }

  lemma PoppedLast(rs: seq<(Piece, int)>, x: (Piece, int), finished: seq<nat>)
    requires Ascending(finished, |rs|)
    ensures Ascending(finished + [|rs|], |rs| + 1)
    ensures Popped(rs + [x], finished + [|rs|]) == Popped(rs, finished)
  {
    CutSnoc(rs, x, |rs|);
    assert (finished + [|rs|])[..|finished|] == finished;
  }

  lemma RestViewsSnoc(rs: seq<(Piece, int)>, p: Piece, remaining: int, ms: int)
    ensures RestViews(rs + [(p, remaining)]) == RestViews(rs) + [RestEntry(p.AsToken(), remaining)]
    ensures RestsLeft(RestViews(rs + [(p, remaining)]), ms) ==
            if remaining - ms <= 0 then RestsLeft(RestViews(rs), ms)
            else RestsLeft(RestViews(rs), ms) + [RestEntry(p.AsToken(), remaining - ms)]
    ensures WakeEvents(RestViews(rs + [(p, remaining)]), ms) ==
            if remaining - ms <= 0 then WakeEvents(RestViews(rs), ms) + [Wake(p.AsToken())]
            else WakeEvents(RestViews(rs), ms)
  {
    var all := RestViews(rs + [(p, remaining)]);
    assert all[..|rs|] == RestViews(rs);
  }

  lemma EventViewsSnoc(es: seq<GameEvent>, e: GameEvent)
    ensures EventViews(es + [e]) == EventViews(es) + [EventView(e)]
  {
  }

  /** After counting down `before`, popping `finished` from `now` leaves what RestsLeft keeps. */
  ghost predicate RestsSoFar(now: seq<(Piece, int)>, finished: seq<nat>, before: seq<(Piece, int)>, ms: int) {
    Ascending(finished, |now|) && RestViews(Popped(now, finished)) == RestsLeft(RestViews(before), ms)
  }

  lemma RestRunsOut(now: seq<(Piece, int)>, finished: seq<nat>, before: seq<(Piece, int)>, p: Piece, remaining: int,
                    ms: int)
    requires RestsSoFar(now, finished, before, ms) && remaining - ms <= 0
    ensures RestsSoFar(now + [(p, remaining)], finished + [|now|], before + [(p, remaining)], ms)
  {
    RestViewsSnoc(before, p, remaining, ms);
    PoppedLast(now, (p, remaining), finished);
  }

  lemma RestRunsOn(now: seq<(Piece, int)>, finished: seq<nat>, before: seq<(Piece, int)>, p: Piece, remaining: int,
                   ms: int)
    requires RestsSoFar(now, finished, before, ms) && remaining - ms > 0
    ensures RestsSoFar(now + [(p, remaining - ms)], finished, before + [(p, remaining)], ms)
  {
    RestViewsSnoc(before, p, remaining, ms);
    PoppedSnoc(now, (p, remaining - ms), finished);
    ViewOfSnoc(Popped(now, finished), p, remaining - ms);
  }

  lemma ViewOfSnoc(rs: seq<(Piece, int)>, p: Piece, remaining: int)
    ensures RestViews(rs + [(p, remaining)]) == RestViews(rs) + [RestEntry(p.AsToken(), remaining)]
  {
  }

  ghost predicate Among(p: Piece, rests: seq<(Piece, int)>) {
    exists j :: 0 <= j < |rests| && rests[j].0 == p
  }

  /** The state of the countdown after the rests in `before`. */
  ghost predicate Counted(now: seq<(Piece, int)>, finished: seq<nat>, events: seq<GameEvent>,
                          before: seq<(Piece, int)>, ms: int) {
    && RestsSoFar(now, finished, before, ms)
    && EventViews(events) == WakeEvents(RestViews(before), ms)
    && IdleAmong(events, before)
  }

  ghost predicate IdleAmong(events: seq<GameEvent>, rests: seq<(Piece, int)>) {
    forall e | e in events :: e.IdleEvent? && Among(e.piece, rests)
  }

  lemma IdleAmongSnoc(events: seq<GameEvent>, rests: seq<(Piece, int)>, r: (Piece, int))
    requires IdleAmong(events, rests)
    ensures IdleAmong(events, rests + [r]) && IdleAmong(events + [IdleEvent(r.0)], rests + [r])
  {
    forall e | e in events + [IdleEvent(r.0)] ensures e.IdleEvent? && Among(e.piece, rests + [r]) {
      AmongSnoc(e.piece, rests, r);
    }
    assert forall e | e in events :: e in events + [IdleEvent(r.0)];
  }

  lemma AmongSnoc(p: Piece, rests: seq<(Piece, int)>, r: (Piece, int))
    ensures Among(p, rests) || p == r.0 ==> Among(p, rests + [r])
  {
    if p == r.0 {
      assert (rests + [r])[|rests|].0 == p;
    }
    if Among(p, rests) {
      var j :| 0 <= j < |rests| && rests[j].0 == p;
      assert (rests + [r])[j].0 == p;
    }
  }

  lemma WakesSnoc(events: seq<GameEvent>, before: seq<(Piece, int)>, p: Piece, remaining: int, ms: int)
    requires EventViews(events) == WakeEvents(RestViews(before), ms) && remaining - ms <= 0
    ensures EventViews(events + [IdleEvent(p)]) == WakeEvents(RestViews(before + [(p, remaining)]), ms)
  {
    RestViewsSnoc(before, p, remaining, ms);
    EventViewsSnoc(events, IdleEvent(p));
  }

  lemma CountedOut(now: seq<(Piece, int)>, finished: seq<nat>, events: seq<GameEvent>, before: seq<(Piece, int)>,
                   p: Piece, remaining: int, ms: int)
    requires Counted(now, finished, events, before, ms) && remaining - ms <= 0
    ensures Counted(now + [(p, remaining)], finished + [|now|], events + [IdleEvent(p)], before + [(p, remaining)], ms)
  {
    RestRunsOut(now, finished, before, p, remaining, ms);
    WakesSnoc(events, before, p, remaining, ms);
    IdleAmongSnoc(events, before, (p, remaining));
  }

  lemma CountedOn(now: seq<(Piece, int)>, finished: seq<nat>, events: seq<GameEvent>, before: seq<(Piece, int)>,
                  p: Piece, remaining: int, ms: int)
    requires Counted(now, finished, events, before, ms) && remaining - ms > 0
    ensures Counted(now + [(p, remaining - ms)], finished, events, before + [(p, remaining)], ms)
  {
    RestViewsSnoc(before, p, remaining, ms);
    RestRunsOn(now, finished, before, p, remaining, ms);
    IdleAmongSnoc(events, before, (p, remaining));
  }

  /** The body of the countdown: shortens a rest, or reports its index. */
  method CountOne(rest: (Piece, int), i: nat, ms: int, finished: seq<nat>, events: seq<GameEvent>,
                  ghost done: seq<(Piece, int)>, ghost seen: seq<(Piece, int)>)
    returns (rest': (Piece, int), finished': seq<nat>, events': seq<GameEvent>)
    requires |done| == i && Counted(done, finished, events, seen, ms)
    ensures rest'.0 == rest.0 && Counted(done + [rest'], finished', events', seen + [rest], ms)
  {
    var (piece, remaining) := rest;
    if remaining - ms <= 0 {
      CountedOut(done, finished, events, seen, piece, remaining, ms);
      rest', finished', events' := rest, finished + [i], events + [IdleEvent(piece)];
    } else {
      CountedOn(done, finished, events, seen, piece, remaining, ms);
      rest', finished', events' := (piece, remaining - ms), finished, events;
    }
  }

  /** Where the countdown is: the rests in `seen` have become those in `done`, the others are as they were. */
  ghost predicate Halfway(rests: seq<(Piece, int)>, counted: seq<(Piece, int)>, done: seq<(Piece, int)>,
                          seen: seq<(Piece, int)>, i: nat) {
    && i <= |rests| && |done| == |seen| == i
    && counted == done + rests[i..] && rests == seen + rests[i..]
    && forall j | 0 <= j < i :: done[j].0 == seen[j].0
  }

  lemma HalfwayNext(rests: seq<(Piece, int)>, counted: seq<(Piece, int)>, done: seq<(Piece, int)>,
                    seen: seq<(Piece, int)>, i: nat, next: nat, left: (Piece, int))
    requires Halfway(rests, counted, done, seen, i) && i < |rests| && next == i + 1 && left.0 == rests[i].0
    ensures i < |counted| && counted[i] == rests[i]
    ensures Halfway(rests, counted[i := left], done + [left], seen + [rests[i]], next)
  {
    assert rests[i..] == [rests[i]] + rests[next..];
  }

  /** Counts down every rest, and reports those that run out together with their indices. */
  method CountDown(rests: seq<(Piece, int)>, ms: int)
    returns (counted: seq<(Piece, int)>, finished: seq<nat>, events: seq<GameEvent>)
    ensures |counted| == |rests| && forall j | 0 <= j < |rests| :: counted[j].0 == rests[j].0
    ensures Counted(counted, finished, events, rests, ms)
  {
    counted, finished, events := rests, [], [];
    var i := 0;
    ghost var done: seq<(Piece, int)>, seen: seq<(Piece, int)> := [], [];
    while i != |rests|
      invariant 0 <= i <= |rests| && Halfway(rests, counted, done, seen, i)
      invariant Counted(done, finished, events, seen, ms)
    {
      var next := i + 1;
      var left;
      left, finished, events := CountOne(rests[i], i, ms, finished, events, done, seen);
      HalfwayNext(rests, counted, done, seen, i, next, left);
      counted := counted[i := left];
      done, seen := done + [left], seen + [rests[i]];
      i := next;
    }
    assert counted == done && rests == seen;
  }

  /** Pops the finished rests, last index first. */
  method PopAll(rests: seq<(Piece, int)>, finished: seq<nat>) returns (left: seq<(Piece, int)>)
    requires Ascending(finished, |rests|)
    ensures left == Popped(rests, finished)
  {
    left := rests;
    var k := |finished|;
    assert finished[..k] == finished;
    while k > 0
      invariant 0 <= k <= |finished| && Ascending(finished[..k], |left|)
      invariant Popped(left, finished[..k]) == Popped(rests, finished)
    {
      k := k - 1;
      assert finished[..k + 1][..k] == finished[..k];
      left := left[..finished[k]] + left[finished[k] + 1..];
    }
  }

  lemma {:induction false} PoppedSubset(rests: seq<(Piece, int)>, finished: seq<nat>)
    requires Ascending(finished, |rests|)
    ensures forall r | r in Popped(rests, finished) :: r in rests
    decreases finished
  {
    if finished == [] {
    } else {
      var f := finished[|finished| - 1];
      PoppedSubset(rests[..f] + rests[f + 1..], finished[..|finished| - 1]);
    }
  }

  /** Takes the elapsed time off every motion. */
  method TickMotions(motions: seq<ActiveMotion>, ms: int)
    requires NoRepeats(motions)
    modifies motions
    ensures Views(motions) == Elapsed(old(Views(motions)), ms)
  {
    var i := 0;
    while i != |motions|
      invariant 0 <= i <= |motions|
      invariant forall j | 0 <= j < i :: motions[j].remainingMs == old(motions[j].remainingMs) - ms
      invariant forall j | i <= j < |motions| :: motions[j].remainingMs == old(motions[j].remainingMs)
    {
      motions[i].remainingMs := motions[i].remainingMs - ms;
      i := i + 1;
    }
  }

  // ----- the same-tick collision pass -----

  lemma StrikesSnoc(due: seq<Motion>, out: seq<nat>, j: nat)
    requires Within(out, -1, |due|) && j < |due|
    ensures Within(out + [j], -1, |due|)
    ensures Strikes(due, out + [j]) == Strikes(due, out) + [Elimination(due[j].piece, due[j].fromPos)]
  {
  }

  lemma IndexedSnoc(ms: seq<ActiveMotion>, eliminated: set<ActiveMotion>, out: seq<nat>, j: nat)
    requires NoRepeats(ms) && Indexed(ms, eliminated, out) && j < |ms|
    ensures Indexed(ms, eliminated + {ms[j]}, out + [j])
  {
  }

  /** The progress of the pass: which motions are out, and what has been reported and written about them. */
  ghost predicate Pass(arrived: seq<ActiveMotion>, due: seq<Motion>, eliminated: set<ActiveMotion>,
                       events: seq<GameEvent>, out: seq<nat>, store: map<PieceId, Piece>) {
    && Indexed(arrived, eliminated, out) && Within(out, -1, |due|)
    && EventViews(events) == Strikes(due, out) && EventsHold(store, events)
  }

  /** Condition of the inner loop. */
  predicate ClashObjects(m1: ActiveMotion, m2: ActiveMotion) {
    && m2.motionType == MOVE && m2.piece.color != m1.piece.color
    && (m2.toPos == m1.toPos || (m1.toPos == Some(m2.fromPos) && m2.toPos == Some(m1.fromPos)))
  }

  /** What never changes about a motion, and so needs no heap: all of it but the time left. */
  ghost predicate Mirrored(o: ActiveMotion, m: Motion, store: map<PieceId, Piece>) {
    && o.WellFormed() && Holds(store, o.piece)
    && m.piece == o.piece.AsToken() && m.fromPos == o.fromPos
    && (m.Move? <==> o.motionType == MOVE) && (m.Move? ==> o.toPos == Some(m.toPos))
  }

  /** The objects of a pass, and the motions they stand for. */
  ghost predicate Lined(arrived: seq<ActiveMotion>, due: seq<Motion>, store: map<PieceId, Piece>) {
    && Stored(store) && NoRepeats(arrived) && |due| == |arrived|
    && forall k | 0 <= k < |due| :: Mirrored(arrived[k], due[k], store)
  }

  lemma ViewsLined(arrived: seq<ActiveMotion>, store: map<PieceId, Piece>)
    requires Stored(store) && NoRepeats(arrived) && AllHold(store, arrived)
    ensures Lined(arrived, Views(arrived), store)
  {
    forall k | 0 <= k < |arrived| ensures Mirrored(arrived[k], Views(arrived)[k], store) {
      assert arrived[k] in arrived;
    }
  }

  lemma ClashMirrored(m1: ActiveMotion, m2: ActiveMotion, v1: Motion, v2: Motion, store: map<PieceId, Piece>)
    requires Mirrored(m1, v1, store) && Mirrored(m2, v2, store) && m1.motionType == MOVE
    ensures ClashObjects(m1, m2) <==> Clash(v1, v2)
  {
  }

  /** Marks one loser, reports it and takes it out. */
  method Strike(arrived: seq<ActiveMotion>, j: nat, eliminated: set<ActiveMotion>, events: seq<GameEvent>,
                ghost due: seq<Motion>, ghost out: seq<nat>, ghost store: map<PieceId, Piece>,
                ghost recs: map<PieceId, PieceRec>)
    returns (eliminated': set<ActiveMotion>, events': seq<GameEvent>)
    requires Lined(arrived, due, store) && j < |arrived|
    requires Pass(arrived, due, eliminated, events, out, store)
    requires Recs(store) == Mark(recs, EventViews(events))
    modifies arrived[j].piece
    ensures Pass(arrived, due, eliminated', events', out + [j], store)
    ensures Recs(store) == Mark(recs, EventViews(events'))
  {
    var m2 := arrived[j];
    assert Mirrored(m2, due[j], store);
    SetPieceState(m2.piece, Captured, store);
    eliminated' := eliminated + {m2};
    var e := EliminationEvent(m2.piece, m2.fromPos);
    events' := events + [e];
    IndexedSnoc(arrived, eliminated, out, j);
    StrikesSnoc(due, out, j);
    EventViewsSnoc(events, e);
    MarkSnoc(recs, EventViews(events), EventView(e));
  }

  /** The indices out when the inner loop for motion i has come to j. */
  ghost function OutAfter(due: seq<Motion>, i: nat, j: nat, out: seq<nat>): seq<nat>
    requires i < |due| && j <= |due|
  {
    out + Struck(due, i, j, out)
  }

  /** How the struck indices grow by one step of the inner loop. */
  lemma StruckNext(due: seq<Motion>, i: nat, j: nat, next: nat, out: seq<nat>)
    requires i < j < |due| && next == j + 1
    ensures j in OutAfter(due, i, j, out) <==> j in out
    ensures OutAfter(due, i, next, out) ==
            if j !in out && Clash(due[i], due[j]) then OutAfter(due, i, j, out) + [j] else OutAfter(due, i, j, out)
  {
    StruckMeaning(due, i, j, out);
    var s := Struck(due, i, j, out);
    assert out + (s + [j]) == out + s + [j];
  }

  /** How the swept indices grow by one step of the outer loop. */
  lemma SweepNext(due: seq<Motion>, i: nat, next: nat)
    requires i < |due| && next == i + 1
    ensures Sweep(due, next) == if i in Sweep(due, i) || !due[i].Move? then Sweep(due, i)
                                 else OutAfter(due, i, |due|, Sweep(due, i))
  {
  }

  /** The body of the inner loop: strikes motion j if it clashes with motion i and is not out yet. `swept` lists
      the indices that are out by now. */
  method StrikeIfClash(arrived: seq<ActiveMotion>, i: nat, j: nat, ghost next: nat, eliminated: set<ActiveMotion>,
                       events: seq<GameEvent>, ghost due: seq<Motion>, ghost out: seq<nat>, ghost swept: seq<nat>,
                       ghost store: map<PieceId, Piece>, ghost recs: map<PieceId, PieceRec>)
    returns (eliminated': set<ActiveMotion>, events': seq<GameEvent>, ghost swept': seq<nat>)
    requires Lined(arrived, due, store)
    requires i < j < |arrived| && next == j + 1 && arrived[i].motionType == MOVE && swept == OutAfter(due, i, j, out)
    requires Pass(arrived, due, eliminated, events, swept, store)
    requires Recs(store) == Mark(recs, EventViews(events))
    modifies arrived[j].piece
    ensures Pass(arrived, due, eliminated', events', swept', store) && swept' == OutAfter(due, i, next, out)
    ensures Recs(store) == Mark(recs, EventViews(events'))
  {
    StruckNext(due, i, j, next, out);
    ClashMirrored(arrived[i], arrived[j], due[i], due[j], store);
    eliminated', events', swept' := eliminated, events, swept;
    if arrived[j] !in eliminated && ClashObjects(arrived[i], arrived[j]) {
      eliminated', events' := Strike(arrived, j, eliminated, events, due, swept, store, recs);
      swept' := swept + [j];
    }
  }

  /** The inner loop: everything later that clashes with motion i and is not out yet. */
  method StrikeAll(arrived: seq<ActiveMotion>, i: nat, eliminated: set<ActiveMotion>, events: seq<GameEvent>,
                   ghost due: seq<Motion>, ghost out: seq<nat>, ghost store: map<PieceId, Piece>,
                   ghost recs: map<PieceId, PieceRec>)
    returns (eliminated': set<ActiveMotion>, events': seq<GameEvent>, ghost swept: seq<nat>)
    requires Lined(arrived, due, store)
    requires i < |arrived| && arrived[i].motionType == MOVE
    requires Pass(arrived, due, eliminated, events, out, store)
    requires Recs(store) == Mark(recs, EventViews(events))
    modifies store.Values
    ensures Pass(arrived, due, eliminated', events', swept, store) && swept == OutAfter(due, i, |due|, out)
    ensures Recs(store) == Mark(recs, EventViews(events'))
  {
    eliminated', events', swept := eliminated, events, out;
    assert OutAfter(due, i, i + 1, out) == out;
    var j := i + 1;
    while j != |arrived|
      invariant i < j <= |arrived| && swept == OutAfter(due, i, j, out)
      invariant Pass(arrived, due, eliminated', events', swept, store)
      invariant Recs(store) == Mark(recs, EventViews(events'))
    {
      assert Mirrored(arrived[j], due[j], store);
      var next := j + 1;
      eliminated', events', swept :=
        StrikeIfClash(arrived, i, j, next, eliminated', events', due, out, swept, store, recs);
      j := next;
    }
  }

  method EliminateSimultaneousCollisions(arrived: seq<ActiveMotion>, ghost store: map<PieceId, Piece>)
    returns (survived: seq<ActiveMotion>, events: seq<GameEvent>)
    requires Stored(store) && NoRepeats(arrived) && AllHold(store, arrived)
    modifies store.Values
    ensures Within(Sweep(Views(arrived), |arrived|), -1, |arrived|)
    ensures Views(survived) == Kept(Views(arrived), Sweep(Views(arrived), |arrived|), |arrived|)
    ensures EventViews(events) == Strikes(Views(arrived), Sweep(Views(arrived), |arrived|))
    ensures Subset(survived, arrived) && EventsHold(store, events)
    ensures Recs(store) == Mark(old(Recs(store)), EventViews(events))
  {
    ghost var due, recs := Views(arrived), Recs(store);
    var eliminated: set<ActiveMotion> := {};
    events := [];
    ghost var out: seq<nat> := [];
    ViewsLined(arrived, store);
    var i := 0;
    while i != |arrived|
      invariant 0 <= i <= |arrived| && out == Sweep(due, i)
      invariant Pass(arrived, due, eliminated, events, out, store)
      invariant Recs(store) == Mark(recs, EventViews(events))
    {
      assert Mirrored(arrived[i], due[i], store);
      var next := i + 1;
      SweepNext(due, i, next);
      if arrived[i] !in eliminated && arrived[i].motionType == MOVE {
        eliminated, events, out := StrikeAll(arrived, i, eliminated, events, due, out, store, recs);
      }
      i := next;
    }
    survived := Survivors(arrived, eliminated);
    assert arrived[..|arrived|] == arrived && Views(arrived) == due;
    SurvivorsKept(arrived, eliminated, Sweep(due, |arrived|), |arrived|);
    SurvivorsSubset(arrived, eliminated);
  }

  // ----- late collisions -----

  /** `other` is a MOVE to the same cell by the other colour. */
  predicate LateObject(other: ActiveMotion, motion: ActiveMotion) {
    other.motionType == MOVE && other.toPos == motion.toPos && other.piece.color != motion.piece.color
  }

  function OnTimeObjects(ms: seq<ActiveMotion>, motion: ActiveMotion): seq<ActiveMotion> {
    if ms == [] then [] else
      var n := |ms| - 1;
      if LateObject(ms[n], motion) then OnTimeObjects(ms[..n], motion) else OnTimeObjects(ms[..n], motion) + [ms[n]]
  }

  function LateObjectEvents(ms: seq<ActiveMotion>, motion: ActiveMotion): seq<GameEvent> {
    if ms == [] then [] else
      var n := |ms| - 1;
      var before := LateObjectEvents(ms[..n], motion);
      if LateObject(ms[n], motion) then before + [EliminationEvent(ms[n].piece, ms[n].fromPos)] else before
  }

  /** What the late-collision pass keeps and reports of some motions. */
  ghost predicate LateParts(ms: seq<ActiveMotion>, motion: ActiveMotion, kept: seq<ActiveMotion>,
                            events: seq<GameEvent>, store: map<PieceId, Piece>)
    reads ms, motion, kept
    requires motion.WellFormed() && motion.motionType == MOVE
  {
    && Views(kept) == OnTime(Views(ms), motion.View()) && Subset(kept, ms)
    && EventViews(events) == LateEvents(Views(ms), motion.View()) && EventsHold(store, events)
  }

  lemma LateStepViews(ms: seq<ActiveMotion>, motion: ActiveMotion, kept: seq<ActiveMotion>, events: seq<GameEvent>,
                      store: map<PieceId, Piece>)
    requires ms != [] && AllHold(store, ms) && motion.WellFormed() && motion.motionType == MOVE
    requires LateParts(ms[..|ms| - 1], motion, kept, events, store)
    ensures LateObject(ms[|ms| - 1], motion) ==>
      LateParts(ms, motion, kept, events + [EliminationEvent(ms[|ms| - 1].piece, ms[|ms| - 1].fromPos)], store)
    ensures !LateObject(ms[|ms| - 1], motion) ==> LateParts(ms, motion, kept + [ms[|ms| - 1]], events, store)
  {
    var n := |ms| - 1;
    assert ms[n] in ms;
    assert Views(ms)[..n] == Views(ms[..n]);
    ViewsConcat(kept, [ms[n]]);
    SubsetSnoc(kept, ms);
    EventViewsSnoc(events, EliminationEvent(ms[n].piece, ms[n].fromPos));
  }

  lemma {:induction false} LateViews(ms: seq<ActiveMotion>, motion: ActiveMotion, store: map<PieceId, Piece>)
    requires AllHold(store, ms) && motion.WellFormed() && motion.motionType == MOVE
    ensures LateParts(ms, motion, OnTimeObjects(ms, motion), LateObjectEvents(ms, motion), store)
  {
    if ms == [] {
    } else {
      var n := |ms| - 1;
      assert forall m | m in ms[..n] :: m in ms;
      LateViews(ms[..n], motion, store);
      LateStepViews(ms, motion, OnTimeObjects(ms[..n], motion), LateObjectEvents(ms[..n], motion), store);
    }
  }

  lemma {:induction false} NoneLate(ms: seq<ActiveMotion>, motion: ActiveMotion)
    ensures forall i | 0 <= i < |OnTimeObjects(ms, motion)| :: !LateObject(OnTimeObjects(ms, motion)[i], motion)
  {
    if ms == [] {
    } else {
      NoneLate(ms[..|ms| - 1], motion);
    }
  }

  /** One step of the late-collision loop: `list.remove` takes out `other` itself, because everything before it
      in the list is on time and the dataclass equality tells it apart. */
  method LateStep(now: seq<ActiveMotion>, snapshot: seq<ActiveMotion>, k: nat, motion: ActiveMotion,
                  events: seq<GameEvent>, ghost store: map<PieceId, Piece>, ghost recs: map<PieceId, PieceRec>)
    returns (now': seq<ActiveMotion>, events': seq<GameEvent>)
    requires Stored(store) && AllHold(store, snapshot) && k < |snapshot|
    requires now == OnTimeObjects(snapshot[..k], motion) + snapshot[k..]
    requires events == LateObjectEvents(snapshot[..k], motion)
    requires Recs(store) == Mark(recs, EventViews(events))
    modifies snapshot[k].piece
    ensures now' == OnTimeObjects(snapshot[..k + 1], motion) + snapshot[k + 1..]
    ensures events' == LateObjectEvents(snapshot[..k + 1], motion)
    ensures Recs(store) == Mark(recs, EventViews(events'))
  {
    var other := snapshot[k];
    assert other in snapshot && snapshot[..k + 1][..k] == snapshot[..k];
    now', events' := now, events;
    ghost var kept := OnTimeObjects(snapshot[..k], motion);
    if LateObject(other, motion) {
      SetPieceState(other.piece, Captured, store);
      NoneLate(snapshot[..k], motion);
      now' := RemoveFirst(now, other, |kept|);
      var e := EliminationEvent(other.piece, other.fromPos);
      MarkSnoc(recs, EventViews(events), EventView(e));
      EventViewsSnoc(events, e);
      events' := events + [e];
    } else {
      assert kept + snapshot[k..] == kept + [other] + snapshot[k + 1..];
    }
  }

  /** The late-collision loop over a copy of the list. */
  method RemoveLate(snapshot: seq<ActiveMotion>, motion: ActiveMotion, ghost store: map<PieceId, Piece>)
    returns (now: seq<ActiveMotion>, events: seq<GameEvent>)
    requires Stored(store) && AllHold(store, snapshot)
    modifies store.Values
    ensures now == OnTimeObjects(snapshot, motion) && events == LateObjectEvents(snapshot, motion)
    ensures Recs(store) == Mark(old(Recs(store)), EventViews(events))
  {
    ghost var recs := Recs(store);
    now, events := snapshot, [];
    for k := 0 to |snapshot|
      invariant now == OnTimeObjects(snapshot[..k], motion) + snapshot[k..]
      invariant events == LateObjectEvents(snapshot[..k], motion)
      invariant Recs(store) == Mark(recs, EventViews(events))
    {
      assert snapshot[k] in snapshot;
      now, events := LateStep(now, snapshot, k, motion, events, store, recs);
    }
    assert snapshot[..|snapshot|] == snapshot;
  }

  lemma ResolveAllNext(a: Arbiter, due: seq<Motion>, k: nat, next: nat)
    requires k < |due| && next == k + 1
    ensures ResolveAll(a, due[..next]) ==
            Outcome(ResolveOne(ResolveAll(a, due[..k]).arb, due[k]).arb,
                    ResolveAll(a, due[..k]).events + ResolveOne(ResolveAll(a, due[..k]).arb, due[k]).events)
  {
    assert due[..k + 1][..k] == due[..k];
  }

  /** What the motions of a come to when ms pass, the rests being left alone. */
  ghost predicate Settled(a: Arbiter, ms: int, after: Arbiter, events: seq<Event>) {
    var due := Due(Elapsed(a.motions, ms));
    && Within(Sweep(due, |due|), -1, |due|)
    && after == ResolveAll(a.(motions := Flying(Elapsed(a.motions, ms))), Schedule(due)).arb
    && events == Strikes(due, Sweep(due, |due|))
                 + ResolveAll(a.(motions := Flying(Elapsed(a.motions, ms))), Schedule(due)).events
  }

  lemma Phases(a: Arbiter, ms: int, woken: seq<Event>, settled: seq<Event>, after: Arbiter)
    requires woken == WakeEvents(a.rests, ms)
    requires Settled(a.(rests := RestsLeft(a.rests, ms)), ms, after, settled)
    ensures Outcome(after, woken + settled) == Arbitration.AdvanceTime(a, ms)
  {
    AdvancePhases(a, ms);
    var due := DueNow(a, ms);
    var r := ResolveAll(Resolving(a, ms), Schedule(due));
    assert woken + (Strikes(due, Sweep(due, |due|)) + r.events) == woken + Strikes(due, Sweep(due, |due|)) + r.events;
  }

  ghost predicate RestsHold(store: map<PieceId, Piece>, rests: seq<(Piece, int)>) {
    forall i | 0 <= i < |rests| :: Holds(store, rests[i].0)
  }

  /** What is left of the rests belongs to the same pieces. */
  lemma LeftHold(rests: seq<(Piece, int)>, counted: seq<(Piece, int)>, finished: seq<nat>, store: map<PieceId, Piece>)
    requires RestsHold(store, rests) && Ascending(finished, |counted|)
    requires |counted| == |rests| && forall j | 0 <= j < |rests| :: counted[j].0 == rests[j].0
    ensures RestsHold(store, Popped(counted, finished))
  {
    var left := Popped(counted, finished);
    PoppedSubset(counted, finished);
    forall i | 0 <= i < |left| ensures Holds(store, left[i].0) {
      assert left[i] in counted;
      var j :| 0 <= j < |counted| && counted[j] == left[i];
      assert rests[j].0 == left[i].0;
    }
  }

  lemma IdleHold(events: seq<GameEvent>, rests: seq<(Piece, int)>, store: map<PieceId, Piece>)
    requires IdleAmong(events, rests) && RestsHold(store, rests)
    ensures EventsHold(store, events)
  {
    forall e | e in events ensures Holds(store, e.piece) {
      var j :| 0 <= j < |rests| && rests[j].0 == e.piece;
    }
  }

  class RealTimeArbiter {
    const msPerSquare: int
    const jumpDurationMs: int
    const longRestMs: int
    const shortRestMs: int
    var activeMotions: seq<ActiveMotion>
    var activeRests: seq<(Piece, int)>
    var airbornePos: Option<Position>

    constructor (msPerSquare: int, jumpDurationMs: int, longRestMs: int, shortRestMs: int)
      ensures View() == Arbiter(Timing(msPerSquare, jumpDurationMs, longRestMs, shortRestMs), [], [], None)
      ensures activeMotions == [] && activeRests == []
    {
      this.msPerSquare, this.jumpDurationMs := msPerSquare, jumpDurationMs;
      this.longRestMs, this.shortRestMs := longRestMs, shortRestMs;
      activeMotions, activeRests, airbornePos := [], [], None;
    }

    function AsTiming(): Timing {
      Timing(msPerSquare, jumpDurationMs, longRestMs, shortRestMs)
    }

    ghost function View(): Arbiter
      reads this, activeMotions
    {
      Arbiter(AsTiming(), Views(activeMotions), RestViews(activeRests), airbornePos)
    }

    ghost predicate Valid(store: map<PieceId, Piece>)
      reads this
    {
      && Stored(store) && NoRepeats(activeMotions) && AllHold(store, activeMotions)
      && RestsHold(store, activeRests)
    }

    /** `any(m.piece is piece for m in self._active_motions)`. */
    predicate HasActiveMotion(piece: Piece)
      reads this
    {
      exists i :: 0 <= i < |activeMotions| && activeMotions[i].piece == piece
    }

    method GetMotionFor(piece: Piece) returns (motion: Option<ActiveMotion>)
      ensures motion == None <==> !HasActiveMotion(piece)
      ensures motion.Some? ==> motion.value in activeMotions && motion.value.piece == piece
    {
      for i := 0 to |activeMotions|
        invariant forall j | 0 <= j < i :: activeMotions[j].piece != piece
      {
        if activeMotions[i].piece == piece {
          return Some(activeMotions[i]);
        }
      }
      return None;
    }

    method StartMotion(piece: Piece, source: Position, destination: Position, ghost store: map<PieceId, Piece>)
      requires Valid(store) && Holds(store, piece)
      modifies this, piece
      ensures Valid(store)
      ensures View() == Arbitration.StartMotion(old(View()), piece.AsToken(), source, destination)
      ensures Recs(store) == SetState(old(Recs(store)), piece.id, Moving)
    {
      var distance := Max(Abs(destination.row - source.row), Abs(destination.col - source.col));
      SetPieceState(piece, Moving, store);
      AddMotion(MOVE, piece, source, Some(destination), distance * msPerSquare, store);
    }

    /** Appends a new motion. */
    method AddMotion(motionType: MotionType, piece: Piece, fromPos: Position, toPos: Option<Position>, remainingMs: int,
                     ghost store: map<PieceId, Piece>)
      requires Valid(store) && Holds(store, piece) && (motionType == MOVE <==> toPos.Some?)
      modifies this
      ensures Valid(store) && Recs(store) == old(Recs(store))
      ensures View() == old(View()).(motions := old(View()).motions +
                [if toPos.Some? then Move(piece.AsToken(), fromPos, toPos.value, remainingMs)
                 else Jump(piece.AsToken(), fromPos, remainingMs)])
    {
      var motion := new ActiveMotion(motionType, piece, fromPos, toPos, remainingMs);
      ViewsConcat(activeMotions, [motion]);
      activeMotions := activeMotions + [motion];
    }

    method StartJump(piece: Piece, pos: Position, ghost store: map<PieceId, Piece>)
      requires Valid(store) && Holds(store, piece)
      modifies this, piece
      ensures Valid(store)
      ensures View() == Arbitration.StartJump(old(View()), piece.AsToken(), pos)
      ensures Recs(store) == SetState(old(Recs(store)), piece.id, Jumping)
    {
      SetPieceState(piece, Jumping, store);
      AddMotion(JUMP, piece, pos, None, jumpDurationMs, store);
      SetMarker(Some(pos), store);
    }

    method SetMarker(pos: Option<Position>, ghost store: map<PieceId, Piece>)
      requires Valid(store)
      modifies this
      ensures Valid(store) && Recs(store) == old(Recs(store)) && View() == old(View()).(airborne := pos)
    {
      airbornePos := pos;
    }

    /** The first part of a call: rests that run out are reported and popped, the others shortened. */
    method AdvanceRests(ms: int, ghost store: map<PieceId, Piece>) returns (events: seq<GameEvent>)
      requires Valid(store)
      modifies this
      ensures Valid(store) && activeMotions == old(activeMotions)
      ensures View() == old(View()).(rests := RestsLeft(old(View()).rests, ms))
      ensures EventViews(events) == WakeEvents(old(View()).rests, ms)
      ensures EventsHold(store, events)
      ensures Recs(store) == Mark(old(Recs(store)), EventViews(events))
    {
      var counted, finished;
      counted, finished, events := CountDown(activeRests, ms);
      var left := PopAll(counted, finished);
      LeftHold(activeRests, counted, finished, store);
      WakesDoNotMark(Recs(store), RestViews(activeRests), ms);
      IdleHold(events, activeRests, store);
      KeepRests(left, store);
    }

    /** Replaces the list of rests. */
    method KeepRests(rests: seq<(Piece, int)>, ghost store: map<PieceId, Piece>)
      requires Valid(store) && RestsHold(store, rests)
      modifies this
      ensures Valid(store) && activeMotions == old(activeMotions)
      ensures View() == old(View()).(rests := RestViews(rests)) && Recs(store) == old(Recs(store))
    {
      activeRests := rests;
    }

    method ResolveLateCollision(motion: ActiveMotion, ghost store: map<PieceId, Piece>) returns (events: seq<GameEvent>)
      requires Valid(store) && motion.WellFormed() && motion.motionType == MOVE
      modifies this, store.Values
      ensures Valid(store)
      ensures View() == old(View()).(motions := OnTime(old(View()).motions, old(motion.View())))
      ensures EventViews(events) == LateEvents(old(View()).motions, old(motion.View())) && EventsHold(store, events)
      ensures Recs(store) == Mark(old(Recs(store)), EventViews(events))
    {
      ghost var motions, arriving := Views(activeMotions), motion.View();
      var now;
      now, events := RemoveLate(activeMotions, motion, store);
      assert Views(activeMotions) == motions && motion.View() == arriving;
      LateViews(activeMotions, motion, store);
      SubsetHolds(now, activeMotions, store);
      Keep(now, store);
    }

    /** The colour of the first airborne piece over the motion's target. */
    method GetAirbornePieceColor(motion: ActiveMotion) returns (color: Option<Color>)
      requires motion.WellFormed() && motion.motionType == MOVE && forall m | m in activeMotions :: m.WellFormed()
      ensures color == JumperColor(Views(activeMotions), motion.toPos.value)
    {
      ghost var views := Views(activeMotions);
      assert views[0..] == views;
      for i := 0 to |activeMotions|
        invariant JumperColor(views, motion.toPos.value) == JumperColor(views[i..], motion.toPos.value)
      {
        var m := activeMotions[i];
        assert m in activeMotions && views[i..][0] == m.View() && views[i..][1..] == views[i + 1..];
        if m.motionType == JUMP && m.fromPos == motion.toPos.value {
          return Some(m.piece.color);
        }
      }
      return None;
    }

    method ResolveAirCapture(motion: ActiveMotion, ghost store: map<PieceId, Piece>) returns (e: Option<GameEvent>)
      requires Valid(store) && motion.WellFormed() && motion.motionType == MOVE && Holds(store, motion.piece)
      modifies this, motion.piece
      ensures Valid(store)
      ensures e == if AirCaptured(old(View()), old(motion.View()))
                   then Some(EliminationEvent(motion.piece, motion.fromPos)) else None
      ensures View() == if e.Some? then old(View()).(airborne := None) else old(View())
      ensures Recs(store) == if e.Some? then SetState(old(Recs(store)), motion.piece.id, Captured) else old(Recs(store))
    {
      if airbornePos != motion.toPos {
        return None;
      }
      var color := GetAirbornePieceColor(motion);
      if color.Some? && motion.piece.color != color.value {
        SetPieceState(motion.piece, Captured, store);
        SetMarker(None, store);
        return Some(EliminationEvent(motion.piece, motion.fromPos));
      }
      return None;
    }

    method ResolveMove(motion: ActiveMotion, ghost store: map<PieceId, Piece>) returns (events: seq<GameEvent>)
      requires Valid(store) && motion.WellFormed() && motion.motionType == MOVE && Holds(store, motion.piece)
      modifies this
      ensures Valid(store) && Recs(store) == old(Recs(store))
      ensures View() == old(View()).(rests := old(View()).rests + [RestEntry(motion.piece.AsToken(), longRestMs)])
      ensures EventViews(events) == [Landing(old(motion.View())), Rest(motion.piece.AsToken(), LongRest, longRestMs)]
      ensures EventsHold(store, events)
    {
      activeRests := activeRests + [(motion.piece, longRestMs)];
      events := [ArrivalEvent(motion.piece, motion.fromPos, motion.toPos.value, None, None),
                 RestEvent(motion.piece, LongRest, longRestMs)];
    }

    method ResolveMoveArrival(motion: ActiveMotion, ghost store: map<PieceId, Piece>) returns (events: seq<GameEvent>)
      requires Valid(store) && motion.WellFormed() && motion.motionType == MOVE && Holds(store, motion.piece)
      modifies this, store.Values
      ensures Valid(store) && EventsHold(store, events)
      ensures Outcome(View(), EventViews(events)) == ResolveOne(old(View()), old(motion.View()))
      ensures Recs(store) == Mark(old(Recs(store)), EventViews(events))
    {
      ghost var recs := Recs(store);
      events := ResolveLateCollision(motion, store);
      ghost var late := EventViews(events);
      var elimination := ResolveAirCapture(motion, store);
      if elimination.Some? {
        EventViewsSnoc(events, elimination.value);
        MarkSnoc(recs, late, EventView(elimination.value));
        events := events + [elimination.value];
      } else {
        var own := ResolveMove(motion, store);
        EventViewsConcat(events, own);
        MarkQuiet(recs, late, EventViews(own));
        events := events + own;
      }
    }

    method ResolveArrival(motion: ActiveMotion, ghost store: map<PieceId, Piece>) returns (events: seq<GameEvent>)
      requires Valid(store) && motion.WellFormed() && Holds(store, motion.piece)
      modifies this, store.Values
      ensures Valid(store) && EventsHold(store, events)
      ensures Outcome(View(), EventViews(events)) == ResolveOne(old(View()), old(motion.View()))
      ensures Recs(store) == Mark(old(Recs(store)), EventViews(events))
    {
      if motion.motionType == JUMP {
        events := ResolveLanding(motion, store);
      } else {
        events := ResolveMoveArrival(motion, store);
      }
    }

    method ResolveLanding(motion: ActiveMotion, ghost store: map<PieceId, Piece>) returns (events: seq<GameEvent>)
      requires Valid(store) && motion.WellFormed() && motion.motionType == JUMP && Holds(store, motion.piece)
      modifies this
      ensures Valid(store) && EventsHold(store, events)
      ensures Outcome(View(), EventViews(events)) == ResolveOne(old(View()), old(motion.View()))
      ensures Recs(store) == Mark(old(Recs(store)), EventViews(events))
    {
      airbornePos := None;
      activeRests := activeRests + [(motion.piece, shortRestMs)];
      events := [RestEvent(motion.piece, ShortRest, shortRestMs)];
      NoMark(Recs(store), EventViews(events)[0]);
      assert EventViews(events) == [EventViews(events)[0]];
    }

    /** Resolves the survivors in order. */
    method ResolveArrivals(survived: seq<ActiveMotion>, ghost store: map<PieceId, Piece>)
      returns (events: seq<GameEvent>)
      requires Valid(store) && AllHold(store, survived)
      modifies this, store.Values
      ensures Valid(store) && EventsHold(store, events)
      ensures Outcome(View(), EventViews(events)) == ResolveAll(old(View()), old(Views(survived)))
      ensures Recs(store) == Mark(old(Recs(store)), EventViews(events))
    {
      ghost var a0, recs, due := View(), Recs(store), Views(survived);
      events := [];
      var i := 0;
      while i != |survived|
        invariant 0 <= i <= |survived| && Valid(store) && EventsHold(store, events) && Views(survived) == due
        invariant Outcome(View(), EventViews(events)) == ResolveAll(a0, due[..i])
        invariant Recs(store) == Mark(recs, EventViews(events))
      {
        assert survived[i] in survived;
        var next := i + 1;
        ResolveAllNext(a0, due, i, next);
        var more := ResolveArrival(survived[i], store);
        EventViewsConcat(events, more);
        MarkConcat(recs, EventViews(events), EventViews(more));
        events := events + more;
        i := next;
      }
      assert due[..|survived|] == due;
    }

    /** Lets time pass for the motions. */
    method TickAll(ms: int, ghost store: map<PieceId, Piece>)
      requires Valid(store)
      modifies activeMotions
      ensures Valid(store) && View() == old(View()).(motions := Elapsed(old(View()).motions, ms))
      ensures Recs(store) == old(Recs(store))
    {
      TickMotions(activeMotions, ms);
    }

    /** Takes the motions that have come due out of the list. */
    method TakeDue(ghost store: map<PieceId, Piece>) returns (arrived: seq<ActiveMotion>)
      requires Valid(store)
      modifies this
      ensures Valid(store) && NoRepeats(arrived) && AllHold(store, arrived)
      ensures Views(arrived) == Due(old(View()).motions)
      ensures View() == old(View()).(motions := Flying(old(View()).motions))
      ensures Recs(store) == old(Recs(store))
    {
      var left;
      arrived, left := SplitDue(activeMotions, store);
      Keep(left, store);
    }

    /** Replaces the list of motions. */
    method Keep(motions: seq<ActiveMotion>, ghost store: map<PieceId, Piece>)
      requires Valid(store) && NoRepeats(motions) && AllHold(store, motions)
      modifies this
      ensures Valid(store) && View() == old(View()).(motions := old(Views(motions)))
      ensures Recs(store) == old(Recs(store))
    {
      ghost var views := Views(motions);
      activeMotions := motions;
      assert Views(activeMotions) == views;
    }

    /** Eliminates same-tick collisions and resolves the survivors, MOVEs first. */
    method SettleDue(arrived: seq<ActiveMotion>, ghost store: map<PieceId, Piece>) returns (events: seq<GameEvent>)
      requires Valid(store) && NoRepeats(arrived) && AllHold(store, arrived)
      modifies this, store.Values
      ensures Valid(store) && EventsHold(store, events)
      ensures Within(Sweep(old(Views(arrived)), |arrived|), -1, |arrived|)
      ensures View() == ResolveAll(old(View()), Schedule(old(Views(arrived)))).arb
      ensures EventViews(events) == Strikes(old(Views(arrived)), Sweep(old(Views(arrived)), |arrived|))
                                    + ResolveAll(old(View()), Schedule(old(Views(arrived)))).events
      ensures Recs(store) == Mark(old(Recs(store)), EventViews(events))
    {
      ghost var recs := Recs(store);
      var survived, eliminations := EliminateSimultaneousCollisions(arrived, store);
      SortObjects(survived);
      var ordered := SortedMovesFirst(survived);
      var resolved := ResolveArrivals(ordered, store);
      EventViewsConcat(eliminations, resolved);
      MarkConcat(recs, EventViews(eliminations), EventViews(resolved));
      events := eliminations + resolved;
    }

    method AdvanceTime(ms: int, ghost store: map<PieceId, Piece>) returns (events: seq<GameEvent>)
      requires Valid(store)
      modifies this, activeMotions, store.Values
      ensures Valid(store) && EventsHold(store, events)
      ensures Outcome(View(), EventViews(events)) == Arbitration.AdvanceTime(old(View()), ms)
      ensures Recs(store) == Mark(old(Recs(store)), EventViews(events))
    {
      ghost var a0, recs := View(), Recs(store);
      events := AdvanceRests(ms, store);
      if activeMotions == [] {
        return;
      }
      var settled := AdvanceMotions(ms, store);
      EventViewsConcat(events, settled);
      MarkConcat(recs, EventViews(events), EventViews(settled));
      Phases(a0, ms, EventViews(events), EventViews(settled), View());
      events := events + settled;
    }

    /** The second part of a call: time passes for the motions, and those that come due are settled. */
    method AdvanceMotions(ms: int, ghost store: map<PieceId, Piece>) returns (events: seq<GameEvent>)
      requires Valid(store)
      modifies this, activeMotions, store.Values
      ensures Valid(store) && EventsHold(store, events)
      ensures Settled(old(View()), ms, View(), EventViews(events))
      ensures Recs(store) == Mark(old(Recs(store)), EventViews(events))
    {
      TickAll(ms, store);
      var arrived := TakeDue(store);
      events := SettleDue(arrived, store);
    }
  }
}
