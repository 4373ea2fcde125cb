/** The matchmaking queue: who is paired, who times out, and where every entry ends up. */
module Matchmaking {
  import opened Values

  datatype Config = Config(eloRange: int, widenStep: int, widenIntervalMs: int, timeoutMs: int)

  datatype Entry = Entry(username: string, elo: int, connId: string, joinedAt: int)

  // ----- windows -----

  /** Division that rounds down, also for a negative divisor. */
  function FloorDiv(a: int, b: int): int
    requires b != 0
  {
    if b > 0 then a / b else -a / -b
  }

  function Window(c: Config, e: Entry, now: int): int
    requires c.widenIntervalMs != 0
  {
    c.eloRange + FloorDiv(now - e.joinedAt, c.widenIntervalMs) * c.widenStep
  }

  predicate Suits(c: Config, a: Entry, b: Entry, now: int)
    requires c.widenIntervalMs != 0
  {
    Abs(a.elo - b.elo) <= Max(Window(c, a, now), Window(c, b, now))
  }

  // ----- the operations, on the queue -----

  function Cancel(q: seq<Entry>, username: string): seq<Entry> {
    if q == [] then [] else
      var n := |q| - 1;
      if q[n].username != username then Cancel(q[..n], username) + [q[n]] else Cancel(q[..n], username)
  }

  function Enqueue(q: seq<Entry>, e: Entry): seq<Entry> {
    Cancel(q, e.username) + [e]
  }

  /** The scan of find_match, from row i and column j on. */
  function Scan(c: Config, q: seq<Entry>, now: int, i: nat, j: nat): Option<(nat, nat)>
    requires c.widenIntervalMs != 0 && i < j
    decreases |q| - i, |q| - j
  {
    if i >= |q| then None
    else if j >= |q| then Scan(c, q, now, i + 1, i + 2)
    else if Suits(c, q[i], q[j], now) then Some((i, j))
    else Scan(c, q, now, i, j + 1)
  }

  function FindMatch(c: Config, q: seq<Entry>, now: int): Option<(nat, nat)>
    requires c.widenIntervalMs != 0
  {
    Scan(c, q, now, 0, 1)
  }

  function Without(q: seq<Entry>, i: nat, j: nat): seq<Entry>
    requires i < j < |q|
  {
    q[..i] + q[i + 1..j] + q[j + 1..]
  }

  predicate Expired(c: Config, e: Entry, now: int) {
    now - e.joinedAt >= c.timeoutMs
  }

  function TimedOut(c: Config, q: seq<Entry>, now: int): seq<Entry> {
    if q == [] then [] else
      var n := |q| - 1;
      if Expired(c, q[n], now) then TimedOut(c, q[..n], now) + [q[n]] else TimedOut(c, q[..n], now)
  }

  function Waiting(c: Config, q: seq<Entry>, now: int): seq<Entry> {
    if q == [] then [] else
      var n := |q| - 1;
      if !Expired(c, q[n], now) then Waiting(c, q[..n], now) + [q[n]] else Waiting(c, q[..n], now)
  }

  // ----- the pair found is the lexicographically first -----

  predicate SuitsAt(c: Config, q: seq<Entry>, now: int, i: nat, j: nat)
    requires c.widenIntervalMs != 0 && i < j < |q|
  {
    Suits(c, q[i], q[j], now)
  }

  predicate Before(i: nat, j: nat, k: nat, l: nat) {
    i < k || (i == k && j < l)
  }

  /** No pair from (i, j) on comes before p, and p suits; or no pair suits at all. */
  ghost predicate FirstFrom(c: Config, q: seq<Entry>, now: int, i: nat, j: nat, p: Option<(nat, nat)>)
    requires c.widenIntervalMs != 0
  {
    match p
    case None => forall k: nat, l: nat | k < l < |q| && !Before(k, l, i, j) :: !SuitsAt(c, q, now, k, l)
    case Some((x, y)) =>
      && x < y < |q| && !Before(x, y, i, j) && SuitsAt(c, q, now, x, y)
      && forall k: nat, l: nat | k < l < |q| && !Before(k, l, i, j) && Before(k, l, x, y) :: !SuitsAt(c, q, now, k, l)
  }

  lemma {:induction false} ScanFindsFirst(c: Config, q: seq<Entry>, now: int, i: nat, j: nat)
    requires c.widenIntervalMs != 0 && i < j
    ensures FirstFrom(c, q, now, i, j, Scan(c, q, now, i, j))
    decreases |q| - i, |q| - j
  {
    if i >= |q| {
    } else {
      if j >= |q| {
        ScanFindsFirst(c, q, now, i + 1, i + 2);
      } else if !Suits(c, q[i], q[j], now) {
        ScanFindsFirst(c, q, now, i, j + 1);
        assert !SuitsAt(c, q, now, i, j);
      } else {
        assert SuitsAt(c, q, now, i, j);
      }
    }
  }

  /** Main result: a pair is found iff there is one that suits, and it is the lexicographically first. */
  lemma MatchIsFirst(c: Config, q: seq<Entry>, now: int)
    requires c.widenIntervalMs != 0
    ensures FindMatch(c, q, now) == None <==> forall k: nat, l: nat | k < l < |q| :: !SuitsAt(c, q, now, k, l)
    ensures FindMatch(c, q, now).Some? ==>
      var (x, y) := FindMatch(c, q, now).value;
      x < y < |q| && SuitsAt(c, q, now, x, y)
    ensures FindMatch(c, q, now).Some? ==>
      forall k: nat, l: nat | k < l < |q| && Before(k, l, FindMatch(c, q, now).value.0, FindMatch(c, q, now).value.1) ::
        !SuitsAt(c, q, now, k, l)
  {
    ScanFindsFirst(c, q, now, 0, 1);
  }

  // ----- usernames stay unique -----

  ghost predicate UniqueNames(q: seq<Entry>) {
    forall i, j | 0 <= i < j < |q| :: q[i].username != q[j].username
  }

  /** The queue entries come in the order in which they joined. */
  ghost predicate InOrder(q: seq<Entry>) {
    forall i, j | 0 <= i < j < |q| :: q[i].joinedAt <= q[j].joinedAt
  }

  ghost predicate JoinedBy(q: seq<Entry>, now: int) {
    forall e | e in q :: e.joinedAt <= now
  }

  lemma {:induction false} CancelMembers(q: seq<Entry>, username: string)
    ensures forall e :: e in Cancel(q, username) <==> e in q && e.username != username
  {
    if q == [] {
    } else {
      assert q == q[..|q| - 1] + [q[|q| - 1]];
      CancelMembers(q[..|q| - 1], username);
    }
  }

  lemma {:induction false} SweepMembers(c: Config, q: seq<Entry>, now: int)
    ensures forall e :: e in Waiting(c, q, now) <==> e in q && !Expired(c, e, now)
    ensures forall e :: e in TimedOut(c, q, now) <==> e in q && Expired(c, e, now)
  {
    if q == [] {
    } else {
      assert q == q[..|q| - 1] + [q[|q| - 1]];
      SweepMembers(c, q[..|q| - 1], now);
    }
  }

  /** Both orders carry over from a queue to what is left of its front, followed by its last entry. */
  lemma LastStays(q: seq<Entry>, front: seq<Entry>)
    requires q != [] && forall e | e in front :: e in q[..|q| - 1]
    ensures UniqueNames(q) && UniqueNames(front) ==> UniqueNames(front + [q[|q| - 1]])
    ensures InOrder(q) && InOrder(front) ==> InOrder(front + [q[|q| - 1]])
  {
    var last := q[|q| - 1];
    forall i | 0 <= i < |front|
      ensures UniqueNames(q) ==> front[i].username != last.username
      ensures InOrder(q) ==> front[i].joinedAt <= last.joinedAt
    {
      assert front[i] in front;
      var k :| 0 <= k < |q| - 1 && q[..|q| - 1][k] == front[i];
      assert q[k] == front[i];
    }
  }

  lemma {:induction false} CancelKeeps(q: seq<Entry>, username: string)
    ensures UniqueNames(q) ==> UniqueNames(Cancel(q, username))
    ensures InOrder(q) ==> InOrder(Cancel(q, username))
  {
    if q == [] {
    } else {
      CancelKeeps(q[..|q| - 1], username);
      CancelMembers(q[..|q| - 1], username);
      LastStays(q, Cancel(q[..|q| - 1], username));
    }
  }

  lemma {:induction false} SweepKeeps(c: Config, q: seq<Entry>, now: int)
    ensures UniqueNames(q) ==> UniqueNames(Waiting(c, q, now))
    ensures InOrder(q) ==> InOrder(Waiting(c, q, now))
  {
    if q == [] {
    } else {
      SweepKeeps(c, q[..|q| - 1], now);
      SweepMembers(c, q[..|q| - 1], now);
      LastStays(q, Waiting(c, q[..|q| - 1], now));
    }
  }

  // ----- windows over time -----

  /** Multiplying and dividing are adjoint. */
  lemma Adjoint(x: int, n: int, d: int)
    requires 0 < d
    ensures n <= x / d <==> n * d <= x
  {
    assert x == (x / d) * d + x % d;
    if n <= x / d {
      assert n * d <= (x / d) * d;
    } else {
      assert n * d >= (x / d + 1) * d;
      assert (x / d + 1) * d == (x / d) * d + d;
    }
  }

  lemma FloorGrows(a: int, b: int, d: int)
    requires 0 < d && a <= b
    ensures a / d <= b / d
  {
    Adjoint(a, a / d, d);
    Adjoint(b, a / d, d);
  }

  lemma WindowOrder(c: Config, a: Entry, b: Entry, now: int, later: int)
    requires 0 < c.widenIntervalMs && 0 <= c.widenStep
    requires now - b.joinedAt <= later - a.joinedAt
    ensures Window(c, b, now) <= Window(c, a, later)
  {
    var x, y := (now - b.joinedAt) / c.widenIntervalMs, (later - a.joinedAt) / c.widenIntervalMs;
    FloorGrows(now - b.joinedAt, later - a.joinedAt, c.widenIntervalMs);
    assert x * c.widenStep <= y * c.widenStep;
  }

  /** Rounding down, for divisors of either sign. */
  lemma RoundsDown(a: int, b: int, q: int)
    requires if b > 0 then q * b <= a < q * b + b else q * b + b < a <= q * b
    ensures b != 0 && FloorDiv(a, b) == q
  {
    var x, d := if b > 0 then a else -a, if b > 0 then b else -b;
    assert q * d <= x < q * d + d by {
      assert q * -b == -(q * b);
    }
    Adjoint(x, q, d);
    Adjoint(x, q + 1, d);
    assert (q + 1) * d == q * d + d;
    assert x / d == q;
  }

  /** The window has widened by one step for every full interval of waiting. */
  lemma WindowSteps(c: Config, e: Entry, now: int, steps: int)
    requires 0 < c.widenIntervalMs
    requires steps * c.widenIntervalMs <= now - e.joinedAt < steps * c.widenIntervalMs + c.widenIntervalMs
    ensures Window(c, e, now) == c.eloRange + steps * c.widenStep
  {
    RoundsDown(now - e.joinedAt, c.widenIntervalMs, steps);
  }

  /** An entry times out as soon as it has waited for the configured time. */
  lemma TimesOutExactly(c: Config, q: seq<Entry>, now: int, e: Entry)
    ensures e in TimedOut(c, q, now) <==> e in q && e.joinedAt + c.timeoutMs <= now
    ensures e in Waiting(c, q, now) <==> e in q && now < e.joinedAt + c.timeoutMs
  {
    SweepMembers(c, q, now);
  }

  /** When entries come in joining order, the window that counts is that of the earlier entry. */
  lemma EarlierWindowCounts(c: Config, q: seq<Entry>, now: int, i: nat, j: nat)
    requires 0 < c.widenIntervalMs && 0 <= c.widenStep && InOrder(q) && i < j < |q|
    ensures Suits(c, q[i], q[j], now) <==> Abs(q[i].elo - q[j].elo) <= Window(c, q[i], now)
  {
    WindowOrder(c, q[i], q[j], now, now);
  }

  /** A pair that suits goes on suiting. */
  lemma SuitsForever(c: Config, a: Entry, b: Entry, now: int, later: int)
    requires 0 < c.widenIntervalMs && 0 <= c.widenStep && now <= later
    requires Suits(c, a, b, now)
    ensures Suits(c, a, b, later)
  {
    WindowOrder(c, a, a, now, later);
    WindowOrder(c, b, b, now, later);
  }

  function CeilDiv(a: int, b: int): int
    requires 0 < b
  {
    -(-a / b)
  }

  /** Main result: with a growing window, two entries suit exactly from a moment that can be computed when they
      join: the earlier one has then waited for as many intervals as its window needs to cover the gap. */
  lemma SuitsExactlyFrom(c: Config, a: Entry, b: Entry, now: int)
    requires 0 < c.widenIntervalMs && 0 < c.widenStep && a.joinedAt <= b.joinedAt
    ensures Suits(c, a, b, now) <==>
            a.joinedAt + CeilDiv(Abs(a.elo - b.elo) - c.eloRange, c.widenStep) * c.widenIntervalMs <= now
  {
    WindowOrder(c, a, b, now, now);
    var gap, steps := Abs(a.elo - b.elo) - c.eloRange, (now - a.joinedAt) / c.widenIntervalMs;
    Adjoint(-gap, -steps, c.widenStep);
    assert (-steps) * c.widenStep == -(steps * c.widenStep);
    Adjoint(now - a.joinedAt, CeilDiv(gap, c.widenStep), c.widenIntervalMs);
  }

  // ----- timed-out entries are a prefix -----

  /** If the last entry has expired, so have those before it. */
  lemma LastExpiredLast(c: Config, q: seq<Entry>, now: int)
    requires InOrder(q) && q != [] && Expired(c, q[|q| - 1], now)
    ensures Waiting(c, q[..|q| - 1], now) == []
  {
    SweepMembers(c, q[..|q| - 1], now);
    EmptyOrSome(Waiting(c, q[..|q| - 1], now));
    forall e | e in q[..|q| - 1] ensures Expired(c, e, now) {
      var i :| 0 <= i < |q| - 1 && q[i] == e;
    }
  }

  lemma {:induction false} TimedOutPrefix(c: Config, q: seq<Entry>, now: int)
    requires InOrder(q)
    ensures q == TimedOut(c, q, now) + Waiting(c, q, now)
  {
    if q == [] {
    } else {
      var n := |q| - 1;
      TimedOutPrefix(c, q[..n], now);
      assert q == q[..n] + [q[n]];
      if Expired(c, q[n], now) {
        LastExpiredLast(c, q, now);
      }
    }
  }

  // ----- runs -----

  datatype Command =
    | Join(entry: Entry)
    | Leave(username: string)
    | Pair(now: int)
    | Expire(now: int)

  /** The queue with the history of every entry that entered it. */
  datatype Hall = Hall(queue: seq<Entry>, entered: multiset<Entry>, matched: multiset<Entry>,
                       expired: multiset<Entry>, withdrawn: multiset<Entry>)

  function Perform(c: Config, h: Hall, k: Command): Hall
    requires c.widenIntervalMs != 0
  {
    match k
    case Join(e) =>
      h.(queue := Enqueue(h.queue, e), entered := h.entered + multiset{e},
         withdrawn := h.withdrawn + (multiset(h.queue) - multiset(Cancel(h.queue, e.username))))
    case Leave(u) =>
      h.(queue := Cancel(h.queue, u),
         withdrawn := h.withdrawn + (multiset(h.queue) - multiset(Cancel(h.queue, u))))
    case Pair(now) =>
      (match FindMatch(c, h.queue, now)
       case None => h
       case Some((i, j)) =>
         MatchIsFirst(c, h.queue, now);
         h.(queue := Without(h.queue, i, j), matched := h.matched + multiset{h.queue[i], h.queue[j]}))
    case Expire(now) =>
      h.(queue := Waiting(c, h.queue, now), expired := h.expired + multiset(TimedOut(c, h.queue, now)))
  }

  function Run(c: Config, h: Hall, ks: seq<Command>): Hall
    requires c.widenIntervalMs != 0
  {
    if ks == [] then h else Perform(c, Run(c, h, ks[..|ks| - 1]), ks[|ks| - 1])
  }

  /** Every entry that came in is waiting, matched, expired or withdrawn, and no entry is two of these. */
  ghost predicate Accounted(h: Hall) {
    h.entered == multiset(h.queue) + h.matched + h.expired + h.withdrawn
  }

  lemma {:induction false} CancelAccounts(q: seq<Entry>, username: string)
    ensures multiset(Cancel(q, username)) <= multiset(q)
  {
    if q == [] {
    } else {
      assert q == q[..|q| - 1] + [q[|q| - 1]];
      CancelAccounts(q[..|q| - 1], username);
    }
  }

  lemma {:induction false} SweepAccounts(c: Config, q: seq<Entry>, now: int)
    ensures multiset(q) == multiset(TimedOut(c, q, now)) + multiset(Waiting(c, q, now))
  {
    if q == [] {
    } else {
      assert q == q[..|q| - 1] + [q[|q| - 1]];
      SweepAccounts(c, q[..|q| - 1], now);
    }
  }

  /** Where the k-th entry of a queue without i and j stood. */
  function Source(i: nat, j: nat, k: nat): nat {
    if k < i then k else if k < j - 1 then k + 1 else k + 2
  }

  lemma WithoutSource(q: seq<Entry>, i: nat, j: nat)
    requires i < j < |q|
    ensures |Without(q, i, j)| == |q| - 2
    ensures forall k | 0 <= k < |q| - 2 :: Without(q, i, j)[k] == q[Source(i, j, k)]
  {
  }

  lemma WithoutKeeps(q: seq<Entry>, i: nat, j: nat)
    requires i < j < |q|
    ensures UniqueNames(q) ==> UniqueNames(Without(q, i, j))
    ensures InOrder(q) ==> InOrder(Without(q, i, j))
    ensures forall e | e in Without(q, i, j) :: e in q
  {
    WithoutSource(q, i, j);
  }

  lemma WithoutAccounts(q: seq<Entry>, i: nat, j: nat)
    requires i < j < |q|
    ensures multiset(q) == multiset(Without(q, i, j)) + multiset{q[i], q[j]}
  {
    assert q == q[..i] + [q[i]] + q[i + 1..j] + [q[j]] + q[j + 1..];
  }

  lemma PerformKeepsNames(c: Config, h: Hall, k: Command)
    requires c.widenIntervalMs != 0 && UniqueNames(h.queue)
    ensures UniqueNames(Perform(c, h, k).queue)
  {
    match k
    case Join(e) => CancelKeeps(h.queue, e.username); CancelMembers(h.queue, e.username);
    case Leave(u) => CancelKeeps(h.queue, u);
    case Pair(now) =>
      MatchIsFirst(c, h.queue, now);
      if FindMatch(c, h.queue, now).Some? {
        WithoutKeeps(h.queue, FindMatch(c, h.queue, now).value.0, FindMatch(c, h.queue, now).value.1);
      }
    case Expire(now) => SweepKeeps(c, h.queue, now);
  }

  lemma PerformAccounts(c: Config, h: Hall, k: Command)
    requires c.widenIntervalMs != 0 && Accounted(h)
    ensures Accounted(Perform(c, h, k))
  {
    match k
    case Join(e) => CancelAccounts(h.queue, e.username);
    case Leave(u) => CancelAccounts(h.queue, u);
    case Pair(now) =>
      MatchIsFirst(c, h.queue, now);
      if FindMatch(c, h.queue, now).Some? {
        WithoutAccounts(h.queue, FindMatch(c, h.queue, now).value.0, FindMatch(c, h.queue, now).value.1);
      }
    case Expire(now) => SweepAccounts(c, h.queue, now);
  }

  /** Main result: along every run usernames in the queue are unique, and every entry that came in is in exactly
      one place: waiting, matched once, expired once, or withdrawn once. */
  lemma {:induction false} RunAccounts(c: Config, h: Hall, ks: seq<Command>)
    requires c.widenIntervalMs != 0 && UniqueNames(h.queue) && Accounted(h)
    ensures UniqueNames(Run(c, h, ks).queue) && Accounted(Run(c, h, ks))
  {
    if ks == [] {
    } else {
      RunAccounts(c, h, ks[..|ks| - 1]);
      PerformKeepsNames(c, Run(c, h, ks[..|ks| - 1]), ks[|ks| - 1]);
      PerformAccounts(c, Run(c, h, ks[..|ks| - 1]), ks[|ks| - 1]);
    }
  }

  function Clock(ks: seq<Command>, start: int): int {
    if ks == [] then start else
      match ks[|ks| - 1]
      case Join(e) => e.joinedAt
      case Leave(_) => Clock(ks[..|ks| - 1], start)
      case Pair(now) => now
      case Expire(now) => now
  }

  /** The times of the commands never go back. */
  predicate TimesGrow(ks: seq<Command>, start: int) {
    ks == [] || (TimesGrow(ks[..|ks| - 1], start) && Clock(ks[..|ks| - 1], start) <= Clock(ks, start))
  }

  /** Main result: when times never go back, the queue is always in joining order. */
  lemma {:induction false} RunInOrder(c: Config, h: Hall, ks: seq<Command>, start: int)
    requires c.widenIntervalMs != 0 && InOrder(h.queue) && JoinedBy(h.queue, start) && TimesGrow(ks, start)
    ensures InOrder(Run(c, h, ks).queue) && JoinedBy(Run(c, h, ks).queue, Clock(ks, start))
  {
    if ks == [] {
    } else {
      var n := |ks| - 1;
      RunInOrder(c, h, ks[..n], start);
      var q := Run(c, h, ks[..n]).queue;
      match ks[n]
      case Join(e) => CancelKeeps(q, e.username); CancelMembers(q, e.username);
      case Leave(u) => CancelKeeps(q, u); CancelMembers(q, u);
      case Pair(now) =>
        MatchIsFirst(c, q, now);
        if FindMatch(c, q, now).Some? {
          var (i, j) := FindMatch(c, q, now).value;
          WithoutKeeps(q, i, j);
        }
      case Expire(now) => SweepKeeps(c, q, now); SweepMembers(c, q, now);
    }
  }

  /** Main result: then the entries that time out are those at the front of the queue, and a pair suits exactly
      when the window of the one ahead covers the gap. */
  lemma RunInOrderMeans(c: Config, h: Hall, ks: seq<Command>, start: int, now: int)
    requires 0 < c.widenIntervalMs && 0 <= c.widenStep
    requires InOrder(h.queue) && JoinedBy(h.queue, start) && TimesGrow(ks, start)
    ensures TimedOut(c, Run(c, h, ks).queue, now) <= Run(c, h, ks).queue
    ensures forall i: nat, j: nat | i < j < |Run(c, h, ks).queue| ::
              SuitsAt(c, Run(c, h, ks).queue, now, i, j)
              <==> Abs(Run(c, h, ks).queue[i].elo - Run(c, h, ks).queue[j].elo)
                   <= Window(c, Run(c, h, ks).queue[i], now)
  {
    RunInOrder(c, h, ks, start);
    var q := Run(c, h, ks).queue;
    TimedOutPrefix(c, q, now);
    forall i: nat, j: nat | i < j < |q|
      ensures SuitsAt(c, q, now, i, j) <==> Abs(q[i].elo - q[j].elo) <= Window(c, q[i], now)
    {
      EarlierWindowCounts(c, q, now, i, j);
    }
  }
}
