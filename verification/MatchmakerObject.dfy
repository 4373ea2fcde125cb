/** The matchmaker as an object. Every method is proved to compute the corresponding function of Matchmaking. */
module MatchmakerObject {
  import opened Values
  import opened Matchmaking

  datatype MatchResult = MatchResult(entryA: Entry, entryB: Entry)

  class Matchmaker {
    const config: Config
    var queue: seq<Entry>

    constructor (config: Config)
      ensures this.config == config && queue == []
    {
      this.config, queue := config, [];
    }

    method CancelEntry(username: string) returns (present: bool)
      modifies this
      ensures queue == Cancel(old(queue), username)
      ensures present <==> exists e :: e in old(queue) && e.username == username
    {
      var kept: seq<Entry> := [];
      for k := 0 to |queue|
        invariant queue == old(queue) && kept == Cancel(queue[..k], username)
        invariant |kept| <= k && (|kept| < k <==> exists i :: 0 <= i < k && queue[i].username == username)
      {
        assert queue[..k + 1][..k] == queue[..k];
        if queue[k].username != username {
          kept := kept + [queue[k]];
        }
      }
      assert queue[..|queue|] == queue;
      present := |kept| < |queue|;
      queue := kept;
    }

    method EnqueueEntry(username: string, elo: int, connId: string, joinedAt: int)
      modifies this
      ensures queue == Enqueue(old(queue), Entry(username, elo, connId, joinedAt))
    {
      var _ := CancelEntry(username);
      queue := queue + [Entry(username, elo, connId, joinedAt)];
    }

    /** The inner loop: the first partner of entry i from column i + 1 on. */
    method PartnerOf(i: nat, now: int) returns (partner: Option<nat>)
      requires config.widenIntervalMs != 0 && i < |queue|
      ensures partner.Some? ==>
                i < partner.value < |queue| && Scan(config, queue, now, i, i + 1) == Some((i, partner.value))
      ensures partner == None ==> Scan(config, queue, now, i, i + 1) == Scan(config, queue, now, i + 1, i + 2)
    {
      var a := queue[i];
      var rangeA := Window(config, a, now);
      for j := i + 1 to |queue|
        invariant Scan(config, queue, now, i, i + 1) == Scan(config, queue, now, i, j)
      {
        var b := queue[j];
        var rangeB := Window(config, b, now);
        if Abs(a.elo - b.elo) <= Max(rangeA, rangeB) {
          return Some(j);
        }
      }
      return None;
    }

    /** `ok` is false where the program divides by zero: with a widening interval of 0 and anybody in the queue. */
    method FindMatchNow(now: int) returns (ok: bool, result: Option<MatchResult>)
      modifies this
      ensures ok <==> config.widenIntervalMs != 0 || old(queue) == []
      ensures result == None ==> queue == old(queue)
      ensures config.widenIntervalMs == 0 ==> result == None
      ensures config.widenIntervalMs != 0 ==> (result == None <==> FindMatch(config, old(queue), now) == None)
      ensures config.widenIntervalMs != 0 && result.Some? ==>
        var (i, j) := FindMatch(config, old(queue), now).value;
        i < j < |old(queue)| && result.value == MatchResult(old(queue)[i], old(queue)[j])
          && queue == Without(old(queue), i, j)
    {
      for i := 0 to |queue|
        invariant queue == old(queue) && (0 < i ==> config.widenIntervalMs != 0)
        invariant config.widenIntervalMs != 0 ==> Scan(config, queue, now, 0, 1) == Scan(config, queue, now, i, i + 1)
      {
        if config.widenIntervalMs == 0 {
          return false, None;
        }
        var partner := PartnerOf(i, now);
        if partner.Some? {
          var j := partner.value;
          result := Some(MatchResult(queue[i], queue[j]));
          queue := Dropped(queue, i, j);
          return true, result;
        }
      }
      return true, None;
    }

    method SweepTimeouts(now: int) returns (timedOut: seq<Entry>)
      modifies this
      ensures timedOut == TimedOut(config, old(queue), now) && queue == Waiting(config, old(queue), now)
    {
      timedOut := [];
      var waiting: seq<Entry> := [];
      for k := 0 to |queue|
        invariant queue == old(queue)
        invariant timedOut == TimedOut(config, queue[..k], now) && waiting == Waiting(config, queue[..k], now)
      {
        assert queue[..k + 1][..k] == queue[..k];
        if now - queue[k].joinedAt >= config.timeoutMs {
          timedOut := timedOut + [queue[k]];
        } else {
          waiting := waiting + [queue[k]];
        }
      }
      assert queue[..|queue|] == queue;
      queue := waiting;
    }
  }

  /** The entries at all indices but i and j. */
  function Dropped(q: seq<Entry>, i: nat, j: nat): (r: seq<Entry>)
    requires i < j < |q|
    ensures r == Without(q, i, j)
  {
    DroppedIsWithout(q, |q|, i, j);
    assert q[..|q|] == q;
    DroppedFrom(q, |q|, i, j)
  }

  function DroppedFrom(q: seq<Entry>, n: nat, i: nat, j: nat): seq<Entry>
    requires n <= |q|
  {
    if n == 0 then []
    else if n - 1 == i || n - 1 == j then DroppedFrom(q, n - 1, i, j)
    else DroppedFrom(q, n - 1, i, j) + [q[n - 1]]
  }

  lemma {:induction false} DroppedIsWithout(q: seq<Entry>, n: nat, i: nat, j: nat)
    requires i < j && n <= |q|
    ensures DroppedFrom(q, n, i, j) ==
            if n <= i then q[..n] else if n <= j then q[..i] + q[i + 1..n] else q[..i] + q[i + 1..j] + q[j + 1..n]
  {
    if n == 0 {
    } else {
      DroppedIsWithout(q, n - 1, i, j);
      assert q[..n] == q[..n - 1] + [q[n - 1]];
      assert i + 1 < n ==> q[i + 1..n] == q[i + 1..n - 1] + [q[n - 1]];
      assert j + 1 < n ==> q[j + 1..n] == q[j + 1..n - 1] + [q[n - 1]];
    }
  }
}
