/** The connection registry twice: as plain dictionaries, and over a flat store of strings and sets that several
    processes share. */
module Registry {
  import opened Values
  import opened FlatStore
  import Decimal

  type Socket = int

  // ----- plain dictionaries -----

  datatype Identity = Identity(username: string, elo: int)

  datatype Plain = Plain(connections: map<string, Socket>, loggedIn: map<string, Identity>,
                         connToRoom: map<string, string>)

  datatype Op =
    | Register(conn: string, ws: Socket)
    | Forget(conn: string)
    | MarkLoggedIn(conn: string, username: string, elo: int)
    | ForgetLogin(conn: string)
    | AssignRoom(conn: string, room: string)
    | ForgetRoom(conn: string)
    | RemoveRoomEntries(room: string)

  function Apply(p: Plain, op: Op): Plain {
    match op
    case Register(c, ws) => p.(connections := p.connections[c := ws])
    case Forget(c) => Plain(p.connections - {c}, p.loggedIn - {c}, p.connToRoom - {c})
    case MarkLoggedIn(c, u, elo) => p.(loggedIn := p.loggedIn[c := Identity(u, elo)])
    case ForgetLogin(c) => p.(loggedIn := p.loggedIn - {c})
    case AssignRoom(c, r) => p.(connToRoom := p.connToRoom[c := r])
    case ForgetRoom(c) => p.(connToRoom := p.connToRoom - {c})
    case RemoveRoomEntries(r) => p.(connToRoom := p.connToRoom - InRoom(p.connToRoom, r))
  }

  /** Connection x is known in q as it is in p. */
  predicate Alike(p: Plain, q: Plain, x: string) {
    && (x in q.connections <==> x in p.connections) && (x in p.connections ==> q.connections[x] == p.connections[x])
    && (x in q.loggedIn <==> x in p.loggedIn) && (x in p.loggedIn ==> q.loggedIn[x] == p.loggedIn[x])
    && (x in q.connToRoom <==> x in p.connToRoom) && (x in p.connToRoom ==> q.connToRoom[x] == p.connToRoom[x])
  }

  /** What the calls do to the connection they name; every other connection is left alone. */
  lemma ApplyTells(p: Plain, op: Op)
    ensures var q := Apply(p, op);
            match op
            case Register(c, ws) =>
              c in q.connections && q.connections[c] == ws && q.loggedIn == p.loggedIn && q.connToRoom == p.connToRoom
            case Forget(c) => c !in q.connections && c !in q.loggedIn && c !in q.connToRoom
            case MarkLoggedIn(c, u, elo) =>
              c in q.loggedIn && q.loggedIn[c] == Identity(u, elo)
              && q.connections == p.connections && q.connToRoom == p.connToRoom
            case ForgetLogin(c) => c !in q.loggedIn && q.connections == p.connections && q.connToRoom == p.connToRoom
            case AssignRoom(c, r) =>
              c in q.connToRoom && q.connToRoom[c] == r && q.connections == p.connections && q.loggedIn == p.loggedIn
            case ForgetRoom(c) => c !in q.connToRoom && q.connections == p.connections && q.loggedIn == p.loggedIn
            case RemoveRoomEntries(r) =>
              q.connections == p.connections && q.loggedIn == p.loggedIn &&
              forall x :: if x in p.connToRoom && p.connToRoom[x] != r then x in q.connToRoom && Alike(p, q, x)
                          else x !in q.connToRoom
    ensures !op.RemoveRoomEntries? ==> forall x | x != op.conn :: Alike(p, Apply(p, op), x)
  {
  }

  // ----- keys -----

  function KIdentity(prefix: string, conn: string): string {
    prefix + ("conn:" + conn + ":identity")
  }

  function KRoom(prefix: string, conn: string): string {
    prefix + ("conn:" + conn + ":room")
  }

  function KConns(prefix: string, room: string): string {
    prefix + ("room:" + room + ":conns")
  }

  function RedisKeys(prefix: string): Keys<string, string> {
    Keys(c => KIdentity(prefix, c), c => KRoom(prefix, c), r => KConns(prefix, r))
  }

  lemma Middle(prefix: string, before: string, x: string, y: string, after: string)
    requires prefix + (before + x + after) == prefix + (before + y + after)
    ensures x == y
  {
    var s := prefix + (before + x + after);
    assert |x| == |y|;
    assert x == s[|prefix| + |before|..|s| - |after|];
    assert y == s[|prefix| + |before|..|s| - |after|];
  }

  /** What Apart says of one pair of ids. */
  ghost predicate PairApart(k: Keys<string, string>, c: string, d: string) {
    && (k.identity(c) == k.identity(d) || k.room(c) == k.room(d) || k.conns(c) == k.conns(d) ==> c == d)
    && k.identity(c) != k.room(d) && k.identity(c) != k.conns(d) && k.room(c) != k.conns(d)
  }

  lemma ApartPairwise(k: Keys<string, string>)
    requires forall c, d :: PairApart(k, c, d)
    ensures Apart(k)
  {
    forall c, d
      ensures k.identity(c) == k.identity(d) || k.room(c) == k.room(d) || k.conns(c) == k.conns(d) ==> c == d
    {
      assert PairApart(k, c, d);
    }
    forall c, d ensures k.identity(c) != k.room(d) && k.identity(c) != k.conns(d) && k.room(c) != k.conns(d) {
      assert PairApart(k, c, d);
    }
  }

  lemma RedisKeysApart(prefix: string, c: string, d: string)
    ensures PairApart(RedisKeys(prefix), c, d)
  {
    if KIdentity(prefix, c) == KIdentity(prefix, d) { Middle(prefix, "conn:", c, d, ":identity"); }
    if KRoom(prefix, c) == KRoom(prefix, d) { Middle(prefix, "conn:", c, d, ":room"); }
    if KConns(prefix, c) == KConns(prefix, d) { Middle(prefix, "room:", c, d, ":conns"); }
    LastChar(prefix, "conn:" + c + ":identity");
    LastChar(prefix, "conn:" + d + ":room");
    assert KIdentity(prefix, c)[|prefix|] == 'c' && KRoom(prefix, c)[|prefix|] == 'c';
    assert KConns(prefix, d)[|prefix|] == 'r';
  }

  /** Main result about the key formats: whatever the ids contain, no two of them ever produce the same key. */
  lemma KeysNeverCollide(prefix: string)
    ensures Apart(RedisKeys(prefix))
  {
    forall c, d ensures PairApart(RedisKeys(prefix), c, d) {
      RedisKeysApart(prefix, c, d);
    }
    ApartPairwise(RedisKeys(prefix));
  }

  lemma LastChar(prefix: string, s: string)
    requires s != []
    ensures (prefix + s)[|prefix + s| - 1] == s[|s| - 1]
  {
  }

  // ----- identities as text -----

  const SEP: char := '\0'

  function Encode(username: string, elo: int): string {
    username + [SEP] + Decimal.Text(elo)
  }

  /** `val.split(SEP, 1)`: what comes before the first separator and what comes after it. */
  function SplitAt(val: string): Option<(string, string)> {
    if val == [] then None
    else if val[0] == SEP then Some(("", val[1..]))
    else
      match SplitAt(val[1..])
      case None => None
      case Some((a, b)) => Some(([val[0]] + a, b))
  }

  /** None stands for the ValueError of unpacking or of `int`. */
  function Decode(val: string): Option<Identity> {
    match SplitAt(val)
    case None => None
    case Some((u, rest)) => if Decimal.Read(rest) == None then None else Some(Identity(u, Decimal.Read(rest).value))
  }

  lemma {:induction false} SplitFirst(u: string, rest: string)
    requires SEP !in u
    ensures SplitAt(u + [SEP] + rest) == Some((u, rest))
  {
    var val := u + [SEP] + rest;
    if u == [] {
      assert val[1..] == rest;
    } else {
      assert val[1..] == u[1..] + [SEP] + rest;
      SplitFirst(u[1..], rest);
      assert [u[0]] + u[1..] == u;
    }
  }

  lemma {:induction false} SplitEarly(u: string, v: string)
    requires SEP in u
    ensures var r := SplitAt(u + v);
            r.Some? && exists a: string, b: string :: SEP !in a && u == a + [SEP] + b && r.value == (a, b + v)
  {
    if u[0] == SEP {
      assert u == [] + [SEP] + u[1..] && (u + v)[1..] == u[1..] + v;
      assert SEP !in "";
    } else {
      assert (u + v)[1..] == u[1..] + v && u == [u[0]] + u[1..];
      SplitEarly(u[1..], v);
      var a: string, b: string :| SEP !in a && u[1..] == a + [SEP] + b && SplitAt(u[1..] + v).value == (a, b + v);
      assert u == ([u[0]] + a) + [SEP] + b;
    }
  }

  lemma NulRaises(username: string, elo: int)
    requires SEP in username
    ensures Decode(Encode(username, elo)) == None
  {
    var tail := [SEP] + Decimal.Text(elo);
    assert Encode(username, elo) == username + tail;
    SplitEarly(username, tail);
    var rest := SplitAt(username + tail).value.1;
    var a: string, b: string :| SEP !in a && username == a + [SEP] + b
        && SplitAt(username + tail).value == (a, b + tail);
    assert rest[|b|] == SEP;
    Decimal.ForeignText(rest, |b|);
  }

  /** Main result about identities: what was stored is read back exactly when the username has no NUL in it;
      otherwise reading raises. */
  lemma IdentityExact(username: string, elo: int)
    ensures Decode(Encode(username, elo)) == if '\0' in username then None else Some(Identity(username, elo))
  {
    if SEP in username {
      NulRaises(username, elo);
    } else {
      SplitFirst(username, Decimal.Text(elo));
      Decimal.RoundTrip(elo);
    }
  }

  // ----- refinement -----

  function Encoded(l: map<string, Identity>): map<string, string> {
    map c | c in l :: Encode(l[c].username, l[c].elo)
  }

  /** The store represents the dictionaries of p. */
  ghost predicate Represents(k: Keys<string, string>, s: Store<string, string>, p: Plain) {
    Agrees(k, s, Encoded(p.loggedIn), p.connToRoom, p.connToRoom)
  }

  ghost function ApplyStore(k: Keys<string, string>, s: Store<string, string>, op: Op): Store<string, string>
    requires Apart(k) && Typed(k, s)
  {
    match op
    case Register(_, _) => s
    case Forget(c) => FlatStore.Forget(k, s, c)
    case MarkLoggedIn(c, u, elo) => s[k.identity(c) := Text(Encode(u, elo))]
    case ForgetLogin(c) => s - {k.identity(c)}
    case AssignRoom(c, r) => FlatStore.AssignRoom(k, s, c, r)
    case ForgetRoom(c) => FlatStore.ForgetRoom(k, s, c)
    case RemoveRoomEntries(r) => RemoveRoom(k, s, r)
  }

  lemma EncodedUpdates(l: map<string, Identity>, c: string, u: string, elo: int)
    ensures Encoded(l - {c}) == Encoded(l) - {c}
    ensures Encoded(l[c := Identity(u, elo)]) == Encoded(l)[c := Encode(u, elo)]
  {
  }

  lemma StepRepresents(k: Keys<string, string>, s: Store<string, string>, p: Plain, op: Op)
    requires Apart(k) && Represents(k, s, p)
    ensures Represents(k, ApplyStore(k, s, op), Apply(p, op))
  {
    var texts, rooms := Encoded(p.loggedIn), p.connToRoom;
    match op
    case Register(_, _) =>
    case Forget(c) => ForgetAgrees(k, s, texts, rooms, c); EncodedUpdates(p.loggedIn, c, "", 0);
    case MarkLoggedIn(c, u, elo) =>
      SetTextAgrees(k, s, texts, rooms, c, Encode(u, elo));
      EncodedUpdates(p.loggedIn, c, u, elo);
    case ForgetLogin(c) => DropTextAgrees(k, s, texts, rooms, c); EncodedUpdates(p.loggedIn, c, "", 0);
    case AssignRoom(c, r) => AssignAgrees(k, s, texts, rooms, c, r);
    case ForgetRoom(c) => ForgetAgrees(k, s, texts, rooms, c);
    case RemoveRoomEntries(r) => RemoveRoomAgrees(k, s, texts, rooms, r);
  }

  // ----- runs through any number of instances -----

  /** A call made through one of the instances that share the store. */
  datatype Call = Call(site: nat, op: Op)

  function KeepSockets(sockets: map<string, Socket>, op: Op): map<string, Socket> {
    match op
    case Register(c, ws) => sockets[c := ws]
    case Forget(c) => sockets - {c}
    case _ => sockets
  }

  ghost function RunPlain(p: Plain, ops: seq<Op>): Plain {
    if ops == [] then p else Apply(RunPlain(p, ops[..|ops| - 1]), ops[|ops| - 1])
  }

  ghost function Through(calls: seq<Call>): seq<Op> {
    if calls == [] then [] else Through(calls[..|calls| - 1]) + [calls[|calls| - 1].op]
  }

  /** The calls made through one instance. */
  ghost function ThroughSite(calls: seq<Call>, site: nat): seq<Op> {
    if calls == [] then [] else
      var n := |calls| - 1;
      if calls[n].site == site then ThroughSite(calls[..n], site) + [calls[n].op] else ThroughSite(calls[..n], site)
  }

  const EMPTY: Plain := Plain(map[], map[], map[])

  /** The store after a sequence of calls from the empty store: which instance makes a call does not matter to it. */
  ghost function RunStore(k: Keys<string, string>, calls: seq<Call>): (s: Store<string, string>)
    requires Apart(k)
    ensures Represents(k, s, RunPlain(EMPTY, Through(calls)))
  {
    if calls == [] then
      EmptyAgrees(k);
      assert Encoded(map[]) == map[];
      map[]
    else
      var n := |calls| - 1;
      var before := RunStore(k, calls[..n]);
      StepRepresents(k, before, RunPlain(EMPTY, Through(calls[..n])), calls[n].op);
      assert Through(calls)[..|Through(calls)| - 1] == Through(calls[..n]);
      ApplyStore(k, before, calls[n].op)
  }

  /** The sockets that one instance keeps for itself. */
  function RunSockets(calls: seq<Call>, site: nat): map<string, Socket> {
    if calls == [] then map[] else
      var n := |calls| - 1;
      var before := RunSockets(calls[..n], site);
      if calls[n].site == site then KeepSockets(before, calls[n].op) else before
  }

  /** What `identity_of` answers: nobody, somebody, or a ValueError. */
  datatype Answer = Nobody | Somebody(identity: Identity) | ValueError

  function IdentityOf(k: Keys<string, string>, s: Store<string, string>, conn: string): Answer
    requires TextAt(s, k.identity(conn))
  {
    match Get(s, k.identity(conn))
    case None => Nobody
    case Some(val) => if Decode(val) == None then ValueError else Somebody(Decode(val).value)
  }

  lemma IdentityMeans(k: Keys<string, string>, s: Store<string, string>, p: Plain, c: string)
    requires Represents(k, s, p)
    ensures IdentityOf(k, s, c) == if c !in p.loggedIn then Nobody
                                   else if SEP in p.loggedIn[c].username then ValueError
                                   else Somebody(p.loggedIn[c])
  {
    if c in p.loggedIn {
      IdentityExact(p.loggedIn[c].username, p.loggedIn[c].elo);
    }
  }

  /** All queries answer as those of the dictionaries, except that an identity whose username contains NUL raises. */
  ghost predicate Answers(k: Keys<string, string>, s: Store<string, string>, p: Plain)
    requires Typed(k, s)
  {
    && (forall c :: RoomOf(k, s, c) == if c in p.connToRoom then Some(p.connToRoom[c]) else None)
    && (forall r :: SMembers(s, k.conns(r)) == InRoom(p.connToRoom, r))
    && (forall c :: IdentityOf(k, s, c) == if c !in p.loggedIn then Nobody
                                           else if SEP in p.loggedIn[c].username then ValueError
                                           else Somebody(p.loggedIn[c]))
  }

  /** Main result: after any sequence of calls made through any number of instances, the index is exact and every
      query answers as the plain registry does. */
  lemma RegistryRefines(prefix: string, calls: seq<Call>)
    ensures Apart(RedisKeys(prefix))
    ensures Indexed(RedisKeys(prefix), RunStore(RedisKeys(prefix), calls))
    ensures Answers(RedisKeys(prefix), RunStore(RedisKeys(prefix), calls), RunPlain(EMPTY, Through(calls)))
  {
    KeysNeverCollide(prefix);
    var k := RedisKeys(prefix);
    Refines(k, RunStore(k, calls), RunPlain(EMPTY, Through(calls)));
  }

  lemma Refines(k: Keys<string, string>, s: Store<string, string>, p: Plain)
    requires Represents(k, s, p)
    ensures Indexed(k, s) && Answers(k, s, p)
  {
    AgreesIndexed(k, s, Encoded(p.loggedIn), p.connToRoom);
    forall c ensures IdentityOf(k, s, c) == if c !in p.loggedIn then Nobody
                                            else if SEP in p.loggedIn[c].username then ValueError
                                            else Somebody(p.loggedIn[c])
    {
      IdentityMeans(k, s, p, c);
    }
  }

  /** Main result about sockets: each instance knows exactly the sockets a plain registry would know that saw only
      the calls made through that instance. */
  lemma {:induction false} SocketsAreLocal(calls: seq<Call>, site: nat)
    ensures RunSockets(calls, site) == RunPlain(EMPTY, ThroughSite(calls, site)).connections
  {
    if calls == [] {
    } else {
      var n := |calls| - 1;
      SocketsAreLocal(calls[..n], site);
      var ops := ThroughSite(calls[..n], site);
      assert (ops + [calls[n].op])[..|ops|] == ops;
      ApplySockets(RunPlain(EMPTY, ops), calls[n].op);
    }
  }

  lemma ApplySockets(p: Plain, op: Op)
    ensures Apply(p, op).connections == KeepSockets(p.connections, op)
  {
  }
}
