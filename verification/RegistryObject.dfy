/** The two registries as objects. The plain one computes Registry.Apply on its dictionaries, the shared one
    computes Registry.ApplyStore on the store, so that RegistryRefines relates what the two answer. */
module RegistryObject {
  import opened Values
  import opened FlatStore
  import opened Registry

  class ConnectionRegistry {
    var connections: map<string, Socket>
    var loggedIn: map<string, Identity>
    var connToRoom: map<string, string>

    constructor ()
      ensures View() == EMPTY
    {
      connections, loggedIn, connToRoom := map[], map[], map[];
    }

    function View(): Plain
      reads this
    {
      Plain(connections, loggedIn, connToRoom)
    }

    method Register(conn: string, ws: Socket)
      modifies this
      ensures View() == Apply(old(View()), Op.Register(conn, ws))
    {
      connections := connections[conn := ws];
    }

    method Forget(conn: string)
      modifies this
      ensures View() == Apply(old(View()), Op.Forget(conn))
    {
      connections := connections - {conn};
      loggedIn := loggedIn - {conn};
      connToRoom := connToRoom - {conn};
    }

    method MarkLoggedIn(conn: string, username: string, elo: int)
      modifies this
      ensures View() == Apply(old(View()), Op.MarkLoggedIn(conn, username, elo))
    {
      loggedIn := loggedIn[conn := Identity(username, elo)];
    }

    method ForgetLogin(conn: string)
      modifies this
      ensures View() == Apply(old(View()), Op.ForgetLogin(conn))
    {
      loggedIn := loggedIn - {conn};
    }

    method AssignRoom(conn: string, room: string)
      modifies this
      ensures View() == Apply(old(View()), Op.AssignRoom(conn, room))
    {
      connToRoom := connToRoom[conn := room];
    }

    method ForgetRoom(conn: string)
      modifies this
      ensures View() == Apply(old(View()), Op.ForgetRoom(conn))
    {
      connToRoom := connToRoom - {conn};
    }

    function RoomOf(conn: string): Option<string>
      reads this
    {
      if conn in connToRoom then Some(connToRoom[conn]) else None
    }

    method ConnsInRoom(room: string) returns (conns: set<string>)
      ensures conns == InRoom(connToRoom, room)
    {
      conns := set c | c in connToRoom && connToRoom[c] == room;
    }

    /** Deletes the stale entries one by one. */
    method RemoveRoomEntries(room: string)
      modifies this
      ensures View() == Apply(old(View()), Op.RemoveRoomEntries(room))
    {
      var stale := set c | c in connToRoom && connToRoom[c] == room;
      var left := stale;
      ghost var rooms := connToRoom;
      while left != {}
        invariant left <= stale && connToRoom == rooms - (stale - left)
        invariant connections == old(connections) && loggedIn == old(loggedIn)
        decreases |left|
      {
        var c :| c in left;
        connToRoom := connToRoom - {c};
        left := left - {c};
      }
      assert stale == InRoom(rooms, room) && stale - {} == stale;
    }
  }

  /** The server that the processes share. */
  class RedisServer {
    var data: Store<string, string>

    constructor ()
      ensures data == map[]
    {
      data := map[];
    }
  }

  class RedisConnectionRegistry {
    const r: RedisServer
    const prefix: string
    /** The key helpers for this prefix. */
    const keys: Keys<string, string>
    var localWs: map<string, Socket>

    constructor (r: RedisServer, prefix: string)
      requires Typed(RedisKeys(prefix), r.data)
      ensures this.r == r && this.prefix == prefix && keys == RedisKeys(prefix) && localWs == map[] && Valid()
    {
      this.r, this.prefix, keys, localWs := r, prefix, RedisKeys(prefix), map[];
      KeysNeverCollide(prefix);
    }

    ghost predicate Valid()
      reads r
    {
      Apart(keys) && Typed(keys, r.data)
    }

    method Register(conn: string, ws: Socket)
      requires Valid()
      modifies this
      ensures Valid() && r.data == ApplyStore(keys, old(r.data), Op.Register(conn, ws))
      ensures localWs == KeepSockets(old(localWs), Op.Register(conn, ws))
    {
      localWs := localWs[conn := ws];
    }

    /** Takes a connection out of the set of the room it is in. */
    method LeaveRoomSet(conn: string)
      requires Valid()
      modifies r
      ensures r.data == LeaveSet(keys, old(r.data), conn, FlatStore.RoomOf(keys, old(r.data), conn))
    {
      var room := RoomOf(conn);
      if room.Some? {
        r.data := SRem(r.data, keys.conns(room.value), conn);
      }
    }

    method Forget(conn: string)
      requires Valid()
      modifies this, r
      ensures r.data == ApplyStore(keys, old(r.data), Op.Forget(conn))
      ensures localWs == KeepSockets(old(localWs), Op.Forget(conn))
    {
      localWs := localWs - {conn};
      LeaveRoomSet(conn);
      r.data := r.data - {keys.identity(conn), keys.room(conn)};
    }

    method MarkLoggedIn(conn: string, username: string, elo: int)
      requires Valid()
      modifies r
      ensures r.data == ApplyStore(keys, old(r.data), Op.MarkLoggedIn(conn, username, elo))
    {
      r.data := r.data[keys.identity(conn) := Text(Encode(username, elo))];
    }

    method IdentityOf(conn: string) returns (answer: Answer)
      requires Valid()
      ensures answer == Registry.IdentityOf(keys, r.data, conn)
    {
      var val := Get(r.data, keys.identity(conn));
      if val == None {
        return Nobody;
      }
      var identity := Decode(val.value);
      answer := if identity == None then ValueError else Somebody(identity.value);
    }

    method ForgetLogin(conn: string)
      requires Valid()
      modifies r
      ensures r.data == ApplyStore(keys, old(r.data), Op.ForgetLogin(conn))
    {
      r.data := r.data - {keys.identity(conn)};
    }

    method AssignRoom(conn: string, room: string)
      requires Valid()
      modifies r
      ensures r.data == ApplyStore(keys, old(r.data), Op.AssignRoom(conn, room))
    {
      var oldRoom := RoomOf(conn);
      if oldRoom.Some? && oldRoom.value != room {
        r.data := SRem(r.data, keys.conns(oldRoom.value), conn);
      }
      r.data := r.data[keys.room(conn) := Text(room)];
      r.data := SAdd(r.data, keys.conns(room), conn);
    }

    function RoomOf(conn: string): Option<string>
      requires Valid()
      reads r
    {
      Get(r.data, keys.room(conn))
    }

    method ForgetRoom(conn: string)
      requires Valid()
      modifies r
      ensures r.data == ApplyStore(keys, old(r.data), Op.ForgetRoom(conn))
    {
      LeaveRoomSet(conn);
      r.data := r.data - {keys.room(conn)};
    }

    method ConnsInRoom(room: string) returns (conns: set<string>)
      requires Valid()
      ensures conns == SMembers(r.data, keys.conns(room))
    {
      conns := SMembers(r.data, keys.conns(room));
    }

    /** Collects the deletions and executes them together. */
    method RemoveRoomEntries(room: string)
      requires Valid()
      modifies r
      ensures r.data == ApplyStore(keys, old(r.data), Op.RemoveRoomEntries(room))
    {
      var members := SMembers(r.data, keys.conns(room));
      var pipe := CollectRoomKeys(keys, members);
      r.data := r.data - pipe - {keys.conns(room)};
    }
  }

  /** The room keys of some connections, one by one. */
  method CollectRoomKeys(keys: Keys<string, string>, members: set<string>) returns (pipe: set<string>)
    ensures pipe == RoomKeys(keys, members)
  {
    var left := members;
    pipe := {};
    while left != {}
      invariant left <= members && pipe == RoomKeys(keys, members - left)
      decreases |left|
    {
      var c :| c in left;
      pipe := pipe + {keys.room(c)};
      assert members - (left - {c}) == members - left + {c};
      left := left - {c};
    }
    assert members - {} == members;
  }
}
