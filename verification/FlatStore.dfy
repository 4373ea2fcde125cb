/** The room index over a flat store of texts and sets, for any key format that keeps its keys apart. */
module FlatStore {
  import opened Values

  datatype Entry<T> = Text(text: T) | Members(members: set<T>)

  type Store<K, T> = map<K, Entry<T>>

  // ----- the commands of the store -----

  /** Without these, GET and the set commands raise WRONGTYPE. */
  predicate TextAt<K, T>(s: Store<K, T>, key: K) {
    key in s ==> s[key].Text?
  }

  predicate SetAt<K, T>(s: Store<K, T>, key: K) {
    key in s ==> s[key].Members?
  }

  function Get<K, T>(s: Store<K, T>, key: K): Option<T>
    requires TextAt(s, key)
  {
    if key in s then Some(s[key].text) else None
  }

  /** A missing set is empty. */
  function SMembers<K, T>(s: Store<K, T>, key: K): set<T>
    requires SetAt(s, key)
  {
    if key in s then s[key].members else {}
  }

  function SAdd<K, T(==)>(s: Store<K, T>, key: K, member: T): Store<K, T>
    requires SetAt(s, key)
  {
    s[key := Members(SMembers(s, key) + {member})]
  }

  /** A set that becomes empty is deleted. */
  function SRem<K(==), T(==)>(s: Store<K, T>, key: K, member: T): Store<K, T>
    requires SetAt(s, key)
  {
    var left := SMembers(s, key) - {member};
    if left == {} then s - {key} else s[key := Members(left)]
  }

  // ----- the keys of the registry -----

  /** The three key helpers. */
  datatype Keys<!K, !T> = Keys(identity: T -> K, room: T -> K, conns: T -> K)

  /** Different ids, or different helpers, give different keys. */
  ghost predicate Apart<K, T(!new)>(k: Keys<K, T>) {
    && (forall c, d | k.identity(c) == k.identity(d) :: c == d)
    && (forall c, d | k.room(c) == k.room(d) :: c == d)
    && (forall r, s | k.conns(r) == k.conns(s) :: r == s)
    && (forall c, d :: k.identity(c) != k.room(d))
    && (forall c, r :: k.identity(c) != k.conns(r))
    && (forall c, r :: k.room(c) != k.conns(r))
  }

  /** The keys of the registry hold the type its commands expect. */
  ghost predicate Typed<K, T(!new)>(k: Keys<K, T>, s: Store<K, T>) {
    && (forall c :: TextAt(s, k.identity(c)) && TextAt(s, k.room(c)))
    && (forall r :: SetAt(s, k.conns(r)))
  }

  // ----- the operations of the registry -----

  function RoomOf<K, T>(k: Keys<K, T>, s: Store<K, T>, conn: T): Option<T>
    requires TextAt(s, k.room(conn))
  {
    Get(s, k.room(conn))
  }

  /** Takes a connection out of the set of a room, if there is one. */
  function LeaveSet<K(==), T(==)>(k: Keys<K, T>, s: Store<K, T>, conn: T, room: Option<T>): Store<K, T>
    requires room.Some? ==> SetAt(s, k.conns(room.value))
  {
    if room.None? then s else SRem(s, k.conns(room.value), conn)
  }

  ghost function ForgetRoom<K, T(!new)>(k: Keys<K, T>, s: Store<K, T>, c: T): Store<K, T>
    requires Typed(k, s)
  {
    LeaveSet(k, s, c, RoomOf(k, s, c)) - {k.room(c)}
  }

  ghost function Forget<K, T(!new)>(k: Keys<K, T>, s: Store<K, T>, c: T): Store<K, T>
    requires Typed(k, s)
  {
    LeaveSet(k, s, c, RoomOf(k, s, c)) - {k.identity(c), k.room(c)}
  }

  ghost function AssignRoom<K, T(!new)>(k: Keys<K, T>, s: Store<K, T>, c: T, r: T): Store<K, T>
    requires Apart(k) && Typed(k, s)
  {
    var from := RoomOf(k, s, c);
    var left := if from.Some? && from.value != r then LeaveSet(k, s, c, from) else s;
    SAdd(left[k.room(c) := Text(r)], k.conns(r), c)
  }

  function RoomKeys<K(==), T>(k: Keys<K, T>, conns: set<T>): set<K> {
    set c | c in conns :: k.room(c)
  }

  ghost function RemoveRoom<K, T(!new)>(k: Keys<K, T>, s: Store<K, T>, r: T): Store<K, T>
    requires Typed(k, s)
  {
    s - RoomKeys(k, SMembers(s, k.conns(r))) - {k.conns(r)}
  }

  // ----- the index stays exact -----

  function InRoom<T(==)>(rooms: map<T, T>, room: T): set<T> {
    set c | c in rooms && rooms[c] == room
  }

  /** The store agrees with `texts` about identities, with `rooms` about rooms, and with `sets` about who is in
      which room. */
  ghost predicate Agrees<K, T(!new)>(k: Keys<K, T>, s: Store<K, T>, texts: map<T, T>, rooms: map<T, T>,
                                               sets: map<T, T>) {
    && Typed(k, s)
    && (forall c :: Get(s, k.identity(c)) == if c in texts then Some(texts[c]) else None)
    && (forall c :: Get(s, k.room(c)) == if c in rooms then Some(rooms[c]) else None)
    && (forall r :: SMembers(s, k.conns(r)) == InRoom(sets, r))
  }

  /** The room-to-connections index: the members of a room's set are exactly the connections whose room key names it. */
  ghost predicate Indexed<K, T(!new)>(k: Keys<K, T>, s: Store<K, T>)
    requires Typed(k, s)
  {
    forall r, c :: c in SMembers(s, k.conns(r)) <==> Get(s, k.room(c)) == Some(r)
  }

  lemma AgreesIndexed<K, T(!new)>(k: Keys<K, T>, s: Store<K, T>, texts: map<T, T>, rooms: map<T, T>)
    requires Agrees(k, s, texts, rooms, rooms)
    ensures Indexed(k, s)
  {
    forall r, c ensures c in SMembers(s, k.conns(r)) <==> Get(s, k.room(c)) == Some(r) {
      assert SMembers(s, k.conns(r)) == InRoom(rooms, r);
    }
  }

  lemma EmptyAgrees<K, T(!new)>(k: Keys<K, T>)
    ensures Agrees(k, map[], map[], map[], map[])
  {
  }

  lemma LeaveAgrees<K, T(!new)>(k: Keys<K, T>, s: Store<K, T>, texts: map<T, T>, rooms: map<T, T>, c: T)
    requires Apart(k) && Agrees(k, s, texts, rooms, rooms)
    ensures Agrees(k, LeaveSet(k, s, c, RoomOf(k, s, c)), texts, rooms, rooms - {c})
  {
  }

  lemma DropRoomAgrees<K, T(!new)>(k: Keys<K, T>, s: Store<K, T>, texts: map<T, T>, rooms: map<T, T>, sets: map<T, T>,
                                           c: T)
    requires Apart(k) && Agrees(k, s, texts, rooms, sets)
    ensures Agrees(k, s - {k.room(c)}, texts, rooms - {c}, sets)
  {
  }

  lemma DropTextAgrees<K, T(!new)>(k: Keys<K, T>, s: Store<K, T>, texts: map<T, T>, rooms: map<T, T>, c: T)
    requires Apart(k) && Agrees(k, s, texts, rooms, rooms)
    ensures Agrees(k, s - {k.identity(c)}, texts - {c}, rooms, rooms)
  {
  }

  lemma SetTextAgrees<K, T(!new)>(k: Keys<K, T>, s: Store<K, T>, texts: map<T, T>, rooms: map<T, T>, c: T, text: T)
    requires Apart(k) && Agrees(k, s, texts, rooms, rooms)
    ensures Agrees(k, s[k.identity(c) := Text(text)], texts[c := text], rooms, rooms)
  {
  }

  lemma SetRoomAgrees<K, T(!new)>(k: Keys<K, T>, s: Store<K, T>, texts: map<T, T>, rooms: map<T, T>, sets: map<T, T>,
                                          c: T, r: T)
    requires Apart(k) && Agrees(k, s, texts, rooms, sets)
    ensures Agrees(k, s[k.room(c) := Text(r)], texts, rooms[c := r], sets)
  {
  }

  lemma AddAgrees<K, T(!new)>(k: Keys<K, T>, s: Store<K, T>, texts: map<T, T>, rooms: map<T, T>, sets: map<T, T>,
                                      c: T, r: T)
    requires Apart(k) && Agrees(k, s, texts, rooms, sets) && (c in sets ==> sets[c] == r)
    ensures Agrees(k, SAdd(s, k.conns(r), c), texts, rooms, sets[c := r])
  {
    forall x ensures InRoom(sets[c := r], x) == if x == r then InRoom(sets, x) + {c} else InRoom(sets, x) {
    }
  }

  lemma ForgetAgrees<K, T(!new)>(k: Keys<K, T>, s: Store<K, T>, texts: map<T, T>, rooms: map<T, T>, c: T)
    requires Apart(k) && Agrees(k, s, texts, rooms, rooms)
    ensures Agrees(k, ForgetRoom(k, s, c), texts, rooms - {c}, rooms - {c})
    ensures Agrees(k, Forget(k, s, c), texts - {c}, rooms - {c}, rooms - {c})
  {
    var left := LeaveSet(k, s, c, RoomOf(k, s, c));
    LeaveAgrees(k, s, texts, rooms, c);
    DropRoomAgrees(k, left, texts, rooms, rooms - {c}, c);
    DropTextAgrees(k, left - {k.room(c)}, texts, rooms - {c}, c);
    assert left - {k.room(c)} - {k.identity(c)} == left - {k.identity(c), k.room(c)};
  }

  lemma AssignAgrees<K, T(!new)>(k: Keys<K, T>, s: Store<K, T>, texts: map<T, T>, rooms: map<T, T>, c: T, r: T)
    requires Apart(k) && Agrees(k, s, texts, rooms, rooms)
    ensures Agrees(k, AssignRoom(k, s, c, r), texts, rooms[c := r], rooms[c := r])
  {
    var from := RoomOf(k, s, c);
    var moves := from.Some? && from.value != r;
    var left := if moves then LeaveSet(k, s, c, from) else s;
    var sets := if moves then rooms - {c} else rooms;
    LeaveAgrees(k, s, texts, rooms, c);
    SetRoomAgrees(k, left, texts, rooms, sets, c, r);
    AddAgrees(k, left[k.room(c) := Text(r)], texts, rooms[c := r], sets, c, r);
    assert sets[c := r] == rooms[c := r];
  }

  lemma RemoveRoomAgrees<K, T(!new)>(k: Keys<K, T>, s: Store<K, T>, texts: map<T, T>, rooms: map<T, T>, r: T)
    requires Apart(k) && Agrees(k, s, texts, rooms, rooms)
    ensures Agrees(k, RemoveRoom(k, s, r), texts, rooms - InRoom(rooms, r), rooms - InRoom(rooms, r))
  {
    var gone := InRoom(rooms, r);
    assert SMembers(s, k.conns(r)) == gone;
    assert forall c :: k.room(c) in RoomKeys(k, gone) <==> c in gone;
    forall x ensures InRoom(rooms - gone, x) == if x == r then {} else InRoom(rooms, x) {
    }
  }
}
