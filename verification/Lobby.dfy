/** Rooms, connections, disconnect timers and resignations: the server as a state machine over all interleavings
    of joins, disconnects, timer firings, room creations and cancellations. */
module Lobby {
  import opened Values
  import opened Seating
  import Registry

  /** The key of a disconnect timer. */
  datatype Seat = Seat(room: string, username: string)

  datatype Resignation = Resignation(timer: nat, seat: Seat, winner: Option<string>, rated: bool)

  /** `monitors` is the table of the coordinator, `armed` holds every timer that can still fire, by its number.
      `usedRooms` and `closed` record the past: room ids created and connections closed. */
  datatype State = State(
    rooms: map<string, Session>,
    registry: Registry.Plain,
    monitors: map<Seat, nat>,
    armed: map<nat, Seat>,
    nextTimer: nat,
    resignations: seq<Resignation>,
    hasElo: bool,
    usedRooms: set<string>,
    closed: set<string>)

  datatype Step =
    | Create(room: string)
    | Cancel(room: string)
    | Join(conn: string, room: string, username: string)
    | Close(conn: string)
    | Fire(timer: nat)

  // ----- the steps -----

  function CancelRoom(l: State, room: string): State {
    if room !in l.rooms then l
    else l.(rooms := l.rooms - {room}, registry := Registry.Apply(l.registry, Registry.RemoveRoomEntries(room)))
  }

  function Disarm(l: State, seat: Seat): State {
    if seat !in l.monitors then l
    else l.(monitors := l.monitors - {seat}, armed := l.armed - {l.monitors[seat]})
  }

  function Arm(l: State, seat: Seat): State {
    if seat in l.monitors then l
    else l.(monitors := l.monitors[seat := l.nextTimer], armed := l.armed[l.nextTimer := seat],
            nextTimer := l.nextTimer + 1)
  }

  /** A join that turns the session of a room into t; `back` says that a known player came back. */
  function Admit(l: State, conn: string, room: string, username: string, t: Session, back: bool): State {
    var m := l.(registry := Registry.Apply(l.registry, Registry.AssignRoom(conn, room)), rooms := l.rooms[room := t]);
    if back then Disarm(m, Seat(room, username)) else m
  }

  predicate ComesBack(l: State, room: string, username: string)
    requires room in l.rooms
  {
    username != "" && username in l.rooms[room].players
  }

  function HandleJoin(l: State, conn: string, room: string, username: string): State {
    if room !in l.rooms then l
    else Admit(l, conn, room, username, Joined(l.rooms[room], conn, username), ComesBack(l, room, username))
  }

  /** The player whose bound connection this is, in the room the registry has for it. */
  function SeatOf(l: State, conn: string): Option<Seat> {
    if conn !in l.registry.connToRoom then None
    else
      var room := l.registry.connToRoom[conn];
      if room !in l.rooms || conn in l.rooms[room].spectators || conn !in l.rooms[room].connToUser then None
      else Some(Seat(room, l.rooms[room].connToUser[conn]))
  }

  function OnDisconnect(l: State, conn: string): State {
    match SeatOf(l, conn)
    case None => l
    case Some(seat) => Arm(l, seat)
  }

  ghost function AutoResign(l: State, timer: nat, seat: Seat): State {
    var t := l.(monitors := l.monitors - {seat});
    if seat.room !in t.rooms then t
    else
      var winner := Other(t.rooms[seat.room], seat.username);
      CancelRoom(t.(resignations := t.resignations + [Resignation(timer, seat, winner, t.hasElo && winner.Some?)]),
                 seat.room)
  }

  ghost function Next(l: State, step: Step): State {
    match step
    case Create(room) => l.(rooms := l.rooms[room := VACANT], usedRooms := l.usedRooms + {room})
    case Cancel(room) => CancelRoom(l, room)
    case Join(conn, room, username) => HandleJoin(l, conn, room, username)
    case Close(conn) =>
      var t := OnDisconnect(l, conn);
      t.(registry := Registry.Apply(t.registry, Registry.Forget(conn)), closed := l.closed + {conn})
    case Fire(timer) =>
      if timer !in l.armed then l else AutoResign(l.(armed := l.armed - {timer}), timer, l.armed[timer])
  }

  /** A connection that may join a room: it is fresh for the session, and not bound to a player of another room. */
  predicate Joinable(l: State, conn: string, room: string, username: string)
    requires room in l.rooms
  {
    Fresh(l.rooms[room], conn, username) && forall r | r in l.rooms && r != room :: conn !in l.rooms[r].connToUser
  }

  /** Room ids are not reused, an open connection joins a room that exists only when it may (`JoinExactly` shows
      that nothing less will do), and a connection closes once. A join to no room is always allowed. */
  predicate Allowed(l: State, step: Step) {
    match step
    case Create(room) => room !in l.usedRooms
    case Join(conn, room, username) =>
      conn != "" && conn !in l.closed && (room in l.rooms ==> Joinable(l, conn, room, username))
    case Close(conn) => conn !in l.closed
    case _ => true
  }

  // ----- the invariant -----

  ghost predicate RoomsUsed(l: State) {
    forall r | r in l.rooms :: r in l.usedRooms && "" !in l.rooms[r].connToUser
  }

  ghost predicate AllSeated(l: State) {
    forall r | r in l.rooms :: Seated(l.rooms[r])
  }

  /** The registry knows the room of every bound connection that is still open. */
  ghost predicate RoomsKnown(l: State) {
    forall r, c | r in l.rooms && c in l.rooms[r].connToUser && c !in l.closed ::
         c in l.registry.connToRoom && l.registry.connToRoom[c] == r
  }

  /** The table and the timers are each other's inverse: at most one timer per seat, and every timer is in the table. */
  ghost predicate TimersListed(l: State) {
    && (forall k | k in l.monitors :: l.monitors[k] in l.armed && l.armed[l.monitors[k]] == k && k.room in l.usedRooms)
    && (forall i | i in l.armed :: i < l.nextTimer && l.armed[i] in l.monitors && l.monitors[l.armed[i]] == i)
  }

  predicate Gone(l: State, seat: Seat) {
    seat.room in l.rooms && seat.username in l.rooms[seat.room].players
    && l.rooms[seat.room].players[seat.username].connection in l.closed
  }

  /** In a room that exists, a timer is listed for exactly the players whose bound connection is closed. */
  ghost predicate GoneTimed(l: State) {
    forall r, u | r in l.rooms :: Seat(r, u) in l.monitors <==> Gone(l, Seat(r, u))
  }

  ghost predicate ResignedOnce(l: State) {
    && (forall i, j | 0 <= i < j < |l.resignations| :: l.resignations[i].seat.room != l.resignations[j].seat.room)
    && (forall x | x in l.resignations :: x.seat.room in l.usedRooms && x.seat.room !in l.rooms)
  }

  ghost predicate Kept(l: State) {
    RoomsUsed(l) && RoomsKnown(l) && TimersListed(l) && GoneTimed(l) && ResignedOnce(l)
  }

  ghost predicate Consistent(l: State) {
    AllSeated(l) && Kept(l)
  }

  // ----- each step keeps it -----

  lemma CreateKeeps(l: State, room: string)
    requires Kept(l) && room !in l.usedRooms
    ensures Kept(Next(l, Create(room)))
  {
    var t := Next(l, Create(room));
    assert t.rooms[room] == VACANT;
    forall r, u | r in t.rooms ensures Seat(r, u) in t.monitors <==> Gone(t, Seat(r, u)) {
      assert r != room ==> (Seat(r, u) in l.monitors <==> Gone(l, Seat(r, u)));
    }
  }

  lemma CancelKeeps(l: State, room: string)
    requires Kept(l)
    ensures Kept(CancelRoom(l, room))
  {
    var t := CancelRoom(l, room);
    forall r, u | r in t.rooms ensures Seat(r, u) in t.monitors <==> Gone(t, Seat(r, u)) {
      assert Seat(r, u) in l.monitors <==> Gone(l, Seat(r, u));
    }
  }

  /** What one join does to one session, in the terms of the invariant. */
  ghost predicate JoinEffect(s: Session, t: Session, conn: string, username: string) {
    && (forall u | u in t.players :: u in s.players || u == conn || u == username)
    && (forall c | c in t.connToUser :: c in s.connToUser || c == conn)
    && (forall c | c in t.spectators :: c in s.spectators || c == conn)
    && (forall u | u in s.players ::
          u in t.players &&
          t.players[u].connection == if username != "" && u == username then conn else s.players[u].connection)
    && (forall u | u in t.players && u !in s.players :: t.players[u].connection == conn)
  }

  lemma JoinHasEffect(s: Session, conn: string, username: string)
    requires Seated(s) && Fresh(s, conn, username)
    ensures JoinEffect(s, Joined(s, conn, username), conn, username)
  {
    if !(username != "" && username in s.players) && !Full(s) {
      FreshSeat(s, conn, username);
    }
  }

  lemma DisarmKeeps(l: State, seat: Seat)
    requires TimersListed(l)
    ensures TimersListed(Disarm(l, seat))
    ensures forall k :: k in Disarm(l, seat).monitors <==> k in l.monitors && k != seat
  {
  }

  /** A join from the point of view of the timers: only the seat that is taken again is disarmed. */
  lemma AdmitTimers(l: State, conn: string, room: string, username: string, t: Session, back: bool)
    requires TimersListed(l)
    ensures TimersListed(Admit(l, conn, room, username, t, back))
    ensures forall k :: k in Admit(l, conn, room, username, t, back).monitors
                        <==> (k in l.monitors && !(back && k == Seat(room, username)))
  {
    DisarmKeeps(Admit(l, conn, room, username, t, false), Seat(room, username));
  }

  lemma AdmitGone(l: State, conn: string, room: string, username: string, t: Session, seat: Seat)
    requires conn !in l.closed && room in l.rooms && JoinEffect(l.rooms[room], t, conn, username)
    ensures Gone(Admit(l, conn, room, username, t, ComesBack(l, room, username)), seat)
            <==> (Gone(l, seat) && !(ComesBack(l, room, username) && seat == Seat(room, username)))
  {
  }

  lemma AdmitKeepsTimers(l: State, conn: string, room: string, username: string, t: Session)
    requires Kept(l) && conn !in l.closed && room in l.rooms && JoinEffect(l.rooms[room], t, conn, username)
    ensures TimersListed(Admit(l, conn, room, username, t, ComesBack(l, room, username)))
    ensures GoneTimed(Admit(l, conn, room, username, t, ComesBack(l, room, username)))
  {
    var m := Admit(l, conn, room, username, t, ComesBack(l, room, username));
    AdmitTimers(l, conn, room, username, t, ComesBack(l, room, username));
    forall r, u | r in m.rooms ensures Seat(r, u) in m.monitors <==> Gone(m, Seat(r, u)) {
      AdmitGone(l, conn, room, username, t, Seat(r, u));
      assert Seat(r, u) in l.monitors <==> Gone(l, Seat(r, u));
    }
  }

  lemma AdmitKeepsNames(l: State, conn: string, room: string, username: string, t: Session, back: bool)
    requires RoomsUsed(l) && ResignedOnce(l)
    requires conn != "" && room in l.rooms && JoinEffect(l.rooms[room], t, conn, username)
    ensures RoomsUsed(Admit(l, conn, room, username, t, back)) && ResignedOnce(Admit(l, conn, room, username, t, back))
  {
  }

  lemma AdmitKeepsRooms(l: State, conn: string, room: string, username: string, t: Session, back: bool)
    requires RoomsKnown(l) && room in l.rooms && JoinEffect(l.rooms[room], t, conn, username)
    requires forall r | r in l.rooms && r != room :: conn !in l.rooms[r].connToUser
    ensures RoomsKnown(Admit(l, conn, room, username, t, back))
  {
  }

  lemma ArmKeeps(l: State, seat: Seat)
    requires TimersListed(l) && seat.room in l.usedRooms
    ensures TimersListed(Arm(l, seat))
    ensures forall k :: k in Arm(l, seat).monitors <==> k in l.monitors || k == seat
  {
  }

  /** The seat that a closing connection leaves is the only one it is bound to. */
  ghost predicate LeavesOneSeat(l: State, conn: string) {
    forall r, u | r in l.rooms :: SeatOf(l, conn) == Some(Seat(r, u)) <==> BoundTo(l, r, u, conn)
  }

  predicate BoundTo(l: State, r: string, u: string, conn: string)
    requires r in l.rooms
  {
    u in l.rooms[r].players && l.rooms[r].players[u].connection == conn
  }

  lemma SeatedBinds(s: Session, conn: string, u: string)
    requires Seated(s)
    ensures (u in s.players && s.players[u].connection == conn) <==> (conn in s.connToUser && s.connToUser[conn] == u)
    ensures conn in s.connToUser ==> conn !in s.spectators
  {
  }

  lemma ClosingSeat(l: State, conn: string)
    requires Consistent(l) && conn !in l.closed
    ensures LeavesOneSeat(l, conn)
  {
    forall r, u | r in l.rooms ensures SeatOf(l, conn) == Some(Seat(r, u)) <==> BoundTo(l, r, u, conn) {
      assert Seated(l.rooms[r]);
      SeatedBinds(l.rooms[r], conn, u);
    }
  }

  lemma CloseKeepsTimers(l: State, conn: string)
    requires Kept(l) && conn !in l.closed && LeavesOneSeat(l, conn)
    ensures TimersListed(Next(l, Close(conn))) && GoneTimed(Next(l, Close(conn)))
  {
    var t := Next(l, Close(conn));
    var left := SeatOf(l, conn);
    if left.Some? {
      ArmKeeps(l, left.value);
    }
    forall r, u | r in t.rooms ensures Seat(r, u) in t.monitors <==> Gone(t, Seat(r, u)) {
      assert SeatOf(l, conn) == Some(Seat(r, u)) <==> BoundTo(l, r, u, conn);
      assert Seat(r, u) in l.monitors <==> Gone(l, Seat(r, u));
    }
  }

  lemma CloseKeeps(l: State, conn: string)
    requires Kept(l) && conn !in l.closed && LeavesOneSeat(l, conn)
    ensures Kept(Next(l, Close(conn)))
  {
    CloseKeepsTimers(l, conn);
    var t := Next(l, Close(conn));
    assert t.rooms == l.rooms && t.resignations == l.resignations && t.usedRooms == l.usedRooms;
    assert t.registry.connToRoom == l.registry.connToRoom - {conn};
  }

  lemma FireKeeps(l: State, timer: nat)
    requires Kept(l) && timer in l.armed
    ensures Kept(Next(l, Fire(timer)))
  {
    var seat := l.armed[timer];
    var t := l.(armed := l.armed - {timer}, monitors := l.monitors - {seat});
    if seat.room !in l.rooms {
      TimerGone(l, timer, t);
    } else {
      var winner := Other(t.rooms[seat.room], seat.username);
      var r := Resignation(timer, seat, winner, t.hasElo && winner.Some?);
      ResignKeeps(l, timer, Next(l, Fire(timer)), r);
    }
  }

  /** A timer that fires in a room that no longer exists. */
  lemma TimerGone(l: State, timer: nat, t: State)
    requires Kept(l) && timer in l.armed && l.armed[timer].room !in l.rooms
    requires t == l.(armed := l.armed - {timer}, monitors := l.monitors - {l.armed[timer]})
    ensures Kept(t)
  {
    forall r, u | r in t.rooms ensures Seat(r, u) in t.monitors <==> Gone(t, Seat(r, u)) {
      assert Seat(r, u) in l.monitors <==> Gone(l, Seat(r, u));
    }
  }

  /** A timer that fires in an existing room: the room goes with it. */
  lemma ResignKeeps(l: State, timer: nat, t: State, x: Resignation)
    requires Kept(l) && timer in l.armed && l.armed[timer].room in l.rooms && x.seat == l.armed[timer]
    requires t == CancelRoom(l, x.seat.room).(armed := l.armed - {timer}, monitors := l.monitors - {x.seat},
                                              resignations := l.resignations + [x])
    ensures Kept(t)
  {
    CancelKeeps(l, x.seat.room);
    var c := CancelRoom(l, x.seat.room);
    ResignationLogged(c, timer, t, x);
  }

  lemma ResignationLogged(c: State, timer: nat, t: State, x: Resignation)
    requires Kept(c) && timer in c.armed && x.seat == c.armed[timer] && x.seat.room !in c.rooms
    requires forall y | y in c.resignations :: y.seat.room != x.seat.room
    requires t == c.(armed := c.armed - {timer}, monitors := c.monitors - {x.seat},
                     resignations := c.resignations + [x])
    ensures Kept(t)
  {
    TimerGone(c, timer, c.(armed := c.armed - {timer}, monitors := c.monitors - {x.seat}));
  }

  /** A step other than a join leaves the sessions of the rooms it keeps alone. */
  lemma OtherSessions(l: State, step: Step, r: string)
    requires r in Next(l, step).rooms && !(step.Join? && step.room == r) && !(step.Create? && step.room == r)
    ensures r in l.rooms && Next(l, step).rooms[r] == l.rooms[r]
  {
  }

  lemma NextSeated(l: State, step: Step)
    requires Consistent(l) && Allowed(l, step)
    ensures AllSeated(Next(l, step))
  {
    forall r | r in Next(l, step).rooms ensures Seated(Next(l, step).rooms[r]) {
      if step.Join? && step.room == r {
        JoinedThere(l, step.conn, r, step.username);
        JoinExact(l.rooms[r], step.conn, step.username);
      } else if step.Create? && step.room == r {
        assert Seated(VACANT);
      } else {
        OtherSessions(l, step, r);
      }
    }
  }

  lemma JoinedThere(l: State, conn: string, room: string, username: string)
    ensures room in Next(l, Join(conn, room, username)).rooms <==> room in l.rooms
    ensures room in l.rooms ==>
      Next(l, Join(conn, room, username)).rooms[room] == Joined(l.rooms[room], conn, username)
  {
  }

  lemma NextKeeps(l: State, step: Step)
    requires Consistent(l) && Allowed(l, step)
    ensures Consistent(Next(l, step))
  {
    NextSeated(l, step);
    match step
    case Create(room) => CreateKeeps(l, room);
    case Cancel(room) => CancelKeeps(l, room);
    case Join(conn, room, username) =>
      if room in l.rooms {
        JoinHasEffect(l.rooms[room], conn, username);
        var t := Joined(l.rooms[room], conn, username);
        AdmitKeepsNames(l, conn, room, username, t, ComesBack(l, room, username));
        AdmitKeepsRooms(l, conn, room, username, t, ComesBack(l, room, username));
        AdmitKeepsTimers(l, conn, room, username, t);
      }
    case Close(conn) => ClosingSeat(l, conn); CloseKeeps(l, conn);
    case Fire(timer) => if timer in l.armed { FireKeeps(l, timer); }
  }

  /** Main result: a join by an open connection keeps the lobby consistent exactly when it is allowed. */
  lemma JoinExactly(l: State, conn: string, room: string, username: string)
    requires Consistent(l) && conn != "" && conn !in l.closed
    ensures Consistent(Next(l, Join(conn, room, username))) <==> Allowed(l, Join(conn, room, username))
  {
    var t := Next(l, Join(conn, room, username));
    if Allowed(l, Join(conn, room, username)) {
      NextKeeps(l, Join(conn, room, username));
    } else {
      JoinedThere(l, conn, room, username);
      JoinExact(l.rooms[room], conn, username);
      if Fresh(l.rooms[room], conn, username) {
        var r :| r in l.rooms && r != room && conn in l.rooms[r].connToUser;
        BoundElsewhereBreaks(l, conn, room, username, r);
      } else {
        assert room in t.rooms && !Seated(t.rooms[room]);
      }
    }
  }

  /** A connection that joins a second room is forgotten for the first. */
  lemma BoundElsewhereBreaks(l: State, conn: string, room: string, username: string, r: string)
    requires room in l.rooms && r in l.rooms && r != room && conn in l.rooms[r].connToUser && conn !in l.closed
    ensures !RoomsKnown(Next(l, Join(conn, room, username)))
  {
    var t := Next(l, Join(conn, room, username));
    assert t.rooms[r] == l.rooms[r] && t.registry.connToRoom[conn] == room;
  }

  /** A room that is cancelled is gone, with its entries in the registry and nothing else. */
  lemma CancelTells(l: State, room: string, c: string)
    ensures var t := Next(l, Cancel(room));
            && t.rooms == l.rooms - {room}
            && (room in l.rooms ==>
                  && (c in t.registry.connToRoom <==> c in l.registry.connToRoom && l.registry.connToRoom[c] != room)
                  && (c in t.registry.connToRoom ==> t.registry.connToRoom[c] == l.registry.connToRoom[c]))
            && (room !in l.rooms ==> t.registry == l.registry)
            && t.registry.connections == l.registry.connections && t.registry.loggedIn == l.registry.loggedIn
            && t.monitors == l.monitors && t.armed == l.armed && t.resignations == l.resignations
  {
    if room !in l.rooms {
      assert l.rooms - {room} == l.rooms;
    }
  }

  /** A connection that has closed is forgotten, and a connection that joins is registered in its room. */
  lemma RegistryFollows(l: State, conn: string, room: string, username: string)
    ensures var t := Next(l, Close(conn)).registry;
            conn !in t.connToRoom && conn !in t.loggedIn && conn !in t.connections
    ensures room in l.rooms ==>
              conn in Next(l, Join(conn, room, username)).registry.connToRoom
              && Next(l, Join(conn, room, username)).registry.connToRoom[conn] == room
    ensures room !in l.rooms ==> Next(l, Join(conn, room, username)) == l
  {
  }

  // ----- runs -----

  ghost function Run(l: State, steps: seq<Step>): State {
    if steps == [] then l else Next(Run(l, steps[..|steps| - 1]), steps[|steps| - 1])
  }

  /** Every step of the run is one the environment allows where it happens. */
  ghost predicate AllowedRun(l: State, steps: seq<Step>) {
    steps == [] || (AllowedRun(l, steps[..|steps| - 1]) && Allowed(Run(l, steps[..|steps| - 1]), steps[|steps| - 1]))
  }

  ghost predicate Initial(l: State) {
    l.rooms == map[] && l.monitors == map[] && l.armed == map[] && l.resignations == []
  }

  lemma InitialConsistent(l: State)
    requires Initial(l)
    ensures Consistent(l)
  {
  }

  /** Main result: along every allowed interleaving, every session stays seated, there is at most one timer per
      room and player, in an existing room a timer is armed for exactly the players whose bound connection is
      closed, and no room sees more than one resignation. */
  lemma {:induction false} RunConsistent(l: State, steps: seq<Step>)
    requires Consistent(l) && AllowedRun(l, steps)
    ensures Consistent(Run(l, steps))
  {
    if steps == [] {
    } else {
      RunConsistent(l, steps[..|steps| - 1]);
      NextKeeps(Run(l, steps[..|steps| - 1]), steps[|steps| - 1]);
    }
  }

  /** What that means for one player of an existing room. */
  lemma ArmedExactly(l: State, r: string, u: string)
    requires Consistent(l) && r in l.rooms
    ensures (exists i :: i in l.armed && l.armed[i] == Seat(r, u)) <==> Gone(l, Seat(r, u))
    ensures forall i, j | i in l.armed && j in l.armed && l.armed[i] == l.armed[j] :: i == j
  {
    if Gone(l, Seat(r, u)) {
      assert l.monitors[Seat(r, u)] in l.armed;
    }
  }

  // ----- a timer that is disarmed never resigns -----

  ghost predicate Spent(l: State, timer: nat) {
    timer !in l.armed && timer < l.nextTimer
  }

  /** What a step does to the timers: at most a new number is armed, and only an armed timer resigns. */
  lemma TimersAfter(l: State, step: Step)
    ensures l.nextTimer <= Next(l, step).nextTimer
    ensures forall i | i in Next(l, step).armed :: i in l.armed || i == l.nextTimer
    ensures Next(l, step).resignations == l.resignations
         || (step.Fire? && step.timer in l.armed &&
             exists x: Resignation :: x.timer == step.timer && Next(l, step).resignations == l.resignations + [x])
  {
  }

  lemma SpentStays(l: State, step: Step, timer: nat)
    requires Spent(l, timer)
    ensures Spent(Next(l, step), timer)
    ensures forall x | x in Next(l, step).resignations && x.timer == timer :: x in l.resignations
  {
    TimersAfter(l, step);
  }

  lemma {:induction false} SpentForever(l: State, steps: seq<Step>, timer: nat)
    requires Spent(l, timer)
    ensures Spent(Run(l, steps), timer)
    ensures forall x | x in Run(l, steps).resignations && x.timer == timer :: x in l.resignations
  {
    if steps == [] {
    } else {
      SpentForever(l, steps[..|steps| - 1], timer);
      SpentStays(Run(l, steps[..|steps| - 1]), steps[|steps| - 1], timer);
    }
  }

  /** Main result: when a player comes back, the timer that was running for that seat never resigns it, whatever
      happens afterwards. */
  lemma RejoinDisarms(l: State, conn: string, room: string, username: string, steps: seq<Step>, timer: nat)
    requires Consistent(l) && room in l.rooms && username != "" && username in l.rooms[room].players
    requires timer in l.armed && l.armed[timer] == Seat(room, username)
    ensures forall x | x in Run(Next(l, Join(conn, room, username)), steps).resignations && x.timer == timer ::
              x in l.resignations
  {
    var t := Next(l, Join(conn, room, username));
    assert Spent(t, timer);
    SpentForever(t, steps, timer);
  }

  /** Main result: the late close of a connection that no longer is anybody's arms nothing. */
  lemma SupersededCloseIsSilent(l: State, conn: string)
    requires Consistent(l) && conn !in l.closed
    requires forall r, u | r in l.rooms && u in l.rooms[r].players :: l.rooms[r].players[u].connection != conn
    ensures Next(l, Close(conn)).armed == l.armed && Next(l, Close(conn)).monitors == l.monitors
  {
    ClosingSeat(l, conn);
    forall r, u | r in l.rooms ensures SeatOf(l, conn) != Some(Seat(r, u)) {
      assert !BoundTo(l, r, u, conn);
    }
  }

  /** Main result: a timer that fires in an existing room resigns a player whose connection is closed, to the
      opponent if there is one, and removes the room; in any other room it resigns nobody. */
  lemma FireResigns(l: State, timer: nat)
    requires Consistent(l) && timer in l.armed
    ensures var seat := l.armed[timer];
            var t := Next(l, Fire(timer));
            if seat.room in l.rooms then
              && Gone(l, seat) && seat.room !in t.rooms
              && t.resignations == l.resignations +
                 [Resignation(timer, seat, Other(l.rooms[seat.room], seat.username),
                              l.hasElo && |l.rooms[seat.room].players| == MAX_PLAYERS)]
            else t.resignations == l.resignations && t.rooms == l.rooms
  {
    var seat := l.armed[timer];
    if seat.room in l.rooms {
      assert Seat(seat.room, seat.username) in l.monitors;
      OpponentThere(l.rooms[seat.room], seat.username);
    }
  }

  lemma OpponentThere(s: Session, u: string)
    requires Seated(s) && u in s.players
    ensures Other(s, u).Some? <==> |s.players| == MAX_PLAYERS
  {
    var rest := s.players.Keys - {u};
    assert |rest| == |s.players| - 1;
    if Other(s, u).Some? {
      assert Other(s, u).value in rest;
    } else {
      assert rest == {};
    }
  }

  // ----- colors never change -----

  lemma SeatStays(l: State, step: Step, r: string, u: string)
    requires Consistent(l) && Allowed(l, step)
    requires r in l.rooms && u in l.rooms[r].players && r in Next(l, step).rooms
    ensures u in Next(l, step).rooms[r].players
    ensures Next(l, step).rooms[r].players[u].color == l.rooms[r].players[u].color
  {
    if step.Join? && step.room == r {
      JoinKeepsColors(l.rooms[r], step.conn, step.username, u);
      JoinedThere(l, step.conn, r, step.username);
    } else {
      OtherSessions(l, step, r);
    }
  }

  lemma RoomPersists(l: State, step: Step, r: string)
    requires Allowed(l, step) && r in l.usedRooms
    ensures r in Next(l, step).usedRooms && (r in Next(l, step).rooms ==> r in l.rooms)
  {
  }

  lemma {:induction false} RoomPersistsRun(l: State, steps: seq<Step>, r: string)
    requires AllowedRun(l, steps) && r in l.usedRooms
    ensures r in Run(l, steps).usedRooms && (r in Run(l, steps).rooms ==> r in l.rooms)
  {
    if steps == [] {
    } else {
      RoomPersistsRun(l, steps[..|steps| - 1], r);
      RoomPersists(Run(l, steps[..|steps| - 1]), steps[|steps| - 1], r);
    }
  }

  /** Main result: as long as its room exists, a player stays seated with the same color, across any number of
      disconnects and reconnects. */
  lemma {:induction false} ColorForever(l: State, steps: seq<Step>, r: string, u: string)
    requires Consistent(l) && AllowedRun(l, steps)
    requires r in l.rooms && u in l.rooms[r].players && r in Run(l, steps).rooms
    ensures u in Run(l, steps).rooms[r].players
    ensures Run(l, steps).rooms[r].players[u].color == l.rooms[r].players[u].color
  {
    if steps == [] {
    } else {
      var n := |steps| - 1;
      RoomPersistsRun(l, steps[..n], r);
      RoomPersists(Run(l, steps[..n]), steps[n], r);
      RunConsistent(l, steps[..n]);
      ColorForever(l, steps[..n], r, u);
      SeatStays(Run(l, steps[..n]), steps[n], r, u);
    }
  }
}
