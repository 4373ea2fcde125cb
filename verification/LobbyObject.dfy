/** Rooms, disconnect timers and the coordinator of disconnects as objects. With a ghost state of Lobby that they
    mirror, joins, disconnects and firing timers are proved to take the steps of Lobby. */
module LobbyObject {
  import opened Values
  import opened Seating
  import opened Lobby
  import opened EngineObject
  import opened SessionObject
  import opened RegistryObject
  import Registry

  // ----- timers -----

  /** A one-shot timer. `task` is None before start and after cancel, and says otherwise whether it has run. */
  class DisconnectMonitor {
    const seat: Seat
    /** The position of this timer among all that were created. */
    ghost const number: nat
    var task: Option<bool>

    constructor (seat: Seat, ghost number: nat)
      ensures this.seat == seat && this.number == number && task == None
    {
      this.seat, this.number, task := seat, number, None;
    }

    predicate Armed()
      reads this
    {
      task == Some(false)
    }

    method Start()
      modifies this
      ensures task == if old(task) == None then Some(false) else old(task)
    {
      if task == None {
        task := Some(false);
      }
    }

    method Cancel()
      modifies this
      ensures task == None
    {
      if task.Some? {
        task := None;
      }
    }
  }

  /** The part of a state that a table of timers holds. */
  datatype TimerState = Timers(monitors: map<Seat, nat>, armed: map<nat, Seat>, nextTimer: nat)

  function TimersOf(l: State): TimerState {
    Timers(l.monitors, l.armed, l.nextTimer)
  }

  /** The table of the coordinator. The room manager pops from it when a player comes back. */
  class MonitorTable {
    var monitors: map<Seat, DisconnectMonitor>
    /** Every timer ever created, by number. */
    ghost var all: seq<DisconnectMonitor>

    constructor ()
      ensures monitors == map[] && all == [] && Valid()
    {
      monitors, all := map[], [];
    }

    ghost predicate Valid()
      reads this
    {
      && (forall i | 0 <= i < |all| :: all[i].number == i)
      && (forall k | k in monitors :: monitors[k].number < |all| && all[monitors[k].number] == monitors[k])
    }

    /** The timer that is listed for a seat, if there is one. */
    ghost function Listed(seat: Seat): set<DisconnectMonitor>
      reads this
    {
      if seat in monitors then {monitors[seat]} else {}
    }

    ghost function Table(): map<Seat, nat>
      reads this
    {
      map k | k in monitors :: monitors[k].number
    }

    ghost function Running(): map<nat, Seat>
      reads this, all
    {
      map i | 0 <= i < |all| && all[i].Armed() :: all[i].seat
    }

    /** The timers of a state of the lobby. */
    ghost predicate Shows(l: State)
      reads this, all
    {
      Valid() && TimersOf(l) == Timers(Table(), Running(), |all|)
    }

    lemma ShowsToo(l: State, next: State)
      requires Shows(l) && TimersOf(next) == TimersOf(l)
      ensures Shows(next)
    {
    }

    /** Pops the timer of a player that came back and cancels it. */
    method PopAndCancel(seat: Seat, ghost l: State)
      requires Shows(l)
      modifies this, Listed(seat)
      ensures all == old(all) && Shows(Disarm(l, seat))
    {
      if seat in monitors {
        var monitor := monitors[seat];
        assert monitor == all[monitor.number];
        monitors := monitors - {seat};
        monitor.Cancel();
        assert Running() == l.armed - {monitor.number};
      }
    }

    method ArmNew(seat: Seat, ghost l: State)
      requires Shows(l)
      modifies this
      ensures old(all) <= all && Shows(Arm(l, seat))
    {
      if seat !in monitors {
        var monitor := new DisconnectMonitor(seat, |all|);
        monitor.Start();
        List(monitor, l);
      }
    }

    /** Enters a timer that has just been started. */
    method List(monitor: DisconnectMonitor, ghost l: State)
      requires Shows(l) && monitor.seat !in monitors && monitor.number == |all| && monitor.Armed() && monitor !in all
      modifies this
      ensures all == old(all) + [monitor] && Shows(Arm(l, monitor.seat))
    {
      monitors := monitors[monitor.seat := monitor];
      all := all + [monitor];
      assert Running() == l.armed[l.nextTimer := monitor.seat];
      assert Table() == l.monitors[monitor.seat := l.nextTimer];
    }

    /** The task of a timer ends, and its entry is popped. */
    method Finish(monitor: DisconnectMonitor, ghost l: State)
      requires Shows(l) && monitor in all
      modifies this, monitor
      ensures all == old(all)
      ensures Shows(l.(armed := l.armed - {monitor.number}, monitors := l.monitors - {monitor.seat}))
    {
      EndTask(monitor, l);
      Pop(monitor.seat, l.(armed := l.armed - {monitor.number}));
    }

    method EndTask(monitor: DisconnectMonitor, ghost l: State)
      requires Shows(l) && monitor in all
      modifies monitor
      ensures Shows(l.(armed := l.armed - {monitor.number}))
    {
      ghost var i :| 0 <= i < |all| && all[i] == monitor;
      monitor.task := Some(true);
      assert Running() == l.armed - {monitor.number};
    }

    method Pop(seat: Seat, ghost l: State)
      requires Shows(l)
      modifies this
      ensures all == old(all) && Shows(l.(monitors := l.monitors - {seat}))
    {
      monitors := monitors - {seat};
      assert Table() == l.monitors - {seat};
    }
  }

  // ----- rooms -----

  /** The loop that ticks the engine of one room. */
  class TickLoop {
    var running: bool

    constructor ()
      ensures !running
    {
      running := false;
    }

    method Start()
      modifies this
      ensures running
    {
      running := true;
    }

    method Stop()
      modifies this
      ensures !running
    {
      running := false;
    }
  }

  ghost function SessionViews(rooms: map<string, GameSession>): map<string, Session>
    reads rooms.Values
  {
    map r | r in rooms :: rooms[r].View()
  }

  /** No two rooms share an object. */
  ghost predicate Unshared<T>(m: map<string, T>) {
    forall r, s | r in m && s in m && r != s :: m[r] != m[s]
  }

  lemma UnsharedWith<T>(m: map<string, T>, room: string, x: T)
    requires Unshared(m) && forall r | r in m :: m[r] != x
    ensures Unshared(m[room := x])
  {
  }

  class RoomManager {
    const registry: ConnectionRegistry
    var rooms: map<string, GameSession>
    var tickLoops: map<string, TickLoop>

    constructor (registry: ConnectionRegistry)
      ensures this.registry == registry && rooms == map[] && Valid()
    {
      this.registry, rooms, tickLoops := registry, map[], map[];
    }

    /** Every room has its own session and its own running loop. */
    ghost predicate Valid()
      reads this, tickLoops.Values
    {
      && tickLoops.Keys == rooms.Keys
      && (forall r | r in tickLoops :: tickLoops[r].running)
      && Unshared(rooms) && Unshared(tickLoops)
    }

    /** `session` is what the session factory made for this room. */
    method CreateRoom(room: string, session: GameSession)
      requires Valid() && session.View() == VACANT && forall r | r in rooms :: rooms[r] != session
      modifies this
      ensures Valid() && rooms == old(rooms)[room := session]
      ensures SessionViews(rooms) == old(SessionViews(rooms))[room := VACANT]
    {
      AddSession(room, session);
      StartLoop(room);
    }

    method AddSession(room: string, session: GameSession)
      requires Unshared(rooms) && session.View() == VACANT && forall r | r in rooms :: rooms[r] != session
      modifies this`rooms
      ensures rooms == old(rooms)[room := session] && Unshared(rooms)
      ensures SessionViews(rooms) == old(SessionViews(rooms))[room := VACANT]
    {
      UnsharedWith(rooms, room, session);
      rooms := rooms[room := session];
    }

    method StartLoop(room: string)
      requires (forall r | r in tickLoops :: tickLoops[r].running) && Unshared(tickLoops)
      modifies this`tickLoops
      ensures tickLoops.Keys == old(tickLoops.Keys) + {room} && Unshared(tickLoops)
      ensures forall r | r in tickLoops :: tickLoops[r].running
    {
      var loop := new TickLoop();
      UnsharedWith(tickLoops, room, loop);
      tickLoops := tickLoops[room := loop];
      loop.Start();
    }

    method CancelRoom(room: string) returns (found: bool)
      requires Valid()
      modifies this, registry, LoopOf(room)
      ensures Valid() && found == (room in old(rooms)) && rooms == old(rooms) - {room}
      ensures SessionViews(rooms) == if found then old(SessionViews(rooms)) - {room} else old(SessionViews(rooms))
      ensures found ==> !old(tickLoops)[room].running
      ensures registry.View() == if found then Registry.Apply(old(registry.View()), Registry.RemoveRoomEntries(room))
                                 else old(registry.View())
    {
      if room !in rooms {
        return false;
      }
      Discard(room);
      return true;
    }

    method Discard(room: string)
      requires Valid() && room in rooms
      modifies this, registry, tickLoops[room]
      ensures Valid() && rooms == old(rooms) - {room} && !old(tickLoops)[room].running
      ensures SessionViews(rooms) == old(SessionViews(rooms)) - {room}
      ensures registry.View() == Registry.Apply(old(registry.View()), Registry.RemoveRoomEntries(room))
    {
      StopLoop(room);
      Drop(room);
    }

    /** The session goes, and the registry forgets its connections. */
    method Drop(room: string)
      requires Unshared(rooms)
      modifies this`rooms, registry
      ensures rooms == old(rooms) - {room} && rooms.Keys == old(rooms).Keys - {room} && Unshared(rooms)
      ensures SessionViews(rooms) == old(SessionViews(rooms)) - {room}
      ensures registry.View() == Registry.Apply(old(registry.View()), Registry.RemoveRoomEntries(room))
    {
      DropSession(room);
      registry.RemoveRoomEntries(room);
    }

    method StopLoop(room: string)
      requires room in tickLoops && (forall r | r in tickLoops :: tickLoops[r].running) && Unshared(tickLoops)
      modifies this`tickLoops, tickLoops[room]
      ensures tickLoops == old(tickLoops) - {room} && tickLoops.Keys == old(tickLoops).Keys - {room}
      ensures Unshared(tickLoops) && !old(tickLoops)[room].running
      ensures forall r | r in tickLoops :: tickLoops[r].running
    {
      tickLoops[room].Stop();
      tickLoops := tickLoops - {room};
    }

    method DropSession(room: string)
      requires Unshared(rooms)
      modifies this`rooms
      ensures rooms == old(rooms) - {room} && Unshared(rooms)
      ensures SessionViews(rooms) == old(SessionViews(rooms)) - {room}
    {
      rooms := rooms - {room};
    }

    /** The objects of one room: its session, its loop, and the engine of its session. */
    ghost function SessionOf(room: string): set<GameSession>
      reads this
    {
      if room in rooms then {rooms[room]} else {}
    }

    ghost function LoopOf(room: string): set<TickLoop>
      reads this
    {
      if room in tickLoops then {tickLoops[room]} else {}
    }

    ghost function EngineOf(room: string): set<GameEngine>
      reads this
    {
      if room in rooms then {rooms[room].engine} else {}
    }

    /** The rooms and the registry are in state l of the lobby. */
    ghost predicate Mirrors(l: State)
      reads this, rooms.Values, registry
    {
      (l.rooms, l.registry) == (SessionViews(rooms), registry.View())
    }

    lemma MirrorsToo(l: State, next: State)
      requires Mirrors(l) && next.rooms == l.rooms && next.registry == l.registry
      ensures Mirrors(next)
    {
    }

    /** The part of a join that changes the registry and the session. */
    method AdmitTo(conn: string, room: string, username: string, ghost l: State, ghost next: State) returns (back: bool)
      requires room in rooms && Unshared(rooms) && Mirrors(l) && JoinsRoom(l, next, conn, room, username)
      modifies registry, rooms[room]
      ensures Mirrors(next) && back == ComesBack(l, room, username)
    {
      registry.AssignRoom(conn, room);
      assert rooms[room].View() == l.rooms[room];
      back := rooms[room].Admit(conn, username);
      assert SessionViews(rooms) == l.rooms[room := Joined(l.rooms[room], conn, username)];
    }

    /** The part of a join that deals with an existing room; `next` is the state after the join. */
    method JoinExisting(conn: string, room: string, username: string, table: MonitorTable, ghost l: State,
                        ghost next: State)
      requires room in rooms && Unshared(rooms) && table.Shows(l) && Mirrors(l)
      requires JoinsRoom(l, next, conn, room, username) && JoinsTimers(l, next, room, username)
      modifies registry, rooms[room], table, table.Listed(Seat(room, username))
      ensures table.Shows(next) && Mirrors(next)
    {
      var back := AdmitTo(conn, room, username, l, next);
      CancelIfBack(back, Seat(room, username), table, l);
    }

    method CancelIfBack(back: bool, seat: Seat, table: MonitorTable, ghost l: State)
      requires table.Shows(l)
      modifies table, table.Listed(seat)
      ensures table.Shows(if back then Disarm(l, seat) else l)
    {
      if back {
        table.PopAndCancel(seat, l);
      }
    }

    /** Answers false for a room that does not exist. */
    method HandleJoinRoom(conn: string, room: string, username: string, table: MonitorTable, ghost l: State)
      returns (found: bool)
      requires Valid() && table.Shows(l) && Mirrors(l)
      modifies registry, SessionOf(room), table, table.Listed(Seat(room, username))
      ensures found == (room in rooms)
      ensures table.Shows(HandleJoin(l, conn, room, username)) && Mirrors(HandleJoin(l, conn, room, username))
    {
      found := room in rooms;
      if found {
        JoinParts(l, conn, room, username);
        JoinExisting(conn, room, username, table, l, HandleJoin(l, conn, room, username));
      }
    }
  }

  /** What a join does to the rooms and the registry. */
  ghost predicate JoinsRoom(l: State, next: State, conn: string, room: string, username: string) {
    && room in l.rooms && next.rooms == l.rooms[room := Joined(l.rooms[room], conn, username)]
    && next.registry == Registry.Apply(l.registry, Registry.AssignRoom(conn, room))
  }

  /** What a join does to the timers. */
  ghost predicate JoinsTimers(l: State, next: State, room: string, username: string) {
    && room in l.rooms && next.hasElo == l.hasElo
    && TimersOf(next) == TimersOf(if ComesBack(l, room, username) then Disarm(l, Seat(room, username)) else l)
  }

  lemma JoinParts(l: State, conn: string, room: string, username: string)
    requires room in l.rooms
    ensures JoinsRoom(l, HandleJoin(l, conn, room, username), conn, room, username)
    ensures JoinsTimers(l, HandleJoin(l, conn, room, username), room, username)
  {
  }

  // ----- disconnecting -----

  class DisconnectCoordinator {
    const manager: RoomManager
    const registry: ConnectionRegistry
    const table: MonitorTable
    /** Whether there is a rating service. */
    const hasElo: bool

    constructor (manager: RoomManager, registry: ConnectionRegistry, hasElo: bool)
      requires manager.registry == registry
      ensures this.manager == manager && this.registry == registry && this.hasElo == hasElo
      ensures fresh(table) && table.monitors == map[] && table.all == [] && table.Valid()
      ensures Wired()
    {
      this.manager, this.registry, this.hasElo := manager, registry, hasElo;
      table := new MonitorTable();
    }

    ghost predicate Wired() {
      manager.registry == registry
    }

    /** The objects are in state l of the lobby. */
    ghost predicate Mirrors(l: State)
      reads this, manager, manager.tickLoops.Values, manager.rooms.Values, registry, table, table.all
    {
      Wired() && manager.Valid() && manager.Mirrors(l) && table.Shows(l) && l.hasElo == hasElo
    }

    method Join(conn: string, room: string, username: string, ghost l: State) returns (found: bool)
      requires Mirrors(l)
      modifies registry, manager.SessionOf(room), table, table.Listed(Seat(room, username))
      ensures Mirrors(Next(l, Step.Join(conn, room, username))) && found == (room in l.rooms)
    {
      found := manager.HandleJoinRoom(conn, room, username, table, l);
    }

    /** The player whose connection this is. */
    method FindSeat(conn: string, ghost l: State) returns (seat: Option<Seat>)
      requires Mirrors(l)
      ensures seat == SeatOf(l, conn)
    {
      var room := registry.RoomOf(conn);
      if room == None || room.value !in manager.rooms {
        return None;
      }
      var session := manager.rooms[room.value];
      assert session.View() == l.rooms[room.value];
      if conn in session.spectators || conn !in session.connToUser {
        return None;
      }
      return Some(Seat(room.value, session.connToUser[conn]));
    }

    method ArmLeft(seat: Option<Seat>, ghost l: State)
      requires table.Shows(l)
      modifies table
      ensures table.Shows(if seat.Some? then Arm(l, seat.value) else l)
    {
      if seat.Some? {
        table.ArmNew(seat.value, l);
      }
    }

    method OnDisconnect(conn: string, ghost l: State)
      requires Mirrors(l)
      modifies table
      ensures Mirrors(Lobby.OnDisconnect(l, conn))
    {
      var seat := FindSeat(conn, l);
      manager.MirrorsToo(l, Lobby.OnDisconnect(l, conn));
      ArmLeft(seat, l);
    }

    /** The player of a timer that has run resigns, ratings are updated and the room is removed. */
    method AutoResign(seat: Seat, ghost timer: nat, ghost l: State, ghost next: State)
      returns (resigned: bool, winner: Option<string>, rated: bool)
      requires manager.registry == registry && manager.Valid() && manager.Mirrors(l) && l.hasElo == hasElo
      requires Resignable(l, seat) && next == Resigned(l, timer, seat)
      modifies manager, registry, manager.LoopOf(seat.room), manager.EngineOf(seat.room)
      ensures manager.Valid() && manager.Mirrors(next)
      ensures next.resignations ==
              if resigned then l.resignations + [Resignation(timer, seat, winner, rated)] else l.resignations
      ensures resigned ==> seat.room in l.rooms && old(manager.rooms)[seat.room].engine.gameOver
    {
      resigned, winner, rated := seat.room in manager.rooms, None, false;
      if resigned {
        winner := ResignIn(manager.rooms[seat.room], seat.username, l.rooms[seat.room]);
        rated := hasElo && winner.Some?;
        assert manager.Mirrors(l);
        var _ := manager.CancelRoom(seat.room);
      }
    }

    method ResignIn(session: GameSession, username: string, ghost s: Session) returns (winner: Option<string>)
      requires session.View() == s && Seated(s) && username in s.players
      modifies session.engine
      ensures winner == Other(s, username) && session.engine.gameOver
    {
      winner := session.Resign(username);
    }

    /** The task of a timer ends and its entry is popped. */
    method EndTask(monitor: DisconnectMonitor, ghost l: State)
      requires Mirrors(l) && monitor in table.all
      modifies table, monitor
      ensures Mirrors(Popped(l, monitor.number, monitor.seat))
    {
      table.Finish(monitor, l);
    }

    /** A timer fires: its task ends, its entry is popped, and its player resigns. */
    method FireMonitor(monitor: DisconnectMonitor, ghost l: State)
      returns (resigned: bool, winner: Option<string>, rated: bool)
      requires Mirrors(l) && Resignable(l, monitor.seat) && monitor in table.all && monitor.Armed()
      modifies manager, registry, manager.LoopOf(monitor.seat.room), table, monitor, manager.EngineOf(monitor.seat.room)
      ensures Mirrors(Next(l, Fire(monitor.number)))
      ensures Next(l, Fire(monitor.number)).resignations ==
              if resigned then l.resignations + [Resignation(monitor.number, monitor.seat, winner, rated)]
              else l.resignations
    {
      ArmedNumber(monitor, l);
      FiredParts(l, monitor.number, monitor.seat);
      resigned, winner, rated :=
        FireInto(monitor, l, Popped(l, monitor.number, monitor.seat), Next(l, Fire(monitor.number)));
    }

    /** `popped` and `next` are the states in the middle and after the firing. */
    method FireInto(monitor: DisconnectMonitor, ghost l: State, ghost popped: State, ghost next: State)
      returns (resigned: bool, winner: Option<string>, rated: bool)
      requires Mirrors(l) && monitor in table.all && Resignable(popped, monitor.seat)
      requires popped == Popped(l, monitor.number, monitor.seat) && popped.resignations == l.resignations
      requires next == Resigned(popped, monitor.number, monitor.seat)
      requires TimersOf(next) == TimersOf(popped) && next.hasElo == popped.hasElo
      modifies manager, registry, manager.LoopOf(monitor.seat.room), table, monitor, manager.EngineOf(monitor.seat.room)
      ensures Mirrors(next)
      ensures next.resignations ==
              if resigned then l.resignations + [Resignation(monitor.number, monitor.seat, winner, rated)]
              else l.resignations
    {
      EndTask(monitor, l);
      resigned, winner, rated := ResignGone(monitor.seat, monitor.number, popped, next);
    }

    method ResignGone(seat: Seat, ghost timer: nat, ghost l: State, ghost next: State)
      returns (resigned: bool, winner: Option<string>, rated: bool)
      requires Mirrors(l) && Resignable(l, seat) && next == Resigned(l, timer, seat)
      requires TimersOf(next) == TimersOf(l) && next.hasElo == l.hasElo
      modifies manager, registry, manager.LoopOf(seat.room), manager.EngineOf(seat.room)
      ensures Mirrors(next)
      ensures next.resignations ==
              if resigned then l.resignations + [Resignation(timer, seat, winner, rated)] else l.resignations
    {
      table.ShowsToo(l, next);
      resigned, winner, rated := AutoResign(seat, timer, l, next);
    }

    lemma ArmedNumber(monitor: DisconnectMonitor, l: State)
      requires table.Shows(l) && monitor in table.all && monitor.Armed()
      ensures monitor.number in l.armed && l.armed[monitor.number] == monitor.seat
    {
    }
  }

  /** What an auto-resignation does once the timer is out of the table. */
  ghost function Resigned(l: State, timer: nat, seat: Seat): State {
    if seat.room !in l.rooms then l
    else
      var winner := Other(l.rooms[seat.room], seat.username);
      CancelRoom(l.(resignations := l.resignations + [Resignation(timer, seat, winner, l.hasElo && winner.Some?)]),
                 seat.room)
  }

  /** A state once the task of a timer has ended and its entry is popped. */
  ghost function Popped(l: State, timer: nat, seat: Seat): State {
    l.(armed := l.armed - {timer}, monitors := l.monitors - {seat})
  }

  lemma FiredParts(l: State, timer: nat, seat: Seat)
    requires timer in l.armed && l.armed[timer] == seat
    ensures Next(l, Fire(timer)) == Resigned(Popped(l, timer, seat), timer, seat)
    ensures TimersOf(Next(l, Fire(timer))) == TimersOf(Popped(l, timer, seat))
            && Next(l, Fire(timer)).hasElo == l.hasElo
    ensures Popped(l, timer, seat).rooms == l.rooms && Popped(l, timer, seat).resignations == l.resignations
  {
  }

  /** A timer can only be that of a player of its room, if the room still exists. */
  ghost predicate Resignable(l: State, seat: Seat) {
    seat.room in l.rooms ==> Seated(l.rooms[seat.room]) && seat.username in l.rooms[seat.room].players
  }

  /** In every reachable state a timer that fires finds its player. */
  lemma ArmedResignable(l: State, timer: nat)
    requires Consistent(l) && timer in l.armed
    ensures Resignable(l, l.armed[timer])
  {
    FireResigns(l, timer);
  }
}
