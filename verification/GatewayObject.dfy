/** The gateway as an object. With a ghost state of Lobby that its parts mirror, every public method takes the step
    of Lobby with the same name; the end of a connection also leaves the matchmaking queue. */
module GatewayObject {
  import opened Values
  import opened Seating
  import opened Lobby
  import opened SessionObject
  import opened RegistryObject
  import opened LobbyObject
  import opened MatchmakerObject
  import Matchmaking
  import Registry

  class Gateway {
    const coordinator: DisconnectCoordinator
    /** Nothing when matchmaking is not configured. */
    const matchmaker: Option<Matchmaker>

    constructor (coordinator: DisconnectCoordinator, matchmaker: Option<Matchmaker>)
      ensures this.coordinator == coordinator && this.matchmaker == matchmaker
    {
      this.coordinator, this.matchmaker := coordinator, matchmaker;
    }

    method CreateRoom(room: string, session: GameSession, ghost l: State)
      requires coordinator.Mirrors(l) && session.View() == VACANT
      requires forall r | r in coordinator.manager.rooms :: coordinator.manager.rooms[r] != session
      modifies coordinator.manager
      ensures coordinator.Mirrors(Next(l, Create(room)))
    {
      coordinator.manager.CreateRoom(room, session);
    }

    method CancelRoom(room: string, ghost l: State) returns (found: bool)
      requires coordinator.Mirrors(l)
      modifies coordinator.manager, coordinator.registry, coordinator.manager.LoopOf(room)
      ensures coordinator.Mirrors(Next(l, Cancel(room))) && found == (room in l.rooms)
    {
      found := coordinator.manager.CancelRoom(room);
    }

    /** Answers false for a room that does not exist. */
    method JoinRoom(conn: string, room: string, username: string, ghost l: State) returns (found: bool)
      requires coordinator.Mirrors(l)
      modifies coordinator.registry, coordinator.manager.SessionOf(room)
      modifies coordinator.table, coordinator.table.Listed(Seat(room, username))
      ensures coordinator.Mirrors(Next(l, Join(conn, room, username))) && found == (room in l.rooms)
    {
      found := coordinator.Join(conn, room, username, l);
    }

    ghost function Queue(): seq<Matchmaking.Entry>
      reads if matchmaker.Some? then {matchmaker.value} else {}
    {
      if matchmaker.Some? then matchmaker.value.queue else []
    }

    /** Takes the user that is logged in on a connection out of the queue. */
    method CancelByIdentity(conn: string)
      modifies if matchmaker.Some? then {matchmaker.value} else {}
      ensures Queue() == if conn in coordinator.registry.loggedIn
                         then Matchmaking.Cancel(old(Queue()), coordinator.registry.loggedIn[conn].username)
                         else old(Queue())
    {
      var registry := coordinator.registry;
      if matchmaker.Some? && conn in registry.loggedIn {
        var _ := matchmaker.value.CancelEntry(registry.loggedIn[conn].username);
      }
    }

    /** The part of the end of a connection that concerns rooms. */
    method Leave(conn: string, ghost l: State)
      requires coordinator.Mirrors(l)
      modifies coordinator.registry, coordinator.table
      ensures coordinator.Mirrors(Next(l, Close(conn)))
    {
      coordinator.OnDisconnect(conn, l);
      coordinator.registry.Forget(conn);
    }

    /** The end of a connection: it leaves the queue, the disconnect is handled, then the registry forgets it. */
    method ConnectionClosed(conn: string, ghost l: State)
      requires coordinator.Mirrors(l)
      modifies coordinator.registry, coordinator.table, if matchmaker.Some? then {matchmaker.value} else {}
      ensures coordinator.Mirrors(Next(l, Close(conn)))
      ensures Queue() == if conn in l.registry.loggedIn
                         then Matchmaking.Cancel(old(Queue()), l.registry.loggedIn[conn].username) else old(Queue())
    {
      CancelByIdentity(conn);
      Leave(conn, l);
    }
  }
}
