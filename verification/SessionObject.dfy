/** A game session as an object. Every method is proved to compute the corresponding function of Seating. */
module SessionObject {
  import opened Values
  import opened BoardObject
  import opened EngineObject
  import opened Seating

  class GameSession {
    const engine: GameEngine
    var players: map<string, Player>
    var connToUser: map<string, string>
    var spectators: set<string>

    constructor (engine: GameEngine)
      ensures this.engine == engine && View() == VACANT
    {
      this.engine, players, connToUser, spectators := engine, map[], map[], {};
    }

    function View(): Session
      reads this
    {
      Session(players, connToUser, spectators)
    }

    function PlayersFull(): bool
      reads this
    {
      |players| >= MAX_PLAYERS
    }

    method AssignColor(conn: string) returns (color: Color)
      modifies this
      ensures View() == Seating.AssignColor(old(View()), conn)
      ensures Some(color) == ColorFor(View(), conn)
    {
      color := if |players| == 0 then White else Black;
      assert |players| == 0 <==> players == map[];
      players := players[conn := Player(color, conn)];
      connToUser := connToUser[conn := conn];
    }

    method AddSpectator(conn: string)
      modifies this
      ensures View() == old(View()).(spectators := old(spectators) + {conn})
    {
      spectators := spectators + {conn};
    }

    method RebindConnection(username: string, conn: string) returns (found: bool)
      modifies this
      ensures found == (username in old(players))
      ensures View() == if found then Rebind(old(View()), username, conn) else old(View())
    {
      if username !in players {
        return false;
      }
      var oldConn := players[username].connection;
      if oldConn != "" && oldConn in connToUser {
        connToUser := connToUser - {oldConn};
      }
      players := players[username := players[username].(connection := conn)];
      connToUser := connToUser[conn := username];
      return true;
    }

    /** The identity resolver is the default one: a raw username is the username. The result is false where the
        program raises KeyError. */
    method RecordJoin(conn: string, username: string) returns (ok: bool)
      modifies this
      ensures ok == !JoinRaises(old(View()), conn, username)
      ensures View() == Seating.RecordJoin(old(View()), conn, username)
    {
      ok := true;
      if username in players {
        var _ := RebindConnection(username, conn);
      } else if conn in players {
        var color := players[conn].color;
        players := players - {conn};
        if conn !in connToUser {
          return false;
        }
        connToUser := connToUser - {conn};
        players := players[username := Player(color, conn)];
        connToUser := connToUser[conn := username];
      }
    }

    /** The part of `handle_join_room` that changes the session. */
    method Admit(conn: string, username: string) returns (back: bool)
      modifies this
      ensures View() == Joined(old(View()), conn, username)
      ensures back == (username != "" && username in old(players))
    {
      back := username != "" && username in players;
      if back {
        var _ := RebindConnection(username, conn);
      } else if !PlayersFull() {
        var _ := AssignColor(conn);
        if username != "" {
          var ok := RecordJoin(conn, username);
          assert ok;
        }
      } else {
        AddSpectator(conn);
      }
    }

    method OwnsPieceAt(conn: string, pos: Position) returns (owns: bool)
      ensures owns == Owns(View(), conn, if pos in engine.board.grid then Some(engine.board.grid[pos].color) else None)
      ensures pos !in engine.board.grid ==> !owns
      ensures Seated(View()) ==> forall u | u in players && players[u].connection == conn ::
                owns <==> pos in engine.board.grid && engine.board.grid[pos].color == players[u].color
    {
      if conn !in connToUser || connToUser[conn] !in players {
        return false;
      }
      var piece := engine.board.GetPiece(pos);
      return piece.Some? && piece.value.color == players[connToUser[conn]].color;
    }

    /** `next(u for u in players if u != username)`: any other player, which is unique in a seated session. */
    method OtherPlayer(username: string) returns (other: Option<string>)
      ensures other == None <==> forall u | u in players :: u == username
      ensures other.Some? ==> other.value in players && other.value != username
      ensures Seated(View()) && username in players ==> other == Other(View(), username)
    {
      other := None;
      var left := players.Keys;
      while left != {}
        invariant left <= players.Keys && other == None
        invariant forall u | u in players && u !in left :: u == username
        decreases |left|
      {
        var u :| u in left;
        if u != username {
          if Seated(View()) && username in players { OtherUnique(View(), username, u); }
          return Some(u);
        }
        left := left - {u};
      }
    }

    /** Ends the game. Whether it was already over is not looked at. */
    method Resign(username: string) returns (winner: Option<string>)
      modifies engine
      ensures winner.Some? ==> winner.value in players && winner.value != username
      ensures Seated(View()) && username in players ==> winner == Other(View(), username)
      ensures engine.gameOver
      ensures engine.winnerColor ==
              if winner.Some? && winner.value != "" then Some(players[winner.value].color) else None
      ensures old(engine.Valid()) ==> engine.Valid() && engine.board.View() == old(engine.board.View())
    {
      winner := OtherPlayer(username);
      var winnerColor := if winner.Some? && winner.value != "" then Some(players[winner.value].color) else None;
      engine.ForceGameOver(winnerColor);
    }
  }
}
