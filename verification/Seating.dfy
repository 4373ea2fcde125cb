/** Who sits where in one game session. */
module Seating {
  import opened Values

  /** A player: the color of the seat, and the connection bound to it. */
  datatype Player = Player(color: Color, connection: string)

  datatype Session = Session(players: map<string, Player>, connToUser: map<string, string>, spectators: set<string>)

  const VACANT: Session := Session(map[], map[], {})

  const MAX_PLAYERS := 2

  // ----- the operations -----

  predicate Full(s: Session) {
    |s.players| >= MAX_PLAYERS
  }

  function AssignColor(s: Session, conn: string): Session {
    var color := if s.players == map[] then White else Black;
    s.(players := s.players[conn := Player(color, conn)], connToUser := s.connToUser[conn := conn])
  }

  /** An empty connection id is never unbound. */
  function Rebind(s: Session, username: string, conn: string): Session
    requires username in s.players
  {
    var was := s.players[username];
    var unbound := if was.connection != "" && was.connection in s.connToUser then s.connToUser - {was.connection}
                   else s.connToUser;
    s.(players := s.players[username := was.(connection := conn)], connToUser := unbound[conn := username])
  }

  /** Where `record_join` raises KeyError: the placeholder of `conn` exists, but nothing is bound to it. */
  predicate JoinRaises(s: Session, conn: string, username: string) {
    username !in s.players && conn in s.players && conn !in s.connToUser
  }

  /** Renames the placeholder of `conn`. When it raises, the placeholder is already gone. */
  function RecordJoin(s: Session, conn: string, username: string): Session {
    if username in s.players then Rebind(s, username, conn)
    else if conn !in s.players then s
    else if conn !in s.connToUser then s.(players := s.players - {conn})
    else s.(players := (s.players - {conn})[username := Player(s.players[conn].color, conn)],
            connToUser := (s.connToUser - {conn})[conn := username])
  }

  /** Joining: a known player is rebound, a free seat is taken, everyone else watches. */
  function Joined(s: Session, conn: string, username: string): Session {
    if username != "" && username in s.players then Rebind(s, username, conn)
    else if !Full(s) then
      if username != "" then RecordJoin(AssignColor(s, conn), conn, username) else AssignColor(s, conn)
    else s.(spectators := s.spectators + {conn})
  }

  function ColorFor(s: Session, conn: string): Option<Color> {
    if conn in s.connToUser && s.connToUser[conn] in s.players then Some(s.players[s.connToUser[conn]].color) else None
  }

  /** `pieceColor` is the color of the piece on the cell asked about, if there is one. */
  predicate Owns(s: Session, conn: string, pieceColor: Option<Color>) {
    ColorFor(s, conn).Some? && pieceColor == ColorFor(s, conn)
  }

  // ----- the invariant -----

  ghost predicate ColorsSeated(players: map<string, Player>) {
    && (forall u, v | u in players && v in players && u != v :: players[u].color != players[v].color)
    && (players != map[] ==> exists u :: u in players && players[u].color == White)
  }

  ghost predicate Bound(s: Session) {
    && (forall u | u in s.players ::
          s.players[u].connection in s.connToUser && s.connToUser[s.players[u].connection] == u)
    && (forall c | c in s.connToUser :: s.connToUser[c] in s.players && s.players[s.connToUser[c]].connection == c)
  }

  /** At most two players, WHITE seated first, with distinct colors; connections and players are each other's
      inverse; spectators are nobody's connection. */
  ghost predicate Seated(s: Session) {
    && |s.players| <= MAX_PLAYERS && ColorsSeated(s.players) && Bound(s)
    && forall c | c in s.spectators :: c !in s.connToUser
  }

  /** When a connection may be bound to a known player. */
  predicate Bindable(s: Session, conn: string, username: string)
    requires username in s.players
  {
    conn !in s.spectators && (conn in s.connToUser ==> s.connToUser[conn] == username)
    && (s.players[username].connection == "" ==> conn == "")
  }

  /** What a caller can check before a join. */
  predicate Fresh(s: Session, conn: string, username: string) {
    if username != "" && username in s.players then
      Bindable(s, conn, username)
    else if !Full(s) then conn !in s.spectators && conn !in s.connToUser && conn !in s.players
    else conn !in s.connToUser
  }

  lemma AtMostOne(players: map<string, Player>, u: string, v: string)
    requires |players| <= 1 && u in players && v in players
    ensures u == v
  {
    assert {u, v} <= players.Keys;
    if u != v {
      assert |{u, v}| == 2;
      Fewer({u, v}, players.Keys);
    }
  }

  lemma {:induction false} Fewer(a: set<string>, b: set<string>)
    requires a <= b
    ensures |a| <= |b|
    decreases a
  {
    if a == {} {
    } else {
      var x :| x in a;
      Fewer(a - {x}, b - {x});
    }
  }

  lemma RebindColors(players: map<string, Player>, conn: string, username: string)
    requires username in players && ColorsSeated(players)
    ensures ColorsSeated(players[username := players[username].(connection := conn)])
  {
    var more := players[username := players[username].(connection := conn)];
    var w :| w in players && players[w].color == White;
    assert w in more && more[w].color == White;
  }

  lemma RebindSeated(s: Session, conn: string, username: string)
    requires Seated(s) && username in s.players && Bindable(s, conn, username)
    ensures Seated(Rebind(s, username, conn))
  {
    assert Rebind(s, username, conn).players.Keys == s.players.Keys;
    RebindColors(s.players, conn, username);
  }

  lemma BadRebindBreaks(s: Session, conn: string, username: string)
    requires Seated(s) && username in s.players && !Bindable(s, conn, username)
    ensures !Seated(Rebind(s, username, conn))
  {
    var t := Rebind(s, username, conn);
    assert conn in t.connToUser && t.connToUser[conn] == username && t.spectators == s.spectators;
    if conn in s.connToUser && s.connToUser[conn] != username {
      var v := s.connToUser[conn];
      assert v in t.players && t.players[v].connection == conn;
    } else if conn !in s.spectators {
      assert "" in t.connToUser && t.connToUser[""] == username && t.players[username].connection == conn;
    }
  }

  /** Taking a seat: the record and the binding of the new player, under whatever name. */
  function TakeSeat(s: Session, conn: string, name: string): Session {
    s.(players := s.players[name := Player(if s.players == map[] then White else Black, conn)],
       connToUser := s.connToUser[conn := name])
  }

  lemma SeatIsTaken(s: Session, conn: string, username: string)
    requires conn !in s.players && conn !in s.connToUser && username !in s.players
    ensures AssignColor(s, conn) == TakeSeat(s, conn, conn)
    ensures RecordJoin(AssignColor(s, conn), conn, username) == TakeSeat(s, conn, username)
  {
    if username != conn {
      var t := AssignColor(s, conn);
      assert t.players - {conn} == s.players;
      assert (t.connToUser - {conn}) == s.connToUser;
    }
  }

  lemma TakeSeatSeated(s: Session, conn: string, name: string)
    requires Seated(s) && !Full(s) && name !in s.players && conn !in s.connToUser && conn !in s.spectators
    ensures Seated(TakeSeat(s, conn, name))
  {
    var t := TakeSeat(s, conn, name);
    if s.players == map[] {
      assert t.players[name].color == White;
    } else {
      var w :| w in s.players && s.players[w].color == White;
      assert w in t.players && t.players[w].color == White;
      forall u | u in s.players ensures u == w {
        AtMostOne(s.players, u, w);
      }
    }
  }

  /** Without a fresh connection the seat goes wrong. */
  lemma StaleSeatBreaks(s: Session, conn: string, username: string)
    requires Seated(s) && !Full(s) && !(username != "" && username in s.players)
    requires conn in s.spectators || conn in s.connToUser || conn in s.players
    ensures !Seated(Joined(s, conn, username))
  {
    var t := Joined(s, conn, username);
    assert conn in t.connToUser && t.spectators == s.spectators;
    if conn in s.players {
      StalePlaceholderBreaks(s, conn, username);
    } else if conn in s.connToUser {
      var v := s.connToUser[conn];
      assert v in t.players && t.players[v].connection == conn && t.connToUser[conn] != v;
    }
  }

  lemma StalePlaceholderBreaks(s: Session, conn: string, username: string)
    requires Seated(s) && !Full(s) && !(username != "" && username in s.players) && conn in s.players
    ensures !Seated(Joined(s, conn, username))
  {
    var t := Joined(s, conn, username);
    forall u | u in s.players ensures u == conn {
      AtMostOne(s.players, u, conn);
    }
    var name := if username != "" then username else conn;
    assert name in t.players && t.players[name].color == Black;
    assert forall u | u in t.players :: u == name;
  }

  lemma FreshSeat(s: Session, conn: string, username: string)
    requires Seated(s) && !Full(s) && !(username != "" && username in s.players) && Fresh(s, conn, username)
    ensures Joined(s, conn, username) == TakeSeat(s, conn, if username != "" then username else conn)
  {
    if username != "" {
      SeatIsTaken(s, conn, username);
    }
  }

  /** Main result: a join keeps the seating invariant exactly when the connection is fresh for it. */
  lemma JoinExact(s: Session, conn: string, username: string)
    requires Seated(s)
    ensures Seated(Joined(s, conn, username)) <==> Fresh(s, conn, username)
  {
    if username != "" && username in s.players {
      if Bindable(s, conn, username) { RebindSeated(s, conn, username); } else { BadRebindBreaks(s, conn, username); }
    } else if !Full(s) {
      if Fresh(s, conn, username) {
        FreshSeat(s, conn, username);
        TakeSeatSeated(s, conn, if username != "" then username else conn);
      } else {
        StaleSeatBreaks(s, conn, username);
      }
    }
  }

  /** A join moves nobody to another color: players keep their seats across joins and reconnects. */
  lemma JoinKeepsColors(s: Session, conn: string, username: string, u: string)
    requires Seated(s) && Fresh(s, conn, username) && u in s.players
    ensures u in Joined(s, conn, username).players && Joined(s, conn, username).players[u].color == s.players[u].color
  {
  }

  /** What a join does to the seats: the joiner is bound to the player it names or becomes, or watches. */
  lemma JoinSeats(s: Session, conn: string, username: string)
    requires Seated(s) && Fresh(s, conn, username)
    ensures var t := Joined(s, conn, username);
            if username != "" && username in s.players
            then t.players == s.players[username := s.players[username].(connection := conn)]
            else if !Full(s) then
              t.players == s.players[(if username != "" then username else conn) :=
                                     Player(if s.players == map[] then White else Black, conn)]
            else t.players == s.players && conn in t.spectators
  {
    if !(username != "" && username in s.players) && !Full(s) {
      FreshSeat(s, conn, username);
    }
  }

  /** Main result: at most one connection owns the piece on a cell, and no spectator owns any. */
  lemma OwnersUnique(s: Session, c: string, d: string, pieceColor: Option<Color>)
    requires Seated(s) && c != d && Owns(s, c, pieceColor)
    ensures !Owns(s, d, pieceColor) && c !in s.spectators
  {
  }

  /** Main result: the connection bound to a seated player owns a piece exactly when it has that player's color; a
      connection bound to nobody owns nothing, and nobody owns an empty cell. */
  lemma OwnsItsColor(s: Session, u: string, c: string, pieceColor: Option<Color>)
    requires Seated(s) && u in s.players
    ensures Owns(s, s.players[u].connection, pieceColor) <==> pieceColor == Some(s.players[u].color)
    ensures (forall v | v in s.players :: s.players[v].connection != c) ==> !Owns(s, c, pieceColor)
    ensures !Owns(s, c, None)
  {
  }

  /** The first to join a vacant session owns exactly the white pieces, and the second, under another name, exactly the
      black ones. */
  lemma FirstTwoOwn(c: string, u: string, d: string, v: string, pieceColor: Option<Color>)
    requires Fresh(VACANT, c, u)
    requires Fresh(Joined(VACANT, c, u), d, v) && !(v != "" && v in Joined(VACANT, c, u).players)
    ensures var one := Joined(VACANT, c, u);
            var two := Joined(one, d, v);
            && (Owns(one, c, pieceColor) <==> pieceColor == Some(White))
            && (Owns(two, c, pieceColor) <==> pieceColor == Some(White))
            && (Owns(two, d, pieceColor) <==> pieceColor == Some(Black))
  {
    var one := Joined(VACANT, c, u);
    var two := Joined(one, d, v);
    var first, second := if u != "" then u else c, if v != "" then v else d;
    JoinExact(VACANT, c, u);
    FreshSeat(VACANT, c, u);
    assert |one.players| == 1;
    JoinExact(one, d, v);
    FreshSeat(one, d, v);
    assert one.players[first] == Player(White, c) && two.players[second] == Player(Black, d);
    JoinKeepsColors(one, d, v, first);
    OwnsItsColor(one, first, c, pieceColor);
    OwnsItsColor(two, second, d, pieceColor);
    OwnsItsColor(two, first, c, pieceColor);
  }

  // ----- resigning -----

  /** The first other player. */
  ghost function Other(s: Session, username: string): Option<string> {
    if exists v :: v in s.players && v != username then
      var v :| v in s.players && v != username;
      Some(v)
    else None
  }

  /** In a seated session the opponent of a player is unique, and has the other color. */
  lemma OtherUnique(s: Session, username: string, v: string)
    requires Seated(s) && username in s.players && v in s.players && v != username
    ensures Other(s, username) == Some(v) && s.players[v].color == Opponent(s.players[username].color)
  {
  }
}
