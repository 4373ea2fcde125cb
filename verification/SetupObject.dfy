/** From a board text to a game: what the default engine factory builds is where runs start. */
module SetupObject {
  import opened Values
  import opened BoardObject
  import opened MovementObject
  import opened ArbiterObject
  import opened BoardText
  import opened Layouts
  import opened TextObject
  import opened Engine
  import opened EngineObject
  import opened Stats
  import opened Material
  import opened Runs
  import opened Endgame

  /** A game on the board of a well-formed text, before its first command. */
  lemma LayoutOpens(rows: Rows, w: World, stats: Tracker)
    requires WellFormed(rows)
    requires w.board == BoardOf(rows) && w.pieces == PlaceRows(rows, |rows|).recs && !w.gameOver
    requires w.arb.motions == [] && w.arb.rests == [] && w.arb.airborne == None
    ensures Opening(Game(w, stats, true, false, 0, 0))
  {
    PlaceRowsGood(rows, |rows|);
    LayoutDepicts(rows);
    forall id | id in w.pieces ensures OnBoard(w, id) {
      assert w.pieces[id].cell in w.board.grid && w.board.grid[w.pieces[id].cell] == id;
    }
  }

  /** The engine factory: nothing when the text is rejected, otherwise a game that starts on its board. */
  method NewEngine(text: string, rules: RuleEngine, arbiter: RealTimeArbiter) returns (engine: Option<GameEngine>)
    requires arbiter.activeMotions == [] && arbiter.activeRests == [] && arbiter.airbornePos == None
    ensures engine.Some? <==> Validate(RowsOf(text)) == None
    ensures engine.Some? ==> engine.value.Valid() && WellFormed(RowsOf(text))
    ensures engine.Some? ==> engine.value.View().board == BoardOf(RowsOf(text))
    ensures engine.Some? ==> forall stats :: Opening(Game(engine.value.View(), stats, true, false, 0, 0))
  {
    var result;
    ghost var store;
    result, store := Parse(text);
    if result.Failed? {
      return None;
    }
    LayoutDepicts(RowsOf(text));
    var game := new GameEngine(result.board, rules, arbiter, store);
    forall stats ensures Opening(Game(game.View(), stats, true, false, 0, 0)) {
      LayoutOpens(RowsOf(text), game.View(), stats);
    }
    engine := Some(game);
  }
}
