/** Building a snapshot from the live objects. */
module SnapshotObject {
  import opened Values
  import opened Arbitration
  import opened BoardObject
  import opened ArbiterObject
  import opened PieceFate
  import opened Engine
  import opened Soundness
  import opened EngineObject
  import opened Snapshots
  import opened TrackerObject
  import Stats

  /** The target cell and the progress of one piece. */
  method MotionInfoOf(piece: Piece, arbiter: RealTimeArbiter, ghost store: map<PieceId, Piece>) returns (info: Info)
    requires arbiter.Valid(store) && Holds(store, piece) && DistinctMotions(arbiter.View().motions)
    ensures info == MotionInfo(arbiter.View(), piece.id)
  {
    var motion := arbiter.GetMotionFor(piece);
    NamesMotion(arbiter.activeMotions, piece, store);
    if motion == None {
      return Info(None, 1.0);
    }
    OwnView(arbiter.activeMotions, motion.value, store);
    info := ProgressOf(motion.value, arbiter.msPerSquare);
  }

  method ProgressOf(m: ActiveMotion, msPerSquare: int) returns (info: Info)
    requires m.WellFormed()
    ensures info == InfoOf(m.View(), msPerSquare)
  {
    if m.toPos == None || m.toPos == Some(m.fromPos) {
      return Info(None, 1.0);
    }
    var target := m.toPos.value;
    var totalMs := Max(Abs(target.row - m.fromPos.row), Abs(target.col - m.fromPos.col)) * msPerSquare;
    var elapsed := totalMs - m.remainingMs;
    var t := 1.0;
    if totalMs > 0 {
      var ratio := elapsed as real / totalMs as real;
      t := if ratio < 1.0 then ratio else 1.0;
    }
    return Info(Some(target), t);
  }

  /** Being in motion is the same for the object and for its id. */
  lemma NamesMotion(ms: seq<ActiveMotion>, piece: Piece, store: map<PieceId, Piece>)
    requires AllHold(store, ms) && Holds(store, piece)
    ensures InMotion(Views(ms), piece.id) <==> exists i :: 0 <= i < |ms| && ms[i].piece == piece
    ensures MotionFor(Views(ms), piece.id) == None <==> !exists i :: 0 <= i < |ms| && ms[i].piece == piece
  {
    MotionForFound(Views(ms), piece.id);
    if InMotion(Views(ms), piece.id) {
      var m :| m in Views(ms) && m.piece.id == piece.id;
      var i :| 0 <= i < |ms| && Views(ms)[i] == m;
      assert ms[i] in ms && ms[i].View() == m;
    }
    forall i | 0 <= i < |ms| && ms[i].piece == piece ensures InMotion(Views(ms), piece.id) {
      assert ms[i] in ms && Views(ms)[i] == ms[i].View() && ms[i].View() in Views(ms);
    }
  }

  lemma OwnView(ms: seq<ActiveMotion>, m: ActiveMotion, store: map<PieceId, Piece>)
    requires AllHold(store, ms) && m in ms && DistinctMotions(Views(ms))
    ensures MotionFor(Views(ms), m.piece.id) == Some(m.View()) && m.WellFormed()
  {
    var i :| 0 <= i < |ms| && ms[i] == m;
    assert Views(ms)[i] == m.View();
    MotionForUnique(Views(ms), m.View());
  }

  method Shoot(piece: Piece, engine: GameEngine) returns (shot: PieceShot)
    requires engine.Valid() && Holds(engine.store, piece)
    ensures shot == ShotOf(engine.View(), piece.id)
  {
    assert engine.View().pieces[piece.id] == piece.Rec();
    var info := MotionInfoOf(piece, engine.arbiter, engine.store);
    shot := PieceShot(piece.id, piece.kind, piece.color, piece.cell, piece.state, info);
  }

  /** What clients are sent. */
  datatype GameSnapshot = GameSnapshot(width: int, height: int, pieces: seq<PieceShot>, selectedCell: Option<Position>,
                                       gameOver: bool, airbornePos: Option<Position>, scores: map<Color, int>,
                                       moveHistory: seq<Stats.MoveRecord>, winnerColor: Option<Color>)

  /** `stats` is None when there is no tracker. */
  method BuildSnapshot(engine: GameEngine, selectedCell: Option<Position>, stats: Option<GameStatsTracker>)
    returns (s: GameSnapshot)
    requires engine.Valid() && (stats.Some? ==> stats.value.Valid())
    ensures Shows(engine.View(), s.pieces)
    ensures var w := engine.View();
            && s.width == w.board.width && s.height == w.board.height && s.selectedCell == selectedCell
            && s.gameOver == w.gameOver && s.airbornePos == w.arb.airborne && s.winnerColor == w.winner
    ensures stats == None ==> s.scores == map[] && s.moveHistory == []
    ensures stats.Some? ==> var t := stats.value.View();
              s.scores == map[White := t.white, Black := t.black] && s.moveHistory == t.history
  {
    var shots := ShootAll(engine);
    s := GameSnapshot(engine.board.width, engine.board.height, shots, selectedCell, engine.gameOver,
                      engine.arbiter.airbornePos, map[], [], engine.winnerColor);
    if stats.Some? {
      s := s.(scores := stats.value.scores, moveHistory := stats.value.moveHistory);
    }
  }

  /** Visits the pieces on the board, in some order, and leaves out those marked captured. */
  method ShootAll(engine: GameEngine) returns (shots: seq<PieceShot>)
    requires engine.Valid()
    ensures Shows(engine.View(), shots)
  {
    ghost var w := engine.View();
    var grid := engine.board.grid;
    var todo := grid.Keys;
    shots := [];
    while todo != {}
      invariant todo <= grid.Keys && Partial(w, shots, grid.Keys - todo)
      decreases |todo|
    {
      var p :| p in todo;
      var piece := grid[p];
      assert w.board.grid[p] == piece.id;
      ghost var done := grid.Keys - todo;
      var shot := Shoot(piece, engine);
      Step(w, shots, done, p);
      if piece.state != Captured {
        shots := shots + [shot];
      }
      todo := todo - {p};
      SameDone(grid.Keys, done, todo, p);
    }
    assert grid.Keys - {} == w.board.grid.Keys;
  }

  lemma SameDone(all: set<Position>, done: set<Position>, todo: set<Position>, p: Position)
    requires p in all && p !in todo && done == all - (todo + {p})
    ensures all - todo == done + {p}
  {
  }

  /** What has been shown after the cells in `done`. */
  ghost predicate Partial(w: World, shots: seq<PieceShot>, done: set<Position>)
    requires BoardCoherent(w.board, w.pieces)
  {
    && done <= w.board.grid.Keys && NoRepeats(shots)
    && forall s :: s in shots <==> exists p :: p in done && Visible(w, p, s)
  }

  lemma Step(w: World, shots: seq<PieceShot>, done: set<Position>, p: Position)
    requires BoardCoherent(w.board, w.pieces) && Partial(w, shots, done) && p in w.board.grid && p !in done
    ensures var shot := ShotOf(w, w.board.grid[p]);
            Partial(w, if shot.state != Captured then shots + [shot] else shots, done + {p})
  {
    var shot := ShotOf(w, w.board.grid[p]);
    assert shot.cell == p;
    assert shot !in shots;
    var more := if shot.state != Captured then shots + [shot] else shots;
    forall s ensures s in more <==> exists q :: q in done + {p} && Visible(w, q, s) {
      if s in more {
        if s in shots {
          var q :| q in done && Visible(w, q, s);
          assert q in done + {p};
        } else {
          assert Visible(w, p, s);
        }
      }
      if exists q :: q in done + {p} && Visible(w, q, s) {
        var q :| q in done + {p} && Visible(w, q, s);
        assert q in done ==> s in shots;
      }
    }
  }
}
