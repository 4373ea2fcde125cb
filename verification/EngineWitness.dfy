/** Why ticks have to be clean: a game of two requests and two ticks, in which an enemy lands on the source of a
    running motion and takes that motion's piece, and the motion then carries off the wrong one. */
module Witness {
  import opened Values
  import opened Arbitration
  import opened MotionConservation
  import opened PieceFate
  import opened Engine
  import opened Anchoring
  import opened Rules
  import opened SimulatedTime
  import opened Soundness
  import opened Stats
  import opened Material
  import opened Runs
  import opened Endgame

  const ROOK: Token := Token("a", White)
  const BISHOP: Token := Token("b", Black)
  const HOME: Position := Position(0, 0)
  const CORNER: Position := Position(0, 2)
  const FAR: Position := Position(2, 0)

  const TIMING: Timing := Timing(500, 1000, 833, 625)

  /** A white rook and a black bishop in the upper corners of an otherwise empty board. */
  function Corners(rook: PieceState, bishop: PieceState, motions: seq<Motion>): World {
    World(BoardState(3, 3, map[HOME := "a", CORNER := "b"]),
          map["a" := PieceRec(White, Rook, HOME, rook, 0), "b" := PieceRec(Black, Bishop, CORNER, bishop, 0)],
          Arbiter(TIMING, motions, [], None), false, None, false)
  }

  function Beginning(): Game {
    Game(Corners(Idle, Idle, []), Tracker(3, map[], 0, 0, [], 0), true, false, 0, 0)
  }

  /** The rook goes for the bishop, the bishop leaves its cell, and both are one millisecond from their targets. */
  const LEAD_UP: seq<Command> := [Request(HOME, CORNER), Request(CORNER, FAR), Pass(999)]

  /** The world before the last tick. */
  function Race(): World {
    Corners(PieceState.Moving, PieceState.Moving, [Move(ROOK, HOME, CORNER, 1), Move(BISHOP, CORNER, FAR, 1)])
  }

  function RaceEvents(): seq<Event> {
    [Arrival(ROOK, HOME, CORNER, None, None), Rest(ROOK, LongRest, 833),
     Arrival(BISHOP, CORNER, FAR, None, None), Rest(BISHOP, LongRest, 833)]
  }

  /** Two due MOVEs that do not clash are resolved in order. */
  lemma PairSchedule(x: Motion, y: Motion)
    requires x.Move? && y.Move? && x.remaining <= 0 && y.remaining <= 0 && !Clash(x, y)
    ensures Due([x, y]) == [x, y] && Flying([x, y]) == []
    ensures Sweep([x, y], 2) == [] && Schedule([x, y]) == [x, y]
  {
    assert [x, y][..1] == [x] && [x][..0] == [];
    assert Due([x]) == [x] && Flying([x]) == [] && Moves([x]) == [x] && Jumps([x]) == [];
    assert Due([x, y]) == [x, y] && Flying([x, y]) == [];
    assert Struck([x, y], 0, 1, []) == [] && Struck([x, y], 0, 2, []) == [] && Struck([x, y], 1, 2, []) == [];
    assert Sweep([x, y], 0) == [] && Sweep([x, y], 1) == [] && Sweep([x, y], 2) == [];
    assert Kept([x, y], [], 0) == [] && Kept([x, y], [], 1) == [x] && Kept([x, y], [], 2) == [x, y];
    assert Moves([x, y]) == [x, y] && Jumps([x, y]) == [];
  }

  /** Two MOVEs that nothing is late for and no marker stops are resolved by their arrivals. */
  lemma PairResolved(b: Arbiter, x: Motion, y: Motion)
    requires x.Move? && y.Move? && b.motions == [] && b.airborne == None
    ensures ResolveAll(b, [x, y]).events ==
            [Landing(x), Rest(x.piece, LongRest, b.timing.longRestMs),
             Landing(y), Rest(y.piece, LongRest, b.timing.longRestMs)]
  {
    var one := ResolveOne(b, x);
    assert one.events == [Landing(x), Rest(x.piece, LongRest, b.timing.longRestMs)];
    assert [x, y][..1] == [x] && [x][..0] == [];
    assert ResolveAll(b, [x]) == Outcome(one.arb, [] + one.events);
    assert ResolveOne(one.arb, y).events == [Landing(y), Rest(y.piece, LongRest, b.timing.longRestMs)];
  }

  lemma PairTick(a: Arbiter, x: Motion, y: Motion)
    requires x.Move? && y.Move? && x.remaining <= 0 && y.remaining <= 0 && !Clash(x, y)
    requires Elapsed(a.motions, 1) == [x, y] && a.rests == [] && a.airborne == None
    ensures AdvanceTime(a, 1).events == ResolveAll(a.(motions := []), [x, y]).events
  {
    PairSchedule(x, y);
    AdvancePhases(a, 1);
    assert Resolving(a, 1) == a.(motions := []);
    assert Strikes([x, y], []) == [];
  }

  lemma RaceTick()
    ensures AdvanceTime(Race().arb, 1).events == RaceEvents()
  {
    var a := Race().arb;
    var x, y := Move(ROOK, HOME, CORNER, 0), Move(BISHOP, CORNER, FAR, 0);
    assert Elapsed(a.motions, 1) == [x, y];
    PairTick(a, x, y);
    PairResolved(a.(motions := []), x, y);
  }

  lemma RaceGrids()
    ensures Relocate(map[HOME := "a", CORNER := "b"], HOME, CORNER).0 == map[CORNER := "a"]
    ensures Relocate(map[CORNER := "a"], CORNER, FAR).0 == map[FAR := "a"]
  {
  }

  lemma RaceValid()
    ensures Valid(Race()) && Anchored(Race())
  {
    assert "a" != "b" by { assert "a"[0] != "b"[0]; }
  }

  lemma StepGrid(v: World, es: seq<Event>, k: nat)
    requires BoardCoherent(v.board, v.pieces) && AllKnown(v, es) && k < |es| && AllKnown(v, es[..k])
    requires ApplyAll(v, es[..k]).ok && !es[k].Elimination? && Applicable(ApplyAll(v, es[..k]).world, es[k])
    ensures AllKnown(v, es[..k + 1]) && ApplyAll(v, es[..k + 1]).ok
    ensures ApplyAll(v, es[..k + 1]).world.board.grid ==
            var g := ApplyAll(v, es[..k]).world.board.grid;
            if es[k].Arrival? then Relocate(g, es[k].fromPos, es[k].destination).0 else g
  {
    ApplyNext(v, es, k);
  }

  lemma FirstArrival(v: World, es: seq<Event>, g: map<Position, PieceId>)
    requires BoardCoherent(v.board, v.pieces) && AllKnown(v, es) && |es| == 4
    requires es[0].Arrival? && es[0].fromPos in v.board.grid && es[1].Rest?
    requires g == Relocate(v.board.grid, es[0].fromPos, es[0].destination).0
    ensures AllKnown(v, es[..2]) && ApplyAll(v, es[..2]).ok && ApplyAll(v, es[..2]).world.board.grid == g
  {
    assert es[..0] == [] && ApplyAll(v, []) == Batch(v, [], true);
    StepGrid(v, es, 0);
    StepGrid(v, es, 1);
  }

  /** After the rook's arrival and rest, the rook stands where the bishop's motion starts. */
  lemma RaceHalf()
    ensures Valid(Race()) && AllKnown(Ticked(Race(), 1), RaceEvents()) && AllKnown(Ticked(Race(), 1), RaceEvents()[..2])
    ensures ApplyAll(Ticked(Race(), 1), RaceEvents()[..2]).ok
    ensures ApplyAll(Ticked(Race(), 1), RaceEvents()[..2]).world.board.grid == map[CORNER := "a"]
  {
    RaceTick();
    RaceValid();
    RaceGrids();
    FirstArrival(Ticked(Race(), 1), RaceEvents(), map[CORNER := "a"]);
  }

  lemma LastRest(v: World, es: seq<Event>)
    requires BoardCoherent(v.board, v.pieces) && AllKnown(v, es) && |es| == 4 && AllKnown(v, es[..3])
    requires ApplyAll(v, es[..3]).ok && es[3].Rest?
    ensures ApplyAll(v, es).ok && ApplyAll(v, es).world.board.grid == ApplyAll(v, es[..3]).world.board.grid
  {
    StepGrid(v, es, 3);
    assert es[..4] == es;
  }

  lemma SecondArrival(v: World, es: seq<Event>)
    requires BoardCoherent(v.board, v.pieces) && AllKnown(v, es) && |es| == 4 && AllKnown(v, es[..2])
    requires ApplyAll(v, es[..2]).ok && ApplyAll(v, es[..2]).world.board.grid == map[CORNER := "a"]
    requires es[2].Arrival? && es[2].fromPos == CORNER && es[2].destination == FAR && es[3].Rest?
    ensures ApplyAll(v, es).ok && ApplyAll(v, es).world.board.grid == map[FAR := "a"]
  {
    RaceGrids();
    StepGrid(v, es, 2);
    var g := ApplyAll(v, es[..3]).world.board.grid;
    assert g == map[FAR := "a"];
    LastRest(v, es);
  }

  lemma RaceEnd()
    ensures Valid(Race()) && Wait(Race(), 1).ok && Wait(Race(), 1).world.board.grid == map[FAR := "a"]
  {
    RaceTick();
    RaceHalf();
    SecondArrival(Ticked(Race(), 1), RaceEvents());
  }

  lemma NotFaithful()
    ensures Valid(Race()) && !Faithful(Ticked(Race(), 1), AdvanceTime(Race().arb, 1).events)
  {
    RaceTick();
    RaceHalf();
    var v, es := Ticked(Race(), 1), RaceEvents();
    if Faithful(v, es) {
      FaithfulPrefix(v, es, 2);
      assert false;
    }
  }

  lemma RaceUnclean()
    ensures Valid(Race()) && !CleanTick(Race().arb, 1)
  {
    RaceValid();
    AnchoringExact(Race(), 1);
    NotFaithful();
  }

  // ----- how the game gets there -----

  lemma CornersSound(rook: PieceState, bishop: PieceState)
    ensures Sound(Corners(rook, bishop, []))
  {
    assert "a" != "b" by { assert "a"[0] != "b"[0]; }
  }

  lemma BeginningOpens()
    ensures Opening(Beginning()) && Sound(Beginning().world)
  {
    CornersSound(Idle, Idle);
    var w := Beginning().world;
    forall id | id in w.pieces ensures OnBoard(w, id) {
      assert w.board.grid[HOME] == "a" && w.board.grid[CORNER] == "b";
    }
  }

  /** A slide over one empty cell in the direction (dr, dc). */
  lemma TwoSteps(b: BoardState, p: Position, ds: seq<Direction>, j: nat, dr: int, dc: int)
    requires j < |ds| && ds[j] == (dr, dc) && InBounds(b, p) && InBounds(b, Position(p.row + 2 * dr, p.col + 2 * dc))
    requires Position(p.row + dr, p.col + dc) !in b.grid
    ensures Slides(b, p, ds, Position(p.row + 2 * dr, p.col + 2 * dc))
  {
    var q := Position(p.row + 2 * dr, p.col + 2 * dc);
    assert Along(p, ds[j], 1) == Position(p.row + dr, p.col + dc);
    forall i | 1 <= i < 2 ensures Along(p, ds[j], i) !in b.grid {
      assert i == 1;
    }
    RayFromBoard(b, p, ds[j], 2, q);
    assert OnRay(b, p, ds[j], q);
  }

  lemma Accepted(w: World, p: Position, q: Position)
    requires BoardCoherent(w.board, w.pieces) && !w.gameOver && p in w.board.grid && !Busy(w, w.board.grid[p])
    requires Validate(w.board, w.pieces, w.allowFriendly, p, q) == Legal
    ensures var id := w.board.grid[p];
            RequestMove(w, p, q) == (w.(arb := StartMotion(w.arb, TokenOf(w, id), p, q),
                                        pieces := SetState(w.pieces, id, PieceState.Moving)), Ok)
  {
  }

  /** The worlds after the first and after both requests. */
  function Started(): World {
    Corners(PieceState.Moving, Idle, [Move(ROOK, HOME, CORNER, 1000)])
  }

  function Parted(): World {
    Corners(PieceState.Moving, PieceState.Moving, [Move(ROOK, HOME, CORNER, 1000), Move(BISHOP, CORNER, FAR, 1000)])
  }

  lemma RookRoad(b: BoardState)
    requires b.width == 3 && b.height == 3 && Position(0, 1) !in b.grid
    ensures Slides(b, HOME, ROOK_DIRECTIONS, CORNER)
  {
    TwoSteps(b, HOME, ROOK_DIRECTIONS, 0, 0, 1);
  }

  lemma BishopRoad(b: BoardState)
    requires b.width == 3 && b.height == 3 && Position(1, 1) !in b.grid
    ensures Slides(b, CORNER, BISHOP_DIRECTIONS, FAR)
  {
    TwoSteps(b, CORNER, BISHOP_DIRECTIONS, 1, 1, -1);
  }

  /** A slide onto an empty or enemy cell is legal. */
  lemma SlideLegal(b: BoardState, pieces: map<PieceId, PieceRec>, p: Position, ds: seq<Direction>, q: Position)
    requires BoardCoherent(b, pieces) && p in b.grid && InBounds(b, q) && Slides(b, p, ds, q)
    requires q in b.grid ==> pieces[b.grid[q]].color != pieces[b.grid[p]].color
    requires var kind := pieces[b.grid[p]].kind;
             if kind == Rook then ds == ROOK_DIRECTIONS else kind == Bishop && ds == BISHOP_DIRECTIONS
    ensures Validate(b, pieces, false, p, q) == Legal
  {
  }

  lemma RookLegal()
    ensures var w := Beginning().world;
            BoardCoherent(w.board, w.pieces) && Validate(w.board, w.pieces, w.allowFriendly, HOME, CORNER) == Legal
  {
    CornersSound(Idle, Idle);
    var w := Beginning().world;
    assert "a" != "b" by { assert "a"[0] != "b"[0]; }
    RookRoad(w.board);
    SlideLegal(w.board, w.pieces, HOME, ROOK_DIRECTIONS, CORNER);
  }

  lemma BishopLegal()
    ensures var w := Started();
            BoardCoherent(w.board, w.pieces) && Validate(w.board, w.pieces, w.allowFriendly, CORNER, FAR) == Legal
  {
    CornersSound(PieceState.Moving, Idle);
    var w := Started();
    assert "a" != "b" by { assert "a"[0] != "b"[0]; }
    BishopRoad(w.board);
    SlideLegal(w.board, w.pieces, CORNER, BISHOP_DIRECTIONS, FAR);
  }

  lemma StatesSet(rook: PieceState, bishop: PieceState, motions: seq<Motion>)
    ensures SetState(Corners(rook, bishop, motions).pieces, "a", PieceState.Moving)
         == Corners(PieceState.Moving, bishop, motions).pieces
    ensures SetState(Corners(rook, bishop, motions).pieces, "b", PieceState.Moving)
         == Corners(rook, PieceState.Moving, motions).pieces
  {
    assert "a" != "b" by { assert "a"[0] != "b"[0]; }
  }

  lemma MotionsStarted()
    ensures StartMotion(Beginning().world.arb, ROOK, HOME, CORNER) == Started().arb
    ensures StartMotion(Started().arb, BISHOP, CORNER, FAR) == Parted().arb
  {
  }

  lemma RookLeaves()
    ensures BoardCoherent(Beginning().world.board, Beginning().world.pieces)
    ensures RequestMove(Beginning().world, HOME, CORNER) == (Started(), Ok)
  {
    var w := Beginning().world;
    RookLegal();
    assert w.board.grid[HOME] == "a" && !Busy(w, "a") && TokenOf(w, "a") == ROOK;
    Accepted(w, HOME, CORNER);
    StatesSet(Idle, Idle, []);
    MotionsStarted();
  }

  lemma BishopFree()
    ensures var w := Started();
            CORNER in w.board.grid && w.board.grid[CORNER] == "b" && !Busy(w, "b") && TokenOf(w, "b") == BISHOP
  {
    assert "a" != "b" by { assert "a"[0] != "b"[0]; }
  }

  lemma BishopLeaves()
    ensures BoardCoherent(Started().board, Started().pieces)
    ensures RequestMove(Started(), CORNER, FAR) == (Parted(), Ok)
  {
    BishopLegal();
    BishopFree();
    Accepted(Started(), CORNER, FAR);
    StatesSet(PieceState.Moving, Idle, Started().arb.motions);
    MotionsStarted();
  }

  lemma PartedTicks()
    requires Sound(Parted())
    ensures Wait(Parted(), 999) == Batch(Race(), [], true) && CleanTick(Parted().arb, 999)
  {
    QuietWait(Parted(), 999, Race());
  }

  /** A tick that everything outlasts only shortens the motions. */
  lemma QuietWait(w: World, ms: int, v: World)
    requires Valid(w) && Outlasts(w.arb, ms) && w.arb.rests == []
    requires v == w.(arb := w.arb.(motions := Elapsed(w.arb.motions, ms)))
    ensures Wait(w, ms) == Batch(v, [], true) && CleanTick(w.arb, ms)
  {
    QuietTick(w.arb, ms);
    assert AdvanceTime(w.arb, ms) == Outcome(v.arb, []);
    assert Mark(w.pieces, []) == w.pieces;
  }

  lemma RunNext(g: Game, cs: seq<Command>, c: Command)
    requires Sound(g.world) && g.ok && Run(g, cs).ok
    ensures Run(g, cs + [c]) == Perform(Run(g, cs), c)
    ensures CleanRun(g, cs + [c]) <==> CleanRun(g, cs) && (c.Pass? ==> CleanTick(Run(g, cs).world.arb, c.ms))
  {
    assert (cs + [c])[..|cs|] == cs;
  }

  /** Two requests and a clean tick without events. */
  lemma ThreeSteps(g: Game, c: Command, d: Command, ms: int, v: World, w: World, x: World)
    requires Sound(g.world) && g.ok && c.Request? && d.Request?
    requires v == RequestMove(g.world, c.source, c.destination).0 && Sound(v)
    requires w == RequestMove(v, d.source, d.destination).0 && Sound(w)
    requires Wait(w, ms) == Batch(x, [], true) && CleanTick(w.arb, ms)
    ensures var cs := [c, d, Pass(ms)]; CleanRun(g, cs) && Run(g, cs).ok && Run(g, cs).world == x
  {
    assert Run(g, []) == g && CleanRun(g, []);
    RunNext(g, [], c);
    assert [] + [c] == [c];
    RunNext(g, [c], d);
    assert [c] + [d] == [c, d];
    RunNext(g, [c, d], Pass(ms));
    assert [c, d] + [Pass(ms)] == [c, d, Pass(ms)];
  }

  /** Two accepted requests and a clean tick lead to the race. */
  lemma RoadToRace()
    ensures Sound(Beginning().world)
    ensures CleanRun(Beginning(), LEAD_UP) && Run(Beginning(), LEAD_UP).ok
    ensures Run(Beginning(), LEAD_UP).world == Race()
  {
    BeginningOpens();
    RookLeaves();
    MoveSound(Beginning().world, HOME, CORNER);
    BishopLeaves();
    MoveSound(Started(), CORNER, FAR);
    PartedTicks();
    ThreeSteps(Beginning(), Request(HOME, CORNER), Request(CORNER, FAR), 999, Started(), Parted(), Race());
  }

  lemma LastTick(g: Game)
    requires g.world == Race() && g.ok && Sound(g.world)
    ensures Perform(g, Pass(1)).ok && Perform(g, Pass(1)).world.board.grid == map[FAR := "a"]
  {
    RaceEnd();
    TickGoesOn(g, 1);
  }

  lemma LastStep(g: Game, cs: seq<Command>)
    requires Sound(g.world) && g.ok && Run(g, cs).ok && Run(g, cs).world == Race()
    ensures Run(g, cs + [Pass(1)]).ok && Run(g, cs + [Pass(1)]).world.board.grid == map[FAR := "a"]
  {
    LastTick(Run(g, cs));
    RunNext(g, cs, Pass(1));
  }

  /** From an opening, two accepted requests and 999 ms lead by a clean run to a tick that is not clean: in it the
      bishop's own arrival moves the rook, and the bishop is gone. */
  lemma UncleanTickMovesWrongPiece()
    ensures Opening(Beginning()) && Sound(Beginning().world)
    ensures CleanRun(Beginning(), LEAD_UP) && Run(Beginning(), LEAD_UP).ok
    ensures !CleanTick(Run(Beginning(), LEAD_UP).world.arb, 1)
    ensures Run(Beginning(), LEAD_UP + [Pass(1)]).ok
    ensures Run(Beginning(), LEAD_UP + [Pass(1)]).world.board.grid == map[FAR := "a"]
  {
    BeginningOpens();
    RoadToRace();
    RaceUnclean();
    LastStep(Beginning(), LEAD_UP);
  }
}
