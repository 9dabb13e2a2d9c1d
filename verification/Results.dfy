/**
 What the analyses record, in terms of paths alone.
 */
module Results {
  import opened Ast
  import opened FlowValues
  import opened Flow
  import opened Descent
  import opened Convergence
  import opened Control
  import opened ControlFacts
  import opened Facts
  import opened BackwardPaths
  import opened ForwardPaths
  import BE = BackwardExact
  import FE = ForwardExact
  import opened Bridge
  import opened Bounds

  // What IterateDataFlow shows the client in its final pass.
  ghost function FinalVisits(P: Problem, dir: Direction, p: Proc, cells: Cells): set<Visit>
    requires JumpsInside(p) && P.proc == p.id
  {
    OnePass(P, dir, p, State(Converge(P, dir, p, Started(p, cells)).cells, false, true, {})).visits
  }

  // The client is shown bit b at the exit of node n.
  ghost predicate Shown(visits: set<Visit>, n: nat, b: Bit) {
    exists v :: Visit(n, ExitPoint, v) in visits && Has(v, b)
  }

  // ---------- Well-formed procedures jump inside themselves ----------

  lemma {:induction false} PlaceCells(s: Stmt, k: Cont, q: Place)
    requires q in Places(s, k)
    ensures OwnCells(q.s) <= OwnCells(s)
  {
    if q != Place(s, k) {
      match s
      case Then(first, rest) =>
        if q in Places(rest, k) { PlaceCells(rest, k, q); } else { PlaceCells(first, Seq(rest, k), q); }
      case Block(_, items) => PlaceCells(items, k, q);
      case If(_, _, yes, no) => if q in Places(yes, k) { PlaceCells(yes, k, q); } else { PlaceCells(no, k, q); }
      case Switch(_, _, _, body) => PlaceCells(body, InSwitch(s, k), q);
      case While(_, _, body) => PlaceCells(body, InLoop(s, k), q);
      case Do(_, body, _) => PlaceCells(body, InLoop(s, k), q);
      case For(_, _, _, _, body) => PlaceCells(body, InLoop(s, k), q);
    }
  }

  // A jump flows into a cell of its target.
  lemma JumpInside(p: Proc, s: Stmt, k: Cont)
    requires LabelsDefined(p) && Placed(p, s, k) && (s.Goto? || s.Break? || s.Continue? || s.Case? || s.Default?)
    ensures CellsWritten(p.id, s) <= ProcCells(p)
  {
    hide Places;
    assert Place(s, k) in AllPlaces(p) by { OwnPlace(p, s, k); }
    match s
    case Goto(_, d) =>
      var k' :| Place(Label(d), k') in AllPlaces(p);
      PlaceCells(p.body, Stop, Place(Label(d), k'));
    case Break(_, _) =>
      BreakFramePlaced(p, k);
      var f := BreakFrame(k);
      PlaceCells(p.body, Stop, Place(if f.InLoop? then f.loop else f.sw, f.k));
    case Continue(_, _) =>
      LoopFramePlaced(p, k);
      PlaceCells(p.body, Stop, Place(LoopFrame(k).loop, LoopFrame(k).k));
    case Case(_, _, _) =>
      SwitchFramePlaced(p, k);
      PlaceCells(p.body, Stop, Place(SwitchFrame(k).sw, SwitchFrame(k).k));
    case Default(_, _) =>
      SwitchFramePlaced(p, k);
      PlaceCells(p.body, Stop, Place(SwitchFrame(k).sw, SwitchFrame(k).k));
  }

  lemma OwnPlace(p: Proc, s: Stmt, k: Cont)
    requires Places(s, k) <= AllPlaces(p)
    ensures Place(s, k) in AllPlaces(p)
  {
    assert Place(s, k) in Places(s, k);
  }

  lemma {:induction false} WritesInside(p: Proc, s: Stmt, k: Cont)
    requires LabelsDefined(p) && Placed(p, s, k)
    ensures CellsWritten(p.id, s) <= ProcCells(p)
  {
    OwnPlace(p, s, k);
    PlaceCells(p.body, Stop, Place(s, k));
    match s
    case Then(first, rest) => WritesInside(p, first, Seq(rest, k)); WritesInside(p, rest, k);
    case Block(_, items) => WritesInside(p, items, k);
    case If(_, _, yes, no) => WritesInside(p, yes, k); WritesInside(p, no, k);
    case Switch(_, _, _, body) => WritesInside(p, body, InSwitch(s, k));
    case While(_, _, body) => WritesInside(p, body, InLoop(s, k));
    case Do(_, body, _) => WritesInside(p, body, InLoop(s, k));
    case For(_, _, _, _, body) => WritesInside(p, body, InLoop(s, k));
    case Return(_, _) =>
    case Label(_) =>
    case Null | Eval(_) | Decl(_, _) | Spawn(_, _, _, _, _) | Sync(_) =>
    case _ => JumpInside(p, s, k);
  }

  lemma WellFormedJumpsInside(p: Proc)
    requires WellFormed(p)
    ensures JumpsInside(p)
  {
    BE.WholePlaced(p);
    WritesInside(p, p.body, Stop);
  }

  // ---------- Common to both directions ----------

  // The cells with bit b, and the marks of the visits that show it.
  ghost function Holding(b: Bit, cells: Cells, V: set<Visit>): set<Cell> {
    (set x | x in cells && x.field != ExitMark && Has(cells[x], b)) +
    (set v | v in V && v.point == ExitPoint && Has(v.value, b) :: Cell(v.node, ExitMark))
  }

  lemma HoldingMatches(b: Bit, cells: Cells, V: set<Visit>)
    ensures Matches(Holding(b, cells, V), b, cells, V)
  {
    var c := Holding(b, cells, V);
    forall n, v | Visit(n, ExitPoint, v) in V && Has(v, b) ensures Cell(n, ExitMark) in c {
      var w := Visit(n, ExitPoint, v);
      assert w in V && w.point == ExitPoint && Has(w.value, b);
    }
  }

  lemma MarkMeansShown(b: Bit, cells: Cells, V: set<Visit>, n: nat)
    requires Cell(n, ExitMark) in Holding(b, cells, V)
    ensures Shown(V, n, b)
  {
    var v :| v in V && v.point == ExitPoint && Has(v.value, b) && Cell(v.node, ExitMark) == Cell(n, ExitMark);
    assert Visit(n, ExitPoint, v.value) in V;
  }

  lemma StartBelow(c: set<Cell>, b: Bit, p: Proc, cells: Cells)
    ensures Below(c, b, ProcCells(p), Started(p, cells))
  {
    forall x: Cell | x in ProcCells(p) ensures !Has(Get(Started(p, cells).cells, x), b) {
      InitPointsMeaning(p.body, cells, x);
    }
  }

  // The final pass starts from a solution, below any bound the passes keep.
  lemma Final(P: Problem, dir: Direction, p: Proc, cells: Cells) returns (st: State)
    requires P.proc == p.id && JumpsInside(p)
    ensures st == State(Converge(P, dir, p, Started(p, cells)).cells, false, true, {})
    ensures OnePass(P, dir, p, st).cells == st.cells && !OnePass(P, dir, p, st).changed
  {
    ConvergesToSolution(P, dir, p, Started(p, cells));
    st := State(Converge(P, dir, p, Started(p, cells)).cells, false, true, {});
    FinalPassChangesNothing(P, dir, p, st.cells, {});
  }

  // ---------- Backward ----------

  lemma {:induction false} BackwardStaysBelow(P: Problem, b: Bit, F: Fact, p: Proc, c: set<Cell>, st: State)
    requires JumpsInside(p) && LikeProc(P, b, F, p, false)
    requires BeforeOk(F, c, p.body, false) && (BeforeStmt(F, c, p.body, false) ==> Cell(p.id, ReturnValues) in c)
    requires Below(c, b, ProcCells(p), st)
    ensures Below(c, b, ProcCells(p), Converge(P, Backwards, p, st))
    decreases Total(ProcCells(p), st.cells), if st.changed then 1 else 0
  {
    hide LikeStmt;
    if st.changed {
      var start := st.(changed := false);
      BackwardPassBelow(P, b, F, p, c, start);
      OnePassKeeps(P, Backwards, p, start, Cell(0, LabelValues));
      BackwardStaysBelow(P, b, F, p, c, OnePass(P, Backwards, p, start));
    }
  }

  lemma BackwardPassBelow(P: Problem, b: Bit, F: Fact, p: Proc, c: set<Cell>, st: State)
    requires JumpsInside(p) && LikeProc(P, b, F, p, false)
    requires BeforeOk(F, c, p.body, false) && (BeforeStmt(F, c, p.body, false) ==> Cell(p.id, ReturnValues) in c)
    requires Below(c, b, ProcCells(p), st)
    ensures Below(c, b, ProcCells(p), BackwardProc(P, p, st))
  {
    hide LikeStmt;
    hide BeforeOk;
    hide BeforeStmt;
    BackwardBounds(P, b, F, p, p.body, c, ProcCells(p));
    FlowBelow(c, b, ProcCells(p));
    var a := RecordAt(st, ProcNode(p), ExitPoint, P.init);
    BackwardBoundOf(P, b, F, p, p.body, c, ProcCells(p), P.trans(ProcNode(p), ExitPoint, P.init), a, false);
  }

  /** A backward gen/kill analysis is exact: the client is shown a fact at the exit of a
      statement if and only if some path from there generates it before killing it. */
  lemma BackwardAnalysisExact(P: Problem, b: Bit, F: Fact, p: Proc, cells: Cells, q: Place)
    requires WellFormed(p) && JumpsInside(p) && LikeProc(P, b, F, p, false)
    requires q in AllPlaces(p) && HasId(q.s)
    ensures Shown(FinalVisits(P, Backwards, p, cells), q.s.id, b) <==> BE.Live(F, p, BE.LiveAt(q, ExitMark))
  {
    var visits := FinalVisits(P, Backwards, p, cells);
    if Shown(visits, q.s.id, b) {
      BackwardShownLive(P, b, F, p, cells, q);
    }
    if BE.Live(F, p, BE.LiveAt(q, ExitMark)) {
      BackwardLiveShown(P, b, F, p, cells, q);
    }
  }

  lemma BackwardShownLive(P: Problem, b: Bit, F: Fact, p: Proc, cells: Cells, q: Place)
    requires WellFormed(p) && JumpsInside(p) && LikeProc(P, b, F, p, false)
    requires q in AllPlaces(p) && HasId(q.s) && Shown(FinalVisits(P, Backwards, p, cells), q.s.id, b)
    ensures BE.Live(F, p, BE.LiveAt(q, ExitMark))
  {
    hide LikeStmt;
    hide BeforeOk;
    hide BeforeStmt;
    hide BE.Live;
    var c := BE.LiveCells(F, p);
    BE.LiveCellsSolve(F, p);
    StartBelow(c, b, p, cells);
    BackwardStaysBelow(P, b, F, p, c, Started(p, cells));
    var st := Final(P, Backwards, p, cells);
    ConvergesToSolution(P, Backwards, p, Started(p, cells));
    BackwardPassBelow(P, b, F, p, c, st);
    BE.CellOfPlace(F, p, q, ExitMark);
  }

  lemma BackwardLiveShown(P: Problem, b: Bit, F: Fact, p: Proc, cells: Cells, q: Place)
    requires WellFormed(p) && JumpsInside(p) && LikeProc(P, b, F, p, false)
    requires q in AllPlaces(p) && HasId(q.s) && BE.Live(F, p, BE.LiveAt(q, ExitMark))
    ensures Shown(FinalVisits(P, Backwards, p, cells), q.s.id, b)
  {
    hide LikeStmt;
    var st := Final(P, Backwards, p, cells);
    var a := RecordAt(st, ProcNode(p), ExitPoint, P.init);
    var v := P.trans(ProcNode(p), ExitPoint, P.init);
    var V := OnePass(P, Backwards, p, st).visits;
    var c := Holding(b, st.cells, V);
    HoldingMatches(b, st.cells, V);
    BackwardSolves(P, b, F, p, p.body, st.cells, c, V);
    assert Quiet(Backward(P, p.body, v, a).0, st.cells, V);
    assert BackwardMeets(P, b, F, p, p.body, st.cells, c, V, v, a);
    BackwardMarked(F, p, c, q);
    MarkMeansShown(b, st.cells, V, q.s.id);
  }

  lemma BackwardMarked(F: Fact, p: Proc, c: set<Cell>, q: Place)
    requires WellFormed(p) && BeforeOk(F, c, p.body, false)
    requires q in AllPlaces(p) && HasId(q.s) && BE.Live(F, p, BE.LiveAt(q, ExitMark))
    ensures Cell(q.s.id, ExitMark) in c
  {
    hide IsRun;
    assert PlaceOk(F, c, p.body, Stop);
    PlacesAreOk(F, c, p.body, Stop, q);
    var a := BE.LiveAt(q, ExitMark);
    var path :| IsRun(p, a, path) && Before(F, TraceOf(path), false);
    PathsCovered(F, c, p, a, path);
  }

  // ---------- Forward ----------

  lemma {:induction false} ForwardStaysBelow(P: Problem, b: Bit, F: Fact, p: Proc, c: set<Cell>, init: bool, st: State)
    requires JumpsInside(p) && LikeProc(P, b, F, p, init)
    requires AfterOk(F, p, c, p.body, init) && (AfterStmt(F, c, p.body, init) ==> Cell(p.id, ReturnValues) in c)
    requires Below(c, b, ProcCells(p), st) && !st.final
    ensures Below(c, b, ProcCells(p), Converge(P, Forwards, p, st))
    decreases Total(ProcCells(p), st.cells), if st.changed then 1 else 0
  {
    hide LikeStmt;
    if st.changed {
      var start := st.(changed := false);
      ForwardPassBelow(P, b, F, p, c, init, start);
      OnePassKeeps(P, Forwards, p, start, Cell(0, LabelValues));
      ForwardStaysBelow(P, b, F, p, c, init, OnePass(P, Forwards, p, start));
    }
  }

  // What a pass yields at the end of the body.
  ghost function BodyEnd(P: Problem, p: Proc, st: State): (State, FlowValue) {
    Forward(P, p.body, P.trans(ProcNode(p), EntryPoint, P.init), RecordAt(st, ProcNode(p), EntryPoint, P.init))
  }

  lemma ForwardPassBelow(P: Problem, b: Bit, F: Fact, p: Proc, c: set<Cell>, init: bool, st: State)
    requires JumpsInside(p) && LikeProc(P, b, F, p, init)
    requires AfterOk(F, p, c, p.body, init) && (AfterStmt(F, c, p.body, init) ==> Cell(p.id, ReturnValues) in c)
    requires Below(c, b, ProcCells(p), st)
    ensures Below(c, b, ProcCells(p), BodyEnd(P, p, st).0)
    ensures Has(BodyEnd(P, p, st).1, b) ==> Cell(p.id, ReturnValues) in c
    ensures !st.final ==> Below(c, b, ProcCells(p), ForwardProc(P, p, st))
  {
    hide LikeStmt;
    hide AfterOk;
    hide AfterStmt;
    ForwardBounds(P, b, F, p, p.body, c, ProcCells(p));
    FlowBelow(c, b, ProcCells(p));
    var a := RecordAt(st, ProcNode(p), EntryPoint, P.init);
    ForwardBoundOf(P, b, F, p, p.body, c, ProcCells(p), P.trans(ProcNode(p), EntryPoint, P.init), a, init);
  }

  /** A forward gen/kill analysis is exact: the client is shown a fact at the exit of a
      declaration, spawn, sync, return or jump if and only if the operands of the statement
      let the fact through from some path to the statement, or generate it themselves. */
  lemma ForwardAnalysisExact(P: Problem, b: Bit, F: Fact, p: Proc, init: bool, cells: Cells, q: Place)
    requires WellFormed(p) && JumpsInside(p) && LikeProc(P, b, F, p, init)
    requires q in AllPlaces(p) && FE.ShowsOperands(q.s)
    ensures Shown(FinalVisits(P, Forwards, p, cells), q.s.id, b)
       <==> ForwardPaths.AtExit(F, {}, q.s, FE.Reached(F, p, init, Run(q.s, q.k)))
  {
    hide *;
    ForwardShown(P, b, F, p, init, cells, q);
    ForwardReachedShown(P, b, F, p, init, cells, q);
  }

  lemma ForwardShown(P: Problem, b: Bit, F: Fact, p: Proc, init: bool, cells: Cells, q: Place)
    requires WellFormed(p) && JumpsInside(p) && LikeProc(P, b, F, p, init)
    requires q in AllPlaces(p) && FE.ShowsOperands(q.s)
    ensures Shown(FinalVisits(P, Forwards, p, cells), q.s.id, b)
        ==> ForwardPaths.AtExit(F, {}, q.s, FE.Reached(F, p, init, Run(q.s, q.k)))
  {
    hide LikeStmt;
    hide AfterOk;
    hide AfterStmt;
    hide FE.Reached;
    var c := FE.ReachedCells(F, p, init);
    FE.ReachedCellsSolve(F, p, init);
    StartBelow(c, b, p, cells);
    ForwardStaysBelow(P, b, F, p, c, init, Started(p, cells));
    var st := Final(P, Forwards, p, cells);
    ConvergesToSolution(P, Forwards, p, Started(p, cells));
    ForwardPassBelow(P, b, F, p, c, init, st);
    FE.CellOfPlace(F, p, init, q, ExitMark);
    if Shown(FinalVisits(P, Forwards, p, cells), q.s.id, b) {
      var v :| Visit(q.s.id, ExitPoint, v) in FinalVisits(P, Forwards, p, cells) && Has(v, b);
      assert q.s.id != p.id;
      assert Visit(q.s.id, ExitPoint, v) in BodyEnd(P, p, st).0.visits;
    }
  }

  // What the final pass starts from, holds and shows.
  lemma ForwardSettled(P: Problem, b: Bit, F: Fact, p: Proc, init: bool, cells: Cells) returns (c: set<Cell>)
    requires WellFormed(p) && JumpsInside(p) && LikeProc(P, b, F, p, init)
    ensures forall n :: Cell(n, ExitMark) in c ==> Shown(FinalVisits(P, Forwards, p, cells), n, b)
    ensures AfterOk(F, p, c, p.body, init)
    ensures AfterStmt(F, c, p.body, init) ==> Cell(p.id, ReturnValues) in c
    ensures Cell(p.id, ReturnValues) in c ==> Shown(FinalVisits(P, Forwards, p, cells), p.id, b)
  {
    hide LikeStmt;
    hide AfterExpr;
    hide Across;
    hide AfterOk;
    hide AfterStmt;
    hide WellFormed;
    var st := Final(P, Forwards, p, cells);
    var v := P.trans(ProcNode(p), EntryPoint, P.init);
    var a := RecordAt(st, ProcNode(p), EntryPoint, P.init);
    var V := OnePass(P, Forwards, p, st).visits;
    c := Holding(b, st.cells, V);
    HoldingMatches(b, st.cells, V);
    var (m, w) := Forward(P, p.body, v, a);
    assert Quiet(m, st.cells, V);
    ForwardSolves(P, b, F, p, p.body, st.cells, c, V);
    assert ForwardMeets(P, b, F, p, p.body, st.cells, c, V, v, a);
    QuietFlow(m, Cell(p.id, ReturnValues), w, c, b, V);
    var r := FlowInto(m, Cell(p.id, ReturnValues), w).1;
    assert Visit(p.id, ExitPoint, r) in V;
    forall n | Cell(n, ExitMark) in c ensures Shown(V, n, b) {
      MarkMeansShown(b, st.cells, V, n);
    }
  }

  // The converged cells and the final visits solve the forward equations.
  lemma ForwardSolution(P: Problem, b: Bit, F: Fact, p: Proc, init: bool, cells: Cells) returns (c: set<Cell>)
    requires WellFormed(p) && JumpsInside(p) && LikeProc(P, b, F, p, init)
    ensures AtOk(F, p, c, Run(p.body, Stop), init)
    ensures forall n :: Cell(n, ExitMark) in c ==> Shown(FinalVisits(P, Forwards, p, cells), n, b)
    ensures Cell(p.id, ReturnValues) in c ==> Shown(FinalVisits(P, Forwards, p, cells), p.id, b)
  {
    hide LikeStmt;
    c := ForwardSettled(P, b, F, p, init, cells);
  }

  // The pass enters dead code without the fact.
  lemma StartAt(F: Fact, p: Proc, c: set<Cell>, start: Control)
    requires AllVisited(F, p, c) && FE.IsStart(p, start)
    ensures AtOk(F, p, c, start, false)
  {
    hide AfterExpr;
    hide Across;
    match start
    case Run(s, k) => assert Place(s, k) in AllPlaces(p);
    case Test(l, k) => assert Place(l, k) in AllPlaces(p); assert AtOk(F, p, c, Run(l, k), false);
    case Skip(k) => assert Place(k.loop, k.k) in AllPlaces(p); assert AtOk(F, p, c, Run(k.loop, k.k), false);
  }

  lemma ReachedAt(F: Fact, p: Proc, c: set<Cell>, init: bool, a: Control)
    requires AtOk(F, p, c, Run(p.body, Stop), init) && FE.Reached(F, p, init, a)
    ensures AtOk(F, p, c, a, true)
  {
    hide AtOk;
    hide IsRun;
    hide Places;
    AllPlacesAt(F, p, c, init);
    if FE.Brings(F, p, Run(p.body, Stop), init, a) {
      var path :| IsRun(p, Run(p.body, Stop), path) && End(Run(p.body, Stop), path) == a && After(F, TraceOf(path), init);
      var now := PathsKept(F, p, c, Run(p.body, Stop), init, path);
    } else {
      var start :| FE.IsStart(p, start) && FE.Brings(F, p, start, false, a);
      StartAt(F, p, c, start);
      var path :| IsRun(p, start, path) && End(start, path) == a && After(F, TraceOf(path), false);
      var now := PathsKept(F, p, c, start, false, path);
    }
  }

  lemma ForwardReachedShown(P: Problem, b: Bit, F: Fact, p: Proc, init: bool, cells: Cells, q: Place)
    requires WellFormed(p) && JumpsInside(p) && LikeProc(P, b, F, p, init)
    requires q in AllPlaces(p) && FE.ShowsOperands(q.s)
    ensures ForwardPaths.AtExit(F, {}, q.s, FE.Reached(F, p, init, Run(q.s, q.k)))
        ==> Shown(FinalVisits(P, Forwards, p, cells), q.s.id, b)
  {
    hide LikeStmt;
    hide AtOk;
    hide FE.Reached;
    hide FinalVisits;
    hide Places;
    var c := ForwardSolution(P, b, F, p, init, cells);
    AllPlacesAt(F, p, c, init);
    var now := FE.Reached(F, p, init, Run(q.s, q.k));
    if now { ReachedAt(F, p, c, init, Run(q.s, q.k)); }
    PlaceMarked(F, p, c, q, now);
  }

  lemma PlaceMarked(F: Fact, p: Proc, c: set<Cell>, q: Place, now: bool)
    requires AtOk(F, p, c, Run(q.s, q.k), now) && FE.ShowsOperands(q.s)
    ensures ForwardPaths.AtExit(F, {}, q.s, now) ==> Cell(q.s.id, ExitMark) in c
  {
    hide AfterExpr;
    hide Across;
    FE.ExitGrows(F, q.s);
    assert ForwardPaths.AtExit(F, c, q.s, now) == ForwardPaths.AtExit(F, {}, q.s, now);
  }

  /** At the exit of the procedure the client is shown a fact if and only if some path to
      the exit brings it there. */
  lemma ForwardExitExact(P: Problem, b: Bit, F: Fact, p: Proc, init: bool, cells: Cells)
    requires WellFormed(p) && JumpsInside(p) && LikeProc(P, b, F, p, init)
    ensures Shown(FinalVisits(P, Forwards, p, cells), p.id, b) <==> FE.Reached(F, p, init, Halt)
  {
    hide LikeStmt;
    hide AfterOk;
    hide AfterStmt;
    hide FE.Reached;
    var st := Final(P, Forwards, p, cells);
    var c := ForwardSolution(P, b, F, p, init, cells);
    var d := FE.ReachedCells(F, p, init);
    FE.ReachedCellsSolve(F, p, init);
    StartBelow(d, b, p, cells);
    ForwardStaysBelow(P, b, F, p, d, init, Started(p, cells));
    ConvergesToSolution(P, Forwards, p, Started(p, cells));
    ForwardPassBelow(P, b, F, p, d, init, st);
    if FE.Reached(F, p, init, Halt) { ReachedAt(F, p, c, init, Halt); }
    if Shown(FinalVisits(P, Forwards, p, cells), p.id, b) {
      var v :| Visit(p.id, ExitPoint, v) in FinalVisits(P, Forwards, p, cells) && Has(v, b);
      assert Cell(p.id, ExitMark) !in d;
      assert Visit(p.id, ExitPoint, v) !in BodyEnd(P, p, st).0.visits;
      assert Has(Get(BodyEnd(P, p, st).0.cells, Cell(p.id, ReturnValues)), b) || Has(BodyEnd(P, p, st).1, b);
    }
  }
}
