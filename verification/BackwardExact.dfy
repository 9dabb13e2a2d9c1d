/**
 The converse: path sets themselves satisfy the backward equations, so the equations
 compute no more than the paths show.
 */
module BackwardExact {
  import opened Ast
  import opened Control
  import opened ControlFacts
  import opened Facts
  import opened BackwardPaths

  // Some path from a meets a generating event before any killing one.
  ghost predicate Live(F: Fact, p: Proc, a: Control) {
    exists path :: IsRun(p, a, path) && Before(F, TraceOf(path), false)
  }

  // The state whose liveness the field f of q shows: at its exit, a statement shows what follows it.
  ghost function LiveAt(q: Place, f: Field): Control {
    if f != ExitMark then ControlOf(q, f)
    else if q.s.Goto? || q.s.Break? || q.s.Continue? then Run(q.s, q.k)
    else if q.s.Return? then Halt
    else Skip(q.k)
  }

  // The cells and marks whose control state is live.
  ghost function LiveCells(F: Fact, p: Proc): set<Cell> {
    (set q, f | q in AllPlaces(p) && f in AllFields && HasId(q.s) && Live(F, p, LiveAt(q, f)) :: Cell(q.s.id, f)) +
    (if Live(F, p, Run(p.body, Stop)) then {Cell(p.id, ReturnValues)} else {})
  }

  lemma CellOfPlace(F: Fact, p: Proc, q: Place, f: Field)
    requires DistinctNodes(p) && q in AllPlaces(p) && HasId(q.s) && f != ReturnValues
    ensures Cell(q.s.id, f) in LiveCells(F, p) <==> Live(F, p, LiveAt(q, f))
  {
    assert f in AllFields;
  }

  // A step that leads to a live state, or meets the fact itself, starts in a live state.
  lemma StepLive(F: Fact, p: Proc, a: Control, t: Trace, b: Control, after: bool)
    requires Step(p, a, t, b) && Before(F, t, after) && (after ==> Live(F, p, b))
    ensures Live(F, p, a)
  {
    BeforeGrows(F, t);
    var rest: Path := [];
    if Live(F, p, b) {
      rest :| IsRun(p, b, rest) && Before(F, TraceOf(rest), false);
    }
    var path := [Move(t, b)] + rest;
    assert path[1..] == rest;
    BeforeSplit(F, t, TraceOf(rest), false);
    assert IsRun(p, a, path);
  }

  lemma OptWitness(F: Fact, o: OptExpr, b: bool) returns (t: Trace)
    ensures IsPathOpt(o, t) && Before(F, t, b) == BeforeOpt(F, o, b)
  {
    if o.NoExpr? { t := []; } else { t := BeforeWitness(F, o.e, b); }
  }

  lemma SpawnWitness(F: Fact, s: Stmt, b: bool) returns (t: Trace)
    requires s.Spawn?
    ensures IsSpawnPath(s, t)
    ensures Before(F, t, b) == BeforeReceiver(F, s, BeforeExpr(F, s.callee, BeforeExprs(F, s.args, b)))
  {
    var x := BeforeExprs(F, s.args, b);
    var y := BeforeExpr(F, s.callee, x);
    var w := BeforeWitnesses(F, s.args, b);
    var v := BeforeWitness(F, s.callee, x);
    var u := [];
    if !(s.receiver.TheExpr? && IsPlainTarget(s.op, s.receiver.e)) {
      u := OptWitness(F, s.receiver, y);
    }
    t := u + (v + w);
    ThreeParts(u, v, w);
    BeforeSplit(F, u, v + w, b);
    BeforeSplit(F, v, w, b);
  }

  // At a place of p, the equations hold for the live cells and compute only live facts.
  lemma {:induction false} ExactAt(F: Fact, p: Proc, s: Stmt, k: Cont, after: bool)
    requires DistinctNodes(p) && Placed(p, s, k) && (after ==> Live(F, p, Skip(k)))
    ensures BeforeOk(F, LiveCells(F, p), s, after)
    ensures BeforeStmt(F, LiveCells(F, p), s, after) ==> Live(F, p, Run(s, k))
    decreases s, 1
  {
    hide DistinctNodes;
    hide LiveCells;
    hide Live;
    assert Place(s, k) in Places(s, k);
    if HasId(s) { CellOfPlace(F, p, Place(s, k), ExitMark); }
    hide BeforeExpr;
    hide BeforeExprs;
    hide Across;
    hide IsPath;
    var c := LiveCells(F, p);
    match s
    case Then(first, rest) =>
      ExactAt(F, p, rest, k, after);
      var m := BeforeStmt(F, c, rest, after);
      if m { StepLive(F, p, Skip(Seq(rest, k)), [], Run(rest, k), true); }
      ExactAt(F, p, first, Seq(rest, k), m);
      if BeforeStmt(F, c, first, m) { StepLive(F, p, Run(s, k), [], Run(first, Seq(rest, k)), true); }
    case Block(_, items) =>
      ExactAt(F, p, items, k, after);
      if BeforeStmt(F, c, items, after) { StepLive(F, p, Run(s, k), [], Run(items, k), true); }
    case If(_, test, yes, no) =>
      ExactAt(F, p, yes, k, after);
      ExactAt(F, p, no, k, after);
      var y := BeforeStmt(F, c, yes, after);
      var b := y || BeforeStmt(F, c, no, after);
      var t := BeforeWitness(F, test, b);
      if BeforeExpr(F, test, b) { StepLive(F, p, Run(s, k), t, Run(if y then yes else no, k), b); }
    case Switch(_, _, _, _) => ExactSwitch(F, p, s, k, after);
    case While(_, _, _) => ExactWhile(F, p, s, k, after);
    case Do(_, _, _) => ExactDo(F, p, s, k, after);
    case For(_, _, _, _, _) => ExactFor(F, p, s, k, after);
    case _ => ExactLeaf(F, p, s, k, after);
  }

  lemma ExactLeaf(F: Fact, p: Proc, s: Stmt, k: Cont, after: bool)
    requires DistinctNodes(p) && Placed(p, s, k) && (after ==> Live(F, p, Skip(k)))
    requires !s.Then? && !s.Block? && !s.If? && !s.Switch? && !IsLoop(s)
    ensures BeforeOk(F, LiveCells(F, p), s, after)
    ensures BeforeStmt(F, LiveCells(F, p), s, after) ==> Live(F, p, Run(s, k))
  {
    hide LiveCells;
    hide Live;
    assert Place(s, k) in Places(s, k);
    if HasId(s) { CellOfPlace(F, p, Place(s, k), ExitMark); }
    hide BeforeExpr;
    hide BeforeExprs;
    hide Across;
    hide IsPath;
    var c := LiveCells(F, p);
    var a := Run(s, k);
    match s
    case Null => if after { StepLive(F, p, a, [], Skip(k), after); }
    case Eval(e) =>
      var t := BeforeWitness(F, e, after);
      if BeforeExpr(F, e, after) { StepLive(F, p, a, t, Skip(k), after); }
    case Decl(_, _) => ExactOperands(F, p, s, k, after);
    case Label(_) =>
      CellOfPlace(F, p, Place(s, k), LabelValues);
      if after { StepLive(F, p, a, [], Skip(k), after); }
    case Goto(_, _) => ExactGoto(F, p, s, k);
    case Break(_, _) => ExactBreak(F, p, s, k);
    case Continue(_, _) => ExactContinue(F, p, s, k);
    case Case(_, _, _) => ExactCase(F, p, s, k, after);
    case Default(_, _) => ExactCase(F, p, s, k, after);
    case Return(_, _) => ExactOperands(F, p, s, k, after);
    case Spawn(_, _, _, _, _) => ExactOperands(F, p, s, k, after);
    case Sync(_) =>
      One(F, Synced, after);
      if Across(F, Synced, after) { StepLive(F, p, a, [Synced], Skip(k), after); }
  }

  // Statements that act after their operands.
  lemma ExactOperands(F: Fact, p: Proc, s: Stmt, k: Cont, after: bool)
    requires DistinctNodes(p) && Placed(p, s, k) && (after ==> Live(F, p, Skip(k)))
    requires s.Decl? || s.Return? || s.Spawn?
    ensures BeforeOk(F, LiveCells(F, p), s, after)
    ensures BeforeStmt(F, LiveCells(F, p), s, after) ==> Live(F, p, Run(s, k))
  {
    hide DistinctNodes;
    hide IsSpawnPath;
    hide LiveCells;
    hide Live;
    assert Place(s, k) in Places(s, k);
    CellOfPlace(F, p, Place(s, k), ExitMark);
    hide BeforeExpr;
    hide BeforeExprs;
    hide Across;
    hide IsPath;
    var c := LiveCells(F, p);
    var a := Run(s, k);
    match s
    case Decl(_, init) =>
      var x := Across(F, DeclEvent(s), after);
      var u := OptWitness(F, init, x);
      var t := u + [DeclEvent(s)];
      assert t[..|t| - 1] == u;
      SplitLast(F, t, after);
      if BeforeOpt(F, init, x) { StepLive(F, p, a, t, Skip(k), after); }
    case Return(_, result) =>
      var x := Across(F, Returned, false);
      var u := OptWitness(F, result, x);
      var t := u + [Returned];
      assert t[..|t| - 1] == u;
      SplitLast(F, t, false);
      if BeforeOpt(F, result, x) { StepLive(F, p, a, t, Halt, false); }
    case Spawn(_, _, _, _, _) =>
      var x := Across(F, SpawnEvent(s), after);
      var u := SpawnWitness(F, s, x);
      var t := u + [SpawnEvent(s)];
      assert t[..|t| - 1] == u;
      SplitLast(F, t, after);
      if Before(F, t, after) { StepLive(F, p, a, t, Skip(k), after); }
  }

  lemma HaltIsNotLive(F: Fact, p: Proc)
    ensures !Live(F, p, Halt)
  {
    forall path | IsRun(p, Halt, path) ensures !Before(F, TraceOf(path), false) {
      assert path == [];
    }
  }

  // The cell of a label is live only if control at the label is.
  lemma LabelLive(F: Fact, p: Proc, d: nat) returns (q: Place)
    requires Cell(d, LabelValues) in LiveCells(F, p)
    ensures q in AllPlaces(p) && q.s == Label(d) && Live(F, p, Run(q.s, q.k))
  {
    hide Live;
    hide AllPlaces;
    HaltIsNotLive(F, p);
    var r, f :| r in AllPlaces(p) && f in AllFields && HasId(r.s) && Live(F, p, LiveAt(r, f))
                && Cell(r.s.id, f) == Cell(d, LabelValues);
    q := r;
  }

  lemma ExactGoto(F: Fact, p: Proc, s: Stmt, k: Cont)
    requires s.Goto?
    ensures BeforeStmt(F, LiveCells(F, p), s, false) ==> Live(F, p, Run(s, k))
  {
    hide LiveCells;
    hide Live;
    hide AllPlaces;
    if Cell(s.destination, LabelValues) in LiveCells(F, p) {
      var q := LabelLive(F, p, s.destination);
      StepLive(F, p, Run(s, k), [], Run(q.s, q.k), true);
    }
  }

  lemma ExactBreak(F: Fact, p: Proc, s: Stmt, k: Cont)
    requires DistinctNodes(p) && Placed(p, s, k) && s.Break?
    ensures BeforeStmt(F, LiveCells(F, p), s, false) ==> Live(F, p, Run(s, k))
  {
    hide LiveCells;
    hide Live;
    hide IsPath;
    var c := LiveCells(F, p);
    var a := Run(s, k);
    BreakFramePlaced(p, k);
    var f := BreakFrame(k);
    CellOfPlace(F, p, Place(if f.InLoop? then f.loop else f.sw, f.k), BreakValues);
    if BreakCell(s.target) in c { StepLive(F, p, a, [], Skip(f.k), true); }
  }

  lemma ExactContinue(F: Fact, p: Proc, s: Stmt, k: Cont)
    requires DistinctNodes(p) && Placed(p, s, k) && s.Continue?
    ensures BeforeStmt(F, LiveCells(F, p), s, false) ==> Live(F, p, Run(s, k))
  {
    hide LiveCells;
    hide Live;
    hide IsPath;
    var c := LiveCells(F, p);
    var a := Run(s, k);
    LoopFramePlaced(p, k);
    var f := LoopFrame(k);
    CellOfPlace(F, p, Place(f.loop, f.k), ContinueCell(s.target).field);
    if ContinueCell(s.target) in c {
      if !f.loop.For? { StepLive(F, p, Skip(f), [], Test(f.loop, f.k), true); }
      StepLive(F, p, a, [], Skip(f), true);
    }
  }

  lemma ExactCase(F: Fact, p: Proc, s: Stmt, k: Cont, after: bool)
    requires DistinctNodes(p) && Placed(p, s, k) && (after ==> Live(F, p, Skip(k)))
    requires s.Case? || s.Default?
    ensures after ==> Cell(s.container, SwitchValues) in LiveCells(F, p) && Live(F, p, Run(s, k))
  {
    hide LiveCells;
    hide Live;
    if after {
      StepLive(F, p, Run(s, k), [], Skip(k), after);
      SwitchFramePlaced(p, k);
      var f := SwitchFrame(k);
      CellOfPlace(F, p, Place(f.sw, f.k), SwitchValues);
      assert Place(s, k) in Places(s, k);
      StepLive(F, p, Dispatch(f.sw, f.k), [], Run(s, k), true);
    }
  }

  lemma {:induction false} ExactSwitch(F: Fact, p: Proc, s: Stmt, k: Cont, after: bool)
    requires DistinctNodes(p) && Placed(p, s, k) && (after ==> Live(F, p, Skip(k))) && s.Switch?
    ensures BeforeOk(F, LiveCells(F, p), s, after)
    ensures BeforeStmt(F, LiveCells(F, p), s, after) ==> Live(F, p, Run(s, k))
    decreases s, 0
  {
    hide LiveCells;
    hide Live;
    CellOfPlace(F, p, Place(s, k), ExitMark);
    hide BeforeExpr;
    hide BeforeExprs;
    hide Across;
    hide IsPath;
    var c := LiveCells(F, p);
    CellOfPlace(F, p, Place(s, k), BreakValues);
    CellOfPlace(F, p, Place(s, k), SwitchValues);
    var (brk, sw) := (Cell(s.id, BreakValues) in c, Cell(s.id, SwitchValues) in c);
    if brk { StepLive(F, p, Skip(InSwitch(s, k)), [], Skip(k), true); }
    ExactAt(F, p, s.body, InSwitch(s, k), brk);
    if brk && !s.hasDefault { StepLive(F, p, Dispatch(s, k), [], Skip(k), true); }
    var t := BeforeWitness(F, s.subject, sw);
    if BeforeExpr(F, s.subject, sw) { StepLive(F, p, Run(s, k), t, Dispatch(s, k), sw); }
  }

  lemma {:induction false} ExactWhile(F: Fact, p: Proc, s: Stmt, k: Cont, after: bool)
    requires DistinctNodes(p) && Placed(p, s, k) && (after ==> Live(F, p, Skip(k))) && s.While?
    ensures BeforeOk(F, LiveCells(F, p), s, after)
    ensures BeforeStmt(F, LiveCells(F, p), s, after) ==> Live(F, p, Run(s, k))
    decreases s, 0
  {
    hide LiveCells;
    hide Live;
    CellOfPlace(F, p, Place(s, k), ExitMark);
    hide BeforeExpr;
    hide BeforeExprs;
    hide Across;
    hide IsPath;
    var c := LiveCells(F, p);
    CellOfPlace(F, p, Place(s, k), BreakValues);
    CellOfPlace(F, p, Place(s, k), LoopValues);
    var (brk, loop) := (Cell(s.id, BreakValues) in c, Cell(s.id, LoopValues) in c);
    if loop {
      StepLive(F, p, Run(s, k), [], Test(s, k), true);
      StepLive(F, p, Skip(InLoop(s, k)), [], Test(s, k), true);
    }
    ExactAt(F, p, s.body, InLoop(s, k), loop);
    TestLive(F, p, s, k, BeforeStmt(F, c, s.body, loop), brk);
  }

  lemma TestLive(F: Fact, p: Proc, s: Stmt, k: Cont, body: bool, brk: bool)
    requires s.While? || s.Do?
    requires (body ==> Live(F, p, Run(s.body, InLoop(s, k)))) && (brk ==> Live(F, p, Skip(k)))
    ensures BeforeExpr(F, s.test, body || brk) ==> Live(F, p, Test(s, k))
  {
    hide LiveCells;
    hide Live;
    var t := BeforeWitness(F, s.test, body || brk);
    if BeforeExpr(F, s.test, body || brk) {
      StepLive(F, p, Test(s, k), t, if body then Run(s.body, InLoop(s, k)) else Skip(k), body || brk);
    }
  }

  lemma {:induction false} ExactDo(F: Fact, p: Proc, s: Stmt, k: Cont, after: bool)
    requires DistinctNodes(p) && Placed(p, s, k) && (after ==> Live(F, p, Skip(k))) && s.Do?
    ensures BeforeOk(F, LiveCells(F, p), s, after)
    ensures BeforeStmt(F, LiveCells(F, p), s, after) ==> Live(F, p, Run(s, k))
    decreases s, 0
  {
    hide LiveCells;
    hide Live;
    CellOfPlace(F, p, Place(s, k), ExitMark);
    hide BeforeExpr;
    hide BeforeExprs;
    hide Across;
    hide IsPath;
    var c := LiveCells(F, p);
    CellOfPlace(F, p, Place(s, k), BreakValues);
    CellOfPlace(F, p, Place(s, k), LoopValues);
    CellOfPlace(F, p, Place(s, k), ContinueValues);
    var (brk, loop, cont) :=
      (Cell(s.id, BreakValues) in c, Cell(s.id, LoopValues) in c, Cell(s.id, ContinueValues) in c);
    if cont { StepLive(F, p, Skip(InLoop(s, k)), [], Test(s, k), true); }
    ExactAt(F, p, s.body, InLoop(s, k), cont);
    TestLive(F, p, s, k, loop, brk);
    if loop { StepLive(F, p, Run(s, k), [], Run(s.body, InLoop(s, k)), true); }
  }

  lemma {:induction false} ExactFor(F: Fact, p: Proc, s: Stmt, k: Cont, after: bool)
    requires DistinctNodes(p) && Placed(p, s, k) && (after ==> Live(F, p, Skip(k))) && s.For?
    ensures BeforeOk(F, LiveCells(F, p), s, after)
    ensures BeforeStmt(F, LiveCells(F, p), s, after) ==> Live(F, p, Run(s, k))
    decreases s, 0
  {
    hide LiveCells;
    hide Live;
    hide IsPathOpt;
    CellOfPlace(F, p, Place(s, k), ExitMark);
    hide BeforeExpr;
    hide BeforeExprs;
    hide Across;
    hide IsPath;
    var c := LiveCells(F, p);
    CellOfPlace(F, p, Place(s, k), BreakValues);
    CellOfPlace(F, p, Place(s, k), LoopValues);
    CellOfPlace(F, p, Place(s, k), ContinueValues);
    var (brk, loop, cont) :=
      (Cell(s.id, BreakValues) in c, Cell(s.id, LoopValues) in c, Cell(s.id, ContinueValues) in c);
    ExactAt(F, p, s.body, InLoop(s, k), cont);
    StepsLive(F, p, s, k, loop);
    GuardLive(F, p, s, k, BeforeStmt(F, c, s.body, cont), brk);
  }

  // What is live at the test of a for loop is live before its start and step expressions.
  lemma StepsLive(F: Fact, p: Proc, s: Stmt, k: Cont, loop: bool)
    requires s.For? && (loop ==> Live(F, p, Test(s, k)))
    ensures BeforeOpt(F, s.next, loop) ==> Live(F, p, Skip(InLoop(s, k)))
    ensures BeforeOpt(F, s.start, loop) ==> Live(F, p, Run(s, k))
  {
    hide Live;
    var n := OptWitness(F, s.next, loop);
    if BeforeOpt(F, s.next, loop) { StepLive(F, p, Skip(InLoop(s, k)), n, Test(s, k), loop); }
    var i := OptWitness(F, s.start, loop);
    if BeforeOpt(F, s.start, loop) { StepLive(F, p, Run(s, k), i, Test(s, k), loop); }
  }

  lemma GuardLive(F: Fact, p: Proc, s: Stmt, k: Cont, body: bool, brk: bool)
    requires s.For?
    requires (body ==> Live(F, p, Run(s.body, InLoop(s, k)))) && (brk ==> Live(F, p, Skip(k)))
    ensures BeforeOpt(F, s.guard, (s.guard.TheExpr? && brk) || body) ==> Live(F, p, Test(s, k))
  {
    hide Live;
    var b := (s.guard.TheExpr? && brk) || body;
    var g := OptWitness(F, s.guard, b);
    if BeforeOpt(F, s.guard, b) {
      StepLive(F, p, Test(s, k), g, if s.guard.TheExpr? && !body then Skip(k) else Run(s.body, InLoop(s, k)), b);
    }
  }

  lemma WholePlaced(p: Proc)
    requires WellFormed(p)
    ensures Placed(p, p.body, Stop)
  {
  }

  /** The live cells solve the backward equations of the whole procedure. */
  lemma LiveCellsSolve(F: Fact, p: Proc)
    requires WellFormed(p)
    ensures var c := LiveCells(F, p);
      BeforeOk(F, c, p.body, false) && (BeforeStmt(F, c, p.body, false) ==> Cell(p.id, ReturnValues) in c)
  {
    WholePlaced(p);
    ExactAt(F, p, p.body, Stop, false);
  }
}
