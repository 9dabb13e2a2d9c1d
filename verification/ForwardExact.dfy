/**
 The converse of ForwardPaths: path sets themselves satisfy the forward equations, so the
 equations compute no more than the paths show.
 */
module ForwardExact {
  import opened Ast
  import opened Control
  import opened ControlFacts
  import opened Facts
  import opened ForwardPaths

  // Where the pass enters code that no path need reach: a transfer function that generates
  // a fact does so in dead code as well.
  ghost predicate IsStart(p: Proc, a: Control) {
    match a
    case Run(s, k) => Place(s, k) in AllPlaces(p)
    case Test(l, k) => IsLoop(l) && Place(l, k) in AllPlaces(p)
    case Skip(k) => k.InLoop? && IsLoop(k.loop) && Place(k.loop, k.k) in AllPlaces(p)
    case _ => false
  }

  // Some path from `start` brings the fact to a.
  ghost predicate Brings(F: Fact, p: Proc, start: Control, now: bool, a: Control) {
    exists path :: IsRun(p, start, path) && End(start, path) == a && After(F, TraceOf(path), now)
  }

  // The fact holds at a along some path from the beginning, where `init` says whether it
  // holds there, or along some path from dead code.
  ghost predicate Reached(F: Fact, p: Proc, init: bool, a: Control) {
    Brings(F, p, Run(p.body, Stop), init, a) || exists start :: IsStart(p, start) && Brings(F, p, start, false, a)
  }

  // Does field f of q show the fact?  The exit mark of a declaration, spawn, sync, return or
  // jump shows what holds after its operands.
  ghost predicate ShownAt(F: Fact, p: Proc, init: bool, q: Place, f: Field) {
    match f
    case ReturnValues => false
    case ExitMark =>
      if ShowsOperands(q.s) then AtExit(F, {}, q.s, Reached(F, p, init, Run(q.s, q.k)))
      else Reached(F, p, init, Skip(q.k))
    case _ => Reached(F, p, init, ControlOf(q, f))
  }

  predicate ShowsOperands(s: Stmt) {
    s.Decl? || s.Spawn? || s.Sync? || s.Return? || s.Goto? || s.Break? || s.Continue?
  }

  ghost function ReachedCells(F: Fact, p: Proc, init: bool): set<Cell> {
    (set q, f | q in AllPlaces(p) && f in AllFields && HasId(q.s) && ShownAt(F, p, init, q, f) :: Cell(q.s.id, f)) +
    (if Reached(F, p, init, Halt) then {Cell(p.id, ReturnValues)} else {})
  }

  lemma CellOfPlace(F: Fact, p: Proc, init: bool, q: Place, f: Field)
    requires DistinctNodes(p) && q in AllPlaces(p) && HasId(q.s) && f != ReturnValues
    ensures Cell(q.s.id, f) in ReachedCells(F, p, init) <==> ShownAt(F, p, init, q, f)
  {
    assert f in AllFields;
  }

  lemma Extend(F: Fact, p: Proc, start: Control, now: bool, a: Control, t: Trace, b: Control)
    requires Step(p, a, t, b) && Brings(F, p, start, now, a) && After(F, t, true)
    ensures Brings(F, p, start, now, b)
  {
    var path :| IsRun(p, start, path) && End(start, path) == a && After(F, TraceOf(path), now);
    RunAppends(F, p, start, path, Move(t, b), now);
    assert End(start, path + [Move(t, b)]) == b;
  }

  lemma {:induction false} RunAppends(F: Fact, p: Proc, start: Control, path: Path, m: Move, now: bool)
    requires IsRun(p, start, path) && Step(p, End(start, path), m.t, m.to)
    ensures IsRun(p, start, path + [m])
    ensures After(F, TraceOf(path + [m]), now) == After(F, m.t, After(F, TraceOf(path), now))
    decreases |path|
  {
    var longer := path + [m];
    if path == [] {
      assert longer[1..] == [];
      assert TraceOf(longer) == m.t;
    } else {
      assert longer[1..] == path[1..] + [m];
      var next := path[0].to;
      assert End(start, path) == End(next, path[1..]);
      RunAppends(F, p, next, path[1..], m, After(F, path[0].t, now));
      AfterSplit(F, path[0].t, TraceOf(path[1..] + [m]), now);
      AfterSplit(F, path[0].t, TraceOf(path[1..]), now);
    }
  }

  // A step from a state where the fact holds, or from a start, that leaves with the fact.
  lemma StepReached(F: Fact, p: Proc, init: bool, a: Control, t: Trace, b: Control, now: bool)
    requires Step(p, a, t, b) && After(F, t, now) && (now ==> Reached(F, p, init, a)) && (now || IsStart(p, a))
    ensures Reached(F, p, init, b)
  {
    hide Step;
    if now {
      if Brings(F, p, Run(p.body, Stop), init, a) {
        Extend(F, p, Run(p.body, Stop), init, a, t, b);
      } else {
        var start :| IsStart(p, start) && Brings(F, p, start, false, a);
        Extend(F, p, start, false, a, t, b);
      }
    } else {
      RunAppends(F, p, a, [], Move(t, b), false);
      var path := [] + [Move(t, b)];
      assert IsRun(p, a, path) && End(a, path) == b;
      assert Brings(F, p, a, false, b);
    }
  }

  lemma OptWitness(F: Fact, o: OptExpr, b: bool) returns (t: Trace)
    ensures IsPathOpt(o, t) && After(F, t, b) == AfterOpt(F, o, b)
  {
    if o.NoExpr? { t := []; } else { t := AfterWitness(F, o.e, b); }
  }

  lemma SpawnWitness(F: Fact, s: Stmt, b: bool) returns (t: Trace)
    requires s.Spawn?
    ensures IsSpawnPath(s, t) && After(F, t, b) == AtSpawn(F, s, b)
  {
    var u := [];
    if !(s.receiver.TheExpr? && IsPlainTarget(s.op, s.receiver.e)) {
      u := OptWitness(F, s.receiver, b);
    }
    var x := AfterReceiver(F, s, b);
    var v := AfterWitness(F, s.callee, x);
    var w := AfterWitnesses(F, s.args, AfterExpr(F, s.callee, x));
    t := u + (v + w);
    ThreeParts(u, v, w);
    AfterSplit(F, u, v + w, b);
    AfterSplit(F, v, w, x);
  }

  // At a place of p, the equations hold for the reached cells and compute only reached facts.
  lemma {:induction false} ExactAt(F: Fact, p: Proc, init: bool, s: Stmt, k: Cont, before: bool)
    requires DistinctNodes(p) && LabelsDefined(p) && Placed(p, s, k) && (before ==> Reached(F, p, init, Run(s, k)))
    ensures AfterOk(F, p, ReachedCells(F, p, init), s, before)
    ensures AfterStmt(F, ReachedCells(F, p, init), s, before) ==> Reached(F, p, init, Skip(k))
    decreases s, 1
  {
    hide DistinctNodes;
    hide LabelsDefined;
    hide ReachedCells;
    hide Reached;
    assert Place(s, k) in Places(s, k);
    if HasId(s) { CellOfPlace(F, p, init, Place(s, k), ExitMark); }
    if ShowsOperands(s) { ExitGrows(F, s); }
    hide IsPath;
    hide AfterExpr;
    hide Across;
    var c := ReachedCells(F, p, init);
    match s
    case Then(first, rest) =>
      if before { StepReached(F, p, init, Run(s, k), [], Run(first, Seq(rest, k)), true); }
      ExactAt(F, p, init, first, Seq(rest, k), before);
      var m := AfterStmt(F, c, first, before);
      if m { StepReached(F, p, init, Skip(Seq(rest, k)), [], Run(rest, k), true); }
      ExactAt(F, p, init, rest, k, m);
    case Block(_, items) =>
      if before { StepReached(F, p, init, Run(s, k), [], Run(items, k), true); }
      ExactAt(F, p, init, items, k, before);
    case If(_, test, yes, no) =>
      var t := AfterWitness(F, test, before);
      var b := AfterExpr(F, test, before);
      if b {
        StepReached(F, p, init, Run(s, k), t, Run(yes, k), before);
        StepReached(F, p, init, Run(s, k), t, Run(no, k), before);
      }
      ExactAt(F, p, init, yes, k, b);
      ExactAt(F, p, init, no, k, b);
    case Switch(_, _, _, _) => ExactSwitch(F, p, init, s, k, before);
    case While(_, _, _) => ExactWhile(F, p, init, s, k, before);
    case Do(_, _, _) => ExactDo(F, p, init, s, k, before);
    case For(_, _, _, _, _) => ExactFor(F, p, init, s, k, before);
    case Goto(_, _) => if before { ExactGoto(F, p, init, s, k); }
    case Break(_, _) => if before { ExactBreak(F, p, init, s, k); }
    case Continue(_, _) => if before { ExactContinue(F, p, init, s, k); }
    case Case(_, _, _) => ExactCase(F, p, init, s, k, before);
    case Default(_, _) => ExactCase(F, p, init, s, k, before);
    case _ => ExactLeaf(F, p, init, s, k, before);
  }

  lemma ExactLeaf(F: Fact, p: Proc, init: bool, s: Stmt, k: Cont, before: bool)
    requires DistinctNodes(p) && Placed(p, s, k) && (before ==> Reached(F, p, init, Run(s, k)))
    requires s.Null? || s.Eval? || s.Decl? || s.Label? || s.Return? || s.Spawn? || s.Sync?
    ensures AfterOk(F, p, ReachedCells(F, p, init), s, before)
    ensures AfterStmt(F, ReachedCells(F, p, init), s, before) ==> Reached(F, p, init, Skip(k))
  {
    hide Reached;
    hide IsPath;
    hide AfterExpr;
    hide AfterExprs;
    hide Across;
    hide IsSpawnPath;
    var a := Run(s, k);
    assert Place(s, k) in Places(s, k);
    if HasId(s) { CellOfPlace(F, p, init, Place(s, k), ExitMark); }
    if ShowsOperands(s) { ExitGrows(F, s); }
    match s
    case Null => if before { StepReached(F, p, init, a, [], Skip(k), before); }
    case Eval(e) =>
      var t := AfterWitness(F, e, before);
      if After(F, t, before) { StepReached(F, p, init, a, t, Skip(k), before); }
    case Decl(_, _) => ExactOperands(F, p, init, s, k, before);
    case Label(id) =>
      CellOfPlace(F, p, init, Place(s, k), LabelValues);
      if Reached(F, p, init, a) { StepReached(F, p, init, a, [], Skip(k), true); }
    case Return(_, _) => ExactOperands(F, p, init, s, k, before);
    case Spawn(_, _, _, _, _) => ExactOperands(F, p, init, s, k, before);
    case Sync(_) =>
      One(F, Synced, before);
      if After(F, [Synced], before) { StepReached(F, p, init, a, [Synced], Skip(k), before); }
  }

  // Statements that act after their operands.
  lemma ExactOperands(F: Fact, p: Proc, init: bool, s: Stmt, k: Cont, before: bool)
    requires DistinctNodes(p) && Placed(p, s, k) && (before ==> Reached(F, p, init, Run(s, k)))
    requires s.Decl? || s.Return? || s.Spawn?
    ensures AfterOk(F, p, ReachedCells(F, p, init), s, before)
    ensures AfterStmt(F, ReachedCells(F, p, init), s, before) ==> Reached(F, p, init, Skip(k))
  {
    hide Reached;
    hide IsPath;
    hide AfterExpr;
    hide AfterExprs;
    hide Across;
    hide IsSpawnPath;
    var a := Run(s, k);
    assert Place(s, k) in Places(s, k);
    CellOfPlace(F, p, init, Place(s, k), ExitMark);
    ExitGrows(F, s);
    match s
    case Decl(_, d) =>
      var u := OptWitness(F, d, before);
      var t := u + [DeclEvent(s)];
      assert t[..|t| - 1] == u;
      SplitLast(F, t, before);
      if After(F, t, before) { StepReached(F, p, init, a, t, Skip(k), before); }
    case Return(_, result) =>
      var u := OptWitness(F, result, before);
      var t := u + [Returned];
      assert t[..|t| - 1] == u;
      SplitLast(F, t, before);
      if After(F, t, before) { StepReached(F, p, init, a, t, Halt, before); }
    case Spawn(_, _, _, _, _) =>
      var u := SpawnWitness(F, s, before);
      var t := u + [SpawnEvent(s)];
      assert t[..|t| - 1] == u;
      SplitLast(F, t, before);
      if After(F, t, before) { StepReached(F, p, init, a, t, Skip(k), before); }
  }

  lemma ExitGrows(F: Fact, s: Stmt)
    requires ShowsOperands(s)
    ensures forall c {:trigger AtExit(F, c, s, true)} :: AtExit(F, c, s, true) == AtExit(F, {}, s, true)
    ensures forall c {:trigger AtExit(F, c, s, false)} :: AtExit(F, c, s, false) ==> AtExit(F, {}, s, true)
    ensures forall c {:trigger AtExit(F, c, s, false)} :: AtExit(F, c, s, false) == AtExit(F, {}, s, false)
  {
    match s
    case Decl(_, init) => OptGrows(F, init);
    case Spawn(_, receiver, _, callee, args) => OptGrows(F, receiver); ExprGrows(F, callee); ExprsGrow(F, args);
    case Return(_, result) => OptGrows(F, result);
    case _ =>
  }

  lemma ExactGoto(F: Fact, p: Proc, init: bool, s: Stmt, k: Cont)
    requires DistinctNodes(p) && LabelsDefined(p) && Placed(p, s, k) && Reached(F, p, init, Run(s, k))
    requires s.Goto?
    ensures Cell(s.destination, LabelValues) in ReachedCells(F, p, init)
  {
    hide IsPath;
    hide ReachedCells;
    hide Reached;
    var a := Run(s, k);
    assert Place(s, k) in Places(s, k);
    var k' :| Place(Label(s.destination), k') in AllPlaces(p);
    CellOfPlace(F, p, init, Place(Label(s.destination), k'), LabelValues);
    StepReached(F, p, init, a, [], Run(Label(s.destination), k'), true);
  }

  lemma ExactBreak(F: Fact, p: Proc, init: bool, s: Stmt, k: Cont)
    requires DistinctNodes(p) && LabelsDefined(p) && Placed(p, s, k) && Reached(F, p, init, Run(s, k))
    requires s.Break?
    ensures BreakCell(s.target) in ReachedCells(F, p, init)
  {
    hide IsPath;
    hide ReachedCells;
    hide Reached;
    var a := Run(s, k);
    assert Place(s, k) in Places(s, k);
    BreakFramePlaced(p, k);
    var f := BreakFrame(k);
    CellOfPlace(F, p, init, Place(if f.InLoop? then f.loop else f.sw, f.k), BreakValues);
    StepReached(F, p, init, a, [], Skip(f.k), true);
  }

  lemma ExactContinue(F: Fact, p: Proc, init: bool, s: Stmt, k: Cont)
    requires DistinctNodes(p) && LabelsDefined(p) && Placed(p, s, k) && Reached(F, p, init, Run(s, k))
    requires s.Continue?
    ensures ContinueCell(s.target) in ReachedCells(F, p, init)
  {
    hide IsPath;
    hide ReachedCells;
    hide Reached;
    var a := Run(s, k);
    assert Place(s, k) in Places(s, k);
    LoopFramePlaced(p, k);
    var f := LoopFrame(k);
    CellOfPlace(F, p, init, Place(f.loop, f.k), ContinueCell(s.target).field);
    StepReached(F, p, init, a, [], Skip(f), true);
    if !f.loop.For? { StepReached(F, p, init, Skip(f), [], Test(f.loop, f.k), true); }
  }

  lemma ExactCase(F: Fact, p: Proc, init: bool, s: Stmt, k: Cont, before: bool)
    requires DistinctNodes(p) && Placed(p, s, k) && (before ==> Reached(F, p, init, Run(s, k)))
    requires s.Case? || s.Default?
    ensures AfterStmt(F, ReachedCells(F, p, init), s, before) ==> Reached(F, p, init, Skip(k))
  {
    hide ReachedCells;
    hide Reached;
    SwitchFramePlaced(p, k);
    var f := SwitchFrame(k);
    CellOfPlace(F, p, init, Place(f.sw, f.k), SwitchValues);
    assert Place(s, k) in Places(s, k);
    if Cell(s.container, SwitchValues) in ReachedCells(F, p, init) {
      StepReached(F, p, init, Dispatch(f.sw, f.k), [], Run(s, k), true);
    }
    if Reached(F, p, init, Run(s, k)) { StepReached(F, p, init, Run(s, k), [], Skip(k), true); }
  }

  lemma {:induction false} ExactSwitch(F: Fact, p: Proc, init: bool, s: Stmt, k: Cont, before: bool)
    requires DistinctNodes(p) && LabelsDefined(p) && Placed(p, s, k) && (before ==> Reached(F, p, init, Run(s, k)))
    requires s.Switch?
    ensures AfterOk(F, p, ReachedCells(F, p, init), s, before)
    ensures AfterStmt(F, ReachedCells(F, p, init), s, before) ==> Reached(F, p, init, Skip(k))
    decreases s, 0
  {
    hide ReachedCells;
    hide Reached;
    hide Across;
    hide AtSpawn;
    CellOfPlace(F, p, init, Place(s, k), ExitMark);
    hide IsPath;
    hide AfterExpr;
    CellOfPlace(F, p, init, Place(s, k), BreakValues);
    CellOfPlace(F, p, init, Place(s, k), SwitchValues);
    assert Place(s, k) in Places(s, k);
    var t := AfterWitness(F, s.subject, before);
    if AfterExpr(F, s.subject, before) { StepReached(F, p, init, Run(s, k), t, Dispatch(s, k), before); }
    if !s.hasDefault && Reached(F, p, init, Dispatch(s, k)) {
      StepReached(F, p, init, Dispatch(s, k), [], Skip(k), true);
    }
    ExactAt(F, p, init, s.body, InSwitch(s, k), false);
    if Reached(F, p, init, Skip(InSwitch(s, k))) { StepReached(F, p, init, Skip(InSwitch(s, k)), [], Skip(k), true); }
  }

  // A test that lets the fact through brings it to the body and past the loop.
  lemma TestReached(F: Fact, p: Proc, init: bool, s: Stmt, k: Cont, now: bool)
    requires IsLoop(s) && Place(s, k) in AllPlaces(p) && (now ==> Reached(F, p, init, Test(s, k)))
    ensures var e := if s.For? then AfterOpt(F, s.guard, now) else AfterExpr(F, s.test, now);
      e ==> Reached(F, p, init, Run(s.body, InLoop(s, k)))
            && ((s.For? && s.guard.NoExpr?) || Reached(F, p, init, Skip(k)))
  {
    hide ReachedCells;
    hide Reached;
    hide IsPath;
    hide AfterExpr;
    var t: Trace;
    if s.For? { t := OptWitness(F, s.guard, now); } else { t := AfterWitness(F, s.test, now); }
    if After(F, t, now) {
      StepReached(F, p, init, Test(s, k), t, Run(s.body, InLoop(s, k)), now);
      if !(s.For? && s.guard.NoExpr?) { StepReached(F, p, init, Test(s, k), t, Skip(k), now); }
    }
  }

  lemma {:induction false} ExactWhile(F: Fact, p: Proc, init: bool, s: Stmt, k: Cont, before: bool)
    requires DistinctNodes(p) && LabelsDefined(p) && Placed(p, s, k) && (before ==> Reached(F, p, init, Run(s, k)))
    requires s.While?
    ensures AfterOk(F, p, ReachedCells(F, p, init), s, before)
    ensures AfterStmt(F, ReachedCells(F, p, init), s, before) ==> Reached(F, p, init, Skip(k))
    decreases s, 0
  {
    hide ReachedCells;
    hide Reached;
    hide Across;
    hide AtSpawn;
    CellOfPlace(F, p, init, Place(s, k), ExitMark);
    hide IsPath;
    hide AfterExpr;
    var c := ReachedCells(F, p, init);
    CellOfPlace(F, p, init, Place(s, k), BreakValues);
    CellOfPlace(F, p, init, Place(s, k), LoopValues);
    assert Place(s, k) in Places(s, k);
    if before { StepReached(F, p, init, Run(s, k), [], Test(s, k), true); }
    var loop := Cell(s.id, LoopValues) in c;
    TestReached(F, p, init, s, k, loop);
    ExactAt(F, p, init, s.body, InLoop(s, k), AfterExpr(F, s.test, loop));
    if Reached(F, p, init, Skip(InLoop(s, k))) { StepReached(F, p, init, Skip(InLoop(s, k)), [], Test(s, k), true); }
  }

  lemma {:induction false} ExactDo(F: Fact, p: Proc, init: bool, s: Stmt, k: Cont, before: bool)
    requires DistinctNodes(p) && LabelsDefined(p) && Placed(p, s, k) && (before ==> Reached(F, p, init, Run(s, k)))
    requires s.Do?
    ensures AfterOk(F, p, ReachedCells(F, p, init), s, before)
    ensures AfterStmt(F, ReachedCells(F, p, init), s, before) ==> Reached(F, p, init, Skip(k))
    decreases s, 0
  {
    hide ReachedCells;
    hide Reached;
    hide Across;
    hide AtSpawn;
    hide DistinctNodes;
    hide LabelsDefined;
    CellOfPlace(F, p, init, Place(s, k), ExitMark);
    hide IsPath;
    hide AfterExpr;
    var c := ReachedCells(F, p, init);
    CellOfPlace(F, p, init, Place(s, k), BreakValues);
    CellOfPlace(F, p, init, Place(s, k), LoopValues);
    CellOfPlace(F, p, init, Place(s, k), ContinueValues);
    assert Place(s, k) in Places(s, k);
    if before { StepReached(F, p, init, Run(s, k), [], Run(s.body, InLoop(s, k)), true); }
    ExactAt(F, p, init, s.body, InLoop(s, k), Cell(s.id, LoopValues) in c);
    if Reached(F, p, init, Skip(InLoop(s, k))) { StepReached(F, p, init, Skip(InLoop(s, k)), [], Test(s, k), true); }
    TestReached(F, p, init, s, k, Cell(s.id, ContinueValues) in c);
  }

  // The start and the step of a `for` loop.
  lemma StartReached(F: Fact, p: Proc, init: bool, s: Stmt, k: Cont, before: bool)
    requires s.For? && Place(s, k) in AllPlaces(p) && (before ==> Reached(F, p, init, Run(s, k)))
    ensures AfterOpt(F, s.start, before) ==> Reached(F, p, init, Test(s, k))
  {
    hide Reached;
    hide IsPath;
    hide AfterExpr;
    var t := OptWitness(F, s.start, before);
    if AfterOpt(F, s.start, before) { StepReached(F, p, init, Run(s, k), t, Test(s, k), before); }
  }

  lemma NextReached(F: Fact, p: Proc, init: bool, s: Stmt, k: Cont, now: bool)
    requires s.For? && Place(s, k) in AllPlaces(p) && (now ==> Reached(F, p, init, Skip(InLoop(s, k))))
    ensures AfterOpt(F, s.next, now) ==> Reached(F, p, init, Test(s, k))
  {
    hide Reached;
    hide IsPath;
    hide AfterExpr;
    var t := OptWitness(F, s.next, now);
    if AfterOpt(F, s.next, now) { StepReached(F, p, init, Skip(InLoop(s, k)), t, Test(s, k), now); }
  }

  lemma {:induction false} ExactFor(F: Fact, p: Proc, init: bool, s: Stmt, k: Cont, before: bool)
    requires DistinctNodes(p) && LabelsDefined(p) && Placed(p, s, k) && (before ==> Reached(F, p, init, Run(s, k)))
    requires s.For?
    ensures AfterOk(F, p, ReachedCells(F, p, init), s, before)
    ensures AfterStmt(F, ReachedCells(F, p, init), s, before) ==> Reached(F, p, init, Skip(k))
    decreases s, 0
  {
    hide ReachedCells;
    hide Reached;
    hide Across;
    hide AtSpawn;
    hide DistinctNodes;
    hide LabelsDefined;
    CellOfPlace(F, p, init, Place(s, k), ExitMark);
    hide IsPath;
    hide AfterExpr;
    var c := ReachedCells(F, p, init);
    CellOfPlace(F, p, init, Place(s, k), BreakValues);
    CellOfPlace(F, p, init, Place(s, k), LoopValues);
    CellOfPlace(F, p, init, Place(s, k), ContinueValues);
    assert Place(s, k) in Places(s, k);
    hide Step;
    hide AfterOpt;
    StartReached(F, p, init, s, k, before);
    var loop := Cell(s.id, LoopValues) in c;
    TestReached(F, p, init, s, k, loop);
    ExactAt(F, p, init, s.body, InLoop(s, k), AfterOpt(F, s.guard, loop));
    var cont := Cell(s.id, ContinueValues) in c;
    NextReached(F, p, init, s, k, cont);
  }

  /** The reached cells solve the forward equations of the whole procedure. */
  lemma ReachedCellsSolve(F: Fact, p: Proc, init: bool)
    requires WellFormed(p)
    ensures var c := ReachedCells(F, p, init);
      AfterOk(F, p, c, p.body, init) && (AfterStmt(F, c, p.body, init) ==> Cell(p.id, ReturnValues) in c)
  {
    hide Step;
    var c := ReachedCells(F, p, init);
    if init {
      assert After(F, TraceOf([]), init) && IsRun(p, Run(p.body, Stop), []) && End(Run(p.body, Stop), []) == Run(p.body, Stop);
      assert Brings(F, p, Run(p.body, Stop), init, Run(p.body, Stop));
    }
    assert Placed(p, p.body, Stop);
    ExactAt(F, p, init, p.body, Stop, init);
    if Reached(F, p, init, Skip(Stop)) { Ends(F, p, init); }
  }

  lemma Ends(F: Fact, p: Proc, init: bool)
    requires Reached(F, p, init, Skip(Stop))
    ensures Reached(F, p, init, Halt)
  {
    StepReached(F, p, init, Skip(Stop), [], Halt, true);
  }
}
