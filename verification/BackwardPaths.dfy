/**
 The backward flow equations of one fact, and their meaning in terms of paths.

 `c` is the set of confluence cells in which the fact holds, together with the exit marks
 of the nodes at whose exit the client is shown the fact.
 */
module BackwardPaths {
  import opened Ast
  import opened Control
  import opened Facts

  // ---------- The equations ----------

  // Does the fact hold before s, when `after` says whether it holds after s?
  ghost function BeforeStmt(F: Fact, c: set<Cell>, s: Stmt, after: bool): bool {
    match s
    case Null => after
    case Then(first, rest) => BeforeStmt(F, c, first, BeforeStmt(F, c, rest, after))
    case Eval(e) => BeforeExpr(F, e, after)
    case Decl(_, init) => BeforeOpt(F, init, Across(F, DeclEvent(s), after))
    case Block(_, items) => BeforeStmt(F, c, items, after)
    case Label(id) => Cell(id, LabelValues) in c
    case Goto(_, d) => Cell(d, LabelValues) in c
    case Switch(id, _, subject, _) => BeforeExpr(F, subject, Cell(id, SwitchValues) in c)
    case Case(_, _, _) => after
    case Default(_, _) => after
    case If(_, test, yes, no) => BeforeExpr(F, test, BeforeStmt(F, c, yes, after) || BeforeStmt(F, c, no, after))
    case While(id, _, _) => Cell(id, LoopValues) in c
    case Do(id, _, _) => Cell(id, LoopValues) in c
    case For(id, start, _, _, _) => BeforeOpt(F, start, Cell(id, LoopValues) in c)
    case Break(_, t) => BreakCell(t) in c
    case Continue(_, t) => ContinueCell(t) in c
    case Return(_, result) => BeforeOpt(F, result, Across(F, Returned, false))
    case Spawn(_, _, _, callee, args) =>
      BeforeReceiver(F, s, BeforeExpr(F, callee, BeforeExprs(F, args, Across(F, SpawnEvent(s), after))))
    case Sync(_) => Across(F, Synced, after)
  }

  // What the client is shown at the exit of s, before the transfer of s itself.
  ghost function AtExit(F: Fact, c: set<Cell>, s: Stmt, after: bool): bool {
    match s
    case Goto(_, _) => BeforeStmt(F, c, s, after)
    case Break(_, _) => BeforeStmt(F, c, s, after)
    case Continue(_, _) => BeforeStmt(F, c, s, after)
    case Return(_, _) => false
    case _ => after
  }

  // The cells of s and of the places it jumps to satisfy the equations of s.
  ghost predicate BeforeOk(F: Fact, c: set<Cell>, s: Stmt, after: bool) {
    (HasId(s) && AtExit(F, c, s, after) ==> Cell(s.id, ExitMark) in c) &&
    match s
    case Then(first, rest) => BeforeOk(F, c, first, BeforeStmt(F, c, rest, after)) && BeforeOk(F, c, rest, after)
    case Block(_, items) => BeforeOk(F, c, items, after)
    case Label(id) => after ==> Cell(id, LabelValues) in c
    case If(_, _, yes, no) => BeforeOk(F, c, yes, after) && BeforeOk(F, c, no, after)
    case Switch(id, hasDefault, _, body) =>
      var brk := Cell(id, BreakValues) in c;
      (after ==> brk) && BeforeOk(F, c, body, brk) && (!hasDefault && brk ==> Cell(id, SwitchValues) in c)
    case Case(_, _, sw) => after ==> Cell(sw, SwitchValues) in c
    case Default(_, sw) => after ==> Cell(sw, SwitchValues) in c
    case While(id, test, body) =>
      var (brk, loop) := (Cell(id, BreakValues) in c, Cell(id, LoopValues) in c);
      (after ==> brk) && BeforeOk(F, c, body, loop) &&
      (BeforeExpr(F, test, BeforeStmt(F, c, body, loop) || brk) ==> loop)
    case Do(id, body, test) =>
      var (brk, loop, cont) := (Cell(id, BreakValues) in c, Cell(id, LoopValues) in c, Cell(id, ContinueValues) in c);
      (after ==> brk) && BeforeOk(F, c, body, cont) &&
      (BeforeExpr(F, test, brk || loop) ==> cont) && (BeforeStmt(F, c, body, cont) ==> loop)
    case For(id, _, guard, next, body) =>
      var (brk, loop, cont) := (Cell(id, BreakValues) in c, Cell(id, LoopValues) in c, Cell(id, ContinueValues) in c);
      (after ==> brk) && BeforeOk(F, c, body, cont) && (BeforeOpt(F, next, loop) ==> cont) &&
      (BeforeOpt(F, guard, (guard.TheExpr? && brk) || BeforeStmt(F, c, body, cont)) ==> loop)
    case _ => true
  }

  // The fact before what a continuation does.
  ghost function BeforeCont(F: Fact, c: set<Cell>, k: Cont): bool {
    match k
    case Stop => false
    case Seq(s, k) => BeforeStmt(F, c, s, BeforeCont(F, c, k))
    case InLoop(l, _) => IsLoop(l) && LoopContinueCell(KindOfLoop(l), l.id) in c
    case InSwitch(sw, _) => sw.Switch? && Cell(sw.id, BreakValues) in c
  }

  ghost predicate ContOk(F: Fact, c: set<Cell>, k: Cont) {
    match k
    case Stop => true
    case Seq(s, k) => BeforeOk(F, c, s, BeforeCont(F, c, k)) && ContOk(F, c, k)
    case InLoop(l, k) => BeforeOk(F, c, l, BeforeCont(F, c, k)) && ContOk(F, c, k)
    case InSwitch(sw, k) => BeforeOk(F, c, sw, BeforeCont(F, c, k)) && ContOk(F, c, k)
  }

  ghost function BeforeControl(F: Fact, c: set<Cell>, a: Control): bool {
    match a
    case Run(s, k) => BeforeStmt(F, c, s, BeforeCont(F, c, k))
    case Skip(k) => BeforeCont(F, c, k)
    case Test(l, k) => IsLoop(l) && Cell(l.id, if l.Do? then ContinueValues else LoopValues) in c
    case Dispatch(sw, k) => sw.Switch? && Cell(sw.id, SwitchValues) in c
    case Halt => false
  }

  // The statement at a control state, and what follows it, satisfy the equations and are resolved.
  ghost predicate ControlOk(F: Fact, c: set<Cell>, a: Control) {
    match a
    case Run(s, k) => PlaceOk(F, c, s, k)
    case Skip(k) => FrameOk(F, c, k)
    case Test(l, k) => IsLoop(l) && PlaceOk(F, c, l, k)
    case Dispatch(sw, k) => sw.Switch? && PlaceOk(F, c, sw, k)
    case Halt => true
  }

  ghost predicate PlaceOk(F: Fact, c: set<Cell>, s: Stmt, k: Cont) {
    FrameOk(F, c, k) && BeforeOk(F, c, s, BeforeCont(F, c, k)) && Resolved(s, k)
  }

  ghost predicate FrameOk(F: Fact, c: set<Cell>, k: Cont) {
    WellFramed(k) && ContOk(F, c, k) && ContResolved(k)
  }

  ghost predicate ContResolved(k: Cont)
    requires WellFramed(k)
  {
    match k
    case Stop => true
    case Seq(s, k) => Resolved(s, k) && ContResolved(k)
    case InLoop(l, k) => Resolved(l, k) && ContResolved(k)
    case InSwitch(sw, k) => Resolved(sw, k) && ContResolved(k)
  }

  // ---------- Every path is covered ----------

  lemma {:induction false} PlacesAreOk(F: Fact, c: set<Cell>, s: Stmt, k: Cont, q: Place)
    requires PlaceOk(F, c, s, k) && q in Places(s, k)
    ensures PlaceOk(F, c, q.s, q.k)
  {
    hide BeforeExpr;
    hide BeforeExprs;
    hide Across;
    hide IsPath;
    if q != Place(s, k) {
      match s
      case Then(first, rest) =>
        if q in Places(rest, k) { PlacesAreOk(F, c, rest, k, q); } else { PlacesAreOk(F, c, first, Seq(rest, k), q); }
      case Block(_, items) => PlacesAreOk(F, c, items, k, q);
      case If(_, _, yes, no) =>
        if q in Places(yes, k) { PlacesAreOk(F, c, yes, k, q); } else { PlacesAreOk(F, c, no, k, q); }
      case Switch(_, _, _, body) => PlacesAreOk(F, c, body, InSwitch(s, k), q);
      case While(_, _, body) => PlacesAreOk(F, c, body, InLoop(s, k), q);
      case Do(_, body, _) => PlacesAreOk(F, c, body, InLoop(s, k), q);
      case For(_, _, _, _, body) => PlacesAreOk(F, c, body, InLoop(s, k), q);
    }
  }

  lemma {:induction false} BreakFrameOk(F: Fact, c: set<Cell>, k: Cont)
    requires FrameOk(F, c, k)
    ensures FrameOk(F, c, BreakFrame(k))
  {
    if k.Seq? { BreakFrameOk(F, c, k.k); }
  }

  lemma {:induction false} LoopFrameOk(F: Fact, c: set<Cell>, k: Cont)
    requires FrameOk(F, c, k)
    ensures FrameOk(F, c, LoopFrame(k))
  {
    if k.Seq? || k.InSwitch? { LoopFrameOk(F, c, k.k); }
  }

  lemma OptCovered(F: Fact, o: OptExpr, t: Trace, b: bool)
    requires IsPathOpt(o, t)
    ensures Before(F, t, b) ==> BeforeOpt(F, o, b)
    ensures After(F, t, b) ==> AfterOpt(F, o, b)
    ensures BeforeOpt(F, o, false) ==> BeforeOpt(F, o, true)
    ensures AfterOpt(F, o, false) ==> AfterOpt(F, o, true)
  {
    if o.TheExpr? {
      ExprCovered(F, o.e);
      ExprGrows(F, o.e);
    }
  }

  lemma SpawnCovered(F: Fact, s: Stmt, t: Trace, b: bool)
    requires s.Spawn? && IsSpawnPath(s, t)
    ensures Before(F, t, b) ==> BeforeReceiver(F, s, BeforeExpr(F, s.callee, BeforeExprs(F, s.args, b)))
    ensures After(F, t, b) ==> AfterExprs(F, s.args, AfterExpr(F, s.callee, AfterReceiver(F, s, b)))
  {
    hide BeforeExpr;
    hide BeforeExprs;
    hide AfterExpr;
    hide AfterExprs;
    hide Across;
    hide IsPathThroughAll;
    var i, j :| 0 <= i <= j <= |t| &&
      IsReceiverPath(s, t[..i]) && IsPath(s.callee, t[i..j]) && IsPathThroughAll(s.args, t[j..]);
    var (u, v, w) := (t[..i], t[i..j], t[j..]);
    assert t == u + (v + w);
    BeforeSplit(F, u, v + w, b);
    BeforeSplit(F, v, w, b);
    AfterSplit(F, u, v + w, b);
    AfterSplit(F, v, w, After(F, u, b));
    ExprCovered(F, s.callee);
    ExprsCovered(F, s.args);
    ExprGrows(F, s.callee);
    ExprsGrow(F, s.args);
    CoveredBy(F, s.callee, v, Before(F, w, b));
    CoveredBy(F, s.callee, v, After(F, u, b));
    if !(s.receiver.TheExpr? && IsPlainTarget(s.op, s.receiver.e)) {
      OptCovered(F, s.receiver, u, Before(F, v + w, b));
      OptCovered(F, s.receiver, u, b);
    }
  }

  // One step back along a path stays within what the equations compute.
  lemma StepCovered(F: Fact, c: set<Cell>, p: Proc, a: Control, t: Trace, b: Control)
    requires PlaceOk(F, c, p.body, Stop) && ControlOk(F, c, a) && Step(p, a, t, b)
    ensures ControlOk(F, c, b)
    ensures Before(F, t, BeforeControl(F, c, b)) ==> BeforeControl(F, c, a)
  {
    hide BeforeExpr;
    hide BeforeExprs;
    hide Across;
    hide IsPath;
    match a
    case Run(s, k) => RunCovered(F, c, p, s, k, t, b);
    case Skip(k) =>
      if k.InLoop? && k.loop.For? { OptCovered(F, k.loop.next, t, BeforeControl(F, c, b)); }
    case Test(l, k) =>
      if l.For? {
        OptCovered(F, l.guard, t, BeforeControl(F, c, b));
      } else {
        ExprCovered(F, l.test);
        ExprGrows(F, l.test);
        CoveredBy(F, l.test, t, BeforeControl(F, c, b));
      }
    case Dispatch(sw, k) =>
      if b != Skip(k) {
        PlacesAreOk(F, c, sw.body, InSwitch(sw, k), Place(b.s, b.k));
      }
  }

  lemma RunCovered(F: Fact, c: set<Cell>, p: Proc, s: Stmt, k: Cont, t: Trace, b: Control)
    requires PlaceOk(F, c, p.body, Stop) && PlaceOk(F, c, s, k) && RunStep(p, s, k, t, b)
    ensures ControlOk(F, c, b)
    ensures Before(F, t, BeforeControl(F, c, b)) ==> BeforeStmt(F, c, s, BeforeCont(F, c, k))
  {
    hide BeforeExpr;
    hide BeforeExprs;
    hide Across;
    hide IsPath;
    match s
    case Switch(_, _, _, _) => ChoiceCovered(F, c, p, s, k, t, b);
    case If(_, _, _, _) => ChoiceCovered(F, c, p, s, k, t, b);
    case For(_, _, _, _, _) => ChoiceCovered(F, c, p, s, k, t, b);
    case Goto(_, _) => JumpCovered(F, c, p, s, k, t, b);
    case Break(_, _) => JumpCovered(F, c, p, s, k, t, b);
    case Continue(_, _) => JumpCovered(F, c, p, s, k, t, b);
    case Null | Then(_, _) | Block(_, _) | Label(_) | While(_, _, _) | Do(_, _, _) =>
    case _ => LeafCovered(F, c, p, s, k, t, b);
  }

  lemma ChoiceCovered(F: Fact, c: set<Cell>, p: Proc, s: Stmt, k: Cont, t: Trace, b: Control)
    requires s.Switch? || s.If? || s.For?
    requires PlaceOk(F, c, s, k) && RunStep(p, s, k, t, b)
    ensures ControlOk(F, c, b)
    ensures Before(F, t, BeforeControl(F, c, b)) ==> BeforeStmt(F, c, s, BeforeCont(F, c, k))
  {
    hide BeforeExpr;
    hide BeforeExprs;
    hide Across;
    hide IsPath;
    var after := BeforeControl(F, c, b);
    match s
    case Switch(_, _, subject, _) => ExprCovered(F, subject); CoveredBy(F, subject, t, after);
    case If(_, test, _, _) => ExprCovered(F, test); ExprGrows(F, test); CoveredBy(F, test, t, after);
    case For(_, start, _, _, _) => OptCovered(F, start, t, after);
  }

  lemma JumpCovered(F: Fact, c: set<Cell>, p: Proc, s: Stmt, k: Cont, t: Trace, b: Control)
    requires s.Goto? || s.Break? || s.Continue?
    requires PlaceOk(F, c, p.body, Stop) && PlaceOk(F, c, s, k) && RunStep(p, s, k, t, b)
    ensures ControlOk(F, c, b)
    ensures Before(F, t, BeforeControl(F, c, b)) ==> BeforeStmt(F, c, s, BeforeCont(F, c, k))
  {
    match s
    case Goto(_, _) => PlacesAreOk(F, c, p.body, Stop, Place(b.s, b.k));
    case Break(_, _) => BreakFrameOk(F, c, k);
    case Continue(_, _) => LoopFrameOk(F, c, k);
  }

  lemma LeafCovered(F: Fact, c: set<Cell>, p: Proc, s: Stmt, k: Cont, t: Trace, b: Control)
    requires s.Eval? || s.Decl? || s.Return? || s.Spawn? || s.Sync? || s.Case? || s.Default?
    requires PlaceOk(F, c, s, k) && RunStep(p, s, k, t, b)
    ensures ControlOk(F, c, b)
    ensures Before(F, t, BeforeControl(F, c, b)) ==> BeforeStmt(F, c, s, BeforeCont(F, c, k))
  {
    hide BeforeExpr;
    hide BeforeExprs;
    hide Across;
    hide IsPath;
    var after := BeforeControl(F, c, b);
    match s
    case Eval(e) => ExprCovered(F, e); CoveredBy(F, e, t, after);
    case Decl(_, init) => SplitLast(F, t, after); OptCovered(F, init, t[..|t| - 1], Across(F, DeclEvent(s), after));
    case Return(_, result) => SplitLast(F, t, after); OptCovered(F, result, t[..|t| - 1], Across(F, Returned, after));
    case Spawn(_, _, _, _, _) =>
      SplitLast(F, t, after);
      SpawnCovered(F, s, t[..|t| - 1], Across(F, SpawnEvent(s), after));
    case Sync(_) => One(F, Synced, after);
    case _ =>
  }

  /** Whatever satisfies the equations covers every path: if some path from a meets the fact
      before it is killed, the fact is in the value computed for a. */
  lemma {:induction false} PathsCovered(F: Fact, c: set<Cell>, p: Proc, a: Control, path: Path)
    requires PlaceOk(F, c, p.body, Stop) && ControlOk(F, c, a) && IsRun(p, a, path)
    requires Before(F, TraceOf(path), false)
    ensures BeforeControl(F, c, a)
    decreases |path|
  {
    if path != [] {
      var b := path[0].to;
      StepCovered(F, c, p, a, path[0].t, b);
      BeforeSplit(F, path[0].t, TraceOf(path[1..]), false);
      if Before(F, TraceOf(path[1..]), false) {
        PathsCovered(F, c, p, b, path[1..]);
      }
      BeforeGrows(F, path[0].t);
    }
  }

  lemma {:induction false} BeforeGrows(F: Fact, t: Trace)
    ensures Before(F, t, false) ==> Before(F, t, true)
    ensures After(F, t, false) ==> After(F, t, true)
  {
    if t != [] {
      BeforeGrows(F, t[1..]);
    }
  }
}
