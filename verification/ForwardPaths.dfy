/**
 The forward flow equations of one fact, and their meaning in terms of paths.

 `c` is the set of confluence cells in which the fact holds, together with the exit marks
 of the nodes at whose exit the client is shown the fact.
 */
module ForwardPaths {
  import opened Ast
  import opened Control
  import opened ControlFacts
  import opened Facts
  import opened BackwardPaths

  // ---------- The equations ----------

  // Does the fact hold where control falls out of s, when `before` says whether it holds on entry?
  ghost function AfterStmt(F: Fact, c: set<Cell>, s: Stmt, before: bool): bool {
    match s
    case Null => before
    case Then(first, rest) => AfterStmt(F, c, rest, AfterStmt(F, c, first, before))
    case Eval(e) => AfterExpr(F, e, before)
    case Decl(_, init) => Across(F, DeclEvent(s), AfterOpt(F, init, before))
    case Block(_, items) => AfterStmt(F, c, items, before)
    case Label(id) => Cell(id, LabelValues) in c
    case Goto(_, _) => false
    case Break(_, _) => false
    case Continue(_, _) => false
    case Return(_, _) => false
    case Case(_, _, sw) => before || Cell(sw, SwitchValues) in c
    case Default(_, sw) => before || Cell(sw, SwitchValues) in c
    case If(_, test, yes, no) =>
      var b := AfterExpr(F, test, before); AfterStmt(F, c, yes, b) || AfterStmt(F, c, no, b)
    case Switch(id, _, _, _) => Cell(id, BreakValues) in c
    case While(id, _, _) => Cell(id, BreakValues) in c
    case Do(id, _, _) => Cell(id, BreakValues) in c
    case For(id, _, _, _, _) => Cell(id, BreakValues) in c
    case Spawn(_, _, _, callee, args) => Across(F, SpawnEvent(s), AtSpawn(F, s, before))
    case Sync(_) => Across(F, Synced, before)
  }

  // After the operands of a spawn, before the spawn itself.
  ghost function AtSpawn(F: Fact, s: Stmt, before: bool): bool
    requires s.Spawn?
  {
    AfterExprs(F, s.args, AfterExpr(F, s.callee, AfterReceiver(F, s, before)))
  }

  // What the client is shown at the exit of s, before the transfer of s itself.
  ghost function AtExit(F: Fact, c: set<Cell>, s: Stmt, before: bool): bool {
    match s
    case Decl(_, init) => AfterOpt(F, init, before)
    case Spawn(_, _, _, _, _) => AtSpawn(F, s, before)
    case Sync(_) => before
    case Return(_, result) => AfterOpt(F, result, before)
    case Goto(_, _) => before
    case Break(_, _) => before
    case Continue(_, _) => before
    case _ => AfterStmt(F, c, s, before)
  }

  ghost predicate AfterOk(F: Fact, p: Proc, c: set<Cell>, s: Stmt, before: bool) {
    (HasId(s) && AtExit(F, c, s, before) ==> Cell(s.id, ExitMark) in c) &&
    match s
    case Then(first, rest) => AfterOk(F, p, c, first, before) && AfterOk(F, p, c, rest, AfterStmt(F, c, first, before))
    case Block(_, items) => AfterOk(F, p, c, items, before)
    case Label(id) => before ==> Cell(id, LabelValues) in c
    case Goto(_, d) => before ==> Cell(d, LabelValues) in c
    case Break(_, t) => before ==> BreakCell(t) in c
    case Continue(_, t) => before ==> ContinueCell(t) in c
    case Return(_, result) => Across(F, Returned, AfterOpt(F, result, before)) ==> Cell(p.id, ReturnValues) in c
    case If(_, test, yes, no) =>
      var b := AfterExpr(F, test, before); AfterOk(F, p, c, yes, b) && AfterOk(F, p, c, no, b)
    case Switch(id, hasDefault, subject, body) =>
      var (sw, brk) := (Cell(id, SwitchValues) in c, Cell(id, BreakValues) in c);
      (AfterExpr(F, subject, before) ==> sw) && (!hasDefault && sw ==> brk) &&
      AfterOk(F, p, c, body, false) && (AfterStmt(F, c, body, false) ==> brk)
    case While(id, test, body) =>
      var (brk, loop) := (Cell(id, BreakValues) in c, Cell(id, LoopValues) in c);
      var e := AfterExpr(F, test, loop);
      (before ==> loop) && AfterOk(F, p, c, body, e) && (AfterStmt(F, c, body, e) ==> loop) && (e ==> brk)
    case Do(id, body, test) =>
      var (brk, loop, cont) := (Cell(id, BreakValues) in c, Cell(id, LoopValues) in c, Cell(id, ContinueValues) in c);
      var e := AfterExpr(F, test, cont);
      (before ==> loop) && AfterOk(F, p, c, body, loop) && (AfterStmt(F, c, body, loop) ==> cont) &&
      (e ==> loop) && (e ==> brk)
    case For(id, start, guard, next, body) =>
      var (brk, loop, cont) := (Cell(id, BreakValues) in c, Cell(id, LoopValues) in c, Cell(id, ContinueValues) in c);
      var e := AfterOpt(F, guard, loop);
      (AfterOpt(F, start, before) ==> loop) && (guard.TheExpr? && e ==> brk) &&
      AfterOk(F, p, c, body, e) && (AfterStmt(F, c, body, e) ==> cont) && (AfterOpt(F, next, cont) ==> loop)
    case _ => true
  }

  // k may be entered with the fact as `now` says.
  ghost predicate EntersOk(F: Fact, p: Proc, c: set<Cell>, k: Cont, now: bool) {
    match k
    case Stop => now ==> Cell(p.id, ReturnValues) in c
    case Seq(s, k) => AfterOk(F, p, c, s, now) && EntersOk(F, p, c, k, AfterStmt(F, c, s, now))
    case InLoop(l, k) =>
      IsLoop(l) && (now ==> LoopContinueCell(KindOfLoop(l), l.id) in c) &&
      AfterOk(F, p, c, l, false) && EntersOk(F, p, c, k, Cell(l.id, BreakValues) in c)
    case InSwitch(sw, k) =>
      sw.Switch? && (now ==> Cell(sw.id, BreakValues) in c) &&
      AfterOk(F, p, c, sw, false) && EntersOk(F, p, c, k, Cell(sw.id, BreakValues) in c)
  }

  // Control may be at a with the fact as `now` says.
  ghost predicate AtOk(F: Fact, p: Proc, c: set<Cell>, a: Control, now: bool) {
    match a
    case Run(s, k) =>
      FramesResolved(k) && Resolved(s, k) && AfterOk(F, p, c, s, now) && EntersOk(F, p, c, k, AfterStmt(F, c, s, now))
    case Skip(k) => FramesResolved(k) && EntersOk(F, p, c, k, now)
    case Test(l, k) =>
      IsLoop(l) && FramesResolved(k) && Resolved(l, k) &&
      (now ==> Cell(l.id, if l.Do? then ContinueValues else LoopValues) in c) &&
      AfterOk(F, p, c, l, false) && EntersOk(F, p, c, k, Cell(l.id, BreakValues) in c)
    case Dispatch(sw, k) =>
      sw.Switch? && FramesResolved(k) && Resolved(sw, k) && (now ==> Cell(sw.id, SwitchValues) in c) &&
      AfterOk(F, p, c, sw, false) && EntersOk(F, p, c, k, Cell(sw.id, BreakValues) in c)
    case Halt => now ==> Cell(p.id, ReturnValues) in c
  }

  ghost predicate FramesResolved(k: Cont) {
    WellFramed(k) && ContResolved(k)
  }

  // ---------- The equations are monotone ----------

  lemma {:induction false} AfterGrows(F: Fact, p: Proc, c: set<Cell>, s: Stmt)
    ensures AfterStmt(F, c, s, false) ==> AfterStmt(F, c, s, true)
    ensures AfterOk(F, p, c, s, true) ==> AfterOk(F, p, c, s, false)
  {
    match s
    case Then(first, rest) => AfterGrows(F, p, c, first); AfterGrows(F, p, c, rest);
    case Eval(e) => ExprGrows(F, e);
    case Decl(_, init) => OptGrows(F, init);
    case Block(_, items) => AfterGrows(F, p, c, items);
    case Return(_, result) => OptGrows(F, result);
    case If(_, test, yes, no) => ExprGrows(F, test); AfterGrows(F, p, c, yes); AfterGrows(F, p, c, no);
    case Switch(_, _, subject, _) => ExprGrows(F, subject);
    case For(_, start, _, _, _) => OptGrows(F, start);
    case Spawn(_, receiver, _, callee, args) => OptGrows(F, receiver); ExprGrows(F, callee); ExprsGrow(F, args);
    case _ =>
  }

  lemma OptGrows(F: Fact, o: OptExpr)
    ensures BeforeOpt(F, o, false) ==> BeforeOpt(F, o, true)
    ensures AfterOpt(F, o, false) ==> AfterOpt(F, o, true)
  {
    if o.TheExpr? { ExprGrows(F, o.e); }
  }

  lemma {:induction false} EntersGrows(F: Fact, p: Proc, c: set<Cell>, k: Cont)
    ensures EntersOk(F, p, c, k, true) ==> EntersOk(F, p, c, k, false)
  {
    match k
    case Seq(s, k) => AfterGrows(F, p, c, s); EntersGrows(F, p, c, k);
    case _ =>
  }

  // ---------- Every path is covered ----------

  // The value with which the body of a loop is entered.
  ghost function BodyValue(F: Fact, c: set<Cell>, l: Stmt): bool
    requires IsLoop(l)
  {
    var loop := Cell(l.id, LoopValues) in c;
    if l.While? then AfterExpr(F, l.test, loop) else if l.Do? then loop else AfterOpt(F, l.guard, loop)
  }

  lemma LoopBodyAt(F: Fact, p: Proc, c: set<Cell>, l: Stmt, k: Cont)
    requires IsLoop(l) && FramesResolved(k) && Resolved(l, k) && AfterOk(F, p, c, l, false)
    requires EntersOk(F, p, c, k, Cell(l.id, BreakValues) in c)
    ensures AtOk(F, p, c, Run(l.body, InLoop(l, k)), BodyValue(F, c, l))
  {
    hide AfterExpr;
    hide AfterExprs;
    hide Across;
  }

  lemma SwitchBodyAt(F: Fact, p: Proc, c: set<Cell>, sw: Stmt, k: Cont)
    requires sw.Switch? && FramesResolved(k) && Resolved(sw, k) && AfterOk(F, p, c, sw, false)
    requires EntersOk(F, p, c, k, Cell(sw.id, BreakValues) in c)
    ensures AtOk(F, p, c, Run(sw.body, InSwitch(sw, k)), false)
  {
    hide AfterExpr;
    hide AfterExprs;
    hide Across;
  }

  lemma BranchesAt(F: Fact, p: Proc, c: set<Cell>, s: Stmt, k: Cont, now: bool)
    requires s.If? && AtOk(F, p, c, Run(s, k), now)
    ensures AtOk(F, p, c, Run(s.yes, k), AfterExpr(F, s.test, now))
    ensures AtOk(F, p, c, Run(s.no, k), AfterExpr(F, s.test, now))
  {
    hide AfterExpr;
    hide AfterExprs;
    hide Across;
    EntersGrows(F, p, c, k);
  }

  lemma WeakerAt(F: Fact, p: Proc, c: set<Cell>, s: Stmt, k: Cont, now: bool)
    requires AtOk(F, p, c, Run(s, k), now)
    ensures AtOk(F, p, c, Run(s, k), false)
  {
    hide AfterExpr;
    hide AfterExprs;
    hide Across;
    AfterGrows(F, p, c, s);
    EntersGrows(F, p, c, k);
  }

  lemma BodyAt(F: Fact, p: Proc, c: set<Cell>, s: Stmt, k: Cont, now: bool)
    requires (s.Switch? || IsLoop(s)) && AtOk(F, p, c, Run(s, k), now)
    ensures s.Switch? ==> AtOk(F, p, c, Run(s.body, InSwitch(s, k)), false)
    ensures !s.Switch? ==> AtOk(F, p, c, Run(s.body, InLoop(s, k)), BodyValue(F, c, s))
  {
    hide AfterExpr;
    hide AfterExprs;
    hide Across;
    AfterGrows(F, p, c, s);
    if s.Switch? { SwitchBodyAt(F, p, c, s, k); } else { LoopBodyAt(F, p, c, s, k); }
  }

  lemma ItemsAt(F: Fact, p: Proc, c: set<Cell>, s: Stmt, k: Cont, now: bool)
    requires (s.Then? || s.Block?) && AtOk(F, p, c, Run(s, k), now)
    ensures s.Block? ==> AtOk(F, p, c, Run(s.items, k), now)
    ensures s.Then? ==> AtOk(F, p, c, Run(s.first, Seq(s.rest, k)), now)
    ensures s.Then? ==> AtOk(F, p, c, Run(s.rest, k), AfterStmt(F, c, s.first, now))
  {
    hide AfterExpr;
    hide AfterExprs;
    hide Across;
  }

  // Every place of the tree is visited with some value.
  lemma {:induction false} PlacesAt(F: Fact, p: Proc, c: set<Cell>, s: Stmt, k: Cont, now: bool, q: Place)
    requires AtOk(F, p, c, Run(s, k), now) && q in Places(s, k)
    ensures AtOk(F, p, c, Run(q.s, q.k), false)
    decreases s
  {
    hide AfterStmt;
    hide AfterOk;
    hide EntersOk;
    hide AfterExpr;
    hide AfterOpt;
    hide Across;
    hide AtOk;
    if q == Place(s, k) {
      WeakerAt(F, p, c, s, k, now);
    } else if s.Then? {
      ItemsAt(F, p, c, s, k, now);
      if q in Places(s.rest, k) {
        PlacesAt(F, p, c, s.rest, k, AfterStmt(F, c, s.first, now), q);
      } else {
        PlacesAt(F, p, c, s.first, Seq(s.rest, k), now, q);
      }
    } else if s.Block? {
      ItemsAt(F, p, c, s, k, now);
      PlacesAt(F, p, c, s.items, k, now, q);
    } else if s.If? {
      BranchesAt(F, p, c, s, k, now);
      PlacesAt(F, p, c, if q in Places(s.yes, k) then s.yes else s.no, k, AfterExpr(F, s.test, now), q);
    } else {
      BodyAt(F, p, c, s, k, now);
      if s.Switch? {
        PlacesAt(F, p, c, s.body, InSwitch(s, k), false, q);
      } else {
        PlacesAt(F, p, c, s.body, InLoop(s, k), BodyValue(F, c, s), q);
      }
    }
  }

  // The pass visits every place of the procedure.
  ghost predicate AllVisited(F: Fact, p: Proc, c: set<Cell>) {
    forall q :: q in AllPlaces(p) ==> AtOk(F, p, c, Run(q.s, q.k), false)
  }

  lemma AllPlacesAt(F: Fact, p: Proc, c: set<Cell>, now: bool)
    requires AtOk(F, p, c, Run(p.body, Stop), now)
    ensures AllVisited(F, p, c)
  {
    hide AtOk;
    forall q | q in AllPlaces(p) ensures AtOk(F, p, c, Run(q.s, q.k), false) {
      PlacesAt(F, p, c, p.body, Stop, now, q);
    }
  }

  lemma {:induction false} BreakFrameEnters(F: Fact, p: Proc, c: set<Cell>, k: Cont, now: bool)
    requires FramesResolved(k) && EntersOk(F, p, c, k, now)
    ensures FramesResolved(BreakFrame(k)) && EntersOk(F, p, c, BreakFrame(k), false)
  {
    EntersGrows(F, p, c, k);
    if k.Seq? { BreakFrameEnters(F, p, c, k.k, AfterStmt(F, c, k.s, now)); }
  }

  lemma {:induction false} LoopFrameEnters(F: Fact, p: Proc, c: set<Cell>, k: Cont, now: bool)
    requires FramesResolved(k) && EntersOk(F, p, c, k, now)
    ensures FramesResolved(LoopFrame(k)) && EntersOk(F, p, c, LoopFrame(k), false)
  {
    EntersGrows(F, p, c, k);
    if k.Seq? {
      LoopFrameEnters(F, p, c, k.k, AfterStmt(F, c, k.s, now));
    } else if k.InSwitch? {
      LoopFrameEnters(F, p, c, k.k, Cell(k.sw.id, BreakValues) in c);
    }
  }

  // One step forward along a path stays within what the equations compute.
  lemma StepKeeps(F: Fact, p: Proc, c: set<Cell>, a: Control, now: bool, t: Trace, b: Control) returns (then': bool)
    requires AllVisited(F, p, c) && AtOk(F, p, c, a, now) && Step(p, a, t, b)
    ensures AtOk(F, p, c, b, then')
    ensures After(F, t, now) ==> then'
  {
    hide AfterStmt;
    hide AfterOk;
    hide EntersOk;
    hide AfterExpr;
    hide AfterOpt;
    hide Across;
    hide AtOk;
    match a
    case Run(s, k) => then' := RunKeeps(F, p, c, s, k, now, t, b);
    case Skip(k) => then' := SkipKeeps(F, p, c, k, now, t, b);
    case Test(l, k) => then' := TestKeeps(F, p, c, l, k, now, t, b);
    case Dispatch(sw, k) => then' := DispatchKeeps(F, p, c, sw, k, now, t, b);
  }

  lemma SkipKeeps(F: Fact, p: Proc, c: set<Cell>, k: Cont, now: bool, t: Trace, b: Control) returns (then': bool)
    requires AtOk(F, p, c, Skip(k), now) && SkipStep(k, t, b)
    ensures AtOk(F, p, c, b, then')
    ensures After(F, t, now) ==> then'
  {
    hide AfterExpr;
    hide AfterExprs;
    hide Across;
    match k
    case InLoop(l, _) =>
      then' := Cell(l.id, if l.Do? then ContinueValues else LoopValues) in c;
      if l.For? { OptCovered(F, l.next, t, now); }
    case InSwitch(sw, _) => then' := Cell(sw.id, BreakValues) in c;
    case _ => then' := now;
  }

  lemma DispatchKeeps(F: Fact, p: Proc, c: set<Cell>, sw: Stmt, k: Cont, now: bool, t: Trace, b: Control)
    returns (then': bool)
    requires AtOk(F, p, c, Dispatch(sw, k), now) && DispatchStep(sw, k, t, b)
    ensures AtOk(F, p, c, b, then')
    ensures After(F, t, now) ==> then'
  {
    hide AfterExpr;
    hide AfterExprs;
    hide Across;
    if b == Skip(k) {
      then' := Cell(sw.id, BreakValues) in c;
    } else {
      then' := Cell(sw.id, SwitchValues) in c;
      SwitchBodyAt(F, p, c, sw, k);
      CaseReached(F, p, c, sw, k, b.s, b.k, then');
    }
  }

  lemma CaseReached(F: Fact, p: Proc, c: set<Cell>, sw: Stmt, k: Cont, s: Stmt, k': Cont, now: bool)
    requires sw.Switch? && AtOk(F, p, c, Run(sw.body, InSwitch(sw, k)), false)
    requires IsCaseOf(s, sw.id) && Place(s, k') in Places(sw.body, InSwitch(sw, k))
    requires now ==> Cell(sw.id, SwitchValues) in c
    ensures AtOk(F, p, c, Run(s, k'), now)
  {
    hide AfterStmt;
    hide AfterOk;
    hide EntersOk;
    hide AfterExpr;
    hide AfterOpt;
    hide Across;
    hide AtOk;
    PlacesAt(F, p, c, sw.body, InSwitch(sw, k), false, Place(s, k'));
    CaseEntered(F, p, c, s, k', now);
  }

  // A case may be entered with whatever the switch dispatches.
  lemma CaseEntered(F: Fact, p: Proc, c: set<Cell>, s: Stmt, k: Cont, now: bool)
    requires AtOk(F, p, c, Run(s, k), false) && (s.Case? || s.Default?)
    requires now ==> Cell(s.container, SwitchValues) in c
    ensures AtOk(F, p, c, Run(s, k), now)
  {
    hide AfterExpr;
    hide AfterExprs;
    hide Across;
  }

  lemma TestKeeps(F: Fact, p: Proc, c: set<Cell>, l: Stmt, k: Cont, now: bool, t: Trace, b: Control) returns (then': bool)
    requires AtOk(F, p, c, Test(l, k), now) && TestStep(l, k, t, b)
    ensures AtOk(F, p, c, b, then')
    ensures After(F, t, now) ==> then'
  {
    hide AfterExpr;
    hide AfterExprs;
    hide Across;
    if l.For? {
      OptCovered(F, l.guard, t, now);
    } else {
      ExprCovered(F, l.test);
      ExprGrows(F, l.test);
      CoveredBy(F, l.test, t, now);
    }
    if b == Skip(k) {
      then' := Cell(l.id, BreakValues) in c;
    } else {
      then' := BodyValue(F, c, l);
      LoopBodyAt(F, p, c, l, k);
    }
  }

  lemma RunKeeps(F: Fact, p: Proc, c: set<Cell>, s: Stmt, k: Cont, now: bool, t: Trace, b: Control) returns (then': bool)
    requires AllVisited(F, p, c) && AtOk(F, p, c, Run(s, k), now) && RunStep(p, s, k, t, b)
    ensures AtOk(F, p, c, b, then')
    ensures After(F, t, now) ==> then'
  {
    hide AfterStmt;
    hide AfterOk;
    hide EntersOk;
    hide AfterExpr;
    hide AfterOpt;
    hide Across;
    hide AtOk;
    match s
    case Null | Then(_, _) | Block(_, _) => then' := now; GroupKeeps(F, p, c, s, k, now, t, b);
    case Switch(id, _, _, _) => then' := ChoiceKeeps(F, p, c, s, k, now, t, b);
    case If(_, _, _, _) => then' := ChoiceKeeps(F, p, c, s, k, now, t, b);
    case While(_, _, _) => then' := LoopKeeps(F, p, c, s, k, now, t, b);
    case Do(_, _, _) => then' := LoopKeeps(F, p, c, s, k, now, t, b);
    case For(_, _, _, _, _) => then' := LoopKeeps(F, p, c, s, k, now, t, b);
    case Goto(_, _) => then' := JumpKeeps(F, p, c, s, k, now, t, b);
    case Break(_, _) => then' := JumpKeeps(F, p, c, s, k, now, t, b);
    case Continue(_, _) => then' := JumpKeeps(F, p, c, s, k, now, t, b);
    case Return(_, _) => then' := JumpKeeps(F, p, c, s, k, now, t, b);
    case _ => then' := LeafKeeps(F, p, c, s, k, now, t, b);
  }

  lemma GroupKeeps(F: Fact, p: Proc, c: set<Cell>, s: Stmt, k: Cont, now: bool, t: Trace, b: Control)
    requires s.Null? || s.Then? || s.Block?
    requires AtOk(F, p, c, Run(s, k), now) && RunStep(p, s, k, t, b)
    ensures AtOk(F, p, c, b, now)
    ensures t == []
  {
    hide AfterExpr;
    hide AfterExprs;
    hide Across;
  }

  lemma JumpKeeps(F: Fact, p: Proc, c: set<Cell>, s: Stmt, k: Cont, now: bool, t: Trace, b: Control) returns (then': bool)
    requires s.Goto? || s.Break? || s.Continue? || s.Return?
    requires AllVisited(F, p, c) && AtOk(F, p, c, Run(s, k), now) && RunStep(p, s, k, t, b)
    ensures AtOk(F, p, c, b, then')
    ensures After(F, t, now) ==> then'
  {
    hide AfterExpr;
    hide AfterExprs;
    then' := After(F, t, now);
    if s.Goto? {
      assert AtOk(F, p, c, Run(b.s, b.k), false) by { assert Place(b.s, b.k) in AllPlaces(p); }
    } else if s.Break? {
      BreakFrameEnters(F, p, c, k, false);
      then' := BreakCell(s.target) in c;
    } else if s.Continue? {
      LoopFrameEnters(F, p, c, k, false);
      then' := ContinueCell(s.target) in c;
    } else {
      SplitLast(F, t, now);
      OptCovered(F, s.result, t[..|t| - 1], now);
    }
  }

  lemma LeafKeeps(F: Fact, p: Proc, c: set<Cell>, s: Stmt, k: Cont, now: bool, t: Trace, b: Control) returns (then': bool)
    requires s.Eval? || s.Decl? || s.Label? || s.Case? || s.Default? || s.Spawn? || s.Sync?
    requires AtOk(F, p, c, Run(s, k), now) && RunStep(p, s, k, t, b)
    ensures AtOk(F, p, c, b, then')
    ensures After(F, t, now) ==> then'
  {
    hide AfterExpr;
    hide AfterExprs;
    then' := AfterStmt(F, c, s, now);
    match s
    case Eval(e) => ExprCovered(F, e); CoveredBy(F, e, t, now);
    case Decl(_, init) => SplitLast(F, t, now); OptCovered(F, init, t[..|t| - 1], now);
    case Spawn(_, _, _, _, _) => SplitLast(F, t, now); SpawnCovered(F, s, t[..|t| - 1], now);
    case Sync(_) => One(F, Synced, now);
    case _ =>
  }

  lemma ChoiceKeeps(F: Fact, p: Proc, c: set<Cell>, s: Stmt, k: Cont, now: bool, t: Trace, b: Control) returns (then': bool)
    requires s.Switch? || s.If?
    requires AtOk(F, p, c, Run(s, k), now) && RunStep(p, s, k, t, b)
    ensures AtOk(F, p, c, b, then')
    ensures After(F, t, now) ==> then'
  {
    hide AfterExpr;
    hide AfterExprs;
    hide Across;
    var e := if s.Switch? then s.subject else s.test;
    ExprCovered(F, e);
    CoveredBy(F, e, t, now);
    if s.Switch? {
      ExprGrows(F, e);
      then' := Cell(s.id, SwitchValues) in c;
    } else {
      BranchesAt(F, p, c, s, k, now);
      then' := AfterExpr(F, s.test, now);
    }
  }

  lemma LoopKeeps(F: Fact, p: Proc, c: set<Cell>, s: Stmt, k: Cont, now: bool, t: Trace, b: Control) returns (then': bool)
    requires IsLoop(s)
    requires AtOk(F, p, c, Run(s, k), now) && RunStep(p, s, k, t, b)
    ensures AtOk(F, p, c, b, then')
    ensures After(F, t, now) ==> then'
  {
    hide AfterExpr;
    hide AfterExprs;
    hide Across;
    AfterGrows(F, p, c, s);
    then' := Cell(s.id, LoopValues) in c;
    if s.Do? { LoopBodyAt(F, p, c, s, k); }
    if s.For? { OptCovered(F, s.start, t, now); }
  }

  /** Whatever satisfies the equations covers every path: control reaches the end of a path
      with a fact only if the value computed there contains it. */
  lemma {:induction false} PathsKept(F: Fact, p: Proc, c: set<Cell>, a: Control, now: bool, path: Path) returns (then': bool)
    requires AllVisited(F, p, c) && AtOk(F, p, c, a, now) && IsRun(p, a, path)
    ensures AtOk(F, p, c, End(a, path), then')
    ensures After(F, TraceOf(path), now) ==> then'
    decreases |path|
  {
    hide AfterStmt;
    hide AfterOk;
    hide EntersOk;
    hide AfterExpr;
    hide AfterOpt;
    hide Across;
    hide AtOk;
    if path == [] {
      then' := now;
    } else {
      var m := path[0];
      var mid := StepKeeps(F, p, c, a, now, m.t, m.to);
      then' := PathsKept(F, p, c, m.to, mid, path[1..]);
      AfterSplit(F, m.t, TraceOf(path[1..]), now);
      BeforeGrows(F, TraceOf(path[1..]));
      assert End(a, path) == End(m.to, path[1..]);
    }
  }
}
