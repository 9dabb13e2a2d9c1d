/**
 Backward analyses are exact inside expressions as well: the client is shown a fact at the
 exit of an expression node if and only if some evaluation goes on from there along a path
 that meets the fact before it is killed.
 */
module InnerExact {
  import opened Ast
  import opened FlowValues
  import opened Flow
  import opened Inner
  import opened Convergence
  import opened Control
  import opened ControlFacts
  import opened Facts
  import opened BackwardPaths
  import opened InnerPaths
  import opened Bridge
  import opened InnerBridge
  import opened Bounds
  import opened Results
  import BE = BackwardExact
  import FE = ForwardExact

  // ---------- Going on from inside an expression ----------

  ghost predicate IsReceiverRest(s: Stmt, n: nat, u: Trace)
    requires s.Spawn?
  {
    if s.receiver.TheExpr? && IsPlainTarget(s.op, s.receiver.e) then s.receiver.e.id == n && u == []
    else IsRestOpt(s.receiver, n, u)
  }

  ghost predicate IsSpawnRest(s: Stmt, n: nat, u: Trace)
    requires s.Spawn?
  {
    || IsRestOfAll(s.args, n, u)
    || (exists i | 0 <= i <= |u| :: IsRest(s.callee, n, u[..i]) && IsPathThroughAll(s.args, u[i..]))
    || (exists i, j | 0 <= i <= j <= |u| ::
          IsReceiverRest(s, n, u[..i]) && IsPath(s.callee, u[i..j]) && IsPathThroughAll(s.args, u[j..]))
  }

  // After the exit of node n, the expression evaluated at a goes on with u, and then to b.
  ghost predicate RestStep(a: Control, n: nat, u: Trace, b: Control) {
    match a
    case Run(s, k) => RunRestStep(s, k, n, u, b)
    case Skip(k) => k.InLoop? && k.loop.For? && IsRestOpt(k.loop.next, n, u) && b == Test(k.loop, k.k)
    case Test(l, k) =>
      && (b == Run(if IsLoop(l) then l.body else Null, InLoop(l, k)) || b == Skip(k))
      && (if l.While? || l.Do? then IsRest(l.test, n, u) else l.For? && IsRestOpt(l.guard, n, u))
    case _ => false
  }

  ghost predicate RunRestStep(s: Stmt, k: Cont, n: nat, u: Trace, b: Control) {
    match s
    case Eval(e) => IsRest(e, n, u) && b == Skip(k)
    case Decl(_, init) => |u| > 0 && IsRestOpt(init, n, u[..|u| - 1]) && u[|u| - 1] == DeclEvent(s) && b == Skip(k)
    case Switch(_, _, subject, _) => IsRest(subject, n, u) && b == Dispatch(s, k)
    case If(_, test, yes, no) => IsRest(test, n, u) && (b == Run(yes, k) || b == Run(no, k))
    case For(_, start, _, _, _) => IsRestOpt(start, n, u) && b == Test(s, k)
    case Return(_, result) => |u| > 0 && IsRestOpt(result, n, u[..|u| - 1]) && u[|u| - 1] == Returned && b == Halt
    case Spawn(_, _, _, _, _) => |u| > 0 && IsSpawnRest(s, n, u[..|u| - 1]) && u[|u| - 1] == SpawnEvent(s) && b == Skip(k)
    case _ => false
  }

  ghost predicate Leads(F: Fact, p: Proc, a: Control, n: nat, u: Trace, b: Control, path: Path) {
    FE.IsStart(p, a) && RestStep(a, n, u, b) && IsRun(p, b, path) && Before(F, u + TraceOf(path), false)
  }

  // Some path from the exit of expression node n meets a generating event before any killing one.
  ghost predicate LiveInside(F: Fact, p: Proc, n: nat) {
    exists a, u, b, path :: Leads(F, p, a, n, u, b, path)
  }

  lemma LeadsOn(F: Fact, p: Proc, a: Control, n: nat, u: Trace, b: Control, x: bool)
    requires FE.IsStart(p, a) && RestStep(a, n, u, b) && Before(F, u, x) && (x ==> BE.Live(F, p, b))
    ensures LiveInside(F, p, n)
  {
    var path: Path := [];
    if x { path :| IsRun(p, b, path) && Before(F, TraceOf(path), false); }
    BeforeSplit(F, u, TraceOf(path), false);
    assert Leads(F, p, a, n, u, b, path);
  }

  // ---------- Spawns ----------

  lemma {:induction false} SpawnRestCovered(F: Fact, s: Stmt, n: nat, u: Trace, b: bool)
    requires s.Spawn? && IsSpawnRest(s, n, u) && Before(F, u, b)
    ensures n in SpawnMarks(F, s, b)
  {
    hide IsPath;
    hide IsRest;
    hide IsRestOfAll;
    hide IsPathThroughAll;
    hide BeforeExpr;
    hide BeforeExprs;
    hide ExprMarks;
    hide ExprsMarks;
    ExprsCovered(F, s.args);
    var x := BeforeExprs(F, s.args, b);
    if IsRestOfAll(s.args, n, u) {
      RestOfAllCovered(F, s.args, n, u, b);
    } else if i :| 0 <= i <= |u| && IsRest(s.callee, n, u[..i]) && IsPathThroughAll(s.args, u[i..]) {
      SplitAt(F, u, i, b);
      TraceGrows(F, u[..i]);
      RestCovered(F, s.callee, n, u[..i], x);
    } else {
      ReceiverRestCovered(F, s, n, u, b);
    }
  }

  lemma ThreeCuts(F: Fact, u: Trace, i: nat, j: nat, b: bool)
    requires i <= j <= |u|
    ensures Before(F, u, b) == Before(F, u[..i], Before(F, u[i..j], Before(F, u[j..], b)))
  {
    SplitAt(F, u, i, b);
    SplitAt(F, u[i..], j - i, b);
    assert u[i..][..j - i] == u[i..j] && u[i..][j - i..] == u[j..];
  }

  lemma ReceiverRestCovered(F: Fact, s: Stmt, n: nat, u: Trace, b: bool)
    requires s.Spawn? && Before(F, u, b)
    requires exists i, j | 0 <= i <= j <= |u| ::
               IsReceiverRest(s, n, u[..i]) && IsPath(s.callee, u[i..j]) && IsPathThroughAll(s.args, u[j..])
    ensures n in SpawnMarks(F, s, b)
  {
    hide IsPath;
    hide IsRest;
    hide IsRestOfAll;
    hide IsPathThroughAll;
    hide BeforeExpr;
    hide BeforeExprs;
    hide ExprMarks;
    hide ExprsMarks;
    ExprsCovered(F, s.args);
    ExprCovered(F, s.callee);
    var x := BeforeExprs(F, s.args, b);
    var i, j :| 0 <= i <= j <= |u| && IsReceiverRest(s, n, u[..i]) && IsPath(s.callee, u[i..j]) && IsPathThroughAll(s.args, u[j..]);
    ThreeCuts(F, u, i, j, b);
    TraceGrows(F, u[..i]);
    TraceGrows(F, u[i..j]);
    CoveredBy(F, s.callee, u[i..j], x);
    if !(s.receiver.TheExpr? && IsPlainTarget(s.op, s.receiver.e)) {
      RestCovered(F, s.receiver.e, n, u[..i], BeforeExpr(F, s.callee, x));
    }
  }

  lemma SpawnRestWitness(F: Fact, s: Stmt, n: nat, b: bool) returns (u: Trace)
    requires s.Spawn? && n in SpawnMarks(F, s, b)
    ensures IsSpawnRest(s, n, u) && Before(F, u, b)
  {
    hide IsPath;
    hide IsRest;
    hide IsRestOfAll;
    hide BeforeExpr;
    hide BeforeExprs;
    hide ExprMarks;
    hide ExprsMarks;
    var x := BeforeExprs(F, s.args, b);
    var y := BeforeExpr(F, s.callee, x);
    if n in ExprsMarks(F, s.args, b) {
      u := RestOfAllWitness(F, s.args, n, b);
    } else {
      var w := BeforeWitnesses(F, s.args, b);
      if n in ExprMarks(F, s.callee, x) {
        var r := RestWitness(F, s.callee, n, x);
        u := r + w;
        assert u[..|r|] == r && u[|r|..] == w;
        BeforeSplit(F, r, w, b);
      } else {
        var r: Trace := [];
        if !(s.receiver.TheExpr? && IsPlainTarget(s.op, s.receiver.e)) { r := RestWitness(F, s.receiver.e, n, y); }
        var v := BeforeWitness(F, s.callee, x);
        u := r + (v + w);
        ThreeParts(r, v, w);
        BeforeSplit(F, r, v + w, b);
        BeforeSplit(F, v, w, b);
        assert IsReceiverRest(s, n, u[..|r|]) && IsPath(s.callee, u[|r|..|r + v|]) && IsPathThroughAll(s.args, u[|r + v|..]);
      }
    }
  }

  // ---------- The equations cover every path from inside ----------

  // The rest of an evaluation is the end of a whole one.
  lemma RestIsStep(F: Fact, p: Proc, a: Control, n: nat, u: Trace, b: Control) returns (t: Trace)
    requires RestStep(a, n, u, b)
    ensures Step(p, a, t, b)
  {
    hide IsPath;
    hide IsRest;
    hide IsSpawnRest;
    hide IsSpawnPath;
    match a
    case Run(s, k) =>
      match s {
        case Eval(e) => t := BeforeWitness(F, e, false);
        case Decl(_, init) =>
          var w := BE.OptWitness(F, init, false);
          t := w + [DeclEvent(s)];
          assert t[..|t| - 1] == w;
        case Switch(_, _, subject, _) => t := BeforeWitness(F, subject, false);
        case If(_, test, _, _) => t := BeforeWitness(F, test, false);
        case For(_, start, _, _, _) => t := BE.OptWitness(F, start, false);
        case Return(_, result) =>
          var w := BE.OptWitness(F, result, false);
          t := w + [Returned];
          assert t[..|t| - 1] == w;
        case Spawn(_, _, _, _, _) =>
          var w := BE.SpawnWitness(F, s, false);
          t := w + [SpawnEvent(s)];
          assert t[..|t| - 1] == w;
      }
    case Skip(k) => t := BE.OptWitness(F, k.loop.next, false);
    case Test(l, k) =>
      if l.For? { t := BE.OptWitness(F, l.guard, false); } else { t := BeforeWitness(F, l.test, false); }
  }

  lemma OptRestCovered(F: Fact, o: OptExpr, n: nat, u: Trace, b: bool, i: bool)
    requires IsRestOpt(o, n, u) && Before(F, u, b) && (b ==> i)
    ensures n in OptMarks(F, o, i)
  {
    RestCovered(F, o.e, n, u, b);
    MarksGrow(F, o.e);
  }

  // The statement whose expression is evaluated at a.
  ghost function PlaceOf(a: Control): Place {
    match a
    case Run(s, k) => Place(s, k)
    case Test(l, k) => Place(l, k)
    case Skip(k) => if k.InLoop? then Place(k.loop, k.k) else Place(Null, k)
    case _ => Place(Null, Stop)
  }

  lemma RestMarked(F: Fact, c: set<Cell>, a: Control, n: nat, u: Trace, b: Control)
    requires RestStep(a, n, u, b) && ControlOk(F, c, a) && ControlOk(F, c, b) && Before(F, u, BeforeControl(F, c, b))
    ensures var q := PlaceOf(a); n in StmtMarks(F, c, q.s, BeforeCont(F, c, q.k))
  {
    hide IsPath;
    hide IsRest;
    hide ExprMarks;
    hide BeforeExpr;
    hide BeforeExprs;
    var x := BeforeControl(F, c, b);
    match a
    case Run(s, k) => RunRestMarked(F, c, s, k, n, u, b);
    case Skip(k) => OptRestCovered(F, k.loop.next, n, u, x, x);
    case Test(l, k) => TestRestMarked(F, c, l, k, n, u, b);
  }

  lemma RunRestMarked(F: Fact, c: set<Cell>, s: Stmt, k: Cont, n: nat, u: Trace, b: Control)
    requires RunRestStep(s, k, n, u, b) && Before(F, u, BeforeControl(F, c, b))
    ensures n in StmtMarks(F, c, s, BeforeCont(F, c, k))
  {
    hide IsPath;
    hide IsRest;
    hide ExprMarks;
    hide BeforeExpr;
    hide BeforeExprs;
    hide IsSpawnRest;
    hide SpawnMarks;
    var x := BeforeControl(F, c, b);
    match s
    case Eval(e) => RestCovered(F, e, n, u, x);
    case Decl(_, init) =>
      SplitLast(F, u, x);
      OptRestCovered(F, init, n, u[..|u| - 1], Across(F, DeclEvent(s), x), Across(F, DeclEvent(s), x));
    case Switch(_, _, subject, _) => RestCovered(F, subject, n, u, x);
    case If(_, test, yes, no) =>
      RestCovered(F, test, n, u, x);
      MarksGrow(F, test);
    case For(_, start, _, _, _) => OptRestCovered(F, start, n, u, x, x);
    case Return(_, result) =>
      SplitLast(F, u, x);
      OptRestCovered(F, result, n, u[..|u| - 1], Across(F, Returned, x), Across(F, Returned, x));
    case Spawn(_, _, _, _, _) =>
      SplitLast(F, u, x);
      SpawnRestCovered(F, s, n, u[..|u| - 1], Across(F, SpawnEvent(s), x));
  }

  lemma TestRestMarked(F: Fact, c: set<Cell>, l: Stmt, k: Cont, n: nat, u: Trace, b: Control)
    requires IsLoop(l) && RestStep(Test(l, k), n, u, b) && PlaceOk(F, c, l, k) && Before(F, u, BeforeControl(F, c, b))
    ensures n in StmtMarks(F, c, l, BeforeCont(F, c, k))
  {
    hide IsPath;
    hide IsRest;
    hide ExprMarks;
    hide BeforeExpr;
    hide BeforeExprs;
    var x := BeforeControl(F, c, b);
    var brk := Cell(l.id, BreakValues) in c;
    if l.For? {
      OptRestCovered(F, l.guard, n, u, x, brk || BeforeStmt(F, c, l.body, Cell(l.id, ContinueValues) in c));
    } else {
      RestCovered(F, l.test, n, u, x);
      MarksGrow(F, l.test);
    }
  }

  // The marks of a part are marks of the whole.
  lemma {:induction false} MarksInside(F: Fact, c: set<Cell>, s: Stmt, k: Cont, q: Place)
    requires WellFramed(k) && Resolved(s, k) && q in Places(s, k)
    ensures StmtMarks(F, c, q.s, BeforeCont(F, c, q.k)) <= StmtMarks(F, c, s, BeforeCont(F, c, k))
  {
    hide ExprMarks;
    hide BeforeExpr;
    hide BeforeExprs;
    hide IsPath;
    if q != Place(s, k) {
      match s
      case Then(first, rest) =>
        if q in Places(rest, k) { MarksInside(F, c, rest, k, q); } else { MarksInside(F, c, first, Seq(rest, k), q); }
      case Block(_, items) => MarksInside(F, c, items, k, q);
      case If(_, _, yes, no) =>
        if q in Places(yes, k) { MarksInside(F, c, yes, k, q); } else { MarksInside(F, c, no, k, q); }
      case Switch(_, _, _, body) => MarksInside(F, c, body, InSwitch(s, k), q);
      case While(_, _, body) => MarksInside(F, c, body, InLoop(s, k), q);
      case Do(_, body, _) => MarksInside(F, c, body, InLoop(s, k), q);
      case For(_, _, _, _, body) => MarksInside(F, c, body, InLoop(s, k), q);
    }
  }

  lemma StartOk(F: Fact, c: set<Cell>, p: Proc, a: Control)
    requires PlaceOk(F, c, p.body, Stop) && FE.IsStart(p, a)
    ensures ControlOk(F, c, a) && PlaceOf(a) in AllPlaces(p)
  {
    hide BeforeExpr;
    hide BeforeExprs;
    PlacesAreOk(F, c, p.body, Stop, PlaceOf(a));
  }

  lemma LeadsMarked(F: Fact, c: set<Cell>, p: Proc, a: Control, n: nat, u: Trace, b: Control, path: Path)
    requires PlaceOk(F, c, p.body, Stop) && Leads(F, p, a, n, u, b, path)
    ensures n in StmtMarks(F, c, p.body, false)
  {
    hide PlaceOk;
    hide StmtMarks;
    hide RestStep;
    hide Step;
    hide Places;
    StartOk(F, c, p, a);
    var t := RestIsStep(F, p, a, n, u, b);
    StepCovered(F, c, p, a, t, b);
    BeforeSplit(F, u, TraceOf(path), false);
    if Before(F, TraceOf(path), false) { PathsCovered(F, c, p, b, path); }
    TraceGrows(F, u);
    RestMarked(F, c, a, n, u, b);
    assert WellFramed(Stop) && Resolved(p.body, Stop) by { ResolvedBody(F, c, p); }
    MarksInside(F, c, p.body, Stop, PlaceOf(a));
  }

  lemma ResolvedBody(F: Fact, c: set<Cell>, p: Proc)
    requires PlaceOk(F, c, p.body, Stop)
    ensures Resolved(p.body, Stop)
  {
  }

  // ---------- And compute no more ----------

  lemma ExprLeads(F: Fact, p: Proc, a: Control, e: Expr, b: Control, x: bool)
    requires FE.IsStart(p, a) && (x ==> BE.Live(F, p, b))
    requires forall n, u {:trigger IsRest(e, n, u)} :: IsRest(e, n, u) ==> RestStep(a, n, u, b)
    ensures forall n :: n in ExprMarks(F, e, x) ==> LiveInside(F, p, n)
  {
    hide BE.Live;
    hide LiveInside;
    hide RestStep;
    forall n | n in ExprMarks(F, e, x) ensures LiveInside(F, p, n) {
      var u := RestWitness(F, e, n, x);
      LeadsOn(F, p, a, n, u, b, x);
    }
  }

  // The same with an event of the statement itself behind the expression.
  lemma ThenEventLeads(F: Fact, p: Proc, a: Control, o: OptExpr, ev: Event, b: Control, x: bool)
    requires FE.IsStart(p, a) && (x ==> BE.Live(F, p, b))
    requires forall n, u {:trigger IsRestOpt(o, n, u)} :: IsRestOpt(o, n, u) ==> RestStep(a, n, u + [ev], b)
    ensures forall n :: n in OptMarks(F, o, Across(F, ev, x)) ==> LiveInside(F, p, n)
  {
    hide BE.Live;
    hide LiveInside;
    hide RestStep;
    forall n | n in OptMarks(F, o, Across(F, ev, x)) ensures LiveInside(F, p, n) {
      var u := RestWitness(F, o.e, n, Across(F, ev, x));
      assert IsRestOpt(o, n, u);
      assert (u + [ev])[..|u + [ev]| - 1] == u;
      SplitLast(F, u + [ev], x);
      LeadsOn(F, p, a, n, u + [ev], b, x);
    }
  }

  lemma OptLeads(F: Fact, p: Proc, a: Control, o: OptExpr, b: Control, x: bool)
    requires FE.IsStart(p, a) && (x ==> BE.Live(F, p, b))
    requires forall n, u {:trigger IsRestOpt(o, n, u)} :: IsRestOpt(o, n, u) ==> RestStep(a, n, u, b)
    ensures forall n :: n in OptMarks(F, o, x) ==> LiveInside(F, p, n)
  {
    if o.TheExpr? {
      forall n, u | IsRest(o.e, n, u) ensures RestStep(a, n, u, b) { assert IsRestOpt(o, n, u); }
      ExprLeads(F, p, a, o.e, b, x);
    }
  }

  lemma SpawnLeads(F: Fact, p: Proc, s: Stmt, k: Cont, x: bool)
    requires s.Spawn? && Place(s, k) in AllPlaces(p) && (x ==> BE.Live(F, p, Skip(k)))
    ensures forall n :: n in SpawnMarks(F, s, Across(F, SpawnEvent(s), x)) ==> LiveInside(F, p, n)
  {
    hide BE.Live;
    hide LiveInside;
    hide SpawnMarks;
    hide IsSpawnRest;
    hide AllPlaces;
    forall n | n in SpawnMarks(F, s, Across(F, SpawnEvent(s), x)) ensures LiveInside(F, p, n) {
      var u := SpawnRestWitness(F, s, n, Across(F, SpawnEvent(s), x));
      assert (u + [SpawnEvent(s)])[..|u + [SpawnEvent(s)]| - 1] == u;
      SplitLast(F, u + [SpawnEvent(s)], x);
      LeadsOn(F, p, Run(s, k), n, u + [SpawnEvent(s)], Skip(k), x);
    }
  }

  // Every marked node of a placed statement leads on to the fact.
  ghost predicate AllLead(F: Fact, p: Proc, marks: set<nat>) {
    forall n :: n in marks ==> LiveInside(F, p, n)
  }

  lemma LeafLeads(F: Fact, p: Proc, s: Stmt, k: Cont, after: bool)
    requires Placed(p, s, k) && (after ==> BE.Live(F, p, Skip(k)))
    requires !s.Then? && !s.Block? && !s.If? && !s.Switch? && !IsLoop(s)
    ensures AllLead(F, p, StmtMarks(F, BE.LiveCells(F, p), s, after))
  {
    hide BE.Live;
    hide LiveInside;
    hide BE.LiveCells;
    hide IsRest;
    hide ExprMarks;
    hide OptMarks;
    hide SpawnMarks;
    hide IsRestOpt;
    assert Place(s, k) in AllPlaces(p) by { assert Place(s, k) in Places(s, k); }
    hide AllPlaces;
    hide Placed;
    hide Places;
    match s
    case Eval(e) => ExprLeads(F, p, Run(s, k), e, Skip(k), after);
    case Decl(_, init) =>
      forall n, u | IsRestOpt(init, n, u) ensures RestStep(Run(s, k), n, u + [DeclEvent(s)], Skip(k)) {
        assert (u + [DeclEvent(s)])[..|u + [DeclEvent(s)]| - 1] == u;
      }
      ThenEventLeads(F, p, Run(s, k), init, DeclEvent(s), Skip(k), after);
    case Return(_, result) =>
      forall n, u | IsRestOpt(result, n, u) ensures RestStep(Run(s, k), n, u + [Returned], Halt) {
        assert (u + [Returned])[..|u + [Returned]| - 1] == u;
      }
      ThenEventLeads(F, p, Run(s, k), result, Returned, Halt, false);
    case Spawn(_, _, _, _, _) => SpawnLeads(F, p, s, k, after);
    case _ =>
  }

  lemma {:induction false} MarksLead(F: Fact, p: Proc, s: Stmt, k: Cont, after: bool)
    requires DistinctNodes(p) && Placed(p, s, k) && (after ==> BE.Live(F, p, Skip(k)))
    ensures AllLead(F, p, StmtMarks(F, BE.LiveCells(F, p), s, after))
    decreases s, 1
  {
    hide BE.Live;
    hide LiveInside;
    hide BE.LiveCells;
    hide DistinctNodes;
    hide IsRest;
    hide IsPath;
    hide ExprMarks;
    hide BeforeExpr;
    assert Place(s, k) in Places(s, k);
    var c := BE.LiveCells(F, p);
    match s
    case Then(first, rest) =>
      BE.ExactAt(F, p, rest, k, after);
      var m := BeforeStmt(F, c, rest, after);
      if m { BE.StepLive(F, p, Skip(Seq(rest, k)), [], Run(rest, k), true); }
      MarksLead(F, p, rest, k, after);
      MarksLead(F, p, first, Seq(rest, k), m);
    case Block(_, items) => MarksLead(F, p, items, k, after);
    case If(_, test, yes, no) =>
      BE.ExactAt(F, p, yes, k, after);
      BE.ExactAt(F, p, no, k, after);
      MarksLead(F, p, yes, k, after);
      MarksLead(F, p, no, k, after);
      var y := BeforeStmt(F, c, yes, after);
      ExprLeads(F, p, Run(s, k), test, Run(if y then yes else no, k), y || BeforeStmt(F, c, no, after));
    case Switch(_, _, _, _) => SwitchLeads(F, p, s, k, after);
    case While(_, _, _) => WhileLeads(F, p, s, k, after);
    case Do(_, _, _) => DoLeads(F, p, s, k, after);
    case For(_, _, _, _, _) => ForLeads(F, p, s, k, after);
    case _ => LeafLeads(F, p, s, k, after);
  }

  lemma {:induction false} SwitchLeads(F: Fact, p: Proc, s: Stmt, k: Cont, after: bool)
    requires DistinctNodes(p) && Placed(p, s, k) && (after ==> BE.Live(F, p, Skip(k))) && s.Switch?
    ensures AllLead(F, p, StmtMarks(F, BE.LiveCells(F, p), s, after))
    decreases s, 0
  {
    hide BE.Live;
    hide LiveInside;
    hide BE.LiveCells;
    hide IsRest;
    hide IsPath;
    hide ExprMarks;
    hide BeforeExpr;
    var c := BE.LiveCells(F, p);
    assert Place(s, k) in Places(s, k);
    BE.CellOfPlace(F, p, Place(s, k), BreakValues);
    BE.CellOfPlace(F, p, Place(s, k), SwitchValues);
    var brk := Cell(s.id, BreakValues) in c;
    if brk { BE.StepLive(F, p, Skip(InSwitch(s, k)), [], Skip(k), true); }
    MarksLead(F, p, s.body, InSwitch(s, k), brk);
    ExprLeads(F, p, Run(s, k), s.subject, Dispatch(s, k), Cell(s.id, SwitchValues) in c);
  }

  // A node of the test leads to the body or past the loop.
  lemma TestLeads(F: Fact, p: Proc, s: Stmt, k: Cont, body: bool, brk: bool)
    requires (s.While? || s.Do?) && Place(s, k) in AllPlaces(p)
    requires (body ==> BE.Live(F, p, Run(s.body, InLoop(s, k)))) && (brk ==> BE.Live(F, p, Skip(k)))
    ensures AllLead(F, p, ExprMarks(F, s.test, body || brk))
  {
    hide BE.Live;
    hide LiveInside;
    hide IsRest;
    hide ExprMarks;
    hide AllPlaces;
    ExprLeads(F, p, Test(s, k), s.test, if body then Run(s.body, InLoop(s, k)) else Skip(k), body || brk);
  }

  lemma {:induction false} WhileLeads(F: Fact, p: Proc, s: Stmt, k: Cont, after: bool)
    requires DistinctNodes(p) && Placed(p, s, k) && (after ==> BE.Live(F, p, Skip(k))) && s.While?
    ensures AllLead(F, p, StmtMarks(F, BE.LiveCells(F, p), s, after))
    decreases s, 0
  {
    hide BE.Live;
    hide LiveInside;
    hide BE.LiveCells;
    hide IsRest;
    hide IsPath;
    hide ExprMarks;
    hide BeforeExpr;
    var c := BE.LiveCells(F, p);
    assert Place(s, k) in Places(s, k);
    BE.CellOfPlace(F, p, Place(s, k), BreakValues);
    BE.CellOfPlace(F, p, Place(s, k), LoopValues);
    var (brk, loop) := (Cell(s.id, BreakValues) in c, Cell(s.id, LoopValues) in c);
    if loop { BE.StepLive(F, p, Skip(InLoop(s, k)), [], Test(s, k), true); }
    BE.ExactAt(F, p, s.body, InLoop(s, k), loop);
    MarksLead(F, p, s.body, InLoop(s, k), loop);
    TestLeads(F, p, s, k, BeforeStmt(F, c, s.body, loop), brk);
  }

  lemma {:induction false} DoLeads(F: Fact, p: Proc, s: Stmt, k: Cont, after: bool)
    requires DistinctNodes(p) && Placed(p, s, k) && (after ==> BE.Live(F, p, Skip(k))) && s.Do?
    ensures AllLead(F, p, StmtMarks(F, BE.LiveCells(F, p), s, after))
    decreases s, 0
  {
    hide BE.Live;
    hide LiveInside;
    hide BE.LiveCells;
    hide IsRest;
    hide IsPath;
    hide ExprMarks;
    hide BeforeExpr;
    var c := BE.LiveCells(F, p);
    assert Place(s, k) in Places(s, k);
    BE.CellOfPlace(F, p, Place(s, k), BreakValues);
    BE.CellOfPlace(F, p, Place(s, k), LoopValues);
    BE.CellOfPlace(F, p, Place(s, k), ContinueValues);
    var (brk, loop, cont) := (Cell(s.id, BreakValues) in c, Cell(s.id, LoopValues) in c, Cell(s.id, ContinueValues) in c);
    if cont { BE.StepLive(F, p, Skip(InLoop(s, k)), [], Test(s, k), true); }
    MarksLead(F, p, s.body, InLoop(s, k), cont);
    TestLeads(F, p, s, k, loop, brk);
  }

  // The start, the guard and the step of a for loop.
  lemma HeadLeads(F: Fact, p: Proc, s: Stmt, k: Cont, loop: bool, body: bool, brk: bool)
    requires s.For? && Place(s, k) in AllPlaces(p) && (loop ==> BE.Live(F, p, Test(s, k)))
    requires (body ==> BE.Live(F, p, Run(s.body, InLoop(s, k)))) && (brk ==> BE.Live(F, p, Skip(k)))
    ensures AllLead(F, p, OptMarks(F, s.start, loop)) && AllLead(F, p, OptMarks(F, s.next, loop))
    ensures AllLead(F, p, OptMarks(F, s.guard, (s.guard.TheExpr? && brk) || body))
  {
    hide BE.Live;
    hide LiveInside;
    hide IsRestOpt;
    hide OptMarks;
    hide AllPlaces;
    OptLeads(F, p, Run(s, k), s.start, Test(s, k), loop);
    OptLeads(F, p, Skip(InLoop(s, k)), s.next, Test(s, k), loop);
    OptLeads(F, p, Test(s, k), s.guard, if body then Run(s.body, InLoop(s, k)) else Skip(k), (s.guard.TheExpr? && brk) || body);
  }

  lemma {:induction false} ForLeads(F: Fact, p: Proc, s: Stmt, k: Cont, after: bool)
    requires DistinctNodes(p) && Placed(p, s, k) && (after ==> BE.Live(F, p, Skip(k))) && s.For?
    ensures AllLead(F, p, StmtMarks(F, BE.LiveCells(F, p), s, after))
    decreases s, 0
  {
    hide BE.Live;
    hide LiveInside;
    hide BE.LiveCells;
    hide IsRest;
    hide IsPath;
    hide OptMarks;
    hide BeforeExpr;
    var c := BE.LiveCells(F, p);
    assert Place(s, k) in Places(s, k);
    BE.CellOfPlace(F, p, Place(s, k), BreakValues);
    BE.CellOfPlace(F, p, Place(s, k), LoopValues);
    BE.CellOfPlace(F, p, Place(s, k), ContinueValues);
    var (brk, loop, cont) := (Cell(s.id, BreakValues) in c, Cell(s.id, LoopValues) in c, Cell(s.id, ContinueValues) in c);
    BE.ExactAt(F, p, s.body, InLoop(s, k), cont);
    MarksLead(F, p, s.body, InLoop(s, k), cont);
    HeadLeads(F, p, s, k, loop, BeforeStmt(F, c, s.body, cont), brk);
  }

  // ---------- The equations are monotone ----------

  // d holds every cell of s that c holds.
  ghost predicate Within(c: set<Cell>, d: set<Cell>, proc: nat, s: Stmt) {
    forall x :: x in CellsWritten(proc, s) && x in c ==> x in d
  }

  lemma OptMarksGrow(F: Fact, o: OptExpr)
    ensures OptMarks(F, o, false) <= OptMarks(F, o, true)
    ensures BeforeOpt(F, o, false) ==> BeforeOpt(F, o, true)
  {
    if o.TheExpr? { MarksGrow(F, o.e); ExprGrows(F, o.e); }
  }

  lemma SpawnMarksGrow(F: Fact, s: Stmt)
    requires s.Spawn?
    ensures SpawnMarks(F, s, false) <= SpawnMarks(F, s, true)
    ensures BeforeReceiver(F, s, BeforeExpr(F, s.callee, BeforeExprs(F, s.args, false)))
        ==> BeforeReceiver(F, s, BeforeExpr(F, s.callee, BeforeExprs(F, s.args, true)))
  {
    hide ExprMarks;
    hide ExprsMarks;
    hide BeforeExpr;
    hide BeforeExprs;
    AllMarksGrow(F, s.args);
    ExprsGrow(F, s.args);
    MarksGrow(F, s.callee);
    ExprGrows(F, s.callee);
    OptMarksGrow(F, s.receiver);
  }

  lemma {:induction false} StmtMarksGrow(F: Fact, c: set<Cell>, d: set<Cell>, proc: nat, s: Stmt, i: bool, j: bool)
    requires Within(c, d, proc, s) && (i ==> j)
    ensures BeforeStmt(F, c, s, i) ==> BeforeStmt(F, d, s, j)
    ensures StmtMarks(F, c, s, i) <= StmtMarks(F, d, s, j)
    decreases s, 1
  {
    hide ExprMarks;
    hide OptMarks;
    hide SpawnMarks;
    hide BeforeExpr;
    hide BeforeOpt;
    match s
    case Then(first, rest) =>
      StmtMarksGrow(F, c, d, proc, rest, i, j);
      StmtMarksGrow(F, c, d, proc, first, BeforeStmt(F, c, rest, i), BeforeStmt(F, d, rest, j));
    case Eval(e) => MarksGrow(F, e); ExprGrows(F, e);
    case Decl(_, init) => OptMarksGrow(F, init);
    case Block(_, items) => StmtMarksGrow(F, c, d, proc, items, i, j);
    case If(_, test, yes, no) =>
      StmtMarksGrow(F, c, d, proc, yes, i, j);
      StmtMarksGrow(F, c, d, proc, no, i, j);
      MarksGrow(F, test);
      ExprGrows(F, test);
    case Spawn(_, _, _, _, _) => SpawnMarksGrow(F, s);
    case Switch(_, _, _, _) => ContainerMarksGrow(F, c, d, proc, s, i, j);
    case While(_, _, _) => ContainerMarksGrow(F, c, d, proc, s, i, j);
    case Do(_, _, _) => ContainerMarksGrow(F, c, d, proc, s, i, j);
    case For(_, _, _, _, _) => ContainerMarksGrow(F, c, d, proc, s, i, j);
    case _ =>
  }

  lemma {:induction false} ContainerMarksGrow(F: Fact, c: set<Cell>, d: set<Cell>, proc: nat, s: Stmt, i: bool, j: bool)
    requires s.Switch? || IsLoop(s)
    requires Within(c, d, proc, s) && (i ==> j)
    ensures BeforeStmt(F, c, s, i) ==> BeforeStmt(F, d, s, j)
    ensures StmtMarks(F, c, s, i) <= StmtMarks(F, d, s, j)
    decreases s, 0
  {
    hide ExprMarks;
    hide OptMarks;
    hide BeforeExpr;
    hide BeforeOpt;
    match s
    case Switch(id, _, subject, body) =>
      StmtMarksGrow(F, c, d, proc, body, Cell(id, BreakValues) in c, Cell(id, BreakValues) in d);
      MarksGrow(F, subject);
      ExprGrows(F, subject);
    case While(id, test, body) =>
      StmtMarksGrow(F, c, d, proc, body, Cell(id, LoopValues) in c, Cell(id, LoopValues) in d);
      MarksGrow(F, test);
    case Do(id, body, test) =>
      StmtMarksGrow(F, c, d, proc, body, Cell(id, ContinueValues) in c, Cell(id, ContinueValues) in d);
      MarksGrow(F, test);
    case For(id, start, guard, next, body) =>
      StmtMarksGrow(F, c, d, proc, body, Cell(id, ContinueValues) in c, Cell(id, ContinueValues) in d);
      OptMarksGrow(F, start);
      OptMarksGrow(F, guard);
      OptMarksGrow(F, next);
  }

  // ---------- What the final pass shows ----------

  // The nodes at whose exit the final pass shows bit b, inside expressions.
  ghost function FinalInner(P: Problem, p: Proc, cells: Cells): set<Visit>
    requires JumpsInside(p) && P.proc == p.id
  {
    InnerProc(P, p, State(Converge(P, Backwards, p, Started(p, cells)).cells, false, true, {}))
  }

  lemma {:induction false} WrittenAreCells(proc: nat, s: Stmt, x: Cell)
    requires x in CellsWritten(proc, s)
    ensures x.field != ExitMark
  {
    match s
    case Then(first, rest) => if x in CellsWritten(proc, first) { WrittenAreCells(proc, first, x); } else { WrittenAreCells(proc, rest, x); }
    case Block(_, items) => WrittenAreCells(proc, items, x);
    case If(_, _, yes, no) => if x in CellsWritten(proc, yes) { WrittenAreCells(proc, yes, x); } else { WrittenAreCells(proc, no, x); }
    case Switch(_, _, _, body) => if x in CellsWritten(proc, body) { WrittenAreCells(proc, body, x); }
    case While(_, _, body) => if x in CellsWritten(proc, body) { WrittenAreCells(proc, body, x); }
    case Do(_, body, _) => if x in CellsWritten(proc, body) { WrittenAreCells(proc, body, x); }
    case For(_, _, _, _, body) => if x in CellsWritten(proc, body) { WrittenAreCells(proc, body, x); }
    case _ =>
  }

  // In the end, what the equations mark is shown.
  lemma FinalMarks(P: Problem, b: Bit, F: Fact, p: Proc, cells: Cells) returns (c: set<Cell>)
    requires WellFormed(p) && JumpsInside(p) && LikeProc(P, b, F, p, false) && InnerLike(P, b, F, p.body)
    ensures ShownIds(FinalInner(P, p, cells), b) == StmtMarks(F, c, p.body, false)
    ensures PlaceOk(F, c, p.body, Stop)
    ensures forall x: Cell :: x.field != ExitMark && x in c ==> Has(Get(Converge(P, Backwards, p, Started(p, cells)).cells, x), b)
  {
    hide LikeStmt;
    hide InnerLike;
    hide StmtMarks;
    hide BeforeOk;
    hide BeforeStmt;
    var st := Final(P, Backwards, p, cells);
    var a := RecordAt(st, ProcNode(p), ExitPoint, P.init);
    var v := P.trans(ProcNode(p), ExitPoint, P.init);
    var V := OnePass(P, Backwards, p, st).visits;
    c := Holding(b, st.cells, V);
    HoldingMatches(b, st.cells, V);
    BackwardSolves(P, b, F, p, p.body, st.cells, c, V);
    MarksAreShown(P, b, F, p, p.body, st.cells, c, V);
    assert Quiet(Backward(P, p.body, v, a).0, st.cells, V);
    assert BackwardMeets(P, b, F, p, p.body, st.cells, c, V, v, a);
    assert InnerStmt(P, p.body, v, a, {}) == FinalInner(P, p, cells);
    assert ShowsMarks(P, b, F, p.body, st.cells, c, V, v, a, {});
    assert ShownIds({}, b) == {};
  }

  lemma FinalBelow(P: Problem, b: Bit, F: Fact, p: Proc, cells: Cells)
    requires WellFormed(p) && JumpsInside(p) && LikeProc(P, b, F, p, false)
    ensures Below(BE.LiveCells(F, p), b, ProcCells(p), Converge(P, Backwards, p, Started(p, cells)))
  {
    hide LikeStmt;
    BE.LiveCellsSolve(F, p);
    StartBelow(BE.LiveCells(F, p), b, p, cells);
    BackwardStaysBelow(P, b, F, p, BE.LiveCells(F, p), Started(p, cells));
  }

  /** A backward gen/kill analysis is exact at expression nodes: the client is shown a fact at
      the exit of a node if and only if some evaluation goes on from there along a path that
      generates it before killing it. */
  lemma InnerAnalysisExact(P: Problem, b: Bit, F: Fact, p: Proc, cells: Cells, n: nat)
    requires WellFormed(p) && JumpsInside(p) && LikeProc(P, b, F, p, false) && InnerLike(P, b, F, p.body)
    ensures n in ShownIds(FinalInner(P, p, cells), b) <==> LiveInside(F, p, n)
  {
    hide LikeProc;
    hide InnerLike;
    hide StmtMarks;
    hide ShownIds;
    hide PlaceOk;
    hide FinalInner;
    hide Converge;
    var c := FinalMarks(P, b, F, p, cells);
    if n in StmtMarks(F, c, p.body, false) {
      var d := BE.LiveCells(F, p);
      FinalBelow(P, b, F, p, cells);
      forall x | x in CellsWritten(p.id, p.body) && x in c ensures x in d { WrittenAreCells(p.id, p.body, x); }
      StmtMarksGrow(F, c, d, p.id, p.body, false, false);
      BE.WholePlaced(p);
      MarksLead(F, p, p.body, Stop, false);
    }
    if LiveInside(F, p, n) {
      var a, u, r, path :| Leads(F, p, a, n, u, r, path);
      LeadsMarked(F, c, p, a, n, u, r, path);
    }
  }
}
