/**
 How a procedure is left: the facts about its exit that the return-flow and sync-flow
 analyses compute, and the link between them that the assertion in TransSF relies on.
 */
module Leaving {
  import opened Ast
  import opened FlowValues
  import opened Flow
  import opened TwoRuns
  import opened Convergence
  import opened Control
  import opened Facts
  import opened Bridge
  import opened Clients
  import opened Walks
  import opened Results
  import opened Analyses
  import opened ForwardAnalyses
  import opened Positions
  import FE = ForwardExact

  // ---------- TransRF as a client ----------

  lemma ReturnMonotone(p: Proc)
    ensures Monotone(ReturnProblem(p))
  {
    forall n, pt, v, w | Le(v, w) ensures Le(ReturnTrans()(n, pt, v), ReturnTrans()(n, pt, w)) {
      LeMeaning(v, w);
      ReturnTransMeaning(n, pt, v);
      ReturnTransMeaning(n, pt, w);
      LeMeaning(ReturnTrans()(n, pt, v), ReturnTrans()(n, pt, w));
    }
  }

  lemma ReturnNode(p: Proc, n: Node)
    ensures Passes(ReturnProblem(p), REACHABLE, n, EntryPoint)
    ensures !(n.StmtNode? && n.s.Return?) ==> Passes(ReturnProblem(p), REACHABLE, n, ExitPoint)
    ensures n.StmtNode? && n.s.Return? ==> Acts(ReturnProblem(p), REACHABLE, ReachFact(), Returned, n)
    ensures !(n.StmtNode? && n.s.Return?) ==>
              forall ev :: ev != Returned ==> Acts(ReturnProblem(p), REACHABLE, ReachFact(), ev, n)
  {
    forall pt, v
      ensures Has(ReturnTrans()(n, pt, v), REACHABLE)
           == (Has(v, REACHABLE) && !(pt == ExitPoint && n.StmtNode? && n.s.Return?))
    {
      ReturnTransMeaning(n, pt, v);
    }
  }

  lemma {:induction false} ReturnExpr(p: Proc, e: Expr)
    ensures NodesLike(ReturnProblem(p), REACHABLE, ReachFact(), e)
  {
    hide Passes;
    hide Acts;
    ReturnNode(p, ExprNode(e));
    match e
    case Const(_, _) | Id(_, _) =>
    case Binop(_, _, left, right) =>
      ReturnExpr(p, right);
      ReturnExpr(p, left);
      ReturnNode(p, ExprNode(left));
    case Unary(_, _, operand) => ReturnExpr(p, operand);
    case Ternary(_, cond, yes, no) => ReturnExpr(p, cond); ReturnExpr(p, yes); ReturnExpr(p, no);
    case Call(_, name, args) => ReturnExpr(p, name); ReturnExprs(p, args);
  }

  lemma {:induction false} ReturnExprs(p: Proc, es: Exprs)
    ensures AllNodesLike(ReturnProblem(p), REACHABLE, ReachFact(), es)
  {
    match es
    case NoExprs =>
    case MoreExprs(head, tail) => ReturnExpr(p, head); ReturnExprs(p, tail);
  }

  lemma ReturnOpt(p: Proc, o: OptExpr)
    ensures LikeOpt(ReturnProblem(p), REACHABLE, ReachFact(), o)
  {
    if o.TheExpr? {
      ReturnExpr(p, o.e);
      NodesMean(ReturnProblem(p), REACHABLE, ReachFact(), o.e);
    }
  }

  lemma {:induction false} ReturnStmt(p: Proc, s: Stmt)
    ensures LikeStmt(ReturnProblem(p), REACHABLE, ReachFact(), s)
  {
    hide Passes;
    hide Acts;
    hide LikeExpr;
    ReturnNode(p, StmtNode(s));
    match s
    case Then(first, rest) => ReturnStmt(p, first); ReturnStmt(p, rest);
    case Eval(e) => ReturnOpt(p, TheExpr(e));
    case Decl(_, init) => ReturnOpt(p, init);
    case Block(_, items) => ReturnStmt(p, items);
    case If(_, test, yes, no) => ReturnOpt(p, TheExpr(test)); ReturnStmt(p, yes); ReturnStmt(p, no);
    case Switch(_, _, e, body) => ReturnOpt(p, TheExpr(e)); ReturnStmt(p, body);
    case While(_, e, body) => ReturnOpt(p, TheExpr(e)); ReturnStmt(p, body);
    case Do(_, body, e) => ReturnOpt(p, TheExpr(e)); ReturnStmt(p, body);
    case For(_, start, guard, next, body) =>
      ReturnOpt(p, start);
      ReturnOpt(p, guard);
      ReturnOpt(p, next);
      ReturnStmt(p, body);
    case Return(_, result) => ReturnOpt(p, result);
    case Spawn(_, receiver, op, callee, args) =>
      if receiver.TheExpr? { ReturnNode(p, ExprNode(receiver.e)); ReturnExpr(p, receiver.e); }
      ReturnExpr(p, callee);
      ReturnExprs(p, args);
      OperandsMean(ReturnProblem(p), REACHABLE, ReachFact(), s);
    case _ =>
  }

  lemma ReturnLike(p: Proc)
    ensures LikeProc(ReturnProblem(p), REACHABLE, ReachFact(), p, true)
  {
    ReturnStmt(p, p.body);
    ReturnNode(p, ProcNode(p));
  }

  // ---------- Paths that leave the procedure ----------

  // Some path leaves the procedure, by a return or by falling off the body.
  ghost predicate CanLeave(p: Proc) {
    exists path :: IsRun(p, Run(p.body, Stop), path) && End(Run(p.body, Stop), path) == Halt
  }

  // Some path falls off the end of the body.
  ghost predicate EndReachable(p: Proc) {
    exists path :: IsRun(p, Run(p.body, Stop), path) && End(Run(p.body, Stop), path) == Halt
                   && Returned !in TraceOf(path)
  }

  lemma {:induction false} ReachAfter(t: Trace)
    ensures After(ReachFact(), t, true) <==> Returned !in t
    ensures !After(ReachFact(), t, false)
  {
    if t != [] {
      ReachAfter(t[1..]);
    }
  }

  lemma ReachedIsEndReachable(p: Proc)
    ensures FE.Reached(ReachFact(), p, true, Halt) <==> EndReachable(p)
  {
    forall t ensures (After(ReachFact(), t, true) <==> Returned !in t) && !After(ReachFact(), t, false) {
      ReachAfter(t);
    }
  }

  // ---------- Where the exit value is defined ----------

  // An expression has been evaluated.
  ghost function EvaluatedFact(): Fact {
    Fact((ev: Event) => ev == Computed || ev.Use?, (ev: Event) => false)
  }

  // Some path leads to the exit from the start of the procedure, or, dead code included,
  // through an expression.
  ghost predicate ExitComputed(p: Proc) {
    FE.Reached(EvaluatedFact(), p, true, Halt)
  }

  lemma {:induction false} EvaluatedStays(t: Trace)
    ensures After(EvaluatedFact(), t, true)
  {
    if t != [] { EvaluatedStays(t[1..]); }
  }

  lemma LeftIsComputed(p: Proc)
    requires CanLeave(p)
    ensures ExitComputed(p)
  {
    var path :| IsRun(p, Run(p.body, Stop), path) && End(Run(p.body, Stop), path) == Halt;
    EvaluatedStays(TraceOf(path));
    assert FE.Brings(EvaluatedFact(), p, Run(p.body, Stop), true, Halt);
  }

  // A client whose bit REACHABLE says that some expression has made a value defined, at its
  // entry as TransRF does, or at its exit as GenKill does.
  function DefinedTrans(at: Point): (Node, Point, FlowValue) -> FlowValue {
    (n: Node, pt: Point, v: FlowValue) =>
      if pt == at && n.ExprNode? then FlowValue(false, (if v.undefined then {} else v.bits) + {REACHABLE}) else v
  }

  function DefinedProblem(p: Proc, at: Point): Problem {
    Problem(p.id, FlowValue(false, {REACHABLE}), DefinedTrans(at))
  }

  lemma DefinedTransMeaning(at: Point, n: Node, pt: Point, v: FlowValue)
    ensures DefinedTrans(at)(n, pt, v) ==
      if pt == at && n.ExprNode? then FlowValue(false, (if v.undefined then {} else v.bits) + {REACHABLE}) else v
  {
  }

  // Every expression has a leaf.
  lemma {:induction false} EvaluatedAlways(e: Expr, b: bool)
    ensures AfterExpr(EvaluatedFact(), e, b) && BeforeExpr(EvaluatedFact(), e, b)
  {
    var F := EvaluatedFact();
    match e
    case Const(_, _) | Id(_, _) =>
    case Binop(_, op, left, right) =>
      EvaluatedAlways(right, b);
      EvaluatedAlways(right, true);
      if !IsPlainTarget(op, left) {
        EvaluatedAlways(left, b);
        EvaluatedAlways(left, true);
      }
    case Unary(_, uop, operand) => if !uop.SizeOf? { EvaluatedAlways(operand, b); EvaluatedAlways(operand, true); }
    case Ternary(_, cond, yes, no) =>
      EvaluatedAlways(cond, b);
      EvaluatedAlways(cond, true);
      EvaluatedAlways(yes, true);
      EvaluatedAlways(yes, b);
      EvaluatedAlways(no, b);
    case Call(_, name, args) =>
      EvaluatedAlways(name, b);
      EvaluatedAlways(name, true);
      EvaluatedThroughout(args);
      if !BeforeExprs(F, args, b) { EvaluatedAlways(name, false); }
  }

  lemma {:induction false} EvaluatedThroughout(es: Exprs)
    ensures AfterExprs(EvaluatedFact(), es, true) && BeforeExprs(EvaluatedFact(), es, true)
  {
    if es.MoreExprs? {
      EvaluatedAlways(es.head, true);
      EvaluatedThroughout(es.tail);
    }
  }

  lemma {:induction false} DefinedForward(p: Proc, at: Point, e: Expr)
    ensures forall v {:trigger ForwardExpr(DefinedProblem(p, at), e, v)} :: Has(ForwardExpr(DefinedProblem(p, at), e, v), REACHABLE)
  {
    DefinedNode(p, at, e);
    match e
    case Const(_, _) | Id(_, _) =>
    case Binop(_, _, left, right) => DefinedForward(p, at, left); DefinedForward(p, at, right);
    case Unary(_, _, operand) => DefinedForward(p, at, operand);
    case Ternary(_, cond, yes, no) => DefinedForward(p, at, cond); DefinedForward(p, at, yes); DefinedForward(p, at, no);
    case Call(_, name, args) => DefinedForward(p, at, name); DefinedThroughout(p, at, args);
  }

  lemma {:induction false} DefinedThroughout(p: Proc, at: Point, es: Exprs)
    ensures forall v {:trigger ForwardExprs(DefinedProblem(p, at), es, v)} ::
      Has(v, REACHABLE) ==> Has(ForwardExprs(DefinedProblem(p, at), es, v), REACHABLE)
  {
    if es.MoreExprs? {
      DefinedForward(p, at, es.head);
      DefinedThroughout(p, at, es.tail);
    }
  }

  lemma DefinedNode(p: Proc, at: Point, e: Expr)
    ensures forall v {:trigger Enter(DefinedProblem(p, at), e, v)} ::
      at == EntryPoint || Has(v, REACHABLE) ==> Has(Enter(DefinedProblem(p, at), e, v), REACHABLE)
    ensures forall v {:trigger Leave(DefinedProblem(p, at), e, v)} ::
      at == ExitPoint || Has(v, REACHABLE) ==> Has(Leave(DefinedProblem(p, at), e, v), REACHABLE)
  {
    forall v, pt ensures at == pt || Has(v, REACHABLE) ==> Has(DefinedTrans(at)(ExprNode(e), pt, v), REACHABLE) {
      DefinedTransMeaning(at, ExprNode(e), pt, v);
    }
  }

  lemma {:induction false} DefinedBackward(p: Proc, at: Point, e: Expr)
    ensures forall v {:trigger BackwardExpr(DefinedProblem(p, at), e, v)} :: Has(BackwardExpr(DefinedProblem(p, at), e, v), REACHABLE)
  {
    DefinedNode(p, at, e);
    match e
    case Const(_, _) | Id(_, _) =>
    case Binop(_, _, left, right) => DefinedBackward(p, at, left);
    case Unary(_, _, operand) => DefinedBackward(p, at, operand);
    case Ternary(_, cond, yes, no) => DefinedBackward(p, at, cond);
    case Call(_, name, args) => DefinedBackward(p, at, name);
  }

  lemma DefinedExpr(p: Proc, at: Point, e: Expr)
    ensures LikeExpr(DefinedProblem(p, at), REACHABLE, EvaluatedFact(), e)
  {
    DefinedForward(p, at, e);
    DefinedBackward(p, at, e);
    forall b ensures AfterExpr(EvaluatedFact(), e, b) && BeforeExpr(EvaluatedFact(), e, b) { EvaluatedAlways(e, b); }
  }

  lemma DefinedOpt(p: Proc, at: Point, o: OptExpr)
    ensures LikeOpt(DefinedProblem(p, at), REACHABLE, EvaluatedFact(), o)
  {
    if o.TheExpr? { DefinedExpr(p, at, o.e); }
  }

  lemma DefinedOperands(p: Proc, at: Point, s: Stmt)
    requires s.Spawn?
    ensures LikeOperands(DefinedProblem(p, at), REACHABLE, EvaluatedFact(), s)
  {
    hide AfterExpr;
    hide BeforeExpr;
    var F := EvaluatedFact();
    DefinedForward(p, at, s.callee);
    DefinedBackward(p, at, s.callee);
    DefinedThroughout(p, at, s.args);
    EvaluatedThroughout(s.args);
    if s.receiver.TheExpr? {
      DefinedForward(p, at, s.receiver.e);
      DefinedBackward(p, at, s.receiver.e);
    }
    forall b ensures AfterExpr(F, s.callee, b) && BeforeExpr(F, s.callee, b) { EvaluatedAlways(s.callee, b); }
    if s.receiver.TheExpr? { EvaluatedAlways(s.receiver.e, true); }
  }

  lemma DefinedStmtNode(p: Proc, at: Point, s: Stmt)
    ensures Passes(DefinedProblem(p, at), REACHABLE, StmtNode(s), EntryPoint)
    ensures Passes(DefinedProblem(p, at), REACHABLE, StmtNode(s), ExitPoint)
    ensures forall ev {:trigger EvaluatedFact().gen(ev)} :: !EvaluatedFact().gen(ev) ==> Acts(DefinedProblem(p, at), REACHABLE, EvaluatedFact(), ev, StmtNode(s))
  {
    forall v, pt ensures DefinedTrans(at)(StmtNode(s), pt, v) == v {
      DefinedTransMeaning(at, StmtNode(s), pt, v);
    }
  }

  lemma {:induction false} DefinedStmt(p: Proc, at: Point, s: Stmt)
    ensures LikeStmt(DefinedProblem(p, at), REACHABLE, EvaluatedFact(), s)
  {
    hide Passes;
    hide Acts;
    hide LikeExpr;
    hide LikeOperands;
    DefinedStmtNode(p, at, s);
    match s
    case Then(first, rest) => DefinedStmt(p, at, first); DefinedStmt(p, at, rest);
    case Eval(e) => DefinedExpr(p, at, e);
    case Decl(_, init) => DefinedOpt(p, at, init); assert !EvaluatedFact().gen(DeclEvent(s));
    case Block(_, items) => DefinedStmt(p, at, items);
    case If(_, test, yes, no) => DefinedExpr(p, at, test); DefinedStmt(p, at, yes); DefinedStmt(p, at, no);
    case Switch(_, _, e, body) => DefinedExpr(p, at, e); DefinedStmt(p, at, body);
    case While(_, e, body) => DefinedExpr(p, at, e); DefinedStmt(p, at, body);
    case Do(_, body, e) => DefinedExpr(p, at, e); DefinedStmt(p, at, body);
    case For(_, start, guard, next, body) =>
      DefinedOpt(p, at, start);
      DefinedOpt(p, at, guard);
      DefinedOpt(p, at, next);
      DefinedStmt(p, at, body);
    case Return(_, result) => DefinedOpt(p, at, result); assert !EvaluatedFact().gen(Returned);
    case Spawn(_, _, _, _, _) => DefinedOperands(p, at, s); assert !EvaluatedFact().gen(SpawnEvent(s));
    case Sync(_) => assert !EvaluatedFact().gen(Synced);
    case _ =>
  }

  lemma DefinedLike(p: Proc, at: Point)
    ensures LikeProc(DefinedProblem(p, at), REACHABLE, EvaluatedFact(), p, true)
  {
    DefinedStmt(p, at, p.body);
    forall v, pt ensures DefinedTrans(at)(ProcNode(p), pt, v) == v {
      DefinedTransMeaning(at, ProcNode(p), pt, v);
    }
  }

  ghost function SameDefined(): Relation {
    (v: FlowValue, w: FlowValue) => !v.undefined <==> Has(w, REACHABLE)
  }

  lemma DefinedRespected(p: Proc)
    ensures Respected(SameDefined(), ReturnProblem(p), DefinedProblem(p, EntryPoint))
  {
    assert Has(DefinedProblem(p, EntryPoint).init, REACHABLE);
    forall n, pt, v, w | SameDefined()(v, w) ensures SameDefined()(ReturnTrans()(n, pt, v), DefinedTrans(EntryPoint)(n, pt, w)) {
      ReturnTransMeaning(n, pt, v);
      DefinedTransMeaning(EntryPoint, n, pt, w);
    }
  }

  ghost function ScopeOf(p: Proc): Scope {
    iset c | c in ProcCells(p)
  }

  lemma StartRelated(p: Proc, cells: Cells)
    ensures CellsRelated(SameDefined(), ScopeOf(p), Started(p, cells), Started(p, cells))
  {
    forall c | c in ScopeOf(p) ensures SameDefined()(Get(Started(p, cells).cells, c), Get(Started(p, cells).cells, c)) {
      InitPointsMeaning(p.body, cells, c);
    }
  }

  lemma ExitRelated(R: Relation, W: Scope, P: Problem, Q: Problem, p: Proc, cells: Cells)
    requires JumpsInside(p) && P.proc == p.id && Respected(R, P, Q)
    requires InScope(W, p.id, p.body) && Cell(p.id, ReturnValues) in W
    requires CellsRelated(R, W, Started(p, cells), Started(p, cells))
    ensures R(ExitValue(P, p, cells), ExitValue(Q, p, cells))
  {
    var st := Started(p, cells);
    StartedSettles(P, Forwards, p, cells);
    StartedSettles(Q, Forwards, p, cells);
    ConvergeRelated(R, W, P, Q, Forwards, p, st, st);
    var (a, b) := (FinalState(P, p, cells), FinalState(Q, p, cells));
    assert CellsRelated(R, W, a, b);
    ForwardRelated(R, W, P, Q, p.body);
    var (x, y) := (BodyEnd(P, p, a), BodyEnd(Q, p, b));
    assert Related(R, W, x, y);
    FlowIntoRelated(R, W, P, Q, x.0, y.0, Cell(p.id, ReturnValues), x.1, y.1);
  }

  // ---------- needs_return and needs_sync of the procedure ----------

  ghost function ReturnExit(p: Proc, m: Marks): FlowValue
    requires JumpsInside(p)
  {
    ExitValue(ReturnProblem(p), p, m.cells)
  }

  // A procedure type, as far as TransRF looks at it.
  datatype ProcType = ProcType(isVoid: bool, isInt: bool, isCilk: bool)

  // TransRF at the exit of the procedure.
  ghost predicate NeedsReturn(p: Proc, m: Marks, ty: ProcType)
    requires JumpsInside(p)
  {
    REACHABLE in ReturnExit(p, m).bits && (ty.isVoid || !ty.isInt || ty.isCilk)
  }

  /** The value of TransRF at the exit is defined if and only if a path leads there from the
      start, or through some expression. */
  lemma ReturnExitDefined(p: Proc, m: Marks)
    requires Analyzable(p)
    ensures !ReturnExit(p, m).undefined <==> ExitComputed(p)
  {
    hide FE.Reached;
    hide Respected;
    hide ExitValue;
    TreeIsWellFormed(p);
    DefinedLike(p, EntryPoint);
    DefinedRespected(p);
    StartRelated(p, m.cells);
    ExitRelated(SameDefined(), ScopeOf(p), ReturnProblem(p), DefinedProblem(p, EntryPoint), p, m.cells);
    ForwardExitExact(DefinedProblem(p, EntryPoint), REACHABLE, EvaluatedFact(), p, true, m.cells);
    ShownAtExit(DefinedProblem(p, EntryPoint), p, m.cells, REACHABLE);
  }

  lemma ShownAtExit(P: Problem, p: Proc, cells: Cells, b: Bit)
    requires Analyzable(p) && P.proc == p.id
    ensures Shown(FinalVisits(P, Forwards, p, cells), p.id, b) <==> Has(ExitValue(P, p, cells), b)
    ensures b in RawBits(FinalVisits(P, Forwards, p, cells), p.id) <==> b in ExitValue(P, p, cells).bits
  {
    hide FinalVisits;
    hide ExitValue;
    var V := FinalVisits(P, Forwards, p, cells);
    var e := ExitValue(P, p, cells);
    forall v ensures Visit(p.id, ExitPoint, v) in V <==> v == e {
      ExitShown(P, p, cells, v);
    }
    assert Visit(p.id, ExitPoint, e) in V;
    if b in e.bits {
      var w := Visit(p.id, ExitPoint, e);
      assert w in V && w.node == p.id && w.point == ExitPoint && b in w.value.bits;
    }
    if b in RawBits(V, p.id) {
      var w :| w in V && w.node == p.id && w.point == ExitPoint && b in w.value.bits;
      assert w == Visit(p.id, ExitPoint, w.value);
    }
  }

  /** The bit that decides needs_return is set whenever some path falls off the end of the
      body.  It is set only then, if a path leads to the exit from the start or through some
      expression.  Otherwise no path falls off, and the bit is that of the undefined value
      which the final pass carries to the end of the body. */
  lemma ReturnFlowExact(p: Proc, m: Marks)
    requires Analyzable(p)
    ensures EndReachable(p) ==> REACHABLE in ReturnExit(p, m).bits
    ensures ExitComputed(p) ==> (REACHABLE in ReturnExit(p, m).bits <==> EndReachable(p))
    ensures !ExitComputed(p) ==> !EndReachable(p) && ReturnExit(p, m) == CarriedToEnd(p, m)
  {
    hide FE.Reached;
    hide EndReachable;
    hide ExitValue;
    TreeIsWellFormed(p);
    ReturnLike(p);
    ForwardExitExact(ReturnProblem(p), REACHABLE, ReachFact(), p, true, m.cells);
    ReachedIsEndReachable(p);
    ShownAtExit(ReturnProblem(p), p, m.cells, REACHABLE);
    ReturnExitDefined(p, m);
    if !ExitComputed(p) { UndefinedIsCarried(p, m); }
  }

  ghost function CarriedToEnd(p: Proc, m: Marks): FlowValue
    requires JumpsInside(p)
  {
    BodyEnd(ReturnProblem(p), p, FinalState(ReturnProblem(p), p, m.cells)).1
  }

  lemma UndefinedIsCarried(p: Proc, m: Marks)
    requires JumpsInside(p) && ReturnExit(p, m).undefined
    ensures ReturnExit(p, m) == CarriedToEnd(p, m)
  {
  }

  // The body of a procedure is a block, at whose exit TransSF makes every value defined.
  lemma BlockExitDefined(p: Proc, init: FlowValue, gen: BitSets, kill: BitSets, cells: Cells)
    requires JumpsInside(p) && p.body.Block?
    ensures !ExitValue(GenKillProblem(p, init, gen, kill), p, cells).undefined
  {
    var P := GenKillProblem(p, init, gen, kill);
    forall v ensures !P.trans(StmtNode(p.body), ExitPoint, v).undefined {
      TransMeaning(gen, kill, StmtNode(p.body), ExitPoint, v);
    }
    assert !BodyEnd(P, p, FinalState(P, p, cells)).1.undefined;
  }

  /** needs_sync of the procedure is set if and only if some path falls off its body, or
      leads there from dead code, with a child outstanding. */
  lemma SyncFlowExact(p: Proc, m: Marks)
    requires Analyzable(p) && p.body.Block?
    ensures NeedsSync(p, m, p.id) <==> FE.Reached(ChildFact(), p, false, Halt)
  {
    hide FE.Reached;
    hide ExitValue;
    var r := SyncSets(p, m);
    TreeIsWellFormed(p);
    SyncLike(p, m);
    ForwardExitExact(SyncProblem(p, m), CHILDREN_OUTSTANDING, ChildFact(), p, false, m.cells);
    ShownAtExit(SyncProblem(p, m), p, m.cells, CHILDREN_OUTSTANDING);
    BlockExitDefined(p, EmptySet, r.gen, r.kill, m.cells);
  }

  // ---------- The assertion in TransSF ----------

  predicate OnlyEvaluates(t: Trace) {
    forall ev :: ev in t ==> IsEvaluation(ev)
  }

  lemma Parts(t: Trace, i: nat)
    requires i <= |t| && OnlyEvaluates(t[..i]) && OnlyEvaluates(t[i..])
    ensures OnlyEvaluates(t)
  {
    assert t == t[..i] + t[i..];
  }

  lemma {:induction false} ExprEvents(e: Expr, t: Trace)
    requires IsPath(e, t)
    ensures OnlyEvaluates(t)
    decreases e
  {
    match e
    case Const(_, _) | Id(_, _) =>
    case Binop(_, op, left, right) =>
      if IsPlainTarget(op, left) {
        ExprEvents(right, t[..|t| - 1]);
        Parts(t, |t| - 1);
      } else {
        var u := if op.OpAssign? && left.Id? then t[..|t| - 1] else t;
        if (op.AndAnd? || op.OrOr?) && IsPath(left, u) {
          ExprEvents(left, u);
        } else {
          var i :| 0 <= i <= |u| && IsPath(left, u[..i]) && IsPath(right, u[i..]);
          ExprEvents(left, u[..i]);
          ExprEvents(right, u[i..]);
          Parts(u, i);
        }
        if op.OpAssign? && left.Id? { Parts(t, |t| - 1); }
      }
    case Unary(_, uop, operand) =>
      if !uop.SizeOf? && !(uop.IncDec? && operand.Id?) { ExprEvents(operand, t); }
    case Ternary(_, cond, yes, no) =>
      var i :| 0 <= i <= |t| && IsPath(cond, t[..i]) && (IsPath(yes, t[i..]) || IsPath(no, t[i..]));
      ExprEvents(cond, t[..i]);
      if IsPath(yes, t[i..]) { ExprEvents(yes, t[i..]); } else { ExprEvents(no, t[i..]); }
      Parts(t, i);
    case Call(_, name, args) =>
      var i :| 0 <= i <= |t| && IsPath(name, t[..i]) && IsPathThroughAll(args, t[i..]);
      ExprEvents(name, t[..i]);
      ExprsEvents(args, t[i..]);
      Parts(t, i);
  }

  lemma {:induction false} ExprsEvents(es: Exprs, t: Trace)
    requires IsPathThroughAll(es, t)
    ensures OnlyEvaluates(t)
    decreases es
  {
    match es
    case NoExprs =>
    case MoreExprs(head, tail) =>
      var i :| 0 <= i <= |t| && IsPath(head, t[..i]) && IsPathThroughAll(tail, t[i..]);
      ExprEvents(head, t[..i]);
      ExprsEvents(tail, t[i..]);
      Parts(t, i);
  }

  lemma OptEvents(o: OptExpr, t: Trace)
    requires IsPathOpt(o, t)
    ensures OnlyEvaluates(t)
  {
    if o.TheExpr? { ExprEvents(o.e, t); }
  }

  // Only a spawn spawns, only a sync synchronizes, only a return returns.
  lemma StepEvents(p: Proc, a: Control, t: Trace, b: Control, ev: Event)
    requires Step(p, a, t, b) && ev in t && !IsEvaluation(ev)
    ensures a.Run?
    ensures ev.Spawned? ==> a.s.Spawn? && b != Halt
    ensures ev == Synced ==> a.s.Sync?
    ensures ev.Declare? ==> a.s.Decl? && a.s.init.NoExpr? && ev.x == a.s.id
    ensures ev == Returned ==> a.s.Return? && b == Halt
  {
    hide IsPath;
    hide Places;
    if a.Run? {
      match a.s
      case Eval(e) => ExprEvents(e, t);
      case Decl(_, init) => OptEvents(init, t[..|t| - 1]);
      case Switch(_, _, e, _) => ExprEvents(e, t);
      case If(_, e, _, _) => ExprEvents(e, t);
      case For(_, start, _, _, _) => OptEvents(start, t);
      case Return(_, result) => OptEvents(result, t[..|t| - 1]);
      case Spawn(_, _, _, _, _) => SpawnEvents(a.s, t[..|t| - 1]);
      case _ =>
    } else if a.Test? {
      if a.loop.For? { OptEvents(a.loop.guard, t); } else { ExprEvents(a.loop.test, t); }
    } else if a.Skip? && a.k.InLoop? && a.k.loop.For? {
      OptEvents(a.k.loop.next, t);
    }
  }

  lemma SpawnEvents(s: Stmt, t: Trace)
    requires s.Spawn? && IsSpawnPath(s, t)
    ensures OnlyEvaluates(t)
  {
    var i, j :| 0 <= i <= j <= |t| && IsReceiverPath(s, t[..i]) && IsPath(s.callee, t[i..j]) && IsPathThroughAll(s.args, t[j..]);
    if s.receiver.TheExpr? && !IsPlainTarget(s.op, s.receiver.e) { OptEvents(s.receiver, t[..i]); }
    ExprEvents(s.callee, t[i..j]);
    ExprsEvents(s.args, t[j..]);
    assert t[..j][..i] == t[..i] && t[..j][i..] == t[i..j];
    Parts(t[..j], i);
    Parts(t, j);
  }

  lemma {:induction false} NotKilled(F: Fact, t: Trace, ev: Event)
    requires After(F, t, true) && !After(F, t, false) && ev in t
    ensures !F.kill(ev)
  {
    if t[0] != ev { NotKilled(F, t[1..], ev); }
  }

  lemma {:induction false} GeneratedBy(F: Fact, t: Trace) returns (ev: Event)
    requires After(F, t, false)
    ensures ev in t && F.gen(ev)
  {
    if F.gen(t[0]) { ev := t[0]; } else { ev := GeneratedBy(F, t[1..]); }
  }

  // An outstanding child was spawned by some step, and nothing has returned since.
  lemma {:induction false} LastSpawn(p: Proc, a: Control, path: Path) returns (i: nat, s: Stmt, k: Cont)
    requires IsRun(p, a, path) && After(ChildFact(), TraceOf(path), false)
    ensures i < |path| && End(a, path[..i]) == Run(s, k) && s.Spawn?
    ensures IsRun(p, a, path[..i]) && IsRun(p, Run(s, k), path[i..])
    ensures Returned !in TraceOf(path[i..])
    decreases |path|
  {
    hide Step;
    hide TraceOf;
    assert path != [] by { NothingOutstanding(path); }
    var (m, rest) := (path[0], path[1..]);
    FirstMove(path);
    AfterSplit(ChildFact(), m.t, TraceOf(rest), false);
    if After(ChildFact(), TraceOf(rest), false) {
      var j;
      j, s, k := LastSpawn(p, m.to, rest);
      i := j + 1;
      assert path[..i] == [m] + rest[..j] && path[i..] == rest[j..];
      assert path[..i][1..] == rest[..j];
    } else {
      var ev := GeneratedBy(ChildFact(), m.t);
      StepEvents(p, a, m.t, m.to, ev);
      i, s, k := 0, a.s, a.k;
      assert path[..0] == [] && path[0..] == path;
      if Returned in TraceOf(path) {
        if Returned in m.t { StepEvents(p, a, m.t, m.to, Returned); }
        else { NotKilled(ChildFact(), TraceOf(rest), Returned); }
        assert false;
      }
    }
  }

  lemma NothingOutstanding(path: Path)
    requires After(ChildFact(), TraceOf(path), false)
    ensures path != []
  {
  }

  lemma FirstMove(path: Path)
    requires path != []
    ensures TraceOf(path) == path[0].t + TraceOf(path[1..])
  {
  }

  // Nothing has returned as long as execution goes on.
  lemma {:induction false} StillRunning(p: Proc, a: Control, path: Path)
    requires IsRun(p, a, path) && End(a, path) != Halt
    ensures Returned !in TraceOf(path)
    decreases |path|
  {
    hide RunStep;
    if path != [] {
      var m := path[0];
      if Returned in m.t {
        StepEvents(p, a, m.t, m.to, Returned);
        assert false;
      }
      assert End(m.to, path[1..]) == End(a, path);
      StillRunning(p, m.to, path[1..]);
    }
  }

  lemma Prepended(p: Proc, a: Control, m: Move, path: Path)
    requires Step(p, a, m.t, m.to) && IsRun(p, m.to, path)
    ensures IsRun(p, a, [m] + path) && End(a, [m] + path) == End(m.to, path)
    ensures TraceOf([m] + path) == m.t + TraceOf(path)
  {
    hide Step;
    assert ([m] + path)[1..] == path;
  }

  lemma {:induction false} Joined(p: Proc, a: Control, first: Path, second: Path)
    requires IsRun(p, a, first) && IsRun(p, End(a, first), second)
    ensures IsRun(p, a, first + second) && End(a, first + second) == End(End(a, first), second)
    decreases |first|
  {
    hide Step;
    if first == [] {
      assert first + second == second;
    } else {
      var m := first[0];
      assert End(m.to, first[1..]) == End(a, first);
      Joined(p, m.to, first[1..], second);
      assert (first + second)[1..] == first[1..] + second;
    }
  }

  lemma EmptyTrace()
    ensures TraceOf([]) == []
  {
  }

  lemma Associates(t: Trace, u: Trace, v: Trace)
    ensures t + (u + v) == (t + u) + v
  {
  }

  lemma {:induction false} JoinedTraces(first: Path, second: Path)
    ensures TraceOf(first + second) == TraceOf(first) + TraceOf(second)
  {
    hide TraceOf;
    if first == [] {
      EmptyTrace();
      assert first + second == second;
      assert [] + TraceOf(second) == TraceOf(second);
    } else {
      JoinedTraces(first[1..], second);
      FirstMove(first);
      FirstMove(first + second);
      assert (first + second)[1..] == first[1..] + second;
      Associates(first[0].t, TraceOf(first[1..]), TraceOf(second));
    }
  }

  // Every spawn lies on some path from the beginning.
  ghost predicate SpawnsReachable(p: Proc) {
    forall s, k {:trigger Place(s, k)} :: Place(s, k) in AllPlaces(p) && s.Spawn? ==>
      exists path :: IsRun(p, Run(p.body, Stop), path) && End(Run(p.body, Stop), path) == Run(s, k)
  }

  // A path that ends with a child outstanding leads on from a reachable spawn.
  lemma OutstandingReaches(p: Proc, start: Control, path: Path)
    requires SpawnsReachable(p) && ControlPlaced(p, start)
    requires IsRun(p, start, path) && End(start, path) == Halt && After(ChildFact(), TraceOf(path), false)
    ensures EndReachable(p)
  {
    hide AllPlaces;
    hide Step;
    hide TraceOf;
    hide IsRun;
    var i, s, k := LastSpawn(p, start, path);
    RunPlaced(p, start, path[..i]);
    var first :| IsRun(p, Run(p.body, Stop), first) && End(Run(p.body, Stop), first) == Run(s, k);
    StillRunning(p, Run(p.body, Stop), first);
    var whole := first + path[i..];
    Joined(p, Run(p.body, Stop), first, path[i..]);
    JoinedTraces(first, path[i..]);
    assert End(Run(s, k), path[i..]) == Halt;
    assert IsRun(p, Run(p.body, Stop), whole) && End(Run(p.body, Stop), whole) == Halt && Returned !in TraceOf(whole);
  }

  lemma StartPlaced(p: Proc, start: Control)
    requires FE.IsStart(p, start)
    ensures ControlPlaced(p, start)
  {
    hide AllPlaces;
    match start
    case Run(s, k) => AtPlace(p, s, k);
    case Test(l, k) => AtPlace(p, l, k);
    case Skip(k) => AtPlace(p, k.loop, k.k);
  }

  // An outstanding child at the exit was spawned at some place from which control gets there.
  lemma OutstandingPath(p: Proc) returns (start: Control, path: Path)
    requires FE.Reached(ChildFact(), p, false, Halt)
    ensures ControlPlaced(p, start) && (start == Run(p.body, Stop) || FE.IsStart(p, start))
    ensures IsRun(p, start, path) && End(start, path) == Halt && After(ChildFact(), TraceOf(path), false)
  {
    hide AllPlaces;
    if FE.Brings(ChildFact(), p, Run(p.body, Stop), false, Halt) {
      start := Run(p.body, Stop);
      BodyPlaced(p);
    } else {
      start :| FE.IsStart(p, start) && FE.Brings(ChildFact(), p, start, false, Halt);
      StartPlaced(p, start);
    }
    path :| IsRun(p, start, path) && End(start, path) == Halt && After(ChildFact(), TraceOf(path), false);
  }

  /** The assertion in TransSF: where every spawn is reachable, an outstanding child at the
      exit means that the end of the body is reachable, so needs_return is set for every
      procedure type that may spawn. */
  lemma OutstandingImpliesReturn(p: Proc, m: Marks, n: Marks, ty: ProcType)
    requires Analyzable(p) && p.body.Block? && SpawnsReachable(p) && ty.isCilk
    requires NeedsSync(p, m, p.id)
    ensures NeedsReturn(p, n, ty)
  {
    hide AllPlaces;
    hide ExitValue;
    hide FE.Reached;
    SyncFlowExact(p, m);
    var start, path := OutstandingPath(p);
    OutstandingReaches(p, start, path);
    ReturnFlowExact(p, n);
  }

  // ---------- Exactly when the assertion holds ----------

  // Every path through an expression reaches a leaf.
  lemma {:induction false} PathEvaluates(e: Expr, t: Trace) returns (ev: Event)
    requires IsPath(e, t)
    ensures ev in t && EvaluatedFact().gen(ev)
  {
    match e
    case Const(_, _) => ev := Computed;
    case Id(_, x) => ev := Use(x);
    case Binop(_, op, left, right) =>
      if IsPlainTarget(op, left) {
        ev := PathEvaluates(right, t[..|t| - 1]);
      } else {
        var u := if op.OpAssign? && left.Id? then t[..|t| - 1] else t;
        if (op.AndAnd? || op.OrOr?) && IsPath(left, u) {
          ev := PathEvaluates(left, u);
        } else {
          var i :| 0 <= i <= |u| && IsPath(left, u[..i]) && IsPath(right, u[i..]);
          ev := PathEvaluates(left, u[..i]);
        }
      }
    case Unary(_, uop, operand) =>
      if uop.SizeOf? {
        ev := Computed;
      } else if uop.IncDec? && operand.Id? {
        ev := Use(operand.decl);
      } else {
        ev := PathEvaluates(operand, t);
      }
    case Ternary(_, cond, yes, no) =>
      var i :| 0 <= i <= |t| && IsPath(cond, t[..i]) && (IsPath(yes, t[i..]) || IsPath(no, t[i..]));
      ev := PathEvaluates(cond, t[..i]);
    case Call(_, name, args) =>
      var i :| 0 <= i <= |t| && IsPath(name, t[..i]) && IsPathThroughAll(args, t[i..]);
      ev := PathEvaluates(name, t[..i]);
  }

  lemma {:induction false} EvaluatedIn(t: Trace, ev: Event, b: bool)
    requires ev in t && EvaluatedFact().gen(ev)
    ensures After(EvaluatedFact(), t, b)
  {
    if t[0] == ev { EvaluatedStays(t[1..]); } else { EvaluatedIn(t[1..], ev, Across(EvaluatedFact(), t[0], b)); }
  }

  // A spawn evaluates its callee.
  lemma SpawnEvaluates(p: Proc, s: Stmt, k: Cont, path: Path)
    requires s.Spawn? && path != [] && IsRun(p, Run(s, k), path)
    ensures After(EvaluatedFact(), TraceOf(path), false)
  {
    hide AllPlaces;
    hide IsPath;
    var (t, u) := (path[0].t, path[0].t[..|path[0].t| - 1]);
    var i, j :| 0 <= i <= j <= |u| && IsReceiverPath(s, u[..i]) && IsPath(s.callee, u[i..j]) && IsPathThroughAll(s.args, u[j..]);
    var ev := PathEvaluates(s.callee, u[i..j]);
    assert ev in t;
    FirstMove(path);
    EvaluatedIn(TraceOf(path), ev, false);
  }

  lemma OutstandingIsComputed(p: Proc)
    requires FE.Reached(ChildFact(), p, false, Halt)
    ensures ExitComputed(p)
  {
    hide AllPlaces;
    hide Step;
    hide TraceOf;
    hide IsRun;
    hide FE.IsStart;
    var start, path := OutstandingPath(p);
    var i, s, k := LastSpawn(p, start, path);
    SpawnEvaluates(p, s, k, path[i..]);
    assert path == path[..i] + path[i..];
    JoinedTraces(path[..i], path[i..]);
    AfterSplit(EvaluatedFact(), TraceOf(path[..i]), TraceOf(path[i..]), false);
    if !After(EvaluatedFact(), TraceOf(path[..i]), false) {
      assert After(EvaluatedFact(), TraceOf(path), false);
    } else {
      EvaluatedStays(TraceOf(path[i..]));
    }
    if start == Run(p.body, Stop) {
      EvaluatedStays(TraceOf(path));
      assert FE.Brings(EvaluatedFact(), p, start, true, Halt);
    } else {
      assert FE.Brings(EvaluatedFact(), p, start, false, Halt);
    }
  }

  /** The assertion in TransSF holds for a cilk procedure if and only if a path on which a
      child is outstanding at the exit, dead code included, means that some path falls off
      the end of the body. */
  lemma AssertionHolds(p: Proc, m: Marks, n: Marks, ty: ProcType)
    requires Analyzable(p) && p.body.Block? && ty.isCilk
    ensures (NeedsSync(p, m, p.id) ==> NeedsReturn(p, n, ty))
       <==> (FE.Reached(ChildFact(), p, false, Halt) ==> EndReachable(p))
  {
    hide FE.Reached;
    hide EndReachable;
    hide ExitComputed;
    hide ReturnExit;
    SyncFlowExact(p, m);
    ReturnFlowExact(p, n);
    if FE.Reached(ChildFact(), p, false, Halt) { OutstandingIsComputed(p); }
  }
}
