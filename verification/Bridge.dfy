/**
 From flow values to facts: what a pass of the engine does to one bit.

 A client is like a fact when its transfer functions act on one bit as the fact's events
 prescribe.  A pass that changes nothing then satisfies the equations of the fact, and a
 pass that starts below a solution of the equations stays below it.
 */
module Bridge {
  import opened Ast
  import opened FlowValues
  import opened Flow
  import opened Control
  import opened Facts
  import opened BackwardPaths
  import opened ForwardPaths

  // ---------- Clients that are like a fact ----------

  ghost predicate Passes(P: Problem, b: Bit, n: Node, pt: Point) {
    forall v :: Has(P.trans(n, pt, v), b) == Has(v, b)
  }

  ghost predicate Acts(P: Problem, b: Bit, F: Fact, ev: Event, n: Node) {
    forall v :: Has(P.trans(n, ExitPoint, v), b) == Across(F, ev, Has(v, b))
  }

  // The nodes of e act as the events of paths through e do.
  ghost predicate NodesLike(P: Problem, b: Bit, F: Fact, e: Expr) {
    var n := ExprNode(e);
    Passes(P, b, n, EntryPoint) &&
    match e
    case Const(_, _) => Acts(P, b, F, Computed, n)
    case Id(_, x) => Acts(P, b, F, Use(x), n)
    case Binop(_, op, left, right) =>
      NodesLike(P, b, F, right) &&
      if IsPlainTarget(op, left) then LikeTarget(P, b, left) && Acts(P, b, F, Set(left.decl), n)
      else NodesLike(P, b, F, left) &&
           if op.OpAssign? && left.Id? then Acts(P, b, F, Update(left.decl), n) else Passes(P, b, n, ExitPoint)
    case Unary(_, uop, operand) =>
      if uop.SizeOf? then Acts(P, b, F, Computed, n)
      else NodesLike(P, b, F, operand) &&
           if uop.IncDec? && operand.Id? then Acts(P, b, F, Update(operand.decl), n) else Passes(P, b, n, ExitPoint)
    case Ternary(_, cond, yes, no) =>
      Passes(P, b, n, ExitPoint) && NodesLike(P, b, F, cond) && NodesLike(P, b, F, yes) && NodesLike(P, b, F, no)
    case Call(_, name, args) =>
      Passes(P, b, n, ExitPoint) && NodesLike(P, b, F, name) && AllNodesLike(P, b, F, args)
  }

  // The variable that a plain assignment overwrites: its Id node uses nothing.
  ghost predicate LikeTarget(P: Problem, b: Bit, e: Expr) {
    Passes(P, b, ExprNode(e), EntryPoint) && Passes(P, b, ExprNode(e), ExitPoint)
  }

  ghost predicate AllNodesLike(P: Problem, b: Bit, F: Fact, es: Exprs) {
    match es
    case NoExprs => true
    case MoreExprs(head, tail) => NodesLike(P, b, F, head) && AllNodesLike(P, b, F, tail)
  }

  ghost predicate OptNodesLike(P: Problem, b: Bit, F: Fact, o: OptExpr) {
    o.TheExpr? ==> NodesLike(P, b, F, o.e)
  }

  // What the client computes for e is what the fact computes.
  ghost predicate LikeExpr(P: Problem, b: Bit, F: Fact, e: Expr) {
    && (forall v {:trigger ForwardExpr(P, e, v)} :: Has(ForwardExpr(P, e, v), b) == AfterExpr(F, e, Has(v, b)))
    && (forall v {:trigger BackwardExpr(P, e, v)} :: Has(BackwardExpr(P, e, v), b) == BeforeExpr(F, e, Has(v, b)))
  }

  ghost predicate LikeOpt(P: Problem, b: Bit, F: Fact, o: OptExpr) {
    o.TheExpr? ==> LikeExpr(P, b, F, o.e)
  }

  // The operands of a spawn, in both directions.
  function SpawnForward(P: Problem, s: Stmt, v: FlowValue): FlowValue
    requires s.Spawn?
  {
    ForwardExprs(P, s.args, ForwardExpr(P, s.callee, ForwardOpt(P, s.receiver, v)))
  }

  function SpawnBackward(P: Problem, s: Stmt, v: FlowValue): FlowValue
    requires s.Spawn?
  {
    BackwardOpt(P, s.receiver, BackwardExpr(P, s.callee, BackwardExprs(P, s.args, v)))
  }

  ghost predicate LikeOperands(P: Problem, b: Bit, F: Fact, s: Stmt)
    requires s.Spawn?
  {
    && (forall v {:trigger SpawnForward(P, s, v)} :: Has(SpawnForward(P, s, v), b) == AtSpawn(F, s, Has(v, b)))
    && (forall v {:trigger SpawnBackward(P, s, v)} ::
          Has(SpawnBackward(P, s, v), b) == BeforeReceiver(F, s, BeforeExpr(F, s.callee, BeforeExprs(F, s.args, Has(v, b)))))
  }

  ghost predicate LikeStmt(P: Problem, b: Bit, F: Fact, s: Stmt) {
    var n := StmtNode(s);
    (HasId(s) ==> Passes(P, b, n, EntryPoint)) &&
    (HasId(s) && !s.Decl? && !s.Return? && !s.Spawn? && !s.Sync? ==> Passes(P, b, n, ExitPoint)) &&
    match s
    case Then(first, rest) => LikeStmt(P, b, F, first) && LikeStmt(P, b, F, rest)
    case Eval(e) => LikeExpr(P, b, F, e)
    case Decl(_, init) => LikeOpt(P, b, F, init) && Acts(P, b, F, DeclEvent(s), n)
    case Block(_, items) => LikeStmt(P, b, F, items)
    case If(_, test, yes, no) => LikeExpr(P, b, F, test) && LikeStmt(P, b, F, yes) && LikeStmt(P, b, F, no)
    case Switch(_, _, subject, body) => LikeExpr(P, b, F, subject) && LikeStmt(P, b, F, body)
    case While(_, test, body) => LikeExpr(P, b, F, test) && LikeStmt(P, b, F, body)
    case Do(_, body, test) => LikeExpr(P, b, F, test) && LikeStmt(P, b, F, body)
    case For(_, start, guard, next, body) =>
      LikeOpt(P, b, F, start) && LikeOpt(P, b, F, guard) && LikeOpt(P, b, F, next) && LikeStmt(P, b, F, body)
    case Return(_, result) => LikeOpt(P, b, F, result) && Acts(P, b, F, Returned, n)
    case Spawn(_, receiver, op, callee, args) =>
      LikeOperands(P, b, F, s) && Acts(P, b, F, SpawnEvent(s), n)
    case Sync(_) => Acts(P, b, F, Synced, n)
    case _ => true
  }

  // The client is like the fact on the whole procedure, and starts as `init` says.
  ghost predicate LikeProc(P: Problem, b: Bit, F: Fact, p: Proc, init: bool) {
    && P.proc == p.id
    && Has(P.init, b) == init
    && Passes(P, b, ProcNode(p), EntryPoint)
    && Passes(P, b, ProcNode(p), ExitPoint)
    && LikeStmt(P, b, F, p.body)
  }

  // ---------- Expressions whose nodes are like the events ----------

  lemma {:induction false} NodesMeanForward(P: Problem, b: Bit, F: Fact, e: Expr)
    requires NodesLike(P, b, F, e)
    ensures forall v {:trigger ForwardExpr(P, e, v)} :: Has(ForwardExpr(P, e, v), b) == AfterExpr(F, e, Has(v, b))
  {
    hide Across;
    match e
    case Const(_, _) | Id(_, _) =>
    case Binop(_, op, left, right) =>
      NodesMeanForward(P, b, F, right);
      if !IsPlainTarget(op, left) { NodesMeanForward(P, b, F, left); }
    case Unary(_, uop, operand) => if !uop.SizeOf? { NodesMeanForward(P, b, F, operand); }
    case Ternary(_, cond, yes, no) =>
      NodesMeanForward(P, b, F, cond);
      NodesMeanForward(P, b, F, yes);
      NodesMeanForward(P, b, F, no);
    case Call(_, name, args) => NodesMeanForward(P, b, F, name); AllNodesMeanForward(P, b, F, args);
  }

  lemma {:induction false} AllNodesMeanForward(P: Problem, b: Bit, F: Fact, es: Exprs)
    requires AllNodesLike(P, b, F, es)
    ensures forall v {:trigger ForwardExprs(P, es, v)} :: Has(ForwardExprs(P, es, v), b) == AfterExprs(F, es, Has(v, b))
  {
    match es
    case NoExprs =>
    case MoreExprs(head, tail) => NodesMeanForward(P, b, F, head); AllNodesMeanForward(P, b, F, tail);
  }

  lemma {:induction false} NodesMeanBackward(P: Problem, b: Bit, F: Fact, e: Expr)
    requires NodesLike(P, b, F, e)
    ensures forall v {:trigger BackwardExpr(P, e, v)} :: Has(BackwardExpr(P, e, v), b) == BeforeExpr(F, e, Has(v, b))
  {
    hide Across;
    match e
    case Const(_, _) | Id(_, _) =>
    case Binop(_, op, left, right) =>
      NodesMeanBackward(P, b, F, right);
      if !IsPlainTarget(op, left) { NodesMeanBackward(P, b, F, left); }
    case Unary(_, uop, operand) => if !uop.SizeOf? { NodesMeanBackward(P, b, F, operand); }
    case Ternary(_, cond, yes, no) =>
      NodesMeanBackward(P, b, F, cond);
      NodesMeanBackward(P, b, F, yes);
      NodesMeanBackward(P, b, F, no);
    case Call(_, name, args) => NodesMeanBackward(P, b, F, name); AllNodesMeanBackward(P, b, F, args);
  }

  lemma {:induction false} AllNodesMeanBackward(P: Problem, b: Bit, F: Fact, es: Exprs)
    requires AllNodesLike(P, b, F, es)
    ensures forall v {:trigger BackwardExprs(P, es, v)} :: Has(BackwardExprs(P, es, v), b) == BeforeExprs(F, es, Has(v, b))
  {
    match es
    case NoExprs =>
    case MoreExprs(head, tail) => NodesMeanBackward(P, b, F, head); AllNodesMeanBackward(P, b, F, tail);
  }

  lemma NodesMean(P: Problem, b: Bit, F: Fact, e: Expr)
    requires NodesLike(P, b, F, e)
    ensures LikeExpr(P, b, F, e)
  {
    NodesMeanForward(P, b, F, e);
    NodesMeanBackward(P, b, F, e);
  }

  lemma OperandsMean(P: Problem, b: Bit, F: Fact, s: Stmt)
    requires s.Spawn? && NodesLike(P, b, F, s.callee) && AllNodesLike(P, b, F, s.args)
    requires if s.receiver.TheExpr? && IsPlainTarget(s.op, s.receiver.e) then LikeTarget(P, b, s.receiver.e)
             else OptNodesLike(P, b, F, s.receiver)
    ensures LikeOperands(P, b, F, s)
  {
    hide NodesLike;
    NodesMean(P, b, F, s.callee);
    AllNodesMeanForward(P, b, F, s.args);
    AllNodesMeanBackward(P, b, F, s.args);
    if s.receiver.TheExpr? && !IsPlainTarget(s.op, s.receiver.e) { NodesMean(P, b, F, s.receiver.e); }
    forall v ensures Has(SpawnForward(P, s, v), b) == AtSpawn(F, s, Has(v, b)) {
      assert Has(ForwardOpt(P, s.receiver, v), b) == AfterReceiver(F, s, Has(v, b));
    }
  }

  // ---------- Expressions of clients that are like a fact ----------

  lemma ForwardExprBit(P: Problem, b: Bit, F: Fact, e: Expr)
    requires LikeExpr(P, b, F, e)
    ensures forall v {:trigger ForwardExpr(P, e, v)} :: Has(ForwardExpr(P, e, v), b) == AfterExpr(F, e, Has(v, b))
  {
  }

  lemma ForwardOptBit(P: Problem, b: Bit, F: Fact, o: OptExpr)
    requires LikeOpt(P, b, F, o)
    ensures forall v {:trigger ForwardOpt(P, o, v)} :: Has(ForwardOpt(P, o, v), b) == AfterOpt(F, o, Has(v, b))
  {
    if o.TheExpr? { ForwardExprBit(P, b, F, o.e); }
  }

  lemma ForwardOperandsBit(P: Problem, b: Bit, F: Fact, s: Stmt)
    requires s.Spawn? && LikeOperands(P, b, F, s)
    ensures forall v {:trigger ForwardOpt(P, s.receiver, v)} :: Has(SpawnForward(P, s, v), b) == AtSpawn(F, s, Has(v, b))
  {
  }

  lemma BackwardExprBit(P: Problem, b: Bit, F: Fact, e: Expr)
    requires LikeExpr(P, b, F, e)
    ensures forall v {:trigger BackwardExpr(P, e, v)} :: Has(BackwardExpr(P, e, v), b) == BeforeExpr(F, e, Has(v, b))
  {
  }

  lemma BackwardOptBit(P: Problem, b: Bit, F: Fact, o: OptExpr)
    requires LikeOpt(P, b, F, o)
    ensures forall v {:trigger BackwardOpt(P, o, v)} :: Has(BackwardOpt(P, o, v), b) == BeforeOpt(F, o, Has(v, b))
  {
    if o.TheExpr? { BackwardExprBit(P, b, F, o.e); }
  }

  lemma BackwardOperandsBit(P: Problem, b: Bit, F: Fact, s: Stmt)
    requires s.Spawn? && LikeOperands(P, b, F, s)
    ensures forall v {:trigger BackwardExprs(P, s.args, v)} ::
      Has(SpawnBackward(P, s, v), b) == BeforeReceiver(F, s, BeforeExpr(F, s.callee, BeforeExprs(F, s.args, Has(v, b))))
  {
  }

  // ---------- A pass that changes nothing solves the equations ----------

  // c holds exactly the cells with bit b, and a mark for every visit of V that shows the bit.
  ghost predicate Matches(c: set<Cell>, b: Bit, cells: Cells, V: set<Visit>) {
    && (forall x: Cell :: x.field != ExitMark ==> (x in c <==> Has(Get(cells, x), b)))
    && (forall n, v :: Visit(n, ExitPoint, v) in V && Has(v, b) ==> Cell(n, ExitMark) in c)
  }

  // A final pass that is still without change, and shows the client no more than V.
  ghost predicate Quiet(st: State, cells: Cells, V: set<Visit>) {
    !st.changed && st.final && st.cells == cells && st.visits <= V
  }

  lemma QuietFlow(st: State, x: Cell, v: FlowValue, c: set<Cell>, b: Bit, V: set<Visit>)
    requires Quiet(FlowInto(st, x, v).0, st.cells, V) && Matches(c, b, st.cells, V) && x.field != ExitMark
    ensures FlowInto(st, x, v).0 == st
    ensures Has(v, b) ==> x in c
    ensures Has(FlowInto(st, x, v).1, b) <==> x in c
  {
  }

  lemma QuietFlowAll(cells: Cells, c: set<Cell>, b: Bit, V: set<Visit>)
    requires Matches(c, b, cells, V)
    ensures forall st: State, x: Cell, v {:trigger FlowInto(st, x, v)} ::
      x.field != ExitMark && st.cells == cells && Quiet(FlowInto(st, x, v).0, cells, V) ==>
        FlowInto(st, x, v).0 == st && (Has(v, b) ==> x in c) && (Has(FlowInto(st, x, v).1, b) <==> x in c)
  {
    forall st: State, x: Cell, v | x.field != ExitMark && st.cells == cells && Quiet(FlowInto(st, x, v).0, cells, V)
      ensures FlowInto(st, x, v).0 == st && (Has(v, b) ==> x in c) && (Has(FlowInto(st, x, v).1, b) <==> x in c)
    {
      QuietFlow(st, x, v, c, b, V);
    }
  }

  // A pass over s that changes nothing meets the equations of s and computes their value.
  ghost predicate ForwardMeets(P: Problem, b: Bit, F: Fact, p: Proc, s: Stmt, cells: Cells, c: set<Cell>, V: set<Visit>, v: FlowValue, st: State) {
    st.cells == cells && Quiet(Forward(P, s, v, st).0, cells, V) ==>
      AfterOk(F, p, c, s, Has(v, b)) && Has(Forward(P, s, v, st).1, b) == AfterStmt(F, c, s, Has(v, b))
  }

  ghost predicate ForwardSolved(P: Problem, b: Bit, F: Fact, p: Proc, s: Stmt, cells: Cells, c: set<Cell>, V: set<Visit>) {
    forall v, st {:trigger Forward(P, s, v, st)} :: ForwardMeets(P, b, F, p, s, cells, c, V, v, st)
  }

  lemma ForwardSwitchSolves(P: Problem, b: Bit, F: Fact, p: Proc, s: Stmt, cells: Cells, c: set<Cell>, V: set<Visit>, v: FlowValue, st: State)
    requires s.Switch? && P.proc == p.id && LikeStmt(P, b, F, s) && Matches(c, b, cells, V)
    requires st.cells == cells && Quiet(ForwardSwitch(P, s, v, st).0, cells, V)
    requires ForwardSolved(P, b, F, p, s.body, cells, c, V)
    ensures AfterOk(F, p, c, s, Has(v, b))
    ensures Has(ForwardSwitch(P, s, v, st).1, b) == AfterStmt(F, c, s, Has(v, b))
  {
    hide Across;
    hide AfterExpr;
    QuietFlowAll(cells, c, b, V);
    ForwardExprBit(P, b, F, s.subject);
  }

  lemma ForwardWhileSolves(P: Problem, b: Bit, F: Fact, p: Proc, s: Stmt, cells: Cells, c: set<Cell>, V: set<Visit>, v: FlowValue, st: State)
    requires s.While? && P.proc == p.id && LikeStmt(P, b, F, s) && Matches(c, b, cells, V)
    requires st.cells == cells && Quiet(ForwardWhile(P, s, v, st).0, cells, V)
    requires ForwardSolved(P, b, F, p, s.body, cells, c, V)
    ensures AfterOk(F, p, c, s, Has(v, b))
    ensures Has(ForwardWhile(P, s, v, st).1, b) == AfterStmt(F, c, s, Has(v, b))
  {
    hide Across;
    hide AfterExpr;
    QuietFlowAll(cells, c, b, V);
    ForwardExprBit(P, b, F, s.test);
  }

  lemma ForwardDoSolves(P: Problem, b: Bit, F: Fact, p: Proc, s: Stmt, cells: Cells, c: set<Cell>, V: set<Visit>, v: FlowValue, st: State)
    requires s.Do? && P.proc == p.id && LikeStmt(P, b, F, s) && Matches(c, b, cells, V)
    requires st.cells == cells && Quiet(ForwardDo(P, s, v, st).0, cells, V)
    requires ForwardSolved(P, b, F, p, s.body, cells, c, V)
    ensures AfterOk(F, p, c, s, Has(v, b))
    ensures Has(ForwardDo(P, s, v, st).1, b) == AfterStmt(F, c, s, Has(v, b))
  {
    hide Across;
    hide AfterExpr;
    QuietFlowAll(cells, c, b, V);
    ForwardExprBit(P, b, F, s.test);
  }

  lemma ForwardForSolves(P: Problem, b: Bit, F: Fact, p: Proc, s: Stmt, cells: Cells, c: set<Cell>, V: set<Visit>, v: FlowValue, st: State)
    requires s.For? && P.proc == p.id && LikeStmt(P, b, F, s) && Matches(c, b, cells, V)
    requires st.cells == cells && Quiet(ForwardFor(P, s, v, st).0, cells, V)
    requires ForwardSolved(P, b, F, p, s.body, cells, c, V)
    ensures AfterOk(F, p, c, s, Has(v, b))
    ensures Has(ForwardFor(P, s, v, st).1, b) == AfterStmt(F, c, s, Has(v, b))
  {
    hide Across;
    hide AfterExpr;
    QuietFlowAll(cells, c, b, V);
    ForwardOptBit(P, b, F, s.start);
    ForwardOptBit(P, b, F, s.guard);
    ForwardOptBit(P, b, F, s.next);
  }

  lemma ForwardThenSolves(P: Problem, b: Bit, F: Fact, p: Proc, s: Stmt, cells: Cells, c: set<Cell>, V: set<Visit>, v: FlowValue, st: State)
    requires s.Then? && P.proc == p.id && LikeStmt(P, b, F, s) && Matches(c, b, cells, V)
    requires ForwardSolved(P, b, F, p, s.first, cells, c, V) && ForwardSolved(P, b, F, p, s.rest, cells, c, V)
    ensures ForwardMeets(P, b, F, p, s, cells, c, V, v, st)
  {
    hide Matches;
    if st.cells == cells && Quiet(Forward(P, s, v, st).0, cells, V) {
      var (mid, w) := Forward(P, s.first, v, st);
      assert Forward(P, s, v, st) == Forward(P, s.rest, w, mid);
      assert Quiet(mid, cells, V);
      assert ForwardMeets(P, b, F, p, s.first, cells, c, V, v, st) && ForwardMeets(P, b, F, p, s.rest, cells, c, V, w, mid);
    }
  }

  lemma ForwardGroupSolves(P: Problem, b: Bit, F: Fact, p: Proc, s: Stmt, cells: Cells, c: set<Cell>, V: set<Visit>, v: FlowValue, st: State)
    requires (s.Block? || s.If?) && P.proc == p.id && LikeStmt(P, b, F, s) && Matches(c, b, cells, V)
    requires s.Block? ==> ForwardSolved(P, b, F, p, s.items, cells, c, V)
    requires s.If? ==> ForwardSolved(P, b, F, p, s.yes, cells, c, V) && ForwardSolved(P, b, F, p, s.no, cells, c, V)
    ensures ForwardMeets(P, b, F, p, s, cells, c, V, v, st)
  {
    hide AfterExpr;
    if st.cells == cells && Quiet(Forward(P, s, v, st).0, cells, V) {
      var a := RecordAt(st, StmtNode(s), EntryPoint, v);
      if s.Block? {
        assert ForwardMeets(P, b, F, p, s.items, cells, c, V, EnterStmt(P, s, v), a);
      } else {
        ForwardExprBit(P, b, F, s.test);
        var w := ForwardExpr(P, s.test, EnterStmt(P, s, v));
        var (m, t) := Forward(P, s.yes, w, a);
        assert ForwardMeets(P, b, F, p, s.yes, cells, c, V, w, a) && ForwardMeets(P, b, F, p, s.no, cells, c, V, w, m);
        assert Quiet(m, cells, V);
      }
    }
  }

  lemma ForwardLeafSolves(P: Problem, b: Bit, F: Fact, p: Proc, s: Stmt, cells: Cells, c: set<Cell>, V: set<Visit>, v: FlowValue, st: State)
    requires P.proc == p.id && LikeStmt(P, b, F, s) && Matches(c, b, cells, V)
    requires !s.Then? && !s.Block? && !s.If? && !s.Switch? && !IsLoop(s)
    ensures ForwardMeets(P, b, F, p, s, cells, c, V, v, st)
  {
    hide Across;
    hide AfterExpr;
    hide AfterExprs;
    hide LikeExpr;
    hide LikeOperands;
    QuietFlowAll(cells, c, b, V);
    match s
    case Eval(e) => ForwardExprBit(P, b, F, e);
    case Decl(_, init) => ForwardOptBit(P, b, F, init);
    case Return(_, result) => ForwardOptBit(P, b, F, result);
    case Spawn(_, _, _, _, _) => ForwardOperandsBit(P, b, F, s);
    case _ =>
  }

  lemma {:induction false} ForwardSolves(P: Problem, b: Bit, F: Fact, p: Proc, s: Stmt, cells: Cells, c: set<Cell>, V: set<Visit>)
    requires P.proc == p.id && LikeStmt(P, b, F, s) && Matches(c, b, cells, V)
    ensures ForwardSolved(P, b, F, p, s, cells, c, V)
  {
    hide ForwardMeets;
    hide Matches;
    if s.Then? {
      ForwardSolves(P, b, F, p, s.first, cells, c, V);
      ForwardSolves(P, b, F, p, s.rest, cells, c, V);
    } else if s.Block? {
      ForwardSolves(P, b, F, p, s.items, cells, c, V);
    } else if s.If? {
      ForwardSolves(P, b, F, p, s.yes, cells, c, V);
      ForwardSolves(P, b, F, p, s.no, cells, c, V);
    } else if s.Switch? || IsLoop(s) {
      ForwardSolves(P, b, F, p, s.body, cells, c, V);
    }
    forall v, st ensures ForwardMeets(P, b, F, p, s, cells, c, V, v, st) {
      ForwardSolvesOnce(P, b, F, p, s, cells, c, V, v, st);
    }
  }

  lemma ForwardSolvesOnce(P: Problem, b: Bit, F: Fact, p: Proc, s: Stmt, cells: Cells, c: set<Cell>, V: set<Visit>, v: FlowValue, st: State)
    requires P.proc == p.id && LikeStmt(P, b, F, s) && Matches(c, b, cells, V)
    requires s.Then? ==> ForwardSolved(P, b, F, p, s.first, cells, c, V) && ForwardSolved(P, b, F, p, s.rest, cells, c, V)
    requires s.Block? ==> ForwardSolved(P, b, F, p, s.items, cells, c, V)
    requires s.If? ==> ForwardSolved(P, b, F, p, s.yes, cells, c, V) && ForwardSolved(P, b, F, p, s.no, cells, c, V)
    requires s.Switch? || IsLoop(s) ==> ForwardSolved(P, b, F, p, s.body, cells, c, V)
    ensures ForwardMeets(P, b, F, p, s, cells, c, V, v, st)
  {
    hide ForwardSolved;
    hide Matches;
    hide AfterStmt;
    hide AfterOk;
    if s.Then? {
      ForwardThenSolves(P, b, F, p, s, cells, c, V, v, st);
    } else if s.Block? || s.If? {
      ForwardGroupSolves(P, b, F, p, s, cells, c, V, v, st);
    } else if s.Switch? || IsLoop(s) {
      if st.cells == cells && Quiet(Forward(P, s, v, st).0, cells, V) {
        var a := RecordAt(st, StmtNode(s), EntryPoint, v);
        assert Visit(s.id, EntryPoint, v) in a.visits;
        if s.Switch? {
          ForwardSwitchSolves(P, b, F, p, s, cells, c, V, v, a);
        } else if s.While? {
          ForwardWhileSolves(P, b, F, p, s, cells, c, V, v, a);
        } else if s.Do? {
          ForwardDoSolves(P, b, F, p, s, cells, c, V, v, a);
        } else {
          ForwardForSolves(P, b, F, p, s, cells, c, V, v, a);
        }
      }
    } else {
      ForwardLeafSolves(P, b, F, p, s, cells, c, V, v, st);
    }
  }

  // A pass over s that changes nothing meets the equations of s and computes their value.
  ghost predicate BackwardMeets(P: Problem, b: Bit, F: Fact, p: Proc, s: Stmt, cells: Cells, c: set<Cell>, V: set<Visit>, v: FlowValue, st: State) {
    st.cells == cells && Quiet(Backward(P, s, v, st).0, cells, V) ==>
      BeforeOk(F, c, s, Has(v, b)) && Has(Backward(P, s, v, st).1, b) == BeforeStmt(F, c, s, Has(v, b))
  }

  ghost predicate BackwardSolved(P: Problem, b: Bit, F: Fact, p: Proc, s: Stmt, cells: Cells, c: set<Cell>, V: set<Visit>) {
    forall v, st {:trigger Backward(P, s, v, st)} :: BackwardMeets(P, b, F, p, s, cells, c, V, v, st)
  }

  lemma BackwardSwitchSolves(P: Problem, b: Bit, F: Fact, p: Proc, s: Stmt, cells: Cells, c: set<Cell>, V: set<Visit>, v: FlowValue, st: State)
    requires s.Switch? && P.proc == p.id && LikeStmt(P, b, F, s) && Matches(c, b, cells, V) && !Has(P.init, b)
    requires st.cells == cells && Quiet(BackwardSwitch(P, s, v, st).0, cells, V)
    requires BackwardSolved(P, b, F, p, s.body, cells, c, V)
    requires Visit(s.id, ExitPoint, v) in st.visits
    ensures BeforeOk(F, c, s, Has(v, b))
    ensures Has(BackwardSwitch(P, s, v, st).1, b) == BeforeStmt(F, c, s, Has(v, b))
  {
    hide Across;
    hide BeforeExpr;
    QuietFlowAll(cells, c, b, V);
    BackwardExprBit(P, b, F, s.subject);
  }

  lemma BackwardWhileSolves(P: Problem, b: Bit, F: Fact, p: Proc, s: Stmt, cells: Cells, c: set<Cell>, V: set<Visit>, v: FlowValue, st: State)
    requires s.While? && P.proc == p.id && LikeStmt(P, b, F, s) && Matches(c, b, cells, V) && !Has(P.init, b)
    requires st.cells == cells && Quiet(BackwardWhile(P, s, v, st).0, cells, V)
    requires BackwardSolved(P, b, F, p, s.body, cells, c, V)
    requires Visit(s.id, ExitPoint, v) in st.visits
    ensures BeforeOk(F, c, s, Has(v, b))
    ensures Has(BackwardWhile(P, s, v, st).1, b) == BeforeStmt(F, c, s, Has(v, b))
  {
    hide Across;
    hide BeforeExpr;
    QuietFlowAll(cells, c, b, V);
    BackwardExprBit(P, b, F, s.test);
  }

  lemma BackwardDoSolves(P: Problem, b: Bit, F: Fact, p: Proc, s: Stmt, cells: Cells, c: set<Cell>, V: set<Visit>, v: FlowValue, st: State)
    requires s.Do? && P.proc == p.id && LikeStmt(P, b, F, s) && Matches(c, b, cells, V) && !Has(P.init, b)
    requires st.cells == cells && Quiet(BackwardDo(P, s, v, st).0, cells, V)
    requires BackwardSolved(P, b, F, p, s.body, cells, c, V)
    requires Visit(s.id, ExitPoint, v) in st.visits
    ensures BeforeOk(F, c, s, Has(v, b))
    ensures Has(BackwardDo(P, s, v, st).1, b) == BeforeStmt(F, c, s, Has(v, b))
  {
    hide Across;
    hide BeforeExpr;
    QuietFlowAll(cells, c, b, V);
    BackwardExprBit(P, b, F, s.test);
  }

  lemma BackwardForSolves(P: Problem, b: Bit, F: Fact, p: Proc, s: Stmt, cells: Cells, c: set<Cell>, V: set<Visit>, v: FlowValue, st: State)
    requires s.For? && P.proc == p.id && LikeStmt(P, b, F, s) && Matches(c, b, cells, V) && !Has(P.init, b)
    requires st.cells == cells && Quiet(BackwardFor(P, s, v, st).0, cells, V)
    requires BackwardSolved(P, b, F, p, s.body, cells, c, V)
    requires Visit(s.id, ExitPoint, v) in st.visits
    ensures BeforeOk(F, c, s, Has(v, b))
    ensures Has(BackwardFor(P, s, v, st).1, b) == BeforeStmt(F, c, s, Has(v, b))
  {
    hide Across;
    hide BeforeExpr;
    QuietFlowAll(cells, c, b, V);
    BackwardOptBit(P, b, F, s.start);
    BackwardOptBit(P, b, F, s.guard);
    BackwardOptBit(P, b, F, s.next);
  }

  lemma BackwardThenSolves(P: Problem, b: Bit, F: Fact, p: Proc, s: Stmt, cells: Cells, c: set<Cell>, V: set<Visit>, v: FlowValue, st: State)
    requires s.Then? && P.proc == p.id && LikeStmt(P, b, F, s) && Matches(c, b, cells, V) && !Has(P.init, b)
    requires BackwardSolved(P, b, F, p, s.first, cells, c, V) && BackwardSolved(P, b, F, p, s.rest, cells, c, V)
    ensures BackwardMeets(P, b, F, p, s, cells, c, V, v, st)
  {
    hide Matches;
    if st.cells == cells && Quiet(Backward(P, s, v, st).0, cells, V) {
      var (mid, w) := Backward(P, s.rest, v, st);
      assert Backward(P, s, v, st) == Backward(P, s.first, w, mid);
      assert Quiet(mid, cells, V);
      assert BackwardMeets(P, b, F, p, s.rest, cells, c, V, v, st) && BackwardMeets(P, b, F, p, s.first, cells, c, V, w, mid);
    }
  }

  lemma BackwardGroupSolves(P: Problem, b: Bit, F: Fact, p: Proc, s: Stmt, cells: Cells, c: set<Cell>, V: set<Visit>, v: FlowValue, st: State)
    requires (s.Block? || s.If?) && P.proc == p.id && LikeStmt(P, b, F, s) && Matches(c, b, cells, V) && !Has(P.init, b)
    requires s.Block? ==> BackwardSolved(P, b, F, p, s.items, cells, c, V)
    requires s.If? ==> BackwardSolved(P, b, F, p, s.yes, cells, c, V) && BackwardSolved(P, b, F, p, s.no, cells, c, V)
    ensures BackwardMeets(P, b, F, p, s, cells, c, V, v, st)
  {
    hide BeforeExpr;
    if st.cells == cells && Quiet(Backward(P, s, v, st).0, cells, V) {
      var a := RecordAt(st, StmtNode(s), ExitPoint, v);
      if s.Block? {
        assert BackwardMeets(P, b, F, p, s.items, cells, c, V, LeaveStmt(P, s, v), a);
      } else {
        BackwardExprBit(P, b, F, s.test);
        var w := LeaveStmt(P, s, v);
        var (m, t) := Backward(P, s.yes, w, a);
        assert BackwardMeets(P, b, F, p, s.yes, cells, c, V, w, a) && BackwardMeets(P, b, F, p, s.no, cells, c, V, w, m);
        assert Quiet(m, cells, V);
      }
    }
  }

  lemma BackwardLeafSolves(P: Problem, b: Bit, F: Fact, p: Proc, s: Stmt, cells: Cells, c: set<Cell>, V: set<Visit>, v: FlowValue, st: State)
    requires P.proc == p.id && LikeStmt(P, b, F, s) && Matches(c, b, cells, V) && !Has(P.init, b)
    requires !s.Then? && !s.Block? && !s.If? && !s.Switch? && !IsLoop(s)
    ensures BackwardMeets(P, b, F, p, s, cells, c, V, v, st)
  {
    hide Across;
    hide BeforeExpr;
    hide BeforeExprs;
    hide LikeExpr;
    hide LikeOperands;
    QuietFlowAll(cells, c, b, V);
    match s
    case Eval(e) => BackwardExprBit(P, b, F, e);
    case Decl(_, init) => BackwardOptBit(P, b, F, init);
    case Return(_, result) => BackwardOptBit(P, b, F, result);
    case Spawn(_, _, _, _, _) => BackwardOperandsBit(P, b, F, s);
    case _ =>
  }

  lemma {:induction false} BackwardSolves(P: Problem, b: Bit, F: Fact, p: Proc, s: Stmt, cells: Cells, c: set<Cell>, V: set<Visit>)
    requires P.proc == p.id && LikeStmt(P, b, F, s) && Matches(c, b, cells, V) && !Has(P.init, b)
    ensures BackwardSolved(P, b, F, p, s, cells, c, V)
  {
    hide BackwardMeets;
    hide Matches;
    if s.Then? {
      BackwardSolves(P, b, F, p, s.first, cells, c, V);
      BackwardSolves(P, b, F, p, s.rest, cells, c, V);
    } else if s.Block? {
      BackwardSolves(P, b, F, p, s.items, cells, c, V);
    } else if s.If? {
      BackwardSolves(P, b, F, p, s.yes, cells, c, V);
      BackwardSolves(P, b, F, p, s.no, cells, c, V);
    } else if s.Switch? || IsLoop(s) {
      BackwardSolves(P, b, F, p, s.body, cells, c, V);
    }
    forall v, st ensures BackwardMeets(P, b, F, p, s, cells, c, V, v, st) {
      BackwardSolvesOnce(P, b, F, p, s, cells, c, V, v, st);
    }
  }

  lemma BackwardSolvesOnce(P: Problem, b: Bit, F: Fact, p: Proc, s: Stmt, cells: Cells, c: set<Cell>, V: set<Visit>, v: FlowValue, st: State)
    requires P.proc == p.id && LikeStmt(P, b, F, s) && Matches(c, b, cells, V) && !Has(P.init, b)
    requires s.Then? ==> BackwardSolved(P, b, F, p, s.first, cells, c, V) && BackwardSolved(P, b, F, p, s.rest, cells, c, V)
    requires s.Block? ==> BackwardSolved(P, b, F, p, s.items, cells, c, V)
    requires s.If? ==> BackwardSolved(P, b, F, p, s.yes, cells, c, V) && BackwardSolved(P, b, F, p, s.no, cells, c, V)
    requires s.Switch? || IsLoop(s) ==> BackwardSolved(P, b, F, p, s.body, cells, c, V)
    ensures BackwardMeets(P, b, F, p, s, cells, c, V, v, st)
  {
    hide BackwardSolved;
    hide Matches;
    hide BeforeStmt;
    hide BeforeOk;
    if s.Then? {
      BackwardThenSolves(P, b, F, p, s, cells, c, V, v, st);
    } else if s.Block? || s.If? {
      BackwardGroupSolves(P, b, F, p, s, cells, c, V, v, st);
    } else if s.Switch? || IsLoop(s) {
      if st.cells == cells && Quiet(Backward(P, s, v, st).0, cells, V) {
        var a := RecordAt(st, StmtNode(s), ExitPoint, v);
        assert Visit(s.id, ExitPoint, v) in a.visits;
        if s.Switch? {
          BackwardSwitchSolves(P, b, F, p, s, cells, c, V, v, a);
        } else if s.While? {
          BackwardWhileSolves(P, b, F, p, s, cells, c, V, v, a);
        } else if s.Do? {
          BackwardDoSolves(P, b, F, p, s, cells, c, V, v, a);
        } else {
          BackwardForSolves(P, b, F, p, s, cells, c, V, v, a);
        }
      }
    } else {
      BackwardLeafSolves(P, b, F, p, s, cells, c, V, v, st);
    }
  }
}
