/**
 What a backward pass shows at the exits of the expression nodes, as functions that add to
 what has been shown before.
 */
module Inner {
  import opened Ast
  import opened FlowValues
  import opened Flow

  function InnerExpr(P: Problem, e: Expr, v0: FlowValue, shown: set<Visit>): set<Visit> {
    var shown := shown + {Visit(e.id, ExitPoint, v0)};
    var v := Leave(P, e, v0);
    match e
    case Const(_, _) | Id(_, _) => shown
    case Binop(_, op, left, right) =>
      var r := BackwardExpr(P, right, v);
      var shown := InnerExpr(P, right, v, shown);
      if op.AndAnd? || op.OrOr? then InnerExpr(P, left, SetUnion(r, v), shown) else InnerExpr(P, left, r, shown)
    case Unary(_, uop, operand) => if uop.SizeOf? then shown else InnerExpr(P, operand, v, shown)
    case Ternary(_, cond, yes, no) =>
      var shown := InnerExpr(P, no, v, InnerExpr(P, yes, v, shown));
      InnerExpr(P, cond, SetUnion(BackwardExpr(P, yes, v), BackwardExpr(P, no, v)), shown)
    case Call(_, name, args) => InnerExpr(P, name, BackwardExprs(P, args, v), InnerExprs(P, args, v, shown))
  }

  function InnerExprs(P: Problem, es: Exprs, v: FlowValue, shown: set<Visit>): set<Visit> {
    match es
    case NoExprs => shown
    case MoreExprs(head, tail) => InnerExpr(P, head, BackwardExprs(P, tail, v), InnerExprs(P, tail, v, shown))
  }

  function InnerOpt(P: Problem, o: OptExpr, v: FlowValue, shown: set<Visit>): set<Visit> {
    match o
    case NoExpr => shown
    case TheExpr(e) => InnerExpr(P, e, v, shown)
  }

  // The pass over s starts from (v0, st0), as Backward does.
  function InnerStmt(P: Problem, s: Stmt, v0: FlowValue, st0: State, shown: set<Visit>): set<Visit>
    decreases s
  {
    if s.Null? then shown
    else if s.Then? then
      var (st, v) := Backward(P, s.rest, v0, st0);
      InnerStmt(P, s.first, v, st, InnerStmt(P, s.rest, v0, st0, shown))
    else if s.Eval? then InnerExpr(P, s.e, v0, shown)
    else
      var st := RecordAt(st0, StmtNode(s), ExitPoint, v0);
      match s
      case Decl(_, init) => InnerOpt(P, init, LeaveStmt(P, s, v0), shown)
      case Block(_, items) => InnerStmt(P, items, LeaveStmt(P, s, v0), st, shown)
      case Return(_, result) => InnerOpt(P, result, LeaveStmt(P, s, P.init), shown)
      case If(_, test, yes, no) =>
        var v := LeaveStmt(P, s, v0);
        var shown := InnerStmt(P, yes, v, st, shown);
        var (st, t) := Backward(P, yes, v, st);
        var shown := InnerStmt(P, no, v, st, shown);
        var (st, f) := Backward(P, no, v, st);
        InnerExpr(P, test, SetUnion(t, f), shown)
      case Switch(_, _, _, _) => InnerSwitch(P, s, v0, st, shown)
      case While(_, _, _) => InnerWhile(P, s, v0, st, shown)
      case Do(_, _, _) => InnerDo(P, s, v0, st, shown)
      case For(_, _, _, _, _) => InnerFor(P, s, v0, st, shown)
      case Spawn(_, receiver, _, callee, args) =>
        var v := LeaveStmt(P, s, v0);
        var w := BackwardExprs(P, args, v);
        InnerOpt(P, receiver, BackwardExpr(P, callee, w), InnerExpr(P, callee, w, InnerExprs(P, args, v, shown)))
      case _ => shown
  }

  function InnerSwitch(P: Problem, s: Stmt, v0: FlowValue, st: State, shown: set<Visit>): set<Visit>
    requires s.Switch?
    decreases s, 0
  {
    var (st, b) := FlowInto(st, Cell(s.id, BreakValues), LeaveStmt(P, s, v0));
    var shown := InnerStmt(P, s.body, b, st, shown);
    var (st, _) := Backward(P, s.body, b, st);
    var st := if s.hasDefault then st
              else FlowInto(st, Cell(s.id, SwitchValues), Get(st.cells, Cell(s.id, BreakValues))).0;
    InnerExpr(P, s.subject, Get(st.cells, Cell(s.id, SwitchValues)), shown)
  }

  function InnerWhile(P: Problem, s: Stmt, v0: FlowValue, st: State, shown: set<Visit>): set<Visit>
    requires s.While?
    decreases s, 0
  {
    var (st, _) := FlowInto(st, Cell(s.id, BreakValues), LeaveStmt(P, s, v0));
    var shown := InnerStmt(P, s.body, Get(st.cells, Cell(s.id, LoopValues)), st, shown);
    var (st, b) := Backward(P, s.body, Get(st.cells, Cell(s.id, LoopValues)), st);
    InnerExpr(P, s.test, SetUnion(b, Get(st.cells, Cell(s.id, BreakValues))), shown)
  }

  function InnerDo(P: Problem, s: Stmt, v0: FlowValue, st: State, shown: set<Visit>): set<Visit>
    requires s.Do?
    decreases s, 0
  {
    var (st, _) := FlowInto(st, Cell(s.id, BreakValues), LeaveStmt(P, s, v0));
    var m := SetUnion(Get(st.cells, Cell(s.id, BreakValues)), Get(st.cells, Cell(s.id, LoopValues)));
    var shown := InnerExpr(P, s.test, m, shown);
    var (st, _) := FlowInto(st, Cell(s.id, ContinueValues), BackwardExpr(P, s.test, m));
    InnerStmt(P, s.body, Get(st.cells, Cell(s.id, ContinueValues)), st, shown)
  }

  function InnerFor(P: Problem, s: Stmt, v0: FlowValue, st: State, shown: set<Visit>): set<Visit>
    requires s.For?
    decreases s, 0
  {
    var (st, _) := FlowInto(st, Cell(s.id, BreakValues), LeaveStmt(P, s, v0));
    var n := Get(st.cells, Cell(s.id, LoopValues));
    var shown := InnerOpt(P, s.next, n, shown);
    var (st, _) := FlowInto(st, Cell(s.id, ContinueValues), BackwardOpt(P, s.next, n));
    var shown := InnerStmt(P, s.body, Get(st.cells, Cell(s.id, ContinueValues)), st, shown);
    var (st, e) := Backward(P, s.body, Get(st.cells, Cell(s.id, ContinueValues)), st);
    var m := if s.guard.TheExpr? then SetUnion(Get(st.cells, Cell(s.id, BreakValues)), e) else e;
    var shown := InnerOpt(P, s.guard, m, shown);
    var (st, _) := FlowInto(st, Cell(s.id, LoopValues), BackwardOpt(P, s.guard, m));
    InnerOpt(P, s.start, Get(st.cells, Cell(s.id, LoopValues)), shown)
  }

  // The pass over a procedure, starting from st.
  function InnerProc(P: Problem, p: Proc, st: State): set<Visit> {
    InnerStmt(P, p.body, P.trans(ProcNode(p), ExitPoint, P.init), RecordAt(st, ProcNode(p), ExitPoint, P.init), {})
  }
}
