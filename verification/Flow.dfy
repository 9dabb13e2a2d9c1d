/**
 One pass of the data-flow engine, as a function from state to state.

 A pass walks the whole tree once.  Flow values go through a node by its transfer function
 at the entry and exit points; wherever control merges or jumps, they are met into a
 confluence cell.  `Forward` and `Backward` are the two directions.
 */
module Flow {
  import opened Ast
  import opened FlowValues

  // One call of the client's transfer function in the final pass.
  datatype Visit = Visit(node: nat, point: Point, value: FlowValue)

  type Cells = map<Cell, FlowValue>

  datatype State = State(cells: Cells, changed: bool, final: bool, visits: set<Visit>)

  datatype Problem = Problem(proc: nat, init: FlowValue, trans: (Node, Point, FlowValue) -> FlowValue)

  // Nodes are allocated with calloc: a cell never written is defined and empty.
  function Get(cells: Cells, c: Cell): FlowValue {
    if c in cells then cells[c] else EmptySet
  }

  function FlowInto(st: State, c: Cell, v: FlowValue): (r: (State, FlowValue))
    ensures st.changed ==> r.0.changed
    ensures !r.0.changed ==> r.0.cells == st.cells
    ensures r.0.final == st.final && st.visits <= r.0.visits
    ensures !st.final ==> r.0.visits == st.visits
  {
    var merged := SetUnion(Get(st.cells, c), v);
    if SetEqual(Get(st.cells, c), merged) then (st, merged)
    else (st.(cells := st.cells[c := merged], changed := true), merged)
  }

  function Record(st: State, visits: set<Visit>): State {
    if st.final then st.(visits := st.visits + visits) else st
  }

  function RecordAt(st: State, n: Node, p: Point, v: FlowValue): State {
    Record(st, {Visit(NodeId(n), p, v)})
  }

  // ---------- Expressions: no confluence cell lies inside an expression ----------

  function Enter(P: Problem, e: Expr, v: FlowValue): FlowValue {
    P.trans(ExprNode(e), EntryPoint, v)
  }

  function Leave(P: Problem, e: Expr, v: FlowValue): FlowValue {
    P.trans(ExprNode(e), ExitPoint, v)
  }

  function ForwardExpr(P: Problem, e: Expr, v: FlowValue): FlowValue {
    var v := Enter(P, e, v);
    match e
    case Const(_, _) | Id(_, _) => Leave(P, e, v)
    case Binop(_, op, left, right) =>
      var l := ForwardExpr(P, left, v);
      if op.AndAnd? || op.OrOr? then Leave(P, e, SetUnion(ForwardExpr(P, right, l), l))
      else Leave(P, e, ForwardExpr(P, right, l))
    case Unary(_, uop, operand) =>
      if uop.SizeOf? then Leave(P, e, v) else Leave(P, e, ForwardExpr(P, operand, v))
    case Ternary(_, cond, yes, no) =>
      var c := ForwardExpr(P, cond, v);
      Leave(P, e, SetUnion(ForwardExpr(P, yes, c), ForwardExpr(P, no, c)))
    case Call(_, name, args) =>
      Leave(P, e, ForwardExprs(P, args, ForwardExpr(P, name, v)))
  }

  function ForwardExprs(P: Problem, es: Exprs, v: FlowValue): FlowValue {
    match es
    case NoExprs => v
    case MoreExprs(head, tail) => ForwardExprs(P, tail, ForwardExpr(P, head, v))
  }

  function ForwardOpt(P: Problem, o: OptExpr, v: FlowValue): FlowValue {
    match o
    case NoExpr => v
    case TheExpr(e) => ForwardExpr(P, e, v)
  }

  function BackwardExpr(P: Problem, e: Expr, v: FlowValue): FlowValue {
    var v := Leave(P, e, v);
    match e
    case Const(_, _) | Id(_, _) => Enter(P, e, v)
    case Binop(_, op, left, right) =>
      var r := BackwardExpr(P, right, v);
      if op.AndAnd? || op.OrOr? then Enter(P, e, BackwardExpr(P, left, SetUnion(r, v)))
      else Enter(P, e, BackwardExpr(P, left, r))
    case Unary(_, uop, operand) =>
      if uop.SizeOf? then Enter(P, e, v) else Enter(P, e, BackwardExpr(P, operand, v))
    case Ternary(_, cond, yes, no) =>
      var t := BackwardExpr(P, yes, v);
      var f := BackwardExpr(P, no, v);
      Enter(P, e, BackwardExpr(P, cond, SetUnion(t, f)))
    case Call(_, name, args) =>
      Enter(P, e, BackwardExpr(P, name, BackwardExprs(P, args, v)))
  }

  function BackwardExprs(P: Problem, es: Exprs, v: FlowValue): FlowValue {
    match es
    case NoExprs => v
    case MoreExprs(head, tail) => BackwardExpr(P, head, BackwardExprs(P, tail, v))
  }

  function BackwardOpt(P: Problem, o: OptExpr, v: FlowValue): FlowValue {
    match o
    case NoExpr => v
    case TheExpr(e) => BackwardExpr(P, e, v)
  }

  // ---------- Statements, forwards ----------

  function EnterStmt(P: Problem, s: Stmt, v: FlowValue): FlowValue {
    P.trans(StmtNode(s), EntryPoint, v)
  }

  function LeaveStmt(P: Problem, s: Stmt, v: FlowValue): FlowValue {
    P.trans(StmtNode(s), ExitPoint, v)
  }

  function Forward(P: Problem, s: Stmt, v0: FlowValue, st0: State): (r: (State, FlowValue))
    ensures st0.changed ==> r.0.changed
    ensures !r.0.changed ==> r.0.cells == st0.cells
    ensures r.0.final == st0.final && st0.visits <= r.0.visits
    ensures !st0.final ==> r.0.visits == st0.visits
    decreases s
  {
    if s.Null? then (st0, v0)
    else if s.Then? then
      var (st, v) := Forward(P, s.first, v0, st0);
      Forward(P, s.rest, v, st)
    else if s.Eval? then (st0, ForwardExpr(P, s.e, v0))
    else
      var st := RecordAt(st0, StmtNode(s), EntryPoint, v0);
      match s
      case Decl(_, init) =>
        var v := ForwardOpt(P, init, EnterStmt(P, s, v0));
        (RecordAt(st, StmtNode(s), ExitPoint, v), LeaveStmt(P, s, v))
      case Block(_, items) =>
        var (st, v) := Forward(P, items, EnterStmt(P, s, v0), st);
        (RecordAt(st, StmtNode(s), ExitPoint, v), LeaveStmt(P, s, v))
      case Label(id) =>
        var (st, v) := FlowInto(st0, Cell(id, LabelValues), v0);
        var st := RecordAt(st, StmtNode(s), EntryPoint, v);
        var v := EnterStmt(P, s, v);
        (RecordAt(st, StmtNode(s), ExitPoint, v), LeaveStmt(P, s, v))
      case Goto(_, destination) =>
        ForwardJump(P, s, v0, st, Cell(destination, LabelValues))
      case Break(_, target) =>
        ForwardJump(P, s, v0, st, BreakCell(target))
      case Continue(_, target) =>
        ForwardJump(P, s, v0, st, ContinueCell(target))
      case Return(_, result) =>
        var v := ForwardOpt(P, result, EnterStmt(P, s, v0));
        var st := RecordAt(st, StmtNode(s), ExitPoint, v);
        var (st, _) := FlowInto(st, Cell(P.proc, ReturnValues), LeaveStmt(P, s, v));
        (st, Undefine(v0))
      case Case(_, _, container) =>
        ForwardCase(P, s, v0, st0, Cell(container, SwitchValues))
      case Default(_, container) =>
        ForwardCase(P, s, v0, st0, Cell(container, SwitchValues))
      case If(_, test, yes, no) =>
        var c := ForwardExpr(P, test, EnterStmt(P, s, v0));
        var (st, t) := Forward(P, yes, c, st);
        var (st, f) := Forward(P, no, c, st);
        var v := SetUnion(t, f);
        (RecordAt(st, StmtNode(s), ExitPoint, v), LeaveStmt(P, s, v))
      case Switch(_, _, _, _) => ForwardSwitch(P, s, v0, st)
      case While(_, _, _) => ForwardWhile(P, s, v0, st)
      case Do(_, _, _) => ForwardDo(P, s, v0, st)
      case For(_, _, _, _, _) => ForwardFor(P, s, v0, st)
      case Spawn(_, receiver, _, callee, args) =>
        var v := ForwardExprs(P, args, ForwardExpr(P, callee, ForwardOpt(P, receiver, EnterStmt(P, s, v0))));
        (RecordAt(st, StmtNode(s), ExitPoint, v), LeaveStmt(P, s, v))
      case Sync(_) =>
        var v := EnterStmt(P, s, v0);
        (RecordAt(st, StmtNode(s), ExitPoint, v), LeaveStmt(P, s, v))
  }

  // goto, break, continue: control never continues past the jump.
  function ForwardJump(P: Problem, s: Stmt, v0: FlowValue, st: State, c: Cell): (r: (State, FlowValue))
    ensures st.changed ==> r.0.changed
    ensures !r.0.changed ==> r.0.cells == st.cells
    ensures r.0.final == st.final && st.visits <= r.0.visits
    ensures !st.final ==> r.0.visits == st.visits
  {
    var v := EnterStmt(P, s, v0);
    var st := RecordAt(st, StmtNode(s), ExitPoint, v);
    var (st, _) := FlowInto(st, c, LeaveStmt(P, s, v));
    (st, Undefine(v0))
  }

  function ForwardCase(P: Problem, s: Stmt, v0: FlowValue, st: State, c: Cell): (r: (State, FlowValue))
    ensures st.changed ==> r.0.changed
    ensures !r.0.changed ==> r.0.cells == st.cells
    ensures r.0.final == st.final && st.visits <= r.0.visits
    ensures !st.final ==> r.0.visits == st.visits
  {
    var v := SetUnion(v0, Get(st.cells, c));
    var st := RecordAt(st, StmtNode(s), EntryPoint, v);
    var v := EnterStmt(P, s, v);
    (RecordAt(st, StmtNode(s), ExitPoint, v), LeaveStmt(P, s, v))
  }

  function ForwardSwitch(P: Problem, s: Stmt, v0: FlowValue, st: State): (r: (State, FlowValue))
    requires s.Switch?
    ensures st.changed ==> r.0.changed
    ensures !r.0.changed ==> r.0.cells == st.cells
    ensures r.0.final == st.final && st.visits <= r.0.visits
    ensures !st.final ==> r.0.visits == st.visits
    decreases s, 0
  {
    var (st, sw) := FlowInto(st, Cell(s.id, SwitchValues), ForwardExpr(P, s.subject, EnterStmt(P, s, v0)));
    var st := if s.hasDefault then st
              else FlowInto(st, Cell(s.id, BreakValues), Get(st.cells, Cell(s.id, SwitchValues))).0;
    var (st, b) := Forward(P, s.body, Undefine(v0), st);
    var (st, _) := FlowInto(st, Cell(s.id, BreakValues), b);
    var v := Get(st.cells, Cell(s.id, BreakValues));
    (RecordAt(st, StmtNode(s), ExitPoint, v), LeaveStmt(P, s, v))
  }

  function ForwardWhile(P: Problem, s: Stmt, v0: FlowValue, st: State): (r: (State, FlowValue))
    requires s.While?
    ensures st.changed ==> r.0.changed
    ensures !r.0.changed ==> r.0.cells == st.cells
    ensures r.0.final == st.final && st.visits <= r.0.visits
    ensures !st.final ==> r.0.visits == st.visits
    decreases s, 0
  {
    var (st, _) := FlowInto(st, Cell(s.id, LoopValues), EnterStmt(P, s, v0));
    var e := ForwardExpr(P, s.test, Get(st.cells, Cell(s.id, LoopValues)));
    var (st, b) := Forward(P, s.body, e, st);
    var (st, _) := FlowInto(st, Cell(s.id, LoopValues), b);
    var (st, _) := FlowInto(st, Cell(s.id, BreakValues), e);
    var v := Get(st.cells, Cell(s.id, BreakValues));
    (RecordAt(st, StmtNode(s), ExitPoint, v), LeaveStmt(P, s, v))
  }

  function ForwardDo(P: Problem, s: Stmt, v0: FlowValue, st: State): (r: (State, FlowValue))
    requires s.Do?
    ensures st.changed ==> r.0.changed
    ensures !r.0.changed ==> r.0.cells == st.cells
    ensures r.0.final == st.final && st.visits <= r.0.visits
    ensures !st.final ==> r.0.visits == st.visits
    decreases s, 0
  {
    var (st, _) := FlowInto(st, Cell(s.id, LoopValues), EnterStmt(P, s, v0));
    var (st, b) := Forward(P, s.body, Get(st.cells, Cell(s.id, LoopValues)), st);
    var (st, _) := FlowInto(st, Cell(s.id, ContinueValues), b);
    var e := ForwardExpr(P, s.test, Get(st.cells, Cell(s.id, ContinueValues)));
    var (st, _) := FlowInto(st, Cell(s.id, LoopValues), e);
    var (st, _) := FlowInto(st, Cell(s.id, BreakValues), e);
    var v := Get(st.cells, Cell(s.id, BreakValues));
    (RecordAt(st, StmtNode(s), ExitPoint, v), LeaveStmt(P, s, v))
  }

  function ForwardFor(P: Problem, s: Stmt, v0: FlowValue, st: State): (r: (State, FlowValue))
    requires s.For?
    ensures st.changed ==> r.0.changed
    ensures !r.0.changed ==> r.0.cells == st.cells
    ensures r.0.final == st.final && st.visits <= r.0.visits
    ensures !st.final ==> r.0.visits == st.visits
    decreases s, 0
  {
    var (st, _) := FlowInto(st, Cell(s.id, LoopValues), ForwardOpt(P, s.start, EnterStmt(P, s, v0)));
    var l := Get(st.cells, Cell(s.id, LoopValues));
    var e := ForwardOpt(P, s.guard, l);
    var st := if s.guard.TheExpr? then FlowInto(st, Cell(s.id, BreakValues), e).0 else st;
    var (st, b) := Forward(P, s.body, e, st);
    var (st, _) := FlowInto(st, Cell(s.id, ContinueValues), b);
    var (st, _) := FlowInto(st, Cell(s.id, LoopValues), ForwardOpt(P, s.next, Get(st.cells, Cell(s.id, ContinueValues))));
    var v := Get(st.cells, Cell(s.id, BreakValues));
    (RecordAt(st, StmtNode(s), ExitPoint, v), LeaveStmt(P, s, v))
  }

  function ForwardProc(P: Problem, p: Proc, st: State): (r: State) {
    var st := RecordAt(st, ProcNode(p), EntryPoint, P.init);
    var (st, b) := Forward(P, p.body, P.trans(ProcNode(p), EntryPoint, P.init), st);
    var (st, v) := FlowInto(st, Cell(p.id, ReturnValues), b);
    RecordAt(st, ProcNode(p), ExitPoint, v)
  }

  // ---------- Statements, backwards ----------

  function Backward(P: Problem, s: Stmt, v0: FlowValue, st0: State): (r: (State, FlowValue))
    ensures st0.changed ==> r.0.changed
    ensures !r.0.changed ==> r.0.cells == st0.cells
    ensures r.0.final == st0.final && st0.visits <= r.0.visits
    ensures !st0.final ==> r.0.visits == st0.visits
    decreases s
  {
    if s.Null? then (st0, v0)
    else if s.Then? then
      var (st, v) := Backward(P, s.rest, v0, st0);
      Backward(P, s.first, v, st)
    else if s.Eval? then (st0, BackwardExpr(P, s.e, v0))
    else
      var st := RecordAt(st0, StmtNode(s), ExitPoint, v0);
      match s
      case Decl(_, init) =>
        var v := BackwardOpt(P, init, LeaveStmt(P, s, v0));
        (RecordAt(st, StmtNode(s), EntryPoint, v), EnterStmt(P, s, v))
      case Block(_, items) =>
        var (st, v) := Backward(P, items, LeaveStmt(P, s, v0), st);
        (RecordAt(st, StmtNode(s), EntryPoint, v), EnterStmt(P, s, v))
      case Label(id) =>
        var v := LeaveStmt(P, s, v0);
        var st := RecordAt(st, StmtNode(s), EntryPoint, v);
        FlowInto(st, Cell(id, LabelValues), EnterStmt(P, s, v))
      case Goto(_, destination) =>
        BackwardJump(P, s, st0, Cell(destination, LabelValues))
      case Break(_, target) =>
        BackwardJump(P, s, st0, BreakCell(target))
      case Continue(_, target) =>
        BackwardJump(P, s, st0, ContinueCell(target))
      case Return(_, result) =>
        var st := RecordAt(st0, StmtNode(s), ExitPoint, P.init);
        var v := BackwardOpt(P, result, LeaveStmt(P, s, P.init));
        (RecordAt(st, StmtNode(s), EntryPoint, v), EnterStmt(P, s, v))
      case Case(_, _, container) =>
        BackwardCase(P, s, v0, st, Cell(container, SwitchValues))
      case Default(_, container) =>
        BackwardCase(P, s, v0, st, Cell(container, SwitchValues))
      case If(_, test, yes, no) =>
        var v := LeaveStmt(P, s, v0);
        var (st, t) := Backward(P, yes, v, st);
        var (st, f) := Backward(P, no, v, st);
        var c := BackwardExpr(P, test, SetUnion(t, f));
        (RecordAt(st, StmtNode(s), EntryPoint, c), EnterStmt(P, s, c))
      case Switch(_, _, _, _) => BackwardSwitch(P, s, v0, st)
      case While(_, _, _) => BackwardWhile(P, s, v0, st)
      case Do(_, _, _) => BackwardDo(P, s, v0, st)
      case For(_, _, _, _, _) => BackwardFor(P, s, v0, st)
      case Spawn(_, receiver, _, callee, args) =>
        var v := BackwardOpt(P, receiver, BackwardExpr(P, callee, BackwardExprs(P, args, LeaveStmt(P, s, v0))));
        (RecordAt(st, StmtNode(s), EntryPoint, v), EnterStmt(P, s, v))
      case Sync(_) =>
        var v := LeaveStmt(P, s, v0);
        (RecordAt(st, StmtNode(s), EntryPoint, v), EnterStmt(P, s, v))
  }

  function BackwardJump(P: Problem, s: Stmt, st: State, c: Cell): (r: (State, FlowValue))
    ensures st.changed ==> r.0.changed
    ensures !r.0.changed ==> r.0.cells == st.cells
    ensures r.0.final == st.final && st.visits <= r.0.visits
    ensures !st.final ==> r.0.visits == st.visits
  {
    var v := Get(st.cells, c);
    var st := RecordAt(st, StmtNode(s), ExitPoint, v);
    var v := LeaveStmt(P, s, v);
    (RecordAt(st, StmtNode(s), EntryPoint, v), EnterStmt(P, s, v))
  }

  function BackwardCase(P: Problem, s: Stmt, v0: FlowValue, st: State, c: Cell): (r: (State, FlowValue))
    ensures st.changed ==> r.0.changed
    ensures !r.0.changed ==> r.0.cells == st.cells
    ensures r.0.final == st.final && st.visits <= r.0.visits
    ensures !st.final ==> r.0.visits == st.visits
  {
    var v := LeaveStmt(P, s, v0);
    var st := RecordAt(st, StmtNode(s), EntryPoint, v);
    var v := EnterStmt(P, s, v);
    (FlowInto(st, c, v).0, v)
  }

  function BackwardSwitch(P: Problem, s: Stmt, v0: FlowValue, st: State): (r: (State, FlowValue))
    requires s.Switch?
    ensures st.changed ==> r.0.changed
    ensures !r.0.changed ==> r.0.cells == st.cells
    ensures r.0.final == st.final && st.visits <= r.0.visits
    ensures !st.final ==> r.0.visits == st.visits
    decreases s, 0
  {
    var (st, b) := FlowInto(st, Cell(s.id, BreakValues), LeaveStmt(P, s, v0));
    var (st, _) := Backward(P, s.body, b, st);
    var st := if s.hasDefault then st
              else FlowInto(st, Cell(s.id, SwitchValues), Get(st.cells, Cell(s.id, BreakValues))).0;
    var v := BackwardExpr(P, s.subject, Get(st.cells, Cell(s.id, SwitchValues)));
    (RecordAt(st, StmtNode(s), EntryPoint, v), EnterStmt(P, s, v))
  }

  function BackwardWhile(P: Problem, s: Stmt, v0: FlowValue, st: State): (r: (State, FlowValue))
    requires s.While?
    ensures st.changed ==> r.0.changed
    ensures !r.0.changed ==> r.0.cells == st.cells
    ensures r.0.final == st.final && st.visits <= r.0.visits
    ensures !st.final ==> r.0.visits == st.visits
    decreases s, 0
  {
    var (st, _) := FlowInto(st, Cell(s.id, BreakValues), LeaveStmt(P, s, v0));
    var (st, b) := Backward(P, s.body, Get(st.cells, Cell(s.id, LoopValues)), st);
    var m := SetUnion(b, Get(st.cells, Cell(s.id, BreakValues)));
    var (st, _) := FlowInto(st, Cell(s.id, LoopValues), BackwardExpr(P, s.test, m));
    var v := Get(st.cells, Cell(s.id, LoopValues));
    (RecordAt(st, StmtNode(s), EntryPoint, v), EnterStmt(P, s, v))
  }

  function BackwardDo(P: Problem, s: Stmt, v0: FlowValue, st: State): (r: (State, FlowValue))
    requires s.Do?
    ensures st.changed ==> r.0.changed
    ensures !r.0.changed ==> r.0.cells == st.cells
    ensures r.0.final == st.final && st.visits <= r.0.visits
    ensures !st.final ==> r.0.visits == st.visits
    decreases s, 0
  {
    var (st, _) := FlowInto(st, Cell(s.id, BreakValues), LeaveStmt(P, s, v0));
    var m := SetUnion(Get(st.cells, Cell(s.id, BreakValues)), Get(st.cells, Cell(s.id, LoopValues)));
    var (st, _) := FlowInto(st, Cell(s.id, ContinueValues), BackwardExpr(P, s.test, m));
    var (st, b) := Backward(P, s.body, Get(st.cells, Cell(s.id, ContinueValues)), st);
    var (st, _) := FlowInto(st, Cell(s.id, LoopValues), b);
    var v := Get(st.cells, Cell(s.id, LoopValues));
    (RecordAt(st, StmtNode(s), EntryPoint, v), EnterStmt(P, s, v))
  }

  function BackwardFor(P: Problem, s: Stmt, v0: FlowValue, st: State): (r: (State, FlowValue))
    requires s.For?
    ensures st.changed ==> r.0.changed
    ensures !r.0.changed ==> r.0.cells == st.cells
    ensures r.0.final == st.final && st.visits <= r.0.visits
    ensures !st.final ==> r.0.visits == st.visits
    decreases s, 0
  {
    var (st, _) := FlowInto(st, Cell(s.id, BreakValues), LeaveStmt(P, s, v0));
    var (st, _) := FlowInto(st, Cell(s.id, ContinueValues), BackwardOpt(P, s.next, Get(st.cells, Cell(s.id, LoopValues))));
    var (st, e) := Backward(P, s.body, Get(st.cells, Cell(s.id, ContinueValues)), st);
    var m := if s.guard.TheExpr? then SetUnion(Get(st.cells, Cell(s.id, BreakValues)), e) else e;
    var (st, _) := FlowInto(st, Cell(s.id, LoopValues), BackwardOpt(P, s.guard, m));
    var v := BackwardOpt(P, s.start, Get(st.cells, Cell(s.id, LoopValues)));
    (RecordAt(st, StmtNode(s), EntryPoint, v), EnterStmt(P, s, v))
  }

  function BackwardProc(P: Problem, p: Proc, st: State): (r: State) {
    var st := RecordAt(st, ProcNode(p), ExitPoint, P.init);
    var (st, b) := Backward(P, p.body, P.trans(ProcNode(p), ExitPoint, P.init), st);
    var (st, v) := FlowInto(st, Cell(p.id, ReturnValues), b);
    RecordAt(st, ProcNode(p), EntryPoint, v)
  }
}
