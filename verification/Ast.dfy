/**
 The part of the C/Cilk syntax tree that the data-flow engine walks.

 A node of the original is a heap object, so a node here carries an `id` that stands for
 its address.  A variable is named by the id of its Decl node.  A child list of the
 original (declarations, statements) is a chain of `Then` cells, and an absent child is
 `Null` or `NoExpr`.
 */
module Ast {

  datatype Operator = AndAnd | OrOr | Assign | OpAssign(op: nat) | Arith(op: nat)

  // `IncDec` covers the four increment/decrement operators; `Indirect` reads memory.
  datatype UnaryOperator = SizeOf | IncDec(op: nat) | Indirect | Plain(op: nat)

  datatype Expr =
    | Const(id: nat, value: int)
    | Id(id: nat, decl: nat)
    | Binop(id: nat, op: Operator, left: Expr, right: Expr)
    | Unary(id: nat, uop: UnaryOperator, operand: Expr)
    | Ternary(id: nat, cond: Expr, yes: Expr, no: Expr)
    | Call(id: nat, name: Expr, args: Exprs)

  datatype Exprs = NoExprs | MoreExprs(head: Expr, tail: Exprs)

  datatype OptExpr = NoExpr | TheExpr(e: Expr)

  datatype Loop = WhileLoop | DoLoop | ForLoop

  // The `container` pointer of a Break or Continue node: which node it leads to, and the
  // kind of that node.
  datatype Target = LoopTarget(loop: Loop, id: nat) | SwitchTarget(id: nat)

  datatype Stmt =
    | Null
    | Then(first: Stmt, rest: Stmt)
    | Eval(e: Expr)
    | Decl(id: nat, init: OptExpr)
    | Block(id: nat, items: Stmt)
    | Label(id: nat)
    | Goto(id: nat, destination: nat)
    | Switch(id: nat, hasDefault: bool, subject: Expr, body: Stmt)
    | Case(id: nat, value: int, container: nat)
    | Default(id: nat, container: nat)
    | If(id: nat, test: Expr, yes: Stmt, no: Stmt)
    | While(id: nat, test: Expr, body: Stmt)
    | Do(id: nat, body: Stmt, test: Expr)
    | For(id: nat, start: OptExpr, guard: OptExpr, next: OptExpr, body: Stmt)
    | Break(id: nat, target: Target)
    | Continue(id: nat, target: Target)
    | Return(id: nat, result: OptExpr)
    | Spawn(id: nat, receiver: OptExpr, op: Operator, callee: Expr, args: Exprs)
    | Sync(id: nat)

  datatype Proc = Proc(id: nat, body: Stmt)

  datatype Node = ExprNode(e: Expr) | StmtNode(s: Stmt) | ProcNode(p: Proc)

  datatype Point = EntryPoint | ExitPoint

  // The confluence fields of label, switch, loop and procedure nodes.  ExitMark is no field
  // of a node: it stands for the value shown to the client at the node's exit in the final pass.
  datatype Field = LabelValues | SwitchValues | BreakValues | LoopValues | ContinueValues | ReturnValues | ExitMark

  datatype Cell = Cell(node: nat, field: Field)

  function BreakCell(t: Target): Cell {
    Cell(t.id, BreakValues)
  }

  // Where control goes after `continue`: the confluence point of the loop that precedes its test or step.
  function LoopContinueCell(loop: Loop, id: nat): Cell {
    Cell(id, if loop == WhileLoop then LoopValues else ContinueValues)
  }

  // A `continue` never resolves to a switch; the original reaches UNREACHABLE there.
  function ContinueCell(t: Target): Cell {
    match t
    case LoopTarget(loop, id) => LoopContinueCell(loop, id)
    case SwitchTarget(id) => Cell(id, ContinueValues)
  }

  predicate IsPlainTarget(op: Operator, left: Expr) {
    op == Assign && left.Id?
  }

  function NodeId(n: Node): nat {
    match n
    case ExprNode(e) => e.id
    case StmtNode(s) => StmtId(s)
    case ProcNode(p) => p.id
  }

  predicate HasId(s: Stmt) {
    !s.Null? && !s.Then? && !s.Eval?
  }

  function StmtId(s: Stmt): nat {
    if HasId(s) then s.id else if s.Eval? then s.e.id else 0
  }

  // Every confluence cell that a pass over s may flow into.
  ghost function CellsWritten(proc: nat, s: Stmt): set<Cell> {
    match s
    case Null | Eval(_) | Decl(_, _) | Spawn(_, _, _, _, _) | Sync(_) => {}
    case Then(first, rest) => CellsWritten(proc, first) + CellsWritten(proc, rest)
    case Block(_, items) => CellsWritten(proc, items)
    case Label(id) => {Cell(id, LabelValues)}
    case Goto(_, destination) => {Cell(destination, LabelValues)}
    case Switch(id, _, _, body) => {Cell(id, SwitchValues), Cell(id, BreakValues)} + CellsWritten(proc, body)
    case Case(_, _, container) => {Cell(container, SwitchValues)}
    case Default(_, container) => {Cell(container, SwitchValues)}
    case If(_, _, yes, no) => CellsWritten(proc, yes) + CellsWritten(proc, no)
    case While(id, _, body) => {Cell(id, LoopValues), Cell(id, BreakValues)} + CellsWritten(proc, body)
    case Do(id, body, _) => LoopCells(id) + CellsWritten(proc, body)
    case For(id, _, _, _, body) => LoopCells(id) + CellsWritten(proc, body)
    case Break(_, t) => {BreakCell(t)}
    case Continue(_, t) => {ContinueCell(t)}
    case Return(_, _) => {Cell(proc, ReturnValues)}
  }

  function LoopCells(id: nat): set<Cell> {
    {Cell(id, LoopValues), Cell(id, ContinueValues), Cell(id, BreakValues)}
  }
}
