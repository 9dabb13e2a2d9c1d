/**
 The data-flow engine itself: global mode variables, confluence cells overwritten in place,
 recursive passes over the tree and the loop that repeats them.

 Every method is tied to the function of module Flow or Convergence that it implements.
 */
module Engine {
  import opened Ast
  import opened FlowValues
  import F = Flow
  import opened Inner
  import opened Descent
  import opened Convergence

  class DataFlowEngine {
    var forw: bool
    var problem: F.Problem
    var cells: F.Cells
    var changed: bool
    var final: bool
    var visits: set<F.Visit>
    var inner: set<F.Visit>  // at the exits of expression nodes

    constructor (problem: F.Problem)
      ensures cells == map[] && visits == {} && this.problem == problem
    {
      this.problem := problem;
      forw, changed, final := false, false, false;
      cells, visits, inner := map[], {}, {};
    }

    function Now(): F.State
      reads this
    {
      F.State(cells, changed, final, visits)
    }

    ghost function Passed(s: Stmt, v: FlowValue, st: F.State): (F.State, FlowValue)
      reads this
    {
      if forw then F.Forward(problem, s, v, st) else F.Backward(problem, s, v, st)
    }

    // One call of the client.  The final pass lets it see the value.
    method Transfer(n: Node, p: Point, v: FlowValue) returns (w: FlowValue)
      modifies `visits
      ensures Now() == F.RecordAt(old(Now()), n, p, v) && w == problem.trans(n, p, v)
    {
      if final {
        visits := visits + {F.Visit(NodeId(n), p, v)};
      }
      w := problem.trans(n, p, v);
    }

    method FlowInto(c: Cell, v: FlowValue) returns (w: FlowValue)
      modifies `cells, `changed
      ensures (Now(), w) == F.FlowInto(old(Now()), c, v)
    {
      w := SetUnion(F.Get(cells, c), v);
      if !SetEqual(F.Get(cells, c), w) {
        cells := cells[c := w];
        changed := true;
      }
    }

    method DataFlowExpr(e: Expr, v: FlowValue) returns (w: FlowValue)
      modifies `inner
      ensures !forw && final ==> inner == InnerExpr(problem, e, v, old(inner))
      ensures w == if forw then F.ForwardExpr(problem, e, v) else F.BackwardExpr(problem, e, v)
    {
      var n := ExprNode(e);
      if final && !forw {
        inner := inner + {F.Visit(e.id, ExitPoint, v)};
      }
      w := problem.trans(n, if forw then EntryPoint else ExitPoint, v);
      match e {
        case Const(_, _) | Id(_, _) =>
        case Binop(_, op, left, right) =>
          if op.AndAnd? || op.OrOr? {
            // acts like a branch: always the left operand, sometimes the right one
            if forw {
              var c := DataFlowExpr(left, w);
              var t := DataFlowExpr(right, c);
              w := SetUnion(t, c);
            } else {
              var t := DataFlowExpr(right, w);
              w := DataFlowExpr(left, SetUnion(t, w));
            }
          } else if forw {
            w := DataFlowExpr(left, w);
            w := DataFlowExpr(right, w);
          } else {
            w := DataFlowExpr(right, w);
            w := DataFlowExpr(left, w);
          }
        case Unary(_, uop, operand) =>
          // the operand of sizeof is never executed
          if !uop.SizeOf? {
            w := DataFlowExpr(operand, w);
          }
        case Ternary(_, cond, yes, no) =>
          if forw {
            var c := DataFlowExpr(cond, w);
            var t := DataFlowExpr(yes, c);
            var f := DataFlowExpr(no, c);
            w := SetUnion(t, f);
          } else {
            var t := DataFlowExpr(yes, w);
            var f := DataFlowExpr(no, w);
            w := DataFlowExpr(cond, SetUnion(t, f));
          }
        case Call(_, name, args) =>
          if forw {
            w := DataFlowExpr(name, w);
            w := DataFlowExprs(args, w);
          } else {
            w := DataFlowExprs(args, w);
            w := DataFlowExpr(name, w);
          }
      }
      w := problem.trans(n, if forw then ExitPoint else EntryPoint, w);
    }

    method DataFlowExprs(es: Exprs, v: FlowValue) returns (w: FlowValue)
      modifies `inner
      ensures !forw && final ==> inner == InnerExprs(problem, es, v, old(inner))
      ensures w == if forw then F.ForwardExprs(problem, es, v) else F.BackwardExprs(problem, es, v)
    {
      w := v;
      match es
      case NoExprs =>
      case MoreExprs(head, tail) =>
        if forw {
          w := DataFlowExpr(head, w);
          w := DataFlowExprs(tail, w);
        } else {
          w := DataFlowExprs(tail, w);
          w := DataFlowExpr(head, w);
        }
    }

    method DataFlowOpt(o: OptExpr, v: FlowValue) returns (w: FlowValue)
      modifies `inner
      ensures !forw && final ==> inner == InnerOpt(problem, o, v, old(inner))
      ensures w == if forw then F.ForwardOpt(problem, o, v) else F.BackwardOpt(problem, o, v)
    {
      w := v;
      if o.TheExpr? {
        w := DataFlowExpr(o.e, v);
      }
    }

    method DataFlow(s: Stmt, v: FlowValue) returns (w: FlowValue)
      modifies `cells, `changed, `visits, `inner
      ensures (Now(), w) == Passed(s, v, old(Now()))
      ensures !forw && final ==> inner == InnerStmt(problem, s, v, old(Now()), old(inner))
      decreases s, 1
    {
      hide F.ForwardSwitch;
      hide F.ForwardWhile;
      hide F.ForwardDo;
      hide F.ForwardFor;
      hide F.ForwardJump;
      hide F.ForwardCase;
      hide F.BackwardSwitch;
      hide F.BackwardWhile;
      hide F.BackwardDo;
      hide F.BackwardFor;
      hide F.BackwardJump;
      hide F.BackwardCase;
      hide F.ForwardExpr;
      hide F.BackwardExpr;
      hide F.FlowInto;
      match s
      case Null => w := v;
      case Then(_, _) => w := DataFlowSerial(s, v);
      case Eval(e) => w := DataFlowExpr(e, v);
      case Decl(_, _) => w := DataFlowSimple(s, v);
      case Spawn(_, _, _, _, _) => w := DataFlowSimple(s, v);
      case Sync(_) => w := DataFlowSimple(s, v);
      case Block(_, _) => w := DataFlowBlock(s, v);
      case Label(_) => w := DataFlowLabel(s, v);
      case Goto(_, d) => w := DataFlowJump(s, v, Cell(d, LabelValues));
      case Break(_, t) => w := DataFlowJump(s, v, BreakCell(t));
      case Continue(_, t) => w := DataFlowJump(s, v, ContinueCell(t));
      case Return(_, _) => w := DataFlowReturn(s, v);
      case Case(_, _, sw) => w := DataFlowCase(s, v, Cell(sw, SwitchValues));
      case Default(_, sw) => w := DataFlowCase(s, v, Cell(sw, SwitchValues));
      case If(_, _, _, _) => w := DataFlowIf(s, v);
      case Switch(_, _, _, _) => w := DataFlowSwitch(s, v);
      case While(_, _, _) => w := DataFlowWhile(s, v);
      case Do(_, _, _) => w := DataFlowDo(s, v);
      case For(_, _, _, _, _) => w := DataFlowFor(s, v);
    }

    method DataFlowSerial(s: Stmt, v: FlowValue) returns (w: FlowValue)
      requires s.Then?
      modifies `cells, `changed, `visits, `inner
      ensures (Now(), w) == Passed(s, v, old(Now()))
      ensures !forw && final ==> inner == InnerStmt(problem, s, v, old(Now()), old(inner))
      decreases s, 0
    {
      if forw {
        w := DataFlow(s.first, v);
        w := DataFlow(s.rest, w);
      } else {
        w := DataFlow(s.rest, v);
        w := DataFlow(s.first, w);
      }
    }

    // Decl, Spawn and Sync: operands only, no confluence point.
    method DataFlowSimple(s: Stmt, v: FlowValue) returns (w: FlowValue)
      requires s.Decl? || s.Spawn? || s.Sync?
      modifies `visits, `inner
      ensures (Now(), w) == Passed(s, v, old(Now()))
      ensures !forw && final ==> inner == InnerStmt(problem, s, v, old(Now()), old(inner))
    {
      w := Transfer(StmtNode(s), if forw then EntryPoint else ExitPoint, v);
      match s {
        case Decl(_, init) => w := DataFlowOpt(init, w);
        case Spawn(_, receiver, _, callee, args) =>
          if forw {
            w := DataFlowOpt(receiver, w);
            w := DataFlowExpr(callee, w);
            w := DataFlowExprs(args, w);
          } else {
            w := DataFlowExprs(args, w);
            w := DataFlowExpr(callee, w);
            w := DataFlowOpt(receiver, w);
          }
        case Sync(_) =>
      }
      w := Transfer(StmtNode(s), if forw then ExitPoint else EntryPoint, w);
    }

    method DataFlowBlock(s: Stmt, v: FlowValue) returns (w: FlowValue)
      requires s.Block?
      modifies `cells, `changed, `visits, `inner
      ensures (Now(), w) == Passed(s, v, old(Now()))
      ensures !forw && final ==> inner == InnerStmt(problem, s, v, old(Now()), old(inner))
      decreases s, 0
    {
      w := Transfer(StmtNode(s), if forw then EntryPoint else ExitPoint, v);
      w := DataFlow(s.items, w);
      w := Transfer(StmtNode(s), if forw then ExitPoint else EntryPoint, w);
    }

    method DataFlowLabel(s: Stmt, v: FlowValue) returns (w: FlowValue)
      requires s.Label?
      modifies `cells, `changed, `visits, `inner
      ensures (Now(), w) == Passed(s, v, old(Now()))
      ensures !forw && final ==> inner == InnerStmt(problem, s, v, old(Now()), old(inner))
    {
      var c := Cell(s.id, LabelValues);
      if forw {
        w := FlowInto(c, v);
        w := Transfer(StmtNode(s), EntryPoint, w);
        w := Transfer(StmtNode(s), ExitPoint, w);
      } else {
        w := Transfer(StmtNode(s), ExitPoint, v);
        w := Transfer(StmtNode(s), EntryPoint, w);
        w := FlowInto(c, w);
      }
    }

    method DataFlowJump(s: Stmt, v: FlowValue, c: Cell) returns (w: FlowValue)
      requires s.Goto? || s.Break? || s.Continue?
      requires c == if s.Goto? then Cell(s.destination, LabelValues)
                    else if s.Break? then BreakCell(s.target) else ContinueCell(s.target)
      modifies `cells, `changed, `visits, `inner
      ensures (Now(), w) == Passed(s, v, old(Now()))
      ensures !forw && final ==> inner == InnerStmt(problem, s, v, old(Now()), old(inner))
    {
      if forw {
        w := Transfer(StmtNode(s), EntryPoint, v);
        w := Transfer(StmtNode(s), ExitPoint, w);
        w := FlowInto(c, w);
        w := Undefine(v);
      } else {
        w := Transfer(StmtNode(s), ExitPoint, F.Get(cells, c));
        w := Transfer(StmtNode(s), EntryPoint, w);
      }
    }

    method DataFlowReturn(s: Stmt, v: FlowValue) returns (w: FlowValue)
      requires s.Return?
      modifies `cells, `changed, `visits, `inner
      ensures (Now(), w) == Passed(s, v, old(Now()))
      ensures !forw && final ==> inner == InnerStmt(problem, s, v, old(Now()), old(inner))
    {
      if forw {
        w := Transfer(StmtNode(s), EntryPoint, v);
        w := DataFlowOpt(s.result, w);
        w := Transfer(StmtNode(s), ExitPoint, w);
        w := FlowInto(Cell(problem.proc, ReturnValues), w);
        w := Undefine(v);
      } else {
        w := Transfer(StmtNode(s), ExitPoint, problem.init);
        w := DataFlowOpt(s.result, w);
        w := Transfer(StmtNode(s), EntryPoint, w);
      }
    }

    method DataFlowCase(s: Stmt, v: FlowValue, c: Cell) returns (w: FlowValue)
      requires (s.Case? || s.Default?) && c == Cell(s.container, SwitchValues)
      modifies `cells, `changed, `visits, `inner
      ensures (Now(), w) == Passed(s, v, old(Now()))
      ensures !forw && final ==> inner == InnerStmt(problem, s, v, old(Now()), old(inner))
    {
      if forw {
        w := Transfer(StmtNode(s), EntryPoint, SetUnion(v, F.Get(cells, c)));
        w := Transfer(StmtNode(s), ExitPoint, w);
      } else {
        w := Transfer(StmtNode(s), ExitPoint, v);
        w := Transfer(StmtNode(s), EntryPoint, w);
        var _ := FlowInto(c, w);
      }
    }

    method DataFlowIf(s: Stmt, v: FlowValue) returns (w: FlowValue)
      requires s.If?
      modifies `cells, `changed, `visits, `inner
      ensures (Now(), w) == Passed(s, v, old(Now()))
      ensures !forw && final ==> inner == InnerStmt(problem, s, v, old(Now()), old(inner))
      decreases s, 0
    {
      if forw {
        w := Transfer(StmtNode(s), EntryPoint, v);
        var c := DataFlowExpr(s.test, w);
        var t := DataFlow(s.yes, c);
        var f := DataFlow(s.no, c);
        w := Transfer(StmtNode(s), ExitPoint, SetUnion(t, f));
      } else {
        w := Transfer(StmtNode(s), ExitPoint, v);
        var t := DataFlow(s.yes, w);
        var f := DataFlow(s.no, w);
        w := DataFlowExpr(s.test, SetUnion(t, f));
        w := Transfer(StmtNode(s), EntryPoint, w);
      }
    }

    method DataFlowSwitch(s: Stmt, v: FlowValue) returns (w: FlowValue)
      requires s.Switch?
      modifies `cells, `changed, `visits, `inner
      ensures (Now(), w) == if forw then F.ForwardSwitch(problem, s, v, F.RecordAt(old(Now()), StmtNode(s), EntryPoint, v))
                            else F.BackwardSwitch(problem, s, v, F.RecordAt(old(Now()), StmtNode(s), ExitPoint, v))
      ensures !forw && final ==>
        inner == InnerSwitch(problem, s, v, F.RecordAt(old(Now()), StmtNode(s), ExitPoint, v), old(inner))
      decreases s, 0
    {
      hide F.Forward;
      hide F.Backward;
      var (sw, brk) := (Cell(s.id, SwitchValues), Cell(s.id, BreakValues));
      if forw {
        w := Transfer(StmtNode(s), EntryPoint, v);
        w := DataFlowExpr(s.subject, w);
        w := FlowInto(sw, w);
        // with no default case, control may go straight to the end
        if !s.hasDefault {
          w := FlowInto(brk, F.Get(cells, sw));
        }
        // the expression does not flow into the statement: it jumps to a case label
        w := DataFlow(s.body, Undefine(v));
        w := FlowInto(brk, w);
        w := Transfer(StmtNode(s), ExitPoint, F.Get(cells, brk));
      } else {
        w := Transfer(StmtNode(s), ExitPoint, v);
        w := FlowInto(brk, w);
        w := DataFlow(s.body, w);
        if !s.hasDefault {
          w := FlowInto(sw, F.Get(cells, brk));
        }
        w := DataFlowExpr(s.subject, F.Get(cells, sw));
        w := Transfer(StmtNode(s), EntryPoint, w);
      }
    }

    method DataFlowWhile(s: Stmt, v: FlowValue) returns (w: FlowValue)
      requires s.While?
      modifies `cells, `changed, `visits, `inner
      ensures (Now(), w) == if forw then F.ForwardWhile(problem, s, v, F.RecordAt(old(Now()), StmtNode(s), EntryPoint, v))
                            else F.BackwardWhile(problem, s, v, F.RecordAt(old(Now()), StmtNode(s), ExitPoint, v))
      ensures !forw && final ==>
        inner == InnerWhile(problem, s, v, F.RecordAt(old(Now()), StmtNode(s), ExitPoint, v), old(inner))
      decreases s, 0
    {
      hide F.Forward;
      hide F.Backward;
      var (loop, brk) := (Cell(s.id, LoopValues), Cell(s.id, BreakValues));
      if forw {
        w := Transfer(StmtNode(s), EntryPoint, v);
        w := FlowInto(loop, w);
        var e := DataFlowExpr(s.test, F.Get(cells, loop));
        w := DataFlow(s.body, e);
        w := FlowInto(loop, w);
        w := FlowInto(brk, e);
        w := Transfer(StmtNode(s), ExitPoint, F.Get(cells, brk));
      } else {
        w := Transfer(StmtNode(s), ExitPoint, v);
        w := FlowInto(brk, w);
        var b := DataFlow(s.body, F.Get(cells, loop));
        w := DataFlowExpr(s.test, SetUnion(b, F.Get(cells, brk)));
        w := FlowInto(loop, w);
        w := Transfer(StmtNode(s), EntryPoint, F.Get(cells, loop));
      }
    }

    method DataFlowDo(s: Stmt, v: FlowValue) returns (w: FlowValue)
      requires s.Do?
      modifies `cells, `changed, `visits, `inner
      ensures (Now(), w) == if forw then F.ForwardDo(problem, s, v, F.RecordAt(old(Now()), StmtNode(s), EntryPoint, v))
                            else F.BackwardDo(problem, s, v, F.RecordAt(old(Now()), StmtNode(s), ExitPoint, v))
      ensures !forw && final ==>
        inner == InnerDo(problem, s, v, F.RecordAt(old(Now()), StmtNode(s), ExitPoint, v), old(inner))
      decreases s, 0
    {
      hide F.Forward;
      hide F.Backward;
      var (loop, cont, brk) := (Cell(s.id, LoopValues), Cell(s.id, ContinueValues), Cell(s.id, BreakValues));
      if forw {
        w := Transfer(StmtNode(s), EntryPoint, v);
        w := FlowInto(loop, w);
        w := DataFlow(s.body, F.Get(cells, loop));
        w := FlowInto(cont, w);
        var e := DataFlowExpr(s.test, F.Get(cells, cont));
        w := FlowInto(loop, e);
        w := FlowInto(brk, e);
        w := Transfer(StmtNode(s), ExitPoint, F.Get(cells, brk));
      } else {
        w := Transfer(StmtNode(s), ExitPoint, v);
        w := FlowInto(brk, w);
        w := DataFlowExpr(s.test, SetUnion(F.Get(cells, brk), F.Get(cells, loop)));
        w := FlowInto(cont, w);
        w := DataFlow(s.body, F.Get(cells, cont));
        w := FlowInto(loop, w);
        w := Transfer(StmtNode(s), EntryPoint, F.Get(cells, loop));
      }
    }

    method DataFlowFor(s: Stmt, v: FlowValue) returns (w: FlowValue)
      requires s.For?
      modifies `cells, `changed, `visits, `inner
      ensures (Now(), w) == if forw then F.ForwardFor(problem, s, v, F.RecordAt(old(Now()), StmtNode(s), EntryPoint, v))
                            else F.BackwardFor(problem, s, v, F.RecordAt(old(Now()), StmtNode(s), ExitPoint, v))
      ensures !forw && final ==>
        inner == InnerFor(problem, s, v, F.RecordAt(old(Now()), StmtNode(s), ExitPoint, v), old(inner))
      decreases s, 0
    {
      hide F.Forward;
      hide F.Backward;
      var (loop, cont, brk) := (Cell(s.id, LoopValues), Cell(s.id, ContinueValues), Cell(s.id, BreakValues));
      if forw {
        w := Transfer(StmtNode(s), EntryPoint, v);
        w := DataFlowOpt(s.start, w);
        w := FlowInto(loop, w);
        var e := DataFlowOpt(s.guard, F.Get(cells, loop));
        if s.guard.TheExpr? {
          w := FlowInto(brk, e);
        }
        w := DataFlow(s.body, e);
        w := FlowInto(cont, w);
        w := DataFlowOpt(s.next, F.Get(cells, cont));
        w := FlowInto(loop, w);
        w := Transfer(StmtNode(s), ExitPoint, F.Get(cells, brk));
      } else {
        w := Transfer(StmtNode(s), ExitPoint, v);
        w := FlowInto(brk, w);
        w := DataFlowOpt(s.next, F.Get(cells, loop));
        w := FlowInto(cont, w);
        var e := DataFlow(s.body, F.Get(cells, cont));
        if s.guard.TheExpr? {
          e := SetUnion(F.Get(cells, brk), e);
        }
        w := DataFlowOpt(s.guard, e);
        w := FlowInto(loop, w);
        w := DataFlowOpt(s.start, F.Get(cells, loop));
        w := Transfer(StmtNode(s), EntryPoint, w);
      }
    }

    method DataFlowProc(p: Proc)
      modifies `cells, `changed, `visits, `inner
      ensures Now() == OnePass(problem, if forw then Forwards else Backwards, p, old(Now()))
      ensures !forw && final && old(inner) == {} ==> inner == InnerProc(problem, p, old(Now()))
    {
      var w := Transfer(ProcNode(p), if forw then EntryPoint else ExitPoint, problem.init);
      w := DataFlow(p.body, w);
      w := FlowInto(Cell(p.id, ReturnValues), w);
      w := Transfer(ProcNode(p), if forw then ExitPoint else EntryPoint, w);
    }

    method ResetCell(c: Cell)
      modifies `cells, `changed
      ensures cells == Reset(old(cells), c) && changed
    {
      cells := cells[c := Undefine(F.Get(cells, c))];
      changed := true;
    }

    // The walk of InitConfluencePoints below the procedure node.
    method InitConfluencePoints(s: Stmt)
      modifies `cells, `changed
      ensures cells == InitPoints(s, old(cells)) && (old(changed) ==> changed)
    {
      match s
      case Then(first, rest) => InitConfluencePoints(first); InitConfluencePoints(rest);
      case Block(_, items) => InitConfluencePoints(items);
      case Label(id) => ResetCell(Cell(id, LabelValues));
      case If(_, _, yes, no) => InitConfluencePoints(yes); InitConfluencePoints(no);
      case Switch(id, _, _, body) =>
        ResetCell(Cell(id, SwitchValues));
        ResetCell(Cell(id, BreakValues));
        InitConfluencePoints(body);
      case While(id, _, body) =>
        ResetCell(Cell(id, LoopValues));
        ResetCell(Cell(id, BreakValues));
        InitConfluencePoints(body);
      case Do(id, body, _) => ResetLoopCells(id); InitConfluencePoints(body);
      case For(id, _, _, _, body) => ResetLoopCells(id); InitConfluencePoints(body);
      case _ =>
    }

    method ResetLoopCells(id: nat)
      modifies `cells, `changed
      ensures cells == ResetLoop(old(cells), id) && changed
    {
      ResetCell(Cell(id, LoopValues));
      ResetCell(Cell(id, ContinueValues));
      ResetCell(Cell(id, BreakValues));
    }

    /** Repeats passes until no confluence cell changes, then makes the final pass.  Whatever
        the transfer function, the cells it leaves behind solve the flow equations, the client
        has been shown the values of exactly those cells, and the number of passes is bounded. */
    method IterateDataFlow(p: Proc, P: F.Problem, dir: Direction) returns (ghost passes: nat)
      requires JumpsInside(p) && P.proc == p.id
      modifies this
      ensures cells == Converge(P, dir, p, Started(p, old(cells))).cells
      ensures Solution(P, dir, p, cells)
      ensures visits == OnePass(P, dir, p, F.State(cells, false, true, {})).visits
      ensures dir == Backwards ==> inner == InnerProc(P, p, F.State(cells, false, true, {}))
      ensures passes <= |ProcCells(p)| * (MAX_BITVECTOR_LENGTH + 1) + 1
    {
      forw := dir == Forwards;
      problem := P;
      final, changed, visits := false, false, {};
      InitConfluencePoints(p.body);
      ResetCell(Cell(p.id, ReturnValues));
      ghost var start := Started(p, old(cells));
      assert Now() == start;
      passes := 0;
      while changed
        invariant forw == (dir == Forwards) && problem == P && !final && visits == {}
        invariant Converge(P, dir, p, Now()) == Converge(P, dir, p, start)
        invariant passes + PassCount(P, dir, p, Now()) == PassCount(P, dir, p, start)
        decreases PassCount(P, dir, p, Now())
      {
        changed := false;
        ghost var before := Now();
        DataFlowProc(p);
        passes := passes + 1;
        OnePassKeeps(P, dir, p, before, Cell(0, LabelValues));
        NotFinalNoVisits(P, dir, p, before);
      }
      ConvergesToSolution(P, dir, p, start);
      TerminationBound(P, dir, p, old(cells));
      ShowValues(p, P, dir);
    }

    // The final pass.
    method ShowValues(p: Proc, ghost P: F.Problem, ghost dir: Direction)
      requires forw == (dir == Forwards) && problem == P && !changed && visits == {} && Solution(P, dir, p, cells)
      modifies this
      ensures cells == old(cells)
      ensures visits == OnePass(P, dir, p, F.State(cells, false, true, {})).visits
      ensures dir == Backwards ==> inner == InnerProc(P, p, F.State(cells, false, true, {}))
    {
      FinalPassChangesNothing(P, dir, p, cells, {});
      final, inner := true, {};
      DataFlowProc(p);
    }
  }
}
