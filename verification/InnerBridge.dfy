/**
 What a backward pass shows inside expressions, for one bit: a final pass over a solution
 shows it at exactly the nodes that the equations mark.
 */
module InnerBridge {
  import opened Ast
  import opened FlowValues
  import opened Flow
  import opened Inner
  import opened Control
  import opened Facts
  import opened InnerPaths
  import opened BackwardPaths
  import opened Bridge

  // The nodes at whose exit the client is shown bit b.
  ghost function ShownIds(V: set<Visit>, b: Bit): set<nat> {
    set x | x in V && x.point == ExitPoint && Has(x.value, b) :: x.node
  }

  lemma OneMoreShown(V: set<Visit>, b: Bit, n: nat, v: FlowValue)
    ensures ShownIds(V + {Visit(n, ExitPoint, v)}, b) == ShownIds(V, b) + (if Has(v, b) then {n} else {})
  {
    var W := V + {Visit(n, ExitPoint, v)};
    forall m | m in ShownIds(V, b) ensures m in ShownIds(W, b) {
      var x :| x in V && x.point == ExitPoint && Has(x.value, b) && x.node == m;
      assert x in W;
    }
    if Has(v, b) { assert Visit(n, ExitPoint, v) in W; }
  }

  // ---------- Expressions ----------

  ghost predicate ExprShows(P: Problem, b: Bit, F: Fact, e: Expr) {
    forall v, shown {:trigger InnerExpr(P, e, v, shown)} ::
      ShownIds(InnerExpr(P, e, v, shown), b) == ShownIds(shown, b) + ExprMarks(F, e, Has(v, b))
  }

  ghost predicate ExprsShow(P: Problem, b: Bit, F: Fact, es: Exprs) {
    forall v, shown {:trigger InnerExprs(P, es, v, shown)} ::
      ShownIds(InnerExprs(P, es, v, shown), b) == ShownIds(shown, b) + ExprsMarks(F, es, Has(v, b))
  }

  lemma {:induction false} ExprIsShown(P: Problem, b: Bit, F: Fact, e: Expr)
    requires NodesLike(P, b, F, e)
    ensures ExprShows(P, b, F, e)
  {
    match e {
      case Const(_, _) | Id(_, _) =>
      case Binop(_, op, left, right) =>
        ExprIsShown(P, b, F, right);
        if !IsPlainTarget(op, left) { ExprIsShown(P, b, F, left); }
      case Unary(_, uop, operand) => if !uop.SizeOf? { ExprIsShown(P, b, F, operand); }
      case Ternary(_, cond, yes, no) =>
        ExprIsShown(P, b, F, cond);
        ExprIsShown(P, b, F, yes);
        ExprIsShown(P, b, F, no);
      case Call(_, name, args) => ExprIsShown(P, b, F, name); ExprsAreShown(P, b, F, args);
    }
    forall v, shown ensures ShownIds(InnerExpr(P, e, v, shown), b) == ShownIds(shown, b) + ExprMarks(F, e, Has(v, b)) {
      ExprShownOnce(P, b, F, e, v, shown);
    }
  }

  lemma {:induction false} ExprsAreShown(P: Problem, b: Bit, F: Fact, es: Exprs)
    requires AllNodesLike(P, b, F, es)
    ensures ExprsShow(P, b, F, es)
  {
    hide NodesLike;
    if es.MoreExprs? {
      ExprIsShown(P, b, F, es.head);
      ExprsAreShown(P, b, F, es.tail);
      AllNodesMeanBackward(P, b, F, es.tail);
    }
    forall v, shown ensures ShownIds(InnerExprs(P, es, v, shown), b) == ShownIds(shown, b) + ExprsMarks(F, es, Has(v, b)) {
      hide ShownIds;
      if es.MoreExprs? {
        assert ShownIds(InnerExprs(P, es.tail, v, shown), b) == ShownIds(shown, b) + ExprsMarks(F, es.tail, Has(v, b));
      }
    }
  }

  lemma ExprShownOnce(P: Problem, b: Bit, F: Fact, e: Expr, v: FlowValue, shown: set<Visit>)
    requires NodesLike(P, b, F, e)
    requires e.Binop? ==> ExprShows(P, b, F, e.right) && (!IsPlainTarget(e.op, e.left) ==> ExprShows(P, b, F, e.left))
    requires e.Unary? && !e.uop.SizeOf? ==> ExprShows(P, b, F, e.operand)
    requires e.Ternary? ==> ExprShows(P, b, F, e.cond) && ExprShows(P, b, F, e.yes) && ExprShows(P, b, F, e.no)
    requires e.Call? ==> ExprShows(P, b, F, e.name) && ExprsShow(P, b, F, e.args)
    ensures ShownIds(InnerExpr(P, e, v, shown), b) == ShownIds(shown, b) + ExprMarks(F, e, Has(v, b))
  {
    hide ShownIds;
    hide Across;
    OneMoreShown(shown, b, e.id, v);
    var s := shown + {Visit(e.id, ExitPoint, v)};
    var w := Leave(P, e, v);
    match e
    case Const(_, _) | Id(_, _) =>
    case Binop(_, op, left, right) =>
      NodesMeanBackward(P, b, F, right);
      if IsPlainTarget(op, left) {
        OneMoreShown(InnerExpr(P, right, w, s), b, left.id, BackwardExpr(P, right, w));
      }
    case Unary(_, uop, operand) =>
    case Ternary(_, cond, yes, no) =>
      NodesMeanBackward(P, b, F, yes);
      NodesMeanBackward(P, b, F, no);
    case Call(_, name, args) => AllNodesMeanBackward(P, b, F, args);
  }

  lemma OptIsShown(P: Problem, b: Bit, F: Fact, o: OptExpr)
    requires OptNodesLike(P, b, F, o)
    ensures OptShows(P, b, F, o)
  {
    if o.TheExpr? { ExprIsShown(P, b, F, o.e); }
  }

  // ---------- Statements ----------

  // All nodes of the expressions of s act as the events of paths through them do.
  ghost predicate InnerLike(P: Problem, b: Bit, F: Fact, s: Stmt) {
    match s
    case Then(first, rest) => InnerLike(P, b, F, first) && InnerLike(P, b, F, rest)
    case Eval(e) => NodesLike(P, b, F, e)
    case Decl(_, init) => OptNodesLike(P, b, F, init)
    case Block(_, items) => InnerLike(P, b, F, items)
    case If(_, test, yes, no) => NodesLike(P, b, F, test) && InnerLike(P, b, F, yes) && InnerLike(P, b, F, no)
    case Switch(_, _, subject, body) => NodesLike(P, b, F, subject) && InnerLike(P, b, F, body)
    case While(_, test, body) => NodesLike(P, b, F, test) && InnerLike(P, b, F, body)
    case Do(_, body, test) => NodesLike(P, b, F, test) && InnerLike(P, b, F, body)
    case For(_, start, guard, next, body) =>
      OptNodesLike(P, b, F, start) && OptNodesLike(P, b, F, guard) && OptNodesLike(P, b, F, next) && InnerLike(P, b, F, body)
    case Return(_, result) => OptNodesLike(P, b, F, result)
    case Spawn(_, receiver, op, callee, args) =>
      (if receiver.TheExpr? && IsPlainTarget(op, receiver.e) then LikeTarget(P, b, receiver.e) else OptNodesLike(P, b, F, receiver)) &&
      NodesLike(P, b, F, callee) && AllNodesLike(P, b, F, args)
    case _ => true
  }

  // The marks of the receiver, the callee and the arguments of a spawn.
  ghost function SpawnMarks(F: Fact, s: Stmt, after: bool): set<nat>
    requires s.Spawn?
  {
    var a := BeforeExprs(F, s.args, after);
    var r := BeforeExpr(F, s.callee, a);
    ExprsMarks(F, s.args, after) + ExprMarks(F, s.callee, a) +
    (if s.receiver.TheExpr? && IsPlainTarget(s.op, s.receiver.e) then (if r then {s.receiver.e.id} else {})
     else OptMarks(F, s.receiver, r))
  }

  // The expression nodes of s at whose exit the fact holds, by the equations.
  ghost function StmtMarks(F: Fact, c: set<Cell>, s: Stmt, after: bool): set<nat> {
    match s
    case Then(first, rest) => StmtMarks(F, c, rest, after) + StmtMarks(F, c, first, BeforeStmt(F, c, rest, after))
    case Eval(e) => ExprMarks(F, e, after)
    case Decl(_, init) => OptMarks(F, init, Across(F, DeclEvent(s), after))
    case Block(_, items) => StmtMarks(F, c, items, after)
    case If(_, test, yes, no) =>
      StmtMarks(F, c, yes, after) + StmtMarks(F, c, no, after) +
      ExprMarks(F, test, BeforeStmt(F, c, yes, after) || BeforeStmt(F, c, no, after))
    case Switch(id, _, subject, body) =>
      StmtMarks(F, c, body, Cell(id, BreakValues) in c) + ExprMarks(F, subject, Cell(id, SwitchValues) in c)
    case While(id, test, body) =>
      var loop := Cell(id, LoopValues) in c;
      StmtMarks(F, c, body, loop) + ExprMarks(F, test, BeforeStmt(F, c, body, loop) || Cell(id, BreakValues) in c)
    case Do(id, body, test) =>
      StmtMarks(F, c, body, Cell(id, ContinueValues) in c) +
      ExprMarks(F, test, Cell(id, BreakValues) in c || Cell(id, LoopValues) in c)
    case For(id, start, guard, next, body) =>
      var (brk, loop, cont) := (Cell(id, BreakValues) in c, Cell(id, LoopValues) in c, Cell(id, ContinueValues) in c);
      StmtMarks(F, c, body, cont) + OptMarks(F, next, loop) + OptMarks(F, start, loop) +
      OptMarks(F, guard, (guard.TheExpr? && brk) || BeforeStmt(F, c, body, cont))
    case Return(_, result) => OptMarks(F, result, Across(F, Returned, false))
    case Spawn(_, _, _, _, _) => SpawnMarks(F, s, Across(F, SpawnEvent(s), after))
    case _ => {}
  }

  // A pass over s that changes nothing shows the bit at the marked nodes.
  ghost predicate ShowsMarks(P: Problem, b: Bit, F: Fact, s: Stmt, cells: Cells, c: set<Cell>, V: set<Visit>, v: FlowValue, st: State, shown: set<Visit>) {
    st.cells == cells && Quiet(Backward(P, s, v, st).0, cells, V) ==>
      ShownIds(InnerStmt(P, s, v, st, shown), b) == ShownIds(shown, b) + StmtMarks(F, c, s, Has(v, b))
  }

  ghost predicate StmtShows(P: Problem, b: Bit, F: Fact, s: Stmt, cells: Cells, c: set<Cell>, V: set<Visit>) {
    forall v, st, shown {:trigger InnerStmt(P, s, v, st, shown)} :: ShowsMarks(P, b, F, s, cells, c, V, v, st, shown)
  }

  lemma SwitchShows(P: Problem, b: Bit, F: Fact, s: Stmt, cells: Cells, c: set<Cell>, V: set<Visit>, v: FlowValue, st: State, shown: set<Visit>)
    requires s.Switch? && Passes(P, b, StmtNode(s), ExitPoint) && ExprShows(P, b, F, s.subject) && Matches(c, b, cells, V)
    requires st.cells == cells && Quiet(BackwardSwitch(P, s, v, st).0, cells, V)
    requires StmtShows(P, b, F, s.body, cells, c, V)
    ensures ShownIds(InnerSwitch(P, s, v, st, shown), b) == ShownIds(shown, b) + StmtMarks(F, c, s, Has(v, b))
  {
    hide Across;
    hide BeforeExpr;
    hide ExprMarks;
    hide ShownIds;
    hide InnerStmt;
    hide InnerExpr;
    hide BeforeStmt;
    QuietFlowAll(cells, c, b, V);
  }

  lemma WhileShows(P: Problem, b: Bit, F: Fact, p: Proc, s: Stmt, cells: Cells, c: set<Cell>, V: set<Visit>, v: FlowValue, st: State, shown: set<Visit>)
    requires s.While? && Passes(P, b, StmtNode(s), ExitPoint) && ExprShows(P, b, F, s.test) && Matches(c, b, cells, V)
    requires st.cells == cells && Quiet(BackwardWhile(P, s, v, st).0, cells, V)
    requires StmtShows(P, b, F, s.body, cells, c, V) && BackwardSolved(P, b, F, p, s.body, cells, c, V)
    ensures ShownIds(InnerWhile(P, s, v, st, shown), b) == ShownIds(shown, b) + StmtMarks(F, c, s, Has(v, b))
  {
    hide Across;
    hide BeforeExpr;
    hide ExprMarks;
    hide ShownIds;
    hide InnerStmt;
    hide InnerExpr;
    hide BeforeStmt;
    hide BeforeOk;
    QuietFlowAll(cells, c, b, V);
  }

  lemma DoShows(P: Problem, b: Bit, F: Fact, s: Stmt, cells: Cells, c: set<Cell>, V: set<Visit>, v: FlowValue, st: State, shown: set<Visit>)
    requires s.Do? && Passes(P, b, StmtNode(s), ExitPoint) && ExprShows(P, b, F, s.test) && Matches(c, b, cells, V)
    requires st.cells == cells && Quiet(BackwardDo(P, s, v, st).0, cells, V)
    requires StmtShows(P, b, F, s.body, cells, c, V)
    ensures ShownIds(InnerDo(P, s, v, st, shown), b) == ShownIds(shown, b) + StmtMarks(F, c, s, Has(v, b))
  {
    hide Across;
    hide BeforeExpr;
    hide ExprMarks;
    hide ShownIds;
    hide InnerStmt;
    hide InnerExpr;
    hide BeforeStmt;
    QuietFlowAll(cells, c, b, V);
  }

  ghost predicate OptShows(P: Problem, b: Bit, F: Fact, o: OptExpr) {
    forall v, shown {:trigger InnerOpt(P, o, v, shown)} ::
      ShownIds(InnerOpt(P, o, v, shown), b) == ShownIds(shown, b) + OptMarks(F, o, Has(v, b))
  }

  lemma ForShows(P: Problem, b: Bit, F: Fact, p: Proc, s: Stmt, cells: Cells, c: set<Cell>, V: set<Visit>, v: FlowValue, st: State, shown: set<Visit>)
    requires s.For? && Passes(P, b, StmtNode(s), ExitPoint) && Matches(c, b, cells, V)
    requires OptShows(P, b, F, s.start) && OptShows(P, b, F, s.guard) && OptShows(P, b, F, s.next)
    requires st.cells == cells && Quiet(BackwardFor(P, s, v, st).0, cells, V)
    requires StmtShows(P, b, F, s.body, cells, c, V) && BackwardSolved(P, b, F, p, s.body, cells, c, V)
    ensures ShownIds(InnerFor(P, s, v, st, shown), b) == ShownIds(shown, b) + StmtMarks(F, c, s, Has(v, b))
  {
    hide Across;
    hide BeforeExpr;
    hide ExprMarks;
    hide OptMarks;
    hide ShownIds;
    hide InnerStmt;
    hide InnerExpr;
    hide InnerOpt;
    hide BeforeStmt;
    hide BeforeOk;
    QuietFlowAll(cells, c, b, V);
  }

  lemma ThenShows(P: Problem, b: Bit, F: Fact, p: Proc, s: Stmt, cells: Cells, c: set<Cell>, V: set<Visit>, v: FlowValue, st: State, shown: set<Visit>)
    requires s.Then? && StmtShows(P, b, F, s.first, cells, c, V) && StmtShows(P, b, F, s.rest, cells, c, V)
    requires BackwardSolved(P, b, F, p, s.rest, cells, c, V)
    ensures ShowsMarks(P, b, F, s, cells, c, V, v, st, shown)
  {
    hide ShownIds;
    if st.cells == cells && Quiet(Backward(P, s, v, st).0, cells, V) {
      var (mid, w) := Backward(P, s.rest, v, st);
      assert Backward(P, s, v, st) == Backward(P, s.first, w, mid);
      assert Quiet(mid, cells, V);
      assert BackwardMeets(P, b, F, p, s.rest, cells, c, V, v, st);
      var more := InnerStmt(P, s.rest, v, st, shown);
      assert ShowsMarks(P, b, F, s.rest, cells, c, V, v, st, shown);
      assert InnerStmt(P, s, v, st, shown) == InnerStmt(P, s.first, w, mid, more);
      assert ShowsMarks(P, b, F, s.first, cells, c, V, w, mid, more);
    }
  }

  lemma BlockShows(P: Problem, b: Bit, F: Fact, s: Stmt, cells: Cells, c: set<Cell>, V: set<Visit>, v: FlowValue, st: State, shown: set<Visit>)
    requires s.Block? && Passes(P, b, StmtNode(s), ExitPoint) && StmtShows(P, b, F, s.items, cells, c, V)
    ensures ShowsMarks(P, b, F, s, cells, c, V, v, st, shown)
  {
    hide ShownIds;
    if st.cells == cells && Quiet(Backward(P, s, v, st).0, cells, V) {
      var a := RecordAt(st, StmtNode(s), ExitPoint, v);
      var w := LeaveStmt(P, s, v);
      assert InnerStmt(P, s, v, st, shown) == InnerStmt(P, s.items, w, a, shown);
      assert ShowsMarks(P, b, F, s.items, cells, c, V, w, a, shown);
    }
  }

  lemma IfShows(P: Problem, b: Bit, F: Fact, p: Proc, s: Stmt, cells: Cells, c: set<Cell>, V: set<Visit>, v: FlowValue, st: State, shown: set<Visit>)
    requires s.If? && Passes(P, b, StmtNode(s), ExitPoint) && ExprShows(P, b, F, s.test)
    requires StmtShows(P, b, F, s.yes, cells, c, V) && StmtShows(P, b, F, s.no, cells, c, V)
    requires BackwardSolved(P, b, F, p, s.yes, cells, c, V) && BackwardSolved(P, b, F, p, s.no, cells, c, V)
    ensures ShowsMarks(P, b, F, s, cells, c, V, v, st, shown)
  {
    hide ShownIds;
    hide ExprMarks;
    hide BeforeStmt;
    hide BeforeOk;
    hide InnerExpr;
    hide BackwardExpr;
    if st.cells == cells && Quiet(Backward(P, s, v, st).0, cells, V) {
      var a := RecordAt(st, StmtNode(s), ExitPoint, v);
      var w := LeaveStmt(P, s, v);
      var (m, t) := Backward(P, s.yes, w, a);
      assert BackwardMeets(P, b, F, p, s.yes, cells, c, V, w, a) && BackwardMeets(P, b, F, p, s.no, cells, c, V, w, m);
      assert Quiet(m, cells, V);
      var one := InnerStmt(P, s.yes, w, a, shown);
      assert ShowsMarks(P, b, F, s.yes, cells, c, V, w, a, shown);
      var two := InnerStmt(P, s.no, w, m, one);
      assert ShowsMarks(P, b, F, s.no, cells, c, V, w, m, one);
    }
  }

  lemma SpawnShows(P: Problem, b: Bit, F: Fact, s: Stmt, v: FlowValue, shown: set<Visit>)
    requires s.Spawn? && InnerLike(P, b, F, s)
    ensures var w := BackwardExprs(P, s.args, v);
      ShownIds(InnerOpt(P, s.receiver, BackwardExpr(P, s.callee, w), InnerExpr(P, s.callee, w, InnerExprs(P, s.args, v, shown))), b)
      == ShownIds(shown, b) + SpawnMarks(F, s, Has(v, b))
  {
    hide ShownIds;
    hide NodesLike;
    hide ExprMarks;
    ExprsAreShown(P, b, F, s.args);
    ExprIsShown(P, b, F, s.callee);
    AllNodesMeanBackward(P, b, F, s.args);
    NodesMeanBackward(P, b, F, s.callee);
    var w := BackwardExprs(P, s.args, v);
    var more := InnerExpr(P, s.callee, w, InnerExprs(P, s.args, v, shown));
    if s.receiver.TheExpr? && IsPlainTarget(s.op, s.receiver.e) {
      OneMoreShown(more, b, s.receiver.e.id, BackwardExpr(P, s.callee, w));
    } else {
      OptIsShown(P, b, F, s.receiver);
    }
  }

  lemma LeafShows(P: Problem, b: Bit, F: Fact, s: Stmt, cells: Cells, c: set<Cell>, V: set<Visit>, v: FlowValue, st: State, shown: set<Visit>)
    requires LikeStmt(P, b, F, s) && InnerLike(P, b, F, s) && !Has(P.init, b)
    requires !s.Then? && !s.Block? && !s.If? && !s.Switch? && !IsLoop(s)
    ensures ShowsMarks(P, b, F, s, cells, c, V, v, st, shown)
  {
    hide ShownIds;
    hide NodesLike;
    hide ExprMarks;
    hide Across;
    hide LikeExpr;
    hide LikeOperands;
    match s
    case Eval(e) => ExprIsShown(P, b, F, e);
    case Decl(_, init) => OptIsShown(P, b, F, init);
    case Return(_, result) => OptIsShown(P, b, F, result);
    case Spawn(_, _, _, _, _) => SpawnShows(P, b, F, s, LeaveStmt(P, s, v), shown);
    case _ =>
  }

  lemma ShowsOnce(P: Problem, b: Bit, F: Fact, p: Proc, s: Stmt, cells: Cells, c: set<Cell>, V: set<Visit>, v: FlowValue, st: State, shown: set<Visit>)
    requires P.proc == p.id && LikeStmt(P, b, F, s) && InnerLike(P, b, F, s) && Matches(c, b, cells, V) && !Has(P.init, b)
    requires s.Then? ==> StmtShows(P, b, F, s.first, cells, c, V) && StmtShows(P, b, F, s.rest, cells, c, V)
    requires s.Block? ==> StmtShows(P, b, F, s.items, cells, c, V)
    requires s.If? ==> StmtShows(P, b, F, s.yes, cells, c, V) && StmtShows(P, b, F, s.no, cells, c, V)
    requires s.Switch? || IsLoop(s) ==> StmtShows(P, b, F, s.body, cells, c, V)
    ensures ShowsMarks(P, b, F, s, cells, c, V, v, st, shown)
  {
    hide StmtShows;
    hide BackwardSolved;
    hide Matches;
    hide StmtMarks;
    hide NodesLike;
    hide ShownIds;
    hide LikeExpr;
    if s.Then? {
      BackwardSolves(P, b, F, p, s.rest, cells, c, V);
      ThenShows(P, b, F, p, s, cells, c, V, v, st, shown);
    } else if s.Block? {
      BlockShows(P, b, F, s, cells, c, V, v, st, shown);
    } else if s.If? {
      ExprIsShown(P, b, F, s.test);
      BackwardSolves(P, b, F, p, s.yes, cells, c, V);
      BackwardSolves(P, b, F, p, s.no, cells, c, V);
      IfShows(P, b, F, p, s, cells, c, V, v, st, shown);
    } else if s.Switch? || IsLoop(s) {
      ContainerShows(P, b, F, p, s, cells, c, V, v, st, shown);
    } else {
      LeafShows(P, b, F, s, cells, c, V, v, st, shown);
    }
  }

  lemma ContainerShows(P: Problem, b: Bit, F: Fact, p: Proc, s: Stmt, cells: Cells, c: set<Cell>, V: set<Visit>, v: FlowValue, st: State, shown: set<Visit>)
    requires s.Switch? || IsLoop(s)
    requires P.proc == p.id && LikeStmt(P, b, F, s) && InnerLike(P, b, F, s) && Matches(c, b, cells, V) && !Has(P.init, b)
    requires StmtShows(P, b, F, s.body, cells, c, V)
    ensures ShowsMarks(P, b, F, s, cells, c, V, v, st, shown)
  {
    hide StmtShows;
    hide BackwardSolved;
    hide Matches;
    hide StmtMarks;
    hide NodesLike;
    hide ShownIds;
    hide LikeExpr;
    hide InnerSwitch;
    hide InnerWhile;
    hide InnerDo;
    hide InnerFor;
    hide BackwardSwitch;
    hide BackwardWhile;
    hide BackwardDo;
    hide BackwardFor;
    if st.cells == cells && Quiet(Backward(P, s, v, st).0, cells, V) {
      var a := RecordAt(st, StmtNode(s), ExitPoint, v);
      BackwardSolves(P, b, F, p, s.body, cells, c, V);
      if s.Switch? {
        ExprIsShown(P, b, F, s.subject);
        SwitchShows(P, b, F, s, cells, c, V, v, a, shown);
      } else if s.While? {
        ExprIsShown(P, b, F, s.test);
        WhileShows(P, b, F, p, s, cells, c, V, v, a, shown);
      } else if s.Do? {
        ExprIsShown(P, b, F, s.test);
        DoShows(P, b, F, s, cells, c, V, v, a, shown);
      } else {
        OptIsShown(P, b, F, s.start);
        OptIsShown(P, b, F, s.guard);
        OptIsShown(P, b, F, s.next);
        ForShows(P, b, F, p, s, cells, c, V, v, a, shown);
      }
    }
  }

  lemma {:induction false} MarksAreShown(P: Problem, b: Bit, F: Fact, p: Proc, s: Stmt, cells: Cells, c: set<Cell>, V: set<Visit>)
    requires P.proc == p.id && LikeStmt(P, b, F, s) && InnerLike(P, b, F, s) && Matches(c, b, cells, V) && !Has(P.init, b)
    ensures StmtShows(P, b, F, s, cells, c, V)
  {
    hide ShowsMarks;
    hide Matches;
    hide NodesLike;
    hide LikeExpr;
    if s.Then? {
      MarksAreShown(P, b, F, p, s.first, cells, c, V);
      MarksAreShown(P, b, F, p, s.rest, cells, c, V);
    } else if s.Block? {
      MarksAreShown(P, b, F, p, s.items, cells, c, V);
    } else if s.If? {
      MarksAreShown(P, b, F, p, s.yes, cells, c, V);
      MarksAreShown(P, b, F, p, s.no, cells, c, V);
    } else if s.Switch? || IsLoop(s) {
      MarksAreShown(P, b, F, p, s.body, cells, c, V);
    }
    forall v, st, shown ensures ShowsMarks(P, b, F, s, cells, c, V, v, st, shown) {
      ShowsOnce(P, b, F, p, s, cells, c, V, v, st, shown);
    }
  }
}
