/**
 Properties that every value of a backward pass has.
 */
module PassValues {
  import opened Ast
  import opened FlowValues
  import opened Flow

  type Property = FlowValue -> bool

  // Meeting values and passing them through nodes stays within Z.
  ghost predicate Closed(Z: Property, P: Problem) {
    && Z(P.init)
    && (forall v, w {:trigger SetUnion(v, w)} :: Z(v) && Z(w) ==> Z(SetUnion(v, w)))
    && (forall n, p, v {:trigger P.trans(n, p, v)} :: Z(v) ==> Z(P.trans(n, p, v)))
  }

  ghost predicate AllIn(Z: Property, st: State) {
    && (forall c {:trigger Get(st.cells, c)} :: Z(Get(st.cells, c)))
    && (forall x {:trigger x in st.visits} :: x in st.visits ==> Z(x.value))
  }

  ghost predicate BothIn(Z: Property, r: (State, FlowValue)) {
    AllIn(Z, r.0) && Z(r.1)
  }

  lemma FlowStaysIn(Z: Property, P: Problem)
    requires Closed(Z, P)
    ensures forall st, c, v {:trigger FlowInto(st, c, v)} :: AllIn(Z, st) && Z(v) ==> BothIn(Z, FlowInto(st, c, v))
    ensures forall st, n, p, v {:trigger RecordAt(st, n, p, v)} :: AllIn(Z, st) && Z(v) ==> AllIn(Z, RecordAt(st, n, p, v))
    ensures forall st, c {:trigger Get(st.cells, c)} :: AllIn(Z, st) ==> Z(Get(st.cells, c))
  {
    forall st: State, c, v | AllIn(Z, st) && Z(v) ensures BothIn(Z, FlowInto(st, c, v)) {
      var (r, w) := FlowInto(st, c, v);
      assert Z(Get(st.cells, c));
      forall d ensures Z(Get(r.cells, d)) {
        assert Z(Get(st.cells, d));
      }
    }
  }

  lemma {:induction false} ExprStaysIn(Z: Property, P: Problem, e: Expr)
    requires Closed(Z, P)
    ensures forall v {:trigger BackwardExpr(P, e, v)} :: Z(v) ==> Z(BackwardExpr(P, e, v))
  {
    match e
    case Const(_, _) | Id(_, _) =>
    case Binop(_, _, left, right) => ExprStaysIn(Z, P, left); ExprStaysIn(Z, P, right);
    case Unary(_, _, operand) => ExprStaysIn(Z, P, operand);
    case Ternary(_, cond, yes, no) => ExprStaysIn(Z, P, cond); ExprStaysIn(Z, P, yes); ExprStaysIn(Z, P, no);
    case Call(_, name, args) => ExprStaysIn(Z, P, name); ExprsStayIn(Z, P, args);
  }

  lemma {:induction false} ExprsStayIn(Z: Property, P: Problem, es: Exprs)
    requires Closed(Z, P)
    ensures forall v {:trigger BackwardExprs(P, es, v)} :: Z(v) ==> Z(BackwardExprs(P, es, v))
  {
    match es
    case NoExprs =>
    case MoreExprs(head, tail) => ExprStaysIn(Z, P, head); ExprsStayIn(Z, P, tail);
  }

  lemma OptStaysIn(Z: Property, P: Problem, o: OptExpr)
    requires Closed(Z, P)
    ensures forall v {:trigger BackwardOpt(P, o, v)} :: Z(v) ==> Z(BackwardOpt(P, o, v))
  {
    if o.TheExpr? { ExprStaysIn(Z, P, o.e); }
  }

  ghost predicate StaysIn(Z: Property, P: Problem, s: Stmt) {
    forall v, st {:trigger Backward(P, s, v, st)} :: Z(v) && AllIn(Z, st) ==> BothIn(Z, Backward(P, s, v, st))
  }

  lemma SwitchStaysIn(Z: Property, P: Problem, s: Stmt, v: FlowValue, st: State)
    requires s.Switch? && Closed(Z, P) && StaysIn(Z, P, s.body) && Z(v) && AllIn(Z, st)
    ensures BothIn(Z, BackwardSwitch(P, s, v, st))
  {
    hide AllIn;
    FlowStaysIn(Z, P);
    ExprStaysIn(Z, P, s.subject);
  }

  lemma WhileStaysIn(Z: Property, P: Problem, s: Stmt, v: FlowValue, st: State)
    requires s.While? && Closed(Z, P) && StaysIn(Z, P, s.body) && Z(v) && AllIn(Z, st)
    ensures BothIn(Z, BackwardWhile(P, s, v, st))
  {
    hide AllIn;
    FlowStaysIn(Z, P);
    ExprStaysIn(Z, P, s.test);
  }

  lemma DoStaysIn(Z: Property, P: Problem, s: Stmt, v: FlowValue, st: State)
    requires s.Do? && Closed(Z, P) && StaysIn(Z, P, s.body) && Z(v) && AllIn(Z, st)
    ensures BothIn(Z, BackwardDo(P, s, v, st))
  {
    hide AllIn;
    FlowStaysIn(Z, P);
    ExprStaysIn(Z, P, s.test);
  }

  lemma ForStaysIn(Z: Property, P: Problem, s: Stmt, v: FlowValue, st: State)
    requires s.For? && Closed(Z, P) && StaysIn(Z, P, s.body) && Z(v) && AllIn(Z, st)
    ensures BothIn(Z, BackwardFor(P, s, v, st))
  {
    hide AllIn;
    FlowStaysIn(Z, P);
    OptStaysIn(Z, P, s.start);
    OptStaysIn(Z, P, s.guard);
    OptStaysIn(Z, P, s.next);
  }

  lemma LeafStaysIn(Z: Property, P: Problem, s: Stmt, v: FlowValue, st: State)
    requires Closed(Z, P) && Z(v) && AllIn(Z, st)
    requires s.Null? || s.Eval? || s.Decl? || s.Label? || s.Goto? || s.Break? || s.Continue? || s.Return?
             || s.Case? || s.Default? || s.Spawn? || s.Sync?
    ensures BothIn(Z, Backward(P, s, v, st))
  {
    hide AllIn;
    FlowStaysIn(Z, P);
    match s
    case Eval(e) => ExprStaysIn(Z, P, e);
    case Decl(_, init) => OptStaysIn(Z, P, init);
    case Return(_, result) => OptStaysIn(Z, P, result);
    case Spawn(_, receiver, _, callee, args) =>
      OptStaysIn(Z, P, receiver);
      ExprStaysIn(Z, P, callee);
      ExprsStayIn(Z, P, args);
    case _ =>
  }

  lemma GroupStaysIn(Z: Property, P: Problem, s: Stmt, v: FlowValue, st: State)
    requires Closed(Z, P) && Z(v) && AllIn(Z, st)
    requires match s
      case Then(first, rest) => StaysIn(Z, P, first) && StaysIn(Z, P, rest)
      case Block(_, items) => StaysIn(Z, P, items)
      case If(_, _, yes, no) => StaysIn(Z, P, yes) && StaysIn(Z, P, no)
      case _ => false
    ensures BothIn(Z, Backward(P, s, v, st))
  {
    hide AllIn;
    FlowStaysIn(Z, P);
    if s.If? { ExprStaysIn(Z, P, s.test); }
  }

  lemma LoopOrSwitchStaysIn(Z: Property, P: Problem, s: Stmt, v: FlowValue, st: State)
    requires Closed(Z, P) && Z(v) && AllIn(Z, st)
    requires (s.Switch? || s.While? || s.Do? || s.For?) && StaysIn(Z, P, s.body)
    ensures BothIn(Z, Backward(P, s, v, st))
  {
    hide AllIn;
    hide BackwardSwitch;
    hide BackwardWhile;
    hide BackwardDo;
    hide BackwardFor;
    FlowStaysIn(Z, P);
    var a := RecordAt(st, StmtNode(s), ExitPoint, v);
    match s
    case Switch(_, _, _, _) => SwitchStaysIn(Z, P, s, v, a);
    case While(_, _, _) => WhileStaysIn(Z, P, s, v, a);
    case Do(_, _, _) => DoStaysIn(Z, P, s, v, a);
    case For(_, _, _, _, _) => ForStaysIn(Z, P, s, v, a);
  }

  /** Whatever holds of the initial value and of the cells at the start of a pass, and is
      kept by the meet and the transfer functions, holds of every value of the pass. */
  lemma {:induction false} BackwardStaysIn(Z: Property, P: Problem, s: Stmt)
    requires Closed(Z, P)
    ensures StaysIn(Z, P, s)
  {
    hide AllIn;
    match s {
      case Then(first, rest) => BackwardStaysIn(Z, P, first); BackwardStaysIn(Z, P, rest);
      case Block(_, items) => BackwardStaysIn(Z, P, items);
      case If(_, _, yes, no) => BackwardStaysIn(Z, P, yes); BackwardStaysIn(Z, P, no);
      case Switch(_, _, _, body) => BackwardStaysIn(Z, P, body);
      case While(_, _, body) => BackwardStaysIn(Z, P, body);
      case Do(_, body, _) => BackwardStaysIn(Z, P, body);
      case For(_, _, _, _, body) => BackwardStaysIn(Z, P, body);
      case _ =>
    }
    forall v, st | Z(v) && AllIn(Z, st) ensures BothIn(Z, Backward(P, s, v, st)) {
      hide Closed;
      hide BothIn;
      match s
      case Then(_, _) => GroupStaysIn(Z, P, s, v, st);
      case Block(_, _) => GroupStaysIn(Z, P, s, v, st);
      case If(_, _, _, _) => GroupStaysIn(Z, P, s, v, st);
      case Switch(_, _, _, _) => LoopOrSwitchStaysIn(Z, P, s, v, st);
      case While(_, _, _) => LoopOrSwitchStaysIn(Z, P, s, v, st);
      case Do(_, _, _) => LoopOrSwitchStaysIn(Z, P, s, v, st);
      case For(_, _, _, _, _) => LoopOrSwitchStaysIn(Z, P, s, v, st);
      case _ => LeafStaysIn(Z, P, s, v, st);
    }
  }

  lemma BackwardProcStaysIn(Z: Property, P: Problem, p: Proc, st: State)
    requires Closed(Z, P) && AllIn(Z, st)
    ensures AllIn(Z, BackwardProc(P, p, st))
  {
    hide AllIn;
    FlowStaysIn(Z, P);
    BackwardStaysIn(Z, P, p.body);
  }
}
