/**
 Two runs of the engine over the same tree, compared step by step.

 Any relation between flow values that the meet, the transfer functions and
 undefinedness respect is kept by a whole pass, in both directions.  Monotonicity of the
 engine is the instance for the lattice order.
 */
module TwoRuns {
  import opened Ast
  import opened FlowValues
  import opened Flow

  type Relation = (FlowValue, FlowValue) -> bool

  ghost predicate Respected(R: Relation, P: Problem, Q: Problem) {
    && P.proc == Q.proc
    && R(P.init, Q.init)
    && (forall v, w, x, y {:trigger SetUnion(v, x), SetUnion(w, y)} :: R(v, w) && R(x, y) ==> R(SetUnion(v, x), SetUnion(w, y)))
    && (forall v, w, x, y {:trigger SetEqual(v, x), SetEqual(w, y)} :: R(v, w) && SetEqual(v, x) && SetEqual(w, y) ==> R(x, y))
    && (forall v, w {:trigger Undefine(v), Undefine(w)} :: R(v, w) ==> R(Undefine(v), Undefine(w)))
    && (forall n, p, v, w {:trigger P.trans(n, p, v), Q.trans(n, p, w)} ::
          R(v, w) ==> R(P.trans(n, p, v), Q.trans(n, p, w)))
  }

  // The cells that are compared.
  type Scope = iset<Cell>

  ghost const Everywhere: Scope := iset c: Cell | c.node >= 0

  ghost predicate CellsRelated(R: Relation, W: Scope, a: State, b: State) {
    forall c {:trigger Get(a.cells, c)} {:trigger Get(b.cells, c)} :: c in W ==> R(Get(a.cells, c), Get(b.cells, c))
  }

  ghost predicate Related(R: Relation, W: Scope, x: (State, FlowValue), y: (State, FlowValue)) {
    CellsRelated(R, W, x.0, y.0) && R(x.1, y.1)
  }

  // All cells that s flows into are compared.
  ghost predicate InScope(W: Scope, proc: nat, s: Stmt) {
    forall c :: c in CellsWritten(proc, s) ==> c in W
  }

  lemma PartsInScope(W: Scope, proc: nat, s: Stmt)
    requires InScope(W, proc, s)
    ensures s.Then? ==> InScope(W, proc, s.first) && InScope(W, proc, s.rest)
    ensures s.Block? ==> InScope(W, proc, s.items)
    ensures s.If? ==> InScope(W, proc, s.yes) && InScope(W, proc, s.no)
    ensures s.Switch? || s.While? || s.Do? || s.For? ==> InScope(W, proc, s.body) && Cell(s.id, BreakValues) in W
    ensures s.Switch? ==> Cell(s.id, SwitchValues) in W
    ensures s.While? || s.Do? || s.For? ==> Cell(s.id, LoopValues) in W
    ensures s.Do? || s.For? ==> Cell(s.id, ContinueValues) in W
    ensures s.Label? ==> Cell(s.id, LabelValues) in W
    ensures s.Goto? ==> Cell(s.destination, LabelValues) in W
    ensures s.Break? ==> BreakCell(s.target) in W
    ensures s.Continue? ==> ContinueCell(s.target) in W
    ensures s.Case? || s.Default? ==> Cell(s.container, SwitchValues) in W
    ensures s.Return? ==> Cell(proc, ReturnValues) in W
  {
  }

  lemma SetEqualLaws()
    ensures forall v {:trigger SetEqual(v, v)} :: SetEqual(v, v)
    ensures forall v, w {:trigger SetEqual(v, w)} :: SetEqual(v, w) ==> SetEqual(w, v)
  {
  }

  lemma FlowIntoRelated(R: Relation, W: Scope, P: Problem, Q: Problem, a: State, b: State, c: Cell, v: FlowValue, w: FlowValue)
    requires Respected(R, P, Q) && CellsRelated(R, W, a, b) && R(v, w) && c in W
    ensures Related(R, W, FlowInto(a, c, v), FlowInto(b, c, w))
  {
    hide SetUnion;
    hide SetEqual;
    SetEqualLaws();
    var (x, y) := (Get(a.cells, c), Get(b.cells, c));
    assert R(x, y);
    assert R(SetUnion(x, v), SetUnion(y, w));
    var (p, q) := (FlowInto(a, c, v), FlowInto(b, c, w));
    var (x', y') := (Get(p.0.cells, c), Get(q.0.cells, c));
    assert SetEqual(SetUnion(x, v), x') && SetEqual(SetUnion(y, w), y');
    forall d | d in W ensures R(Get(p.0.cells, d), Get(q.0.cells, d)) {
      assert R(Get(a.cells, d), Get(b.cells, d));
    }
  }

  lemma {:induction false} ForwardExprRelated(R: Relation, P: Problem, Q: Problem, e: Expr)
    requires Respected(R, P, Q)
    ensures forall v, w {:trigger ForwardExpr(P, e, v), ForwardExpr(Q, e, w)} ::
              R(v, w) ==> R(ForwardExpr(P, e, v), ForwardExpr(Q, e, w))
  {
    match e
    case Const(_, _) | Id(_, _) =>
    case Binop(_, _, left, right) => ForwardExprRelated(R, P, Q, left); ForwardExprRelated(R, P, Q, right);
    case Unary(_, _, operand) => ForwardExprRelated(R, P, Q, operand);
    case Ternary(_, cond, yes, no) =>
      ForwardExprRelated(R, P, Q, cond);
      ForwardExprRelated(R, P, Q, yes);
      ForwardExprRelated(R, P, Q, no);
    case Call(_, name, args) => ForwardExprRelated(R, P, Q, name); ForwardExprsRelated(R, P, Q, args);
  }

  lemma {:induction false} ForwardExprsRelated(R: Relation, P: Problem, Q: Problem, es: Exprs)
    requires Respected(R, P, Q)
    ensures forall v, w {:trigger ForwardExprs(P, es, v), ForwardExprs(Q, es, w)} ::
              R(v, w) ==> R(ForwardExprs(P, es, v), ForwardExprs(Q, es, w))
  {
    match es
    case NoExprs =>
    case MoreExprs(head, tail) => ForwardExprRelated(R, P, Q, head); ForwardExprsRelated(R, P, Q, tail);
  }

  lemma ForwardOptRelated(R: Relation, P: Problem, Q: Problem, o: OptExpr)
    requires Respected(R, P, Q)
    ensures forall v, w {:trigger ForwardOpt(P, o, v), ForwardOpt(Q, o, w)} ::
              R(v, w) ==> R(ForwardOpt(P, o, v), ForwardOpt(Q, o, w))
  {
    if o.TheExpr? {
      ForwardExprRelated(R, P, Q, o.e);
    }
  }

  lemma {:induction false} BackwardExprRelated(R: Relation, P: Problem, Q: Problem, e: Expr)
    requires Respected(R, P, Q)
    ensures forall v, w {:trigger BackwardExpr(P, e, v), BackwardExpr(Q, e, w)} ::
              R(v, w) ==> R(BackwardExpr(P, e, v), BackwardExpr(Q, e, w))
  {
    match e
    case Const(_, _) | Id(_, _) =>
    case Binop(_, _, left, right) => BackwardExprRelated(R, P, Q, left); BackwardExprRelated(R, P, Q, right);
    case Unary(_, _, operand) => BackwardExprRelated(R, P, Q, operand);
    case Ternary(_, cond, yes, no) =>
      BackwardExprRelated(R, P, Q, cond);
      BackwardExprRelated(R, P, Q, yes);
      BackwardExprRelated(R, P, Q, no);
    case Call(_, name, args) => BackwardExprRelated(R, P, Q, name); BackwardExprsRelated(R, P, Q, args);
  }

  lemma {:induction false} BackwardExprsRelated(R: Relation, P: Problem, Q: Problem, es: Exprs)
    requires Respected(R, P, Q)
    ensures forall v, w {:trigger BackwardExprs(P, es, v), BackwardExprs(Q, es, w)} ::
              R(v, w) ==> R(BackwardExprs(P, es, v), BackwardExprs(Q, es, w))
  {
    match es
    case NoExprs =>
    case MoreExprs(head, tail) => BackwardExprRelated(R, P, Q, head); BackwardExprsRelated(R, P, Q, tail);
  }

  lemma BackwardOptRelated(R: Relation, P: Problem, Q: Problem, o: OptExpr)
    requires Respected(R, P, Q)
    ensures forall v, w {:trigger BackwardOpt(P, o, v), BackwardOpt(Q, o, w)} ::
              R(v, w) ==> R(BackwardOpt(P, o, v), BackwardOpt(Q, o, w))
  {
    if o.TheExpr? {
      BackwardExprRelated(R, P, Q, o.e);
    }
  }

  lemma FlowIntoRelatedAll(R: Relation, W: Scope, P: Problem, Q: Problem)
    requires Respected(R, P, Q)
    ensures forall a, b, c, v, w {:trigger FlowInto(a, c, v), FlowInto(b, c, w)} ::
              CellsRelated(R, W, a, b) && R(v, w) && c in W ==> Related(R, W, FlowInto(a, c, v), FlowInto(b, c, w))
  {
    forall a, b, c, v, w | CellsRelated(R, W, a, b) && R(v, w) && c in W
      ensures Related(R, W, FlowInto(a, c, v), FlowInto(b, c, w))
    {
      FlowIntoRelated(R, W, P, Q, a, b, c, v, w);
    }
  }

  // A pass over s keeps states and values related.
  ghost predicate ForwardAlike(R: Relation, W: Scope, P: Problem, Q: Problem, s: Stmt) {
    forall v, w, a, b {:trigger Forward(P, s, v, a), Forward(Q, s, w, b)} ::
      CellsRelated(R, W, a, b) && R(v, w) ==> Related(R, W, Forward(P, s, v, a), Forward(Q, s, w, b))
  }

  lemma ForwardSwitchRelated(R: Relation, W: Scope, P: Problem, Q: Problem, s: Stmt, v: FlowValue, w: FlowValue, a: State, b: State)
    requires s.Switch? && InScope(W, P.proc, s) && Respected(R, P, Q) && CellsRelated(R, W, a, b) && R(v, w)
    requires ForwardAlike(R, W, P, Q, s.body)
    ensures Related(R, W, ForwardSwitch(P, s, v, a), ForwardSwitch(Q, s, w, b))
  {
    hide SetUnion;
    hide SetEqual;
    hide Get;
    hide Undefine;
    hide FlowInto;
    hide InScope;
    hide CellsWritten;
    PartsInScope(W, P.proc, s);
    FlowIntoRelatedAll(R, W, P, Q);
    ForwardExprRelated(R, P, Q, s.subject);
  }

  lemma ForwardWhileRelated(R: Relation, W: Scope, P: Problem, Q: Problem, s: Stmt, v: FlowValue, w: FlowValue, a: State, b: State)
    requires s.While? && InScope(W, P.proc, s) && Respected(R, P, Q) && CellsRelated(R, W, a, b) && R(v, w)
    requires ForwardAlike(R, W, P, Q, s.body)
    ensures Related(R, W, ForwardWhile(P, s, v, a), ForwardWhile(Q, s, w, b))
  {
    hide SetUnion;
    hide SetEqual;
    hide Get;
    hide Undefine;
    hide FlowInto;
    hide InScope;
    hide CellsWritten;
    PartsInScope(W, P.proc, s);
    FlowIntoRelatedAll(R, W, P, Q);
    ForwardExprRelated(R, P, Q, s.test);
  }

  lemma ForwardDoRelated(R: Relation, W: Scope, P: Problem, Q: Problem, s: Stmt, v: FlowValue, w: FlowValue, a: State, b: State)
    requires s.Do? && InScope(W, P.proc, s) && Respected(R, P, Q) && CellsRelated(R, W, a, b) && R(v, w)
    requires ForwardAlike(R, W, P, Q, s.body)
    ensures Related(R, W, ForwardDo(P, s, v, a), ForwardDo(Q, s, w, b))
  {
    hide SetUnion;
    hide SetEqual;
    hide Get;
    hide Undefine;
    hide FlowInto;
    hide InScope;
    hide CellsWritten;
    PartsInScope(W, P.proc, s);
    FlowIntoRelatedAll(R, W, P, Q);
    ForwardExprRelated(R, P, Q, s.test);
  }

  lemma ForwardForRelated(R: Relation, W: Scope, P: Problem, Q: Problem, s: Stmt, v: FlowValue, w: FlowValue, a: State, b: State)
    requires s.For? && InScope(W, P.proc, s) && Respected(R, P, Q) && CellsRelated(R, W, a, b) && R(v, w)
    requires ForwardAlike(R, W, P, Q, s.body)
    ensures Related(R, W, ForwardFor(P, s, v, a), ForwardFor(Q, s, w, b))
  {
    hide SetUnion;
    hide SetEqual;
    hide Get;
    hide Undefine;
    hide FlowInto;
    hide InScope;
    hide CellsWritten;
    PartsInScope(W, P.proc, s);
    FlowIntoRelatedAll(R, W, P, Q);
    ForwardOptRelated(R, P, Q, s.start);
    ForwardOptRelated(R, P, Q, s.guard);
    ForwardOptRelated(R, P, Q, s.next);
  }

  lemma ForwardLeafRelated(R: Relation, W: Scope, P: Problem, Q: Problem, s: Stmt, v: FlowValue, w: FlowValue, a: State, b: State)
    requires InScope(W, P.proc, s) && Respected(R, P, Q) && CellsRelated(R, W, a, b) && R(v, w)
    requires !s.Then? && !s.Block? && !s.If? && !s.Switch? && !s.While? && !s.Do? && !s.For?
    ensures Related(R, W, Forward(P, s, v, a), Forward(Q, s, w, b))
  {
    hide SetUnion;
    hide SetEqual;
    hide Get;
    hide Undefine;
    hide FlowInto;
    hide InScope;
    hide CellsWritten;
    PartsInScope(W, P.proc, s);
    FlowIntoRelatedAll(R, W, P, Q);
    match s
    case Eval(e) => ForwardExprRelated(R, P, Q, e);
    case Decl(_, init) => ForwardOptRelated(R, P, Q, init);
    case Return(_, result) => ForwardOptRelated(R, P, Q, result);
    case Spawn(_, receiver, _, callee, args) =>
      ForwardOptRelated(R, P, Q, receiver);
      ForwardExprRelated(R, P, Q, callee);
      ForwardExprsRelated(R, P, Q, args);
    case _ =>
  }

  lemma ForwardThenRelated(R: Relation, W: Scope, P: Problem, Q: Problem, s: Stmt, v: FlowValue, w: FlowValue, a: State, b: State)
    requires s.Then? && CellsRelated(R, W, a, b) && R(v, w)
    requires ForwardAlike(R, W, P, Q, s.first) && ForwardAlike(R, W, P, Q, s.rest)
    ensures Related(R, W, Forward(P, s, v, a), Forward(Q, s, w, b))
  {
    hide CellsRelated;
    var (x, y) := (Forward(P, s.first, v, a), Forward(Q, s.first, w, b));
    assert Related(R, W, x, y);
    assert Related(R, W, Forward(P, s.rest, x.1, x.0), Forward(Q, s.rest, y.1, y.0));
  }

  lemma ForwardBlockRelated(R: Relation, W: Scope, P: Problem, Q: Problem, s: Stmt, v: FlowValue, w: FlowValue, a: State, b: State)
    requires s.Block? && Respected(R, P, Q) && CellsRelated(R, W, a, b) && R(v, w) && ForwardAlike(R, W, P, Q, s.items)
    ensures Related(R, W, Forward(P, s, v, a), Forward(Q, s, w, b))
  {
    hide SetUnion;
    hide SetEqual;
    hide Get;
    var (c, d) := (RecordAt(a, StmtNode(s), EntryPoint, v), RecordAt(b, StmtNode(s), EntryPoint, w));
    var (e, f) := (EnterStmt(P, s, v), EnterStmt(Q, s, w));
    assert Related(R, W, Forward(P, s.items, e, c), Forward(Q, s.items, f, d));
  }

  lemma ForwardIfRelated(R: Relation, W: Scope, P: Problem, Q: Problem, s: Stmt, v: FlowValue, w: FlowValue, a: State, b: State)
    requires s.If? && Respected(R, P, Q) && CellsRelated(R, W, a, b) && R(v, w)
    requires ForwardAlike(R, W, P, Q, s.yes) && ForwardAlike(R, W, P, Q, s.no)
    ensures Related(R, W, Forward(P, s, v, a), Forward(Q, s, w, b))
  {
    hide SetUnion;
    hide SetEqual;
    hide Get;
    ForwardExprRelated(R, P, Q, s.test);
    var (c, d) := (RecordAt(a, StmtNode(s), EntryPoint, v), RecordAt(b, StmtNode(s), EntryPoint, w));
    var (e, f) := (ForwardExpr(P, s.test, EnterStmt(P, s, v)), ForwardExpr(Q, s.test, EnterStmt(Q, s, w)));
    var (x, y) := (Forward(P, s.yes, e, c), Forward(Q, s.yes, f, d));
    assert Related(R, W, x, y);
    assert Related(R, W, Forward(P, s.no, e, x.0), Forward(Q, s.no, f, y.0));
  }

  lemma ForwardOnceRelated(R: Relation, W: Scope, P: Problem, Q: Problem, s: Stmt, v: FlowValue, w: FlowValue, a: State, b: State)
    requires InScope(W, P.proc, s) && Respected(R, P, Q) && CellsRelated(R, W, a, b) && R(v, w)
    requires s.Then? ==> ForwardAlike(R, W, P, Q, s.first) && ForwardAlike(R, W, P, Q, s.rest)
    requires s.Block? ==> ForwardAlike(R, W, P, Q, s.items)
    requires s.If? ==> ForwardAlike(R, W, P, Q, s.yes) && ForwardAlike(R, W, P, Q, s.no)
    requires s.Switch? || s.While? || s.Do? || s.For? ==> ForwardAlike(R, W, P, Q, s.body)
    ensures Related(R, W, Forward(P, s, v, a), Forward(Q, s, w, b))
  {
    hide ForwardAlike;
    hide Respected;
    hide InScope;
    hide ForwardSwitch;
    hide ForwardWhile;
    hide ForwardDo;
    hide ForwardFor;
    var (c, d) := (RecordAt(a, StmtNode(s), EntryPoint, v), RecordAt(b, StmtNode(s), EntryPoint, w));
    if s.Then? {
      ForwardThenRelated(R, W, P, Q, s, v, w, a, b);
    } else if s.Block? {
      ForwardBlockRelated(R, W, P, Q, s, v, w, a, b);
    } else if s.If? {
      ForwardIfRelated(R, W, P, Q, s, v, w, a, b);
    } else if s.Switch? {
      ForwardSwitchRelated(R, W, P, Q, s, v, w, c, d);
    } else if s.While? {
      ForwardWhileRelated(R, W, P, Q, s, v, w, c, d);
    } else if s.Do? {
      ForwardDoRelated(R, W, P, Q, s, v, w, c, d);
    } else if s.For? {
      ForwardForRelated(R, W, P, Q, s, v, w, c, d);
    } else {
      ForwardLeafRelated(R, W, P, Q, s, v, w, a, b);
    }
  }

  lemma {:induction false} ForwardRelated(R: Relation, W: Scope, P: Problem, Q: Problem, s: Stmt)
    requires InScope(W, P.proc, s) && Respected(R, P, Q)
    ensures ForwardAlike(R, W, P, Q, s)
  {
    hide Respected;
    hide InScope;
    hide CellsRelated;
    PartsInScope(W, P.proc, s);
    match s {
      case Then(first, rest) => ForwardRelated(R, W, P, Q, first); ForwardRelated(R, W, P, Q, rest);
      case Block(_, items) => ForwardRelated(R, W, P, Q, items);
      case If(_, _, yes, no) => ForwardRelated(R, W, P, Q, yes); ForwardRelated(R, W, P, Q, no);
      case Switch(_, _, _, body) => ForwardRelated(R, W, P, Q, body);
      case While(_, _, body) => ForwardRelated(R, W, P, Q, body);
      case Do(_, body, _) => ForwardRelated(R, W, P, Q, body);
      case For(_, _, _, _, body) => ForwardRelated(R, W, P, Q, body);
      case _ =>
    }
    forall v, w, a, b | CellsRelated(R, W, a, b) && R(v, w)
      ensures Related(R, W, Forward(P, s, v, a), Forward(Q, s, w, b))
    {
      ForwardOnceRelated(R, W, P, Q, s, v, w, a, b);
    }
  }

  // A pass over s keeps states and values related.
  ghost predicate BackwardAlike(R: Relation, W: Scope, P: Problem, Q: Problem, s: Stmt) {
    forall v, w, a, b {:trigger Backward(P, s, v, a), Backward(Q, s, w, b)} ::
      CellsRelated(R, W, a, b) && R(v, w) ==> Related(R, W, Backward(P, s, v, a), Backward(Q, s, w, b))
  }

  lemma BackwardSwitchRelated(R: Relation, W: Scope, P: Problem, Q: Problem, s: Stmt, v: FlowValue, w: FlowValue, a: State, b: State)
    requires s.Switch? && InScope(W, P.proc, s) && Respected(R, P, Q) && CellsRelated(R, W, a, b) && R(v, w)
    requires BackwardAlike(R, W, P, Q, s.body)
    ensures Related(R, W, BackwardSwitch(P, s, v, a), BackwardSwitch(Q, s, w, b))
  {
    hide SetUnion;
    hide SetEqual;
    hide Get;
    hide Undefine;
    hide FlowInto;
    hide InScope;
    hide CellsWritten;
    PartsInScope(W, P.proc, s);
    FlowIntoRelatedAll(R, W, P, Q);
    BackwardExprRelated(R, P, Q, s.subject);
  }

  lemma BackwardWhileRelated(R: Relation, W: Scope, P: Problem, Q: Problem, s: Stmt, v: FlowValue, w: FlowValue, a: State, b: State)
    requires s.While? && InScope(W, P.proc, s) && Respected(R, P, Q) && CellsRelated(R, W, a, b) && R(v, w)
    requires BackwardAlike(R, W, P, Q, s.body)
    ensures Related(R, W, BackwardWhile(P, s, v, a), BackwardWhile(Q, s, w, b))
  {
    hide SetUnion;
    hide SetEqual;
    hide Get;
    hide Undefine;
    hide FlowInto;
    hide InScope;
    hide CellsWritten;
    PartsInScope(W, P.proc, s);
    FlowIntoRelatedAll(R, W, P, Q);
    BackwardExprRelated(R, P, Q, s.test);
  }

  lemma BackwardDoRelated(R: Relation, W: Scope, P: Problem, Q: Problem, s: Stmt, v: FlowValue, w: FlowValue, a: State, b: State)
    requires s.Do? && InScope(W, P.proc, s) && Respected(R, P, Q) && CellsRelated(R, W, a, b) && R(v, w)
    requires BackwardAlike(R, W, P, Q, s.body)
    ensures Related(R, W, BackwardDo(P, s, v, a), BackwardDo(Q, s, w, b))
  {
    hide SetUnion;
    hide SetEqual;
    hide Get;
    hide Undefine;
    hide FlowInto;
    hide InScope;
    hide CellsWritten;
    PartsInScope(W, P.proc, s);
    FlowIntoRelatedAll(R, W, P, Q);
    BackwardExprRelated(R, P, Q, s.test);
  }

  lemma BackwardForRelated(R: Relation, W: Scope, P: Problem, Q: Problem, s: Stmt, v: FlowValue, w: FlowValue, a: State, b: State)
    requires s.For? && InScope(W, P.proc, s) && Respected(R, P, Q) && CellsRelated(R, W, a, b) && R(v, w)
    requires BackwardAlike(R, W, P, Q, s.body)
    ensures Related(R, W, BackwardFor(P, s, v, a), BackwardFor(Q, s, w, b))
  {
    hide SetUnion;
    hide SetEqual;
    hide Get;
    hide Undefine;
    hide FlowInto;
    hide InScope;
    hide CellsWritten;
    PartsInScope(W, P.proc, s);
    FlowIntoRelatedAll(R, W, P, Q);
    BackwardOptRelated(R, P, Q, s.start);
    BackwardOptRelated(R, P, Q, s.guard);
    BackwardOptRelated(R, P, Q, s.next);
  }

  lemma BackwardLeafRelated(R: Relation, W: Scope, P: Problem, Q: Problem, s: Stmt, v: FlowValue, w: FlowValue, a: State, b: State)
    requires InScope(W, P.proc, s) && Respected(R, P, Q) && CellsRelated(R, W, a, b) && R(v, w)
    requires !s.Then? && !s.Block? && !s.If? && !s.Switch? && !s.While? && !s.Do? && !s.For?
    ensures Related(R, W, Backward(P, s, v, a), Backward(Q, s, w, b))
  {
    hide SetUnion;
    hide SetEqual;
    hide Get;
    hide Undefine;
    hide FlowInto;
    hide InScope;
    hide CellsWritten;
    PartsInScope(W, P.proc, s);
    FlowIntoRelatedAll(R, W, P, Q);
    match s
    case Eval(e) => BackwardExprRelated(R, P, Q, e);
    case Decl(_, init) => BackwardOptRelated(R, P, Q, init);
    case Return(_, result) => BackwardOptRelated(R, P, Q, result);
    case Spawn(_, receiver, _, callee, args) =>
      BackwardOptRelated(R, P, Q, receiver);
      BackwardExprRelated(R, P, Q, callee);
      BackwardExprsRelated(R, P, Q, args);
    case _ =>
  }

  lemma BackwardThenRelated(R: Relation, W: Scope, P: Problem, Q: Problem, s: Stmt, v: FlowValue, w: FlowValue, a: State, b: State)
    requires s.Then? && CellsRelated(R, W, a, b) && R(v, w)
    requires BackwardAlike(R, W, P, Q, s.first) && BackwardAlike(R, W, P, Q, s.rest)
    ensures Related(R, W, Backward(P, s, v, a), Backward(Q, s, w, b))
  {
    hide CellsRelated;
    var (x, y) := (Backward(P, s.rest, v, a), Backward(Q, s.rest, w, b));
    assert Related(R, W, x, y);
    assert Related(R, W, Backward(P, s.first, x.1, x.0), Backward(Q, s.first, y.1, y.0));
  }

  lemma BackwardBlockRelated(R: Relation, W: Scope, P: Problem, Q: Problem, s: Stmt, v: FlowValue, w: FlowValue, a: State, b: State)
    requires s.Block? && Respected(R, P, Q) && CellsRelated(R, W, a, b) && R(v, w) && BackwardAlike(R, W, P, Q, s.items)
    ensures Related(R, W, Backward(P, s, v, a), Backward(Q, s, w, b))
  {
    hide SetUnion;
    hide SetEqual;
    hide Get;
    var (c, d) := (RecordAt(a, StmtNode(s), ExitPoint, v), RecordAt(b, StmtNode(s), ExitPoint, w));
    var (e, f) := (LeaveStmt(P, s, v), LeaveStmt(Q, s, w));
    assert Related(R, W, Backward(P, s.items, e, c), Backward(Q, s.items, f, d));
  }

  lemma BackwardIfRelated(R: Relation, W: Scope, P: Problem, Q: Problem, s: Stmt, v: FlowValue, w: FlowValue, a: State, b: State)
    requires s.If? && Respected(R, P, Q) && CellsRelated(R, W, a, b) && R(v, w)
    requires BackwardAlike(R, W, P, Q, s.yes) && BackwardAlike(R, W, P, Q, s.no)
    ensures Related(R, W, Backward(P, s, v, a), Backward(Q, s, w, b))
  {
    hide SetUnion;
    hide SetEqual;
    hide Get;
    BackwardExprRelated(R, P, Q, s.test);
    var (c, d) := (RecordAt(a, StmtNode(s), ExitPoint, v), RecordAt(b, StmtNode(s), ExitPoint, w));
    var (e, f) := (LeaveStmt(P, s, v), LeaveStmt(Q, s, w));
    var (x, y) := (Backward(P, s.yes, e, c), Backward(Q, s.yes, f, d));
    assert Related(R, W, x, y);
    assert Related(R, W, Backward(P, s.no, e, x.0), Backward(Q, s.no, f, y.0));
  }

  lemma BackwardOnceRelated(R: Relation, W: Scope, P: Problem, Q: Problem, s: Stmt, v: FlowValue, w: FlowValue, a: State, b: State)
    requires InScope(W, P.proc, s) && Respected(R, P, Q) && CellsRelated(R, W, a, b) && R(v, w)
    requires s.Then? ==> BackwardAlike(R, W, P, Q, s.first) && BackwardAlike(R, W, P, Q, s.rest)
    requires s.Block? ==> BackwardAlike(R, W, P, Q, s.items)
    requires s.If? ==> BackwardAlike(R, W, P, Q, s.yes) && BackwardAlike(R, W, P, Q, s.no)
    requires s.Switch? || s.While? || s.Do? || s.For? ==> BackwardAlike(R, W, P, Q, s.body)
    ensures Related(R, W, Backward(P, s, v, a), Backward(Q, s, w, b))
  {
    hide BackwardAlike;
    hide Respected;
    hide InScope;
    hide BackwardSwitch;
    hide BackwardWhile;
    hide BackwardDo;
    hide BackwardFor;
    var (c, d) := (RecordAt(a, StmtNode(s), ExitPoint, v), RecordAt(b, StmtNode(s), ExitPoint, w));
    if s.Then? {
      BackwardThenRelated(R, W, P, Q, s, v, w, a, b);
    } else if s.Block? {
      BackwardBlockRelated(R, W, P, Q, s, v, w, a, b);
    } else if s.If? {
      BackwardIfRelated(R, W, P, Q, s, v, w, a, b);
    } else if s.Switch? {
      BackwardSwitchRelated(R, W, P, Q, s, v, w, c, d);
    } else if s.While? {
      BackwardWhileRelated(R, W, P, Q, s, v, w, c, d);
    } else if s.Do? {
      BackwardDoRelated(R, W, P, Q, s, v, w, c, d);
    } else if s.For? {
      BackwardForRelated(R, W, P, Q, s, v, w, c, d);
    } else {
      BackwardLeafRelated(R, W, P, Q, s, v, w, a, b);
    }
  }

  lemma {:induction false} BackwardRelated(R: Relation, W: Scope, P: Problem, Q: Problem, s: Stmt)
    requires InScope(W, P.proc, s) && Respected(R, P, Q)
    ensures BackwardAlike(R, W, P, Q, s)
  {
    hide Respected;
    hide InScope;
    hide CellsRelated;
    PartsInScope(W, P.proc, s);
    match s {
      case Then(first, rest) => BackwardRelated(R, W, P, Q, first); BackwardRelated(R, W, P, Q, rest);
      case Block(_, items) => BackwardRelated(R, W, P, Q, items);
      case If(_, _, yes, no) => BackwardRelated(R, W, P, Q, yes); BackwardRelated(R, W, P, Q, no);
      case Switch(_, _, _, body) => BackwardRelated(R, W, P, Q, body);
      case While(_, _, body) => BackwardRelated(R, W, P, Q, body);
      case Do(_, body, _) => BackwardRelated(R, W, P, Q, body);
      case For(_, _, _, _, body) => BackwardRelated(R, W, P, Q, body);
      case _ =>
    }
    forall v, w, a, b | CellsRelated(R, W, a, b) && R(v, w)
      ensures Related(R, W, Backward(P, s, v, a), Backward(Q, s, w, b))
    {
      BackwardOnceRelated(R, W, P, Q, s, v, w, a, b);
    }
  }

  lemma ForwardProcRelated(R: Relation, W: Scope, P: Problem, Q: Problem, p: Proc, a: State, b: State)
    requires InScope(W, P.proc, p.body) && Cell(p.id, ReturnValues) in W && Respected(R, P, Q) && CellsRelated(R, W, a, b)
    ensures CellsRelated(R, W, ForwardProc(P, p, a), ForwardProc(Q, p, b))
  {
    var (c, d) := (RecordAt(a, ProcNode(p), EntryPoint, P.init), RecordAt(b, ProcNode(p), EntryPoint, Q.init));
    var (v, w) := (P.trans(ProcNode(p), EntryPoint, P.init), Q.trans(ProcNode(p), EntryPoint, Q.init));
    ForwardRelated(R, W, P, Q, p.body);
    var (x, y) := (Forward(P, p.body, v, c), Forward(Q, p.body, w, d));
    assert Related(R, W, x, y);
    FlowIntoRelated(R, W, P, Q, x.0, y.0, Cell(p.id, ReturnValues), x.1, y.1);
  }

  lemma BackwardProcRelated(R: Relation, W: Scope, P: Problem, Q: Problem, p: Proc, a: State, b: State)
    requires InScope(W, P.proc, p.body) && Cell(p.id, ReturnValues) in W && Respected(R, P, Q) && CellsRelated(R, W, a, b)
    ensures CellsRelated(R, W, BackwardProc(P, p, a), BackwardProc(Q, p, b))
  {
    var (c, d) := (RecordAt(a, ProcNode(p), ExitPoint, P.init), RecordAt(b, ProcNode(p), ExitPoint, Q.init));
    var (v, w) := (P.trans(ProcNode(p), ExitPoint, P.init), Q.trans(ProcNode(p), ExitPoint, Q.init));
    BackwardRelated(R, W, P, Q, p.body);
    var (x, y) := (Backward(P, p.body, v, c), Backward(Q, p.body, w, d));
    assert Related(R, W, x, y);
    FlowIntoRelated(R, W, P, Q, x.0, y.0, Cell(p.id, ReturnValues), x.1, y.1);
  }
}
