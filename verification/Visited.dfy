/**
 What a forward pass shows the client: no exit but those of the tree it walks, and a
 defined value wherever the operands of a statement have been evaluated.
 */
module Visited {
  import opened Ast
  import opened FlowValues
  import opened Flow
  import opened Walks

  type VisitProperty = Visit -> bool

  // At the exit of s, an expression has just been evaluated.
  predicate HasOperands(s: Stmt) {
    s.Spawn? || (s.Return? && s.result.TheExpr?) || (s.Decl? && s.init.TheExpr?)
  }

  // The client gives every expression a defined value.
  ghost predicate DefinesExpressions(P: Problem) {
    forall e, v {:trigger ForwardExpr(P, e, v)} :: !ForwardExpr(P, e, v).undefined
  }

  // Z allows every visit to s; with `strict`, it may count on defined values after operands.
  ghost predicate AllowsOwn(Z: VisitProperty, strict: bool, s: Stmt) {
    HasId(s) ==> forall pt, v: FlowValue {:trigger Visit(s.id, pt, v)} ::
      (strict && HasOperands(s) && pt == ExitPoint ==> !v.undefined) ==> Z(Visit(s.id, pt, v))
  }

  ghost predicate Allows(Z: VisitProperty, strict: bool, s: Stmt) {
    AllowsOwn(Z, strict, s) &&
    match s
    case Then(first, rest) => Allows(Z, strict, first) && Allows(Z, strict, rest)
    case Block(_, items) => Allows(Z, strict, items)
    case If(_, _, yes, no) => Allows(Z, strict, yes) && Allows(Z, strict, no)
    case Switch(_, _, _, body) => Allows(Z, strict, body)
    case While(_, _, body) => Allows(Z, strict, body)
    case Do(_, body, _) => Allows(Z, strict, body)
    case For(_, _, _, _, body) => Allows(Z, strict, body)
    case _ => true
  }

  ghost predicate Within(Z: VisitProperty, st: State) {
    forall x {:trigger x in st.visits} :: x in st.visits ==> Z(x)
  }

  lemma FlowWithin(Z: VisitProperty)
    ensures forall st, c, v {:trigger FlowInto(st, c, v)} :: Within(Z, st) ==> Within(Z, FlowInto(st, c, v).0)
    ensures forall st, n, p, v {:trigger RecordAt(st, n, p, v)} ::
              Within(Z, st) && Z(Visit(NodeId(n), p, v)) ==> Within(Z, RecordAt(st, n, p, v))
  {
  }

  ghost predicate StaysWithin(Z: VisitProperty, P: Problem, s: Stmt) {
    forall v, st {:trigger Forward(P, s, v, st)} :: Within(Z, st) ==> Within(Z, Forward(P, s, v, st).0)
  }

  lemma SwitchWithin(Z: VisitProperty, strict: bool, P: Problem, s: Stmt, v: FlowValue, st: State)
    requires s.Switch? && AllowsOwn(Z, strict, s) && StaysWithin(Z, P, s.body) && Within(Z, st)
    ensures Within(Z, ForwardSwitch(P, s, v, st).0)
  {
    hide Within;
    FlowWithin(Z);
  }

  lemma WhileWithin(Z: VisitProperty, strict: bool, P: Problem, s: Stmt, v: FlowValue, st: State)
    requires s.While? && AllowsOwn(Z, strict, s) && StaysWithin(Z, P, s.body) && Within(Z, st)
    ensures Within(Z, ForwardWhile(P, s, v, st).0)
  {
    hide Within;
    FlowWithin(Z);
  }

  lemma DoWithin(Z: VisitProperty, strict: bool, P: Problem, s: Stmt, v: FlowValue, st: State)
    requires s.Do? && AllowsOwn(Z, strict, s) && StaysWithin(Z, P, s.body) && Within(Z, st)
    ensures Within(Z, ForwardDo(P, s, v, st).0)
  {
    hide Within;
    FlowWithin(Z);
  }

  lemma ForWithin(Z: VisitProperty, strict: bool, P: Problem, s: Stmt, v: FlowValue, st: State)
    requires s.For? && AllowsOwn(Z, strict, s) && StaysWithin(Z, P, s.body) && Within(Z, st)
    ensures Within(Z, ForwardFor(P, s, v, st).0)
  {
    hide Within;
    FlowWithin(Z);
  }

  lemma {:induction false} ExprsDefined(P: Problem, es: Exprs, v: FlowValue)
    requires DefinesExpressions(P) && !v.undefined
    ensures !ForwardExprs(P, es, v).undefined
  {
    if es.MoreExprs? { ExprsDefined(P, es.tail, ForwardExpr(P, es.head, v)); }
  }

  lemma LeafWithin(Z: VisitProperty, strict: bool, P: Problem, s: Stmt, v: FlowValue, st: State)
    requires Within(Z, st) && AllowsOwn(Z, strict, s) && (strict ==> DefinesExpressions(P))
    requires s.Null? || s.Eval? || s.Decl? || s.Label? || s.Goto? || s.Break? || s.Continue? || s.Return?
             || s.Case? || s.Default? || s.Spawn? || s.Sync?
    ensures Within(Z, Forward(P, s, v, st).0)
  {
    hide Within;
    FlowWithin(Z);
    if s.Spawn? && strict {
      ExprsDefined(P, s.args, ForwardExpr(P, s.callee, ForwardOpt(P, s.receiver, EnterStmt(P, s, v))));
    }
  }

  lemma GroupWithin(Z: VisitProperty, strict: bool, P: Problem, s: Stmt, v: FlowValue, st: State)
    requires Within(Z, st) && AllowsOwn(Z, strict, s)
    requires match s
      case Then(first, rest) => StaysWithin(Z, P, first) && StaysWithin(Z, P, rest)
      case Block(_, items) => StaysWithin(Z, P, items)
      case If(_, _, yes, no) => StaysWithin(Z, P, yes) && StaysWithin(Z, P, no)
      case _ => false
    ensures Within(Z, Forward(P, s, v, st).0)
  {
    hide Within;
    FlowWithin(Z);
  }

  lemma LoopOrSwitchWithin(Z: VisitProperty, strict: bool, P: Problem, s: Stmt, v: FlowValue, st: State)
    requires Within(Z, st) && (s.Switch? || s.While? || s.Do? || s.For?) && AllowsOwn(Z, strict, s) && StaysWithin(Z, P, s.body)
    ensures Within(Z, Forward(P, s, v, st).0)
  {
    hide Within;
    hide ForwardSwitch;
    hide ForwardWhile;
    hide ForwardDo;
    hide ForwardFor;
    FlowWithin(Z);
    var a := RecordAt(st, StmtNode(s), EntryPoint, v);
    match s
    case Switch(_, _, _, _) => SwitchWithin(Z, strict, P, s, v, a);
    case While(_, _, _) => WhileWithin(Z, strict, P, s, v, a);
    case Do(_, _, _) => DoWithin(Z, strict, P, s, v, a);
    case For(_, _, _, _, _) => ForWithin(Z, strict, P, s, v, a);
  }

  /** Every visit of a forward pass is allowed. */
  lemma {:induction false} ForwardWithin(Z: VisitProperty, strict: bool, P: Problem, s: Stmt)
    requires Allows(Z, strict, s) && (strict ==> DefinesExpressions(P))
    ensures StaysWithin(Z, P, s)
  {
    hide Within;
    hide AllowsOwn;
    match s {
      case Then(first, rest) => ForwardWithin(Z, strict, P, first); ForwardWithin(Z, strict, P, rest);
      case Block(_, items) => ForwardWithin(Z, strict, P, items);
      case If(_, _, yes, no) => ForwardWithin(Z, strict, P, yes); ForwardWithin(Z, strict, P, no);
      case Switch(_, _, _, body) => ForwardWithin(Z, strict, P, body);
      case While(_, _, body) => ForwardWithin(Z, strict, P, body);
      case Do(_, body, _) => ForwardWithin(Z, strict, P, body);
      case For(_, _, _, _, body) => ForwardWithin(Z, strict, P, body);
      case _ =>
    }
    forall v, st | Within(Z, st) ensures Within(Z, Forward(P, s, v, st).0) {
      match s
      case Then(_, _) => GroupWithin(Z, strict, P, s, v, st);
      case Block(_, _) => GroupWithin(Z, strict, P, s, v, st);
      case If(_, _, _, _) => GroupWithin(Z, strict, P, s, v, st);
      case Switch(_, _, _, _) => LoopOrSwitchWithin(Z, strict, P, s, v, st);
      case While(_, _, _) => LoopOrSwitchWithin(Z, strict, P, s, v, st);
      case Do(_, _, _) => LoopOrSwitchWithin(Z, strict, P, s, v, st);
      case For(_, _, _, _, _) => LoopOrSwitchWithin(Z, strict, P, s, v, st);
      case _ => LeafWithin(Z, strict, P, s, v, st);
    }
  }

  lemma {:induction false} NodesAllowed(Z: VisitProperty, s: Stmt)
    requires forall x: Visit :: x.node in StmtIds(s) ==> Z(x)
    ensures Allows(Z, false, s)
  {
    hide ExprIds;
    match s
    case Then(first, rest) => NodesAllowed(Z, first); NodesAllowed(Z, rest);
    case Block(_, items) => NodesAllowed(Z, items);
    case If(_, _, yes, no) => NodesAllowed(Z, yes); NodesAllowed(Z, no);
    case Switch(_, _, _, body) => NodesAllowed(Z, body);
    case While(_, _, body) => NodesAllowed(Z, body);
    case Do(_, body, _) => NodesAllowed(Z, body);
    case For(_, _, _, _, body) => NodesAllowed(Z, body);
    case _ =>
  }

  // A pass over s visits only nodes of s.
  lemma VisitsInside(P: Problem, s: Stmt, v: FlowValue, st: State)
    ensures forall x :: x in Forward(P, s, v, st).0.visits ==> x in st.visits || x.node in StmtIds(s)
  {
    var Z := (x: Visit) => x in st.visits || x.node in StmtIds(s);
    NodesAllowed(Z, s);
    ForwardWithin(Z, false, P, s);
    assert Within(Z, st);
    assert Within(Z, Forward(P, s, v, st).0);
  }

  // ---------- Two properties ----------

  ghost function ExitsOf(ids: set<nat>): VisitProperty {
    (x: Visit) => x.point == ExitPoint ==> x.node in ids
  }

  lemma {:induction false} ExitsAllowed(ids: set<nat>, s: Stmt)
    requires StmtIds(s) <= ids
    ensures Allows(ExitsOf(ids), false, s)
  {
    hide ExprIds;
    match s
    case Then(first, rest) => ExitsAllowed(ids, first); ExitsAllowed(ids, rest);
    case Block(_, items) => ExitsAllowed(ids, items);
    case If(_, _, yes, no) => ExitsAllowed(ids, yes); ExitsAllowed(ids, no);
    case Switch(_, _, _, body) => ExitsAllowed(ids, body);
    case While(_, _, body) => ExitsAllowed(ids, body);
    case Do(_, body, _) => ExitsAllowed(ids, body);
    case For(_, _, _, _, body) => ExitsAllowed(ids, body);
    case _ =>
  }

  // The value shown at the exit of node n is defined.
  ghost function DefinedAt(n: nat): VisitProperty {
    (x: Visit) => x.point == ExitPoint && x.node == n ==> !x.value.undefined
  }

  // Node n is a statement with operands, or none of s.
  ghost predicate OnlyWithOperands(s: Stmt, n: nat) {
    (HasId(s) && s.id == n ==> HasOperands(s)) &&
    match s
    case Then(first, rest) => OnlyWithOperands(first, n) && OnlyWithOperands(rest, n)
    case Block(_, items) => OnlyWithOperands(items, n)
    case If(_, _, yes, no) => OnlyWithOperands(yes, n) && OnlyWithOperands(no, n)
    case Switch(_, _, _, body) => OnlyWithOperands(body, n)
    case While(_, _, body) => OnlyWithOperands(body, n)
    case Do(_, body, _) => OnlyWithOperands(body, n)
    case For(_, _, _, _, body) => OnlyWithOperands(body, n)
    case _ => true
  }

  lemma {:induction false} DefinedAllowed(n: nat, s: Stmt)
    requires OnlyWithOperands(s, n)
    ensures Allows(DefinedAt(n), true, s)
  {
    match s
    case Then(first, rest) => DefinedAllowed(n, first); DefinedAllowed(n, rest);
    case Block(_, items) => DefinedAllowed(n, items);
    case If(_, _, yes, no) => DefinedAllowed(n, yes); DefinedAllowed(n, no);
    case Switch(_, _, _, body) => DefinedAllowed(n, body);
    case While(_, _, body) => DefinedAllowed(n, body);
    case Do(_, body, _) => DefinedAllowed(n, body);
    case For(_, _, _, _, body) => DefinedAllowed(n, body);
    case _ =>
  }
}
