/**
 Two forward passes over one tree show a client related values: the visits of the one
 correspond to the visits of the other.
 */
module PairedVisits {
  import opened Ast
  import opened FlowValues
  import opened Flow
  import opened TwoRuns
  import opened Walks
  import opened Visited

  // What the passes show at the exit of node n is related.
  ghost predicate PairedAt(R: Relation, n: nat, a: State, b: State) {
    forall v, w :: Visit(n, ExitPoint, v) in a.visits && Visit(n, ExitPoint, w) in b.visits ==> R(v, w)
  }

  ghost predicate Unseen(n: nat, a: State) {
    forall x: Visit :: x in a.visits ==> x.node != n
  }

  // A pass over s shows node n of s once.
  ghost predicate Pairs(R: Relation, W: Scope, P: Problem, Q: Problem, n: nat, s: Stmt) {
    forall v, w, a, b {:trigger Forward(P, s, v, a), Forward(Q, s, w, b)} ::
      CellsRelated(R, W, a, b) && R(v, w) && Unseen(n, a) && Unseen(n, b) ==>
        PairedAt(R, n, Forward(P, s, v, a).0, Forward(Q, s, w, b).0)
  }

  lemma UnseenPairs(R: Relation, n: nat, a: State, b: State)
    requires Unseen(n, a)
    ensures PairedAt(R, n, a, b)
  {
  }

  lemma Elsewhere(P: Problem, n: nat, s: Stmt, v: FlowValue, st: State)
    requires n !in StmtIds(s)
    ensures forall x: Visit :: x.node == n ==> (x in Forward(P, s, v, st).0.visits <==> x in st.visits)
  {
    VisitsInside(P, s, v, st);
  }

  lemma FlowShowsNothing()
    ensures forall st, c, v {:trigger FlowInto(st, c, v)} :: FlowInto(st, c, v).0.visits == st.visits
  {
  }

  // A visit elsewhere does not matter.
  lemma RecordElsewhere(n: nat)
    ensures forall st, m, p, v {:trigger RecordAt(st, m, p, v)} :: NodeId(m) != n && Unseen(n, st) ==> Unseen(n, RecordAt(st, m, p, v))
    ensures forall R, a, b, m, l, p, q, v, w {:trigger PairedAt(R, n, RecordAt(a, m, p, v), RecordAt(b, l, q, w))} ::
      NodeId(m) != n && NodeId(l) != n && PairedAt(R, n, a, b) ==> PairedAt(R, n, RecordAt(a, m, p, v), RecordAt(b, l, q, w))
    ensures forall st, c, v {:trigger FlowInto(st, c, v)} :: Unseen(n, st) ==> Unseen(n, FlowInto(st, c, v).0)
    ensures forall R, a, b, c, d, v, w {:trigger PairedAt(R, n, FlowInto(a, c, v).0, FlowInto(b, d, w).0)} ::
      PairedAt(R, n, a, b) ==> PairedAt(R, n, FlowInto(a, c, v).0, FlowInto(b, d, w).0)
  {
  }

  lemma SwitchPairs(R: Relation, W: Scope, P: Problem, Q: Problem, n: nat, s: Stmt, v: FlowValue, w: FlowValue, a: State, b: State)
    requires s.Switch? && s.id != n && InScope(W, P.proc, s) && Respected(R, P, Q) && CellsRelated(R, W, a, b) && R(v, w)
    requires Pairs(R, W, P, Q, n, s.body) && Unseen(n, a) && Unseen(n, b)
    ensures PairedAt(R, n, ForwardSwitch(P, s, v, a).0, ForwardSwitch(Q, s, w, b).0)
  {
    hide SetUnion;
    hide SetEqual;
    hide Get;
    hide Undefine;
    hide FlowInto;
    hide InScope;
    hide CellsWritten;
    hide RecordAt;
    hide PairedAt;
    hide Unseen;
    PartsInScope(W, P.proc, s);
    FlowIntoRelatedAll(R, W, P, Q);
    ForwardExprRelated(R, P, Q, s.subject);
    RecordElsewhere(n);
  }

  lemma WhilePairs(R: Relation, W: Scope, P: Problem, Q: Problem, n: nat, s: Stmt, v: FlowValue, w: FlowValue, a: State, b: State)
    requires s.While? && s.id != n && InScope(W, P.proc, s) && Respected(R, P, Q) && CellsRelated(R, W, a, b) && R(v, w)
    requires Pairs(R, W, P, Q, n, s.body) && Unseen(n, a) && Unseen(n, b)
    ensures PairedAt(R, n, ForwardWhile(P, s, v, a).0, ForwardWhile(Q, s, w, b).0)
  {
    hide SetUnion;
    hide SetEqual;
    hide Get;
    hide Undefine;
    hide FlowInto;
    hide InScope;
    hide CellsWritten;
    hide RecordAt;
    hide PairedAt;
    hide Unseen;
    PartsInScope(W, P.proc, s);
    FlowIntoRelatedAll(R, W, P, Q);
    ForwardExprRelated(R, P, Q, s.test);
    RecordElsewhere(n);
  }

  lemma DoPairs(R: Relation, W: Scope, P: Problem, Q: Problem, n: nat, s: Stmt, v: FlowValue, w: FlowValue, a: State, b: State)
    requires s.Do? && s.id != n && InScope(W, P.proc, s) && Respected(R, P, Q) && CellsRelated(R, W, a, b) && R(v, w)
    requires Pairs(R, W, P, Q, n, s.body) && Unseen(n, a) && Unseen(n, b)
    ensures PairedAt(R, n, ForwardDo(P, s, v, a).0, ForwardDo(Q, s, w, b).0)
  {
    hide SetUnion;
    hide SetEqual;
    hide Get;
    hide Undefine;
    hide FlowInto;
    hide InScope;
    hide CellsWritten;
    hide RecordAt;
    hide PairedAt;
    hide Unseen;
    PartsInScope(W, P.proc, s);
    FlowIntoRelatedAll(R, W, P, Q);
    ForwardExprRelated(R, P, Q, s.test);
    RecordElsewhere(n);
  }

  lemma ForPairs(R: Relation, W: Scope, P: Problem, Q: Problem, n: nat, s: Stmt, v: FlowValue, w: FlowValue, a: State, b: State)
    requires s.For? && s.id != n && InScope(W, P.proc, s) && Respected(R, P, Q) && CellsRelated(R, W, a, b) && R(v, w)
    requires Pairs(R, W, P, Q, n, s.body) && Unseen(n, a) && Unseen(n, b)
    ensures PairedAt(R, n, ForwardFor(P, s, v, a).0, ForwardFor(Q, s, w, b).0)
  {
    hide SetUnion;
    hide SetEqual;
    hide Get;
    hide Undefine;
    hide FlowInto;
    hide InScope;
    hide CellsWritten;
    hide RecordAt;
    hide PairedAt;
    hide Unseen;
    PartsInScope(W, P.proc, s);
    FlowIntoRelatedAll(R, W, P, Q);
    ForwardOptRelated(R, P, Q, s.start);
    ForwardOptRelated(R, P, Q, s.guard);
    ForwardOptRelated(R, P, Q, s.next);
    RecordElsewhere(n);
  }

  lemma ThenPairs(R: Relation, W: Scope, P: Problem, Q: Problem, n: nat, s: Stmt, v: FlowValue, w: FlowValue, a: State, b: State)
    requires s.Then? && DistinctStmt(s) && InScope(W, P.proc, s) && Respected(R, P, Q) && CellsRelated(R, W, a, b) && R(v, w)
    requires Pairs(R, W, P, Q, n, s.first) && Pairs(R, W, P, Q, n, s.rest) && Unseen(n, a) && Unseen(n, b)
    ensures PairedAt(R, n, Forward(P, s, v, a).0, Forward(Q, s, w, b).0)
  {
    hide InScope;
    hide CellsRelated;
    hide Respected;
    PartsInScope(W, P.proc, s);
    ForwardRelated(R, W, P, Q, s.first);
    var (x, y) := (Forward(P, s.first, v, a), Forward(Q, s.first, w, b));
    assert Related(R, W, x, y);
    if n in StmtIds(s.first) {
      Elsewhere(P, n, s.rest, x.1, x.0);
      Elsewhere(Q, n, s.rest, y.1, y.0);
    } else {
      Elsewhere(P, n, s.first, v, a);
      Elsewhere(Q, n, s.first, w, b);
    }
  }

  lemma IfPairs(R: Relation, W: Scope, P: Problem, Q: Problem, n: nat, s: Stmt, v: FlowValue, w: FlowValue, a: State, b: State)
    requires s.If? && s.id != n && DistinctStmt(s) && InScope(W, P.proc, s) && Respected(R, P, Q) && CellsRelated(R, W, a, b) && R(v, w)
    requires Pairs(R, W, P, Q, n, s.yes) && Pairs(R, W, P, Q, n, s.no) && Unseen(n, a) && Unseen(n, b)
    ensures PairedAt(R, n, Forward(P, s, v, a).0, Forward(Q, s, w, b).0)
  {
    hide InScope;
    PartsInScope(W, P.proc, s);
    ForwardRelated(R, W, P, Q, s.yes);
    ForwardExprRelated(R, P, Q, s.test);
    var (c, d) := (RecordAt(a, StmtNode(s), EntryPoint, v), RecordAt(b, StmtNode(s), EntryPoint, w));
    var (e, f) := (ForwardExpr(P, s.test, EnterStmt(P, s, v)), ForwardExpr(Q, s.test, EnterStmt(Q, s, w)));
    var (x, y) := (Forward(P, s.yes, e, c), Forward(Q, s.yes, f, d));
    assert Related(R, W, x, y);
    hide Respected;
    hide CellsRelated;
    if n in StmtIds(s.yes) {
      Elsewhere(P, n, s.no, e, x.0);
      Elsewhere(Q, n, s.no, f, y.0);
    } else {
      Elsewhere(P, n, s.yes, e, c);
      Elsewhere(Q, n, s.yes, f, d);
    }
    assert PairedAt(R, n, Forward(P, s.no, e, x.0).0, Forward(Q, s.no, f, y.0).0);
  }

  lemma BlockPairs(R: Relation, W: Scope, P: Problem, Q: Problem, n: nat, s: Stmt, v: FlowValue, w: FlowValue, a: State, b: State)
    requires s.Block? && s.id != n && Respected(R, P, Q) && CellsRelated(R, W, a, b) && R(v, w)
    requires Pairs(R, W, P, Q, n, s.items) && Unseen(n, a) && Unseen(n, b)
    ensures PairedAt(R, n, Forward(P, s, v, a).0, Forward(Q, s, w, b).0)
  {
    var (c, d) := (RecordAt(a, StmtNode(s), EntryPoint, v), RecordAt(b, StmtNode(s), EntryPoint, w));
    var (e, f) := (EnterStmt(P, s, v), EnterStmt(Q, s, w));
    assert PairedAt(R, n, Forward(P, s.items, e, c).0, Forward(Q, s.items, f, d).0);
  }

  // A statement without parts shows what enters it, after its operands.
  lemma LeafPairs(R: Relation, W: Scope, P: Problem, Q: Problem, n: nat, s: Stmt, v: FlowValue, w: FlowValue, a: State, b: State)
    requires !s.Then? && !s.Block? && !s.If? && !s.Switch? && !s.While? && !s.Do? && !s.For?
    requires InScope(W, P.proc, s) && Respected(R, P, Q) && CellsRelated(R, W, a, b) && R(v, w)
    requires Unseen(n, a) && Unseen(n, b)
    ensures PairedAt(R, n, Forward(P, s, v, a).0, Forward(Q, s, w, b).0)
  {
    hide SetUnion;
    hide SetEqual;
    hide Get;
    hide Undefine;
    hide FlowInto;
    hide InScope;
    hide CellsWritten;
    FlowShowsNothing();
    PartsInScope(W, P.proc, s);
    FlowIntoRelatedAll(R, W, P, Q);
    match s
    case Decl(_, init) => ForwardOptRelated(R, P, Q, init);
    case Return(_, result) => ForwardOptRelated(R, P, Q, result);
    case Spawn(_, receiver, _, callee, args) =>
      ForwardOptRelated(R, P, Q, receiver);
      ForwardExprRelated(R, P, Q, callee);
      ForwardExprsRelated(R, P, Q, args);
    case _ =>
  }

  predicate IsLeaf(s: Stmt) {
    !s.Then? && !s.Block? && !s.If? && !s.Switch? && !s.While? && !s.Do? && !s.For?
  }

  // Node n is a statement without parts, or none of s.
  ghost predicate OnlyLeaf(s: Stmt, n: nat) {
    (HasId(s) && s.id == n ==> IsLeaf(s)) &&
    match s
    case Then(first, rest) => OnlyLeaf(first, n) && OnlyLeaf(rest, n)
    case Block(_, items) => OnlyLeaf(items, n)
    case If(_, _, yes, no) => OnlyLeaf(yes, n) && OnlyLeaf(no, n)
    case Switch(_, _, _, body) => OnlyLeaf(body, n)
    case While(_, _, body) => OnlyLeaf(body, n)
    case Do(_, body, _) => OnlyLeaf(body, n)
    case For(_, _, _, _, body) => OnlyLeaf(body, n)
    case _ => true
  }

  lemma PairsOnce(R: Relation, W: Scope, P: Problem, Q: Problem, n: nat, s: Stmt, v: FlowValue, w: FlowValue, a: State, b: State)
    requires OnlyLeaf(s, n) && DistinctStmt(s) && InScope(W, P.proc, s) && Respected(R, P, Q)
    requires CellsRelated(R, W, a, b) && R(v, w) && Unseen(n, a) && Unseen(n, b)
    requires s.Then? ==> Pairs(R, W, P, Q, n, s.first) && Pairs(R, W, P, Q, n, s.rest)
    requires s.Block? ==> Pairs(R, W, P, Q, n, s.items)
    requires s.If? ==> Pairs(R, W, P, Q, n, s.yes) && Pairs(R, W, P, Q, n, s.no)
    requires s.Switch? || s.While? || s.Do? || s.For? ==> Pairs(R, W, P, Q, n, s.body)
    ensures PairedAt(R, n, Forward(P, s, v, a).0, Forward(Q, s, w, b).0)
  {
    hide Pairs;
    hide Respected;
    hide InScope;
    hide ForwardSwitch;
    hide ForwardWhile;
    hide ForwardDo;
    hide ForwardFor;
    hide StmtIds;
    hide DistinctStmt;
    if IsLeaf(s) {
      LeafPairs(R, W, P, Q, n, s, v, w, a, b);
    } else if s.Then? {
      ThenPairs(R, W, P, Q, n, s, v, w, a, b);
    } else if s.Block? {
      BlockPairs(R, W, P, Q, n, s, v, w, a, b);
    } else if s.If? {
      IfPairs(R, W, P, Q, n, s, v, w, a, b);
    } else {
      var (c, d) := (RecordAt(a, StmtNode(s), EntryPoint, v), RecordAt(b, StmtNode(s), EntryPoint, w));
      if s.Switch? {
        SwitchPairs(R, W, P, Q, n, s, v, w, c, d);
      } else if s.While? {
        WhilePairs(R, W, P, Q, n, s, v, w, c, d);
      } else if s.Do? {
        DoPairs(R, W, P, Q, n, s, v, w, c, d);
      } else {
        ForPairs(R, W, P, Q, n, s, v, w, c, d);
      }
    }
  }

  /** Clients that correspond are shown corresponding values at every statement without parts. */
  lemma {:induction false} ForwardPairs(R: Relation, W: Scope, P: Problem, Q: Problem, n: nat, s: Stmt)
    requires OnlyLeaf(s, n) && DistinctStmt(s) && InScope(W, P.proc, s) && Respected(R, P, Q)
    ensures Pairs(R, W, P, Q, n, s)
  {
    hide Respected;
    hide InScope;
    hide CellsRelated;
    hide Unseen;
    hide PairedAt;
    PartsInScope(W, P.proc, s);
    match s {
      case Then(first, rest) => ForwardPairs(R, W, P, Q, n, first); ForwardPairs(R, W, P, Q, n, rest);
      case Block(_, items) => ForwardPairs(R, W, P, Q, n, items);
      case If(_, _, yes, no) => ForwardPairs(R, W, P, Q, n, yes); ForwardPairs(R, W, P, Q, n, no);
      case Switch(_, _, _, body) => ForwardPairs(R, W, P, Q, n, body);
      case While(_, _, body) => ForwardPairs(R, W, P, Q, n, body);
      case Do(_, body, _) => ForwardPairs(R, W, P, Q, n, body);
      case For(_, _, _, _, body) => ForwardPairs(R, W, P, Q, n, body);
      case _ =>
    }
    forall v, w, a, b | CellsRelated(R, W, a, b) && R(v, w) && Unseen(n, a) && Unseen(n, b)
      ensures PairedAt(R, n, Forward(P, s, v, a).0, Forward(Q, s, w, b).0)
    {
      PairsOnce(R, W, P, Q, n, s, v, w, a, b);
    }
  }
}
