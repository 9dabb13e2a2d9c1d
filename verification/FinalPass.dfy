/**
 What the final pass may differ in: a pass computes the same cells and values whether or
 not it is the final one, and whatever has been shown to the client before.
 */
module FinalPass {
  import opened Ast
  import opened FlowValues
  import opened Flow

  // The same but for what is shown to the client.
  ghost predicate Alike(a: State, b: State) {
    a.cells == b.cells && a.changed == b.changed
  }

  ghost predicate SameEnd(x: (State, FlowValue), y: (State, FlowValue)) {
    Alike(x.0, y.0) && x.1 == y.1
  }

  lemma FlowAlike()
    ensures forall a, b, c, v {:trigger FlowInto(a, c, v), FlowInto(b, c, v)} :: Alike(a, b) ==> SameEnd(FlowInto(a, c, v), FlowInto(b, c, v))
    ensures forall a, n, p, v {:trigger RecordAt(a, n, p, v)} :: Alike(RecordAt(a, n, p, v), a)
    ensures forall a, n, p, v {:trigger RecordAt(a, n, p, v)} :: RecordAt(a, n, p, v).cells == a.cells
  {
  }

  // ---------- Forwards ----------

  ghost predicate ForwardAlike(P: Problem, s: Stmt) {
    forall v, a, b {:trigger Forward(P, s, v, a), Forward(P, s, v, b)} :: Alike(a, b) ==> SameEnd(Forward(P, s, v, a), Forward(P, s, v, b))
  }

  lemma ForwardContainerAlike(P: Problem, s: Stmt, v: FlowValue, a: State, b: State)
    requires (s.Switch? || s.While? || s.Do? || s.For?) && ForwardAlike(P, s.body) && Alike(a, b)
    ensures s.Switch? ==> SameEnd(ForwardSwitch(P, s, v, a), ForwardSwitch(P, s, v, b))
    ensures s.While? ==> SameEnd(ForwardWhile(P, s, v, a), ForwardWhile(P, s, v, b))
    ensures s.Do? ==> SameEnd(ForwardDo(P, s, v, a), ForwardDo(P, s, v, b))
    ensures s.For? ==> SameEnd(ForwardFor(P, s, v, a), ForwardFor(P, s, v, b))
  {
    hide ForwardExpr;
    hide FlowInto;
    hide RecordAt;
    FlowAlike();
  }

  lemma ForwardOnceAlike(P: Problem, s: Stmt, v: FlowValue, a: State, b: State)
    requires Alike(a, b)
    requires s.Then? ==> ForwardAlike(P, s.first) && ForwardAlike(P, s.rest)
    requires s.Block? ==> ForwardAlike(P, s.items)
    requires s.If? ==> ForwardAlike(P, s.yes) && ForwardAlike(P, s.no)
    requires s.Switch? || s.While? || s.Do? || s.For? ==> ForwardAlike(P, s.body)
    ensures SameEnd(Forward(P, s, v, a), Forward(P, s, v, b))
  {
    hide ForwardExpr;
    hide ForwardExprs;
    hide FlowInto;
    hide RecordAt;
    hide ForwardSwitch;
    hide ForwardWhile;
    hide ForwardDo;
    hide ForwardFor;
    FlowAlike();
    if s.Switch? || s.While? || s.Do? || s.For? {
      ForwardContainerAlike(P, s, v, RecordAt(a, StmtNode(s), EntryPoint, v), RecordAt(b, StmtNode(s), EntryPoint, v));
    }
  }

  lemma {:induction false} ForwardSame(P: Problem, s: Stmt)
    ensures ForwardAlike(P, s)
  {
    match s {
      case Then(first, rest) => ForwardSame(P, first); ForwardSame(P, rest);
      case Block(_, items) => ForwardSame(P, items);
      case If(_, _, yes, no) => ForwardSame(P, yes); ForwardSame(P, no);
      case Switch(_, _, _, body) => ForwardSame(P, body);
      case While(_, _, body) => ForwardSame(P, body);
      case Do(_, body, _) => ForwardSame(P, body);
      case For(_, _, _, _, body) => ForwardSame(P, body);
      case _ =>
    }
    forall v, a, b | Alike(a, b) ensures SameEnd(Forward(P, s, v, a), Forward(P, s, v, b)) {
      hide ForwardAlike;
      hide Alike;
      ForwardOnceAlike(P, s, v, a, b);
    }
  }

  // ---------- Backwards ----------

  ghost predicate BackwardAlike(P: Problem, s: Stmt) {
    forall v, a, b {:trigger Backward(P, s, v, a), Backward(P, s, v, b)} :: Alike(a, b) ==> SameEnd(Backward(P, s, v, a), Backward(P, s, v, b))
  }

  lemma BackwardContainerAlike(P: Problem, s: Stmt, v: FlowValue, a: State, b: State)
    requires (s.Switch? || s.While? || s.Do? || s.For?) && BackwardAlike(P, s.body) && Alike(a, b)
    ensures s.Switch? ==> SameEnd(BackwardSwitch(P, s, v, a), BackwardSwitch(P, s, v, b))
    ensures s.While? ==> SameEnd(BackwardWhile(P, s, v, a), BackwardWhile(P, s, v, b))
    ensures s.Do? ==> SameEnd(BackwardDo(P, s, v, a), BackwardDo(P, s, v, b))
    ensures s.For? ==> SameEnd(BackwardFor(P, s, v, a), BackwardFor(P, s, v, b))
  {
    hide BackwardExpr;
    hide FlowInto;
    hide RecordAt;
    FlowAlike();
  }

  lemma BackwardOnceAlike(P: Problem, s: Stmt, v: FlowValue, a: State, b: State)
    requires Alike(a, b)
    requires s.Then? ==> BackwardAlike(P, s.first) && BackwardAlike(P, s.rest)
    requires s.Block? ==> BackwardAlike(P, s.items)
    requires s.If? ==> BackwardAlike(P, s.yes) && BackwardAlike(P, s.no)
    requires s.Switch? || s.While? || s.Do? || s.For? ==> BackwardAlike(P, s.body)
    ensures SameEnd(Backward(P, s, v, a), Backward(P, s, v, b))
  {
    hide BackwardExpr;
    hide BackwardExprs;
    hide FlowInto;
    hide RecordAt;
    hide BackwardSwitch;
    hide BackwardWhile;
    hide BackwardDo;
    hide BackwardFor;
    FlowAlike();
    if s.Switch? || s.While? || s.Do? || s.For? {
      BackwardContainerAlike(P, s, v, RecordAt(a, StmtNode(s), ExitPoint, v), RecordAt(b, StmtNode(s), ExitPoint, v));
    }
  }

  lemma {:induction false} BackwardSame(P: Problem, s: Stmt)
    ensures BackwardAlike(P, s)
  {
    match s {
      case Then(first, rest) => BackwardSame(P, first); BackwardSame(P, rest);
      case Block(_, items) => BackwardSame(P, items);
      case If(_, _, yes, no) => BackwardSame(P, yes); BackwardSame(P, no);
      case Switch(_, _, _, body) => BackwardSame(P, body);
      case While(_, _, body) => BackwardSame(P, body);
      case Do(_, body, _) => BackwardSame(P, body);
      case For(_, _, _, _, body) => BackwardSame(P, body);
      case _ =>
    }
    forall v, a, b | Alike(a, b) ensures SameEnd(Backward(P, s, v, a), Backward(P, s, v, b)) {
      hide BackwardAlike;
      hide Alike;
      BackwardOnceAlike(P, s, v, a, b);
    }
  }

  // ---------- Passes ----------

  lemma PassesAlike(P: Problem, p: Proc, a: State, b: State)
    requires Alike(a, b)
    ensures Alike(ForwardProc(P, p, a), ForwardProc(P, p, b))
    ensures Alike(BackwardProc(P, p, a), BackwardProc(P, p, b))
  {
    ForwardSame(P, p.body);
    BackwardSame(P, p.body);
    FlowAlike();
  }
}
