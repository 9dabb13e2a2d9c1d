/**
 What decides needs_return when no path computes the value at the exit of a procedure: the
 bit of an undefined value.  Nothing defined ever flows into the cells that stay undefined,
 so they keep the bits of the analyses before, and a jump passes on the bit it was
 entered with.
 */
module StaleBits {
  import opened Ast
  import opened FlowValues
  import opened Flow
  import opened Descent
  import opened TwoRuns
  import opened Convergence
  import opened Control
  import opened Facts
  import opened Bridge
  import opened Clients
  import opened Walks
  import opened Visited
  import opened Results
  import opened Analyses
  import opened ForwardAnalyses
  import opened Leaving
  import FE = ForwardExact
  import FP = ForwardPaths

  // Some path leads to a.
  ghost predicate OnPath(p: Proc, a: Control) {
    exists path :: IsRun(p, Run(p.body, Stop), path) && End(Run(p.body, Stop), path) == a
  }

  // Some path leads to a from the start, or, dead code included, through an expression.
  ghost predicate ComputedAt(p: Proc, a: Control) {
    FE.Reached(EvaluatedFact(), p, true, a)
  }

  // What a jump passes on, entered with bit b of an undefined value.
  ghost predicate JumpBit(p: Proc, s: Stmt, k: Cont, b: bool) {
    if ComputedAt(p, Run(s, k)) then OnPath(p, Run(s, k)) else b
  }

  ghost predicate OldBit(past: Cells, c: Cell) {
    REACHABLE in Get(past, c).bits
  }

  // The bit of an undefined value that falls out of s, where b is the bit of the value that
  // enters s, should that be undefined, and `past` are the cells before the analysis.
  ghost predicate StaleBit(p: Proc, past: Cells, s: Stmt, k: Cont, b: bool)
    decreases s
  {
    match s
    case Then(first, rest) => StaleBit(p, past, rest, k, StaleBit(p, past, first, Seq(rest, k), b))
    case Block(_, items) => StaleBit(p, past, items, k, b)
    case If(_, _, _, no) => StaleBit(p, past, no, k, b)
    case Goto(_, _) => JumpBit(p, s, k, b)
    case Break(_, _) => JumpBit(p, s, k, b)
    case Continue(_, _) => JumpBit(p, s, k, b)
    case Case(_, _, sw) => OldBit(past, Cell(sw, SwitchValues))
    case Default(_, sw) => OldBit(past, Cell(sw, SwitchValues))
    case Switch(id, _, _, _) => OldBit(past, Cell(id, BreakValues))
    case While(id, _, _) => OldBit(past, Cell(id, BreakValues))
    case Do(id, _, _) => OldBit(past, Cell(id, BreakValues))
    case For(id, _, _, _, _) => OldBit(past, Cell(id, BreakValues))
    case _ => b
  }

  // ---------- What holds in the final pass ----------

  // The final passes of TransRF, and of the client that tells where its values are defined.
  ghost predicate InFinal(p: Proc, m: Marks, fa: Cells, fb: Cells, VA: set<Visit>, VB: set<Visit>) {
    && Analyzable(p)
    && CellsRelated(SameDefined(), ScopeOf(p), State(fa, false, true, {}), State(fb, false, true, {}))
    && (forall c :: Get(fa, c).undefined ==> Get(fa, c).bits == Get(m.cells, c).bits)
    && Get(fa, Cell(p.id, ReturnValues)).undefined
    && (forall q :: q in AllPlaces(p) && FE.ShowsOperands(q.s) ==> JumpShown(p, VA, VB, q))
  }

  ghost predicate JumpShown(p: Proc, VA: set<Visit>, VB: set<Visit>, q: Place)
    requires FE.ShowsOperands(q.s)
  {
    && (Shown(VA, q.s.id, REACHABLE) <==> FP.AtExit(ReachFact(), {}, q.s, FE.Reached(ReachFact(), p, true, Run(q.s, q.k))))
    && (Shown(VB, q.s.id, REACHABLE) <==> FP.AtExit(EvaluatedFact(), {}, q.s, ComputedAt(p, Run(q.s, q.k))))
  }

  // The visits of V to nodes of s are those that the pass over s makes, from st to r.
  ghost predicate Owns(s: Stmt, V: set<Visit>, st: State, r: State) {
    && (forall x :: x in st.visits ==> x.node !in StmtIds(s))
    && (forall x :: x in V && x.node in StmtIds(s) ==> x in r.visits)
  }

  // A pass over s, starting from (v, a), is part of the final pass.
  ghost predicate PartOf(P: Problem, s: Stmt, cells: Cells, V: set<Visit>, v: FlowValue, a: State) {
    a.cells == cells && Quiet(Forward(P, s, v, a).0, cells, V) && Owns(s, V, a, Forward(P, s, v, a).0)
  }

  lemma PartsOfThen(P: Problem, s: Stmt, cells: Cells, V: set<Visit>, v: FlowValue, a: State)
    requires s.Then? && DistinctStmt(s) && PartOf(P, s, cells, V, v, a)
    ensures PartOf(P, s.first, cells, V, v, a)
    ensures var (mid, w) := Forward(P, s.first, v, a); PartOf(P, s.rest, cells, V, w, mid)
    ensures Forward(P, s, v, a).1 == Forward(P, s.rest, Forward(P, s.first, v, a).1, Forward(P, s.first, v, a).0).1
  {
    var (mid, w) := Forward(P, s.first, v, a);
    assert Forward(P, s, v, a) == Forward(P, s.rest, w, mid);
    VisitsInside(P, s.first, v, a);
    VisitsInside(P, s.rest, w, mid);
  }

  lemma PartsOfIf(P: Problem, s: Stmt, cells: Cells, V: set<Visit>, v: FlowValue, a: State)
    requires s.If? && DistinctStmt(s) && PartOf(P, s, cells, V, v, a)
    ensures var c := ForwardExpr(P, s.test, EnterStmt(P, s, v));
      var (mid, t) := Forward(P, s.yes, c, RecordAt(a, StmtNode(s), EntryPoint, v));
      var f := Forward(P, s.no, c, mid).1;
      PartOf(P, s.no, cells, V, c, mid) && Forward(P, s, v, a).1 == LeaveStmt(P, s, SetUnion(t, f))
  {
    var c := ForwardExpr(P, s.test, EnterStmt(P, s, v));
    var start := RecordAt(a, StmtNode(s), EntryPoint, v);
    var (mid, t) := Forward(P, s.yes, c, start);
    VisitsInside(P, s.yes, c, start);
    VisitsInside(P, s.no, c, mid);
  }

  lemma PartOfBlock(P: Problem, s: Stmt, cells: Cells, V: set<Visit>, v: FlowValue, a: State)
    requires s.Block? && DistinctStmt(s) && PartOf(P, s, cells, V, v, a)
    ensures var start := RecordAt(a, StmtNode(s), EntryPoint, v); var w := EnterStmt(P, s, v);
      PartOf(P, s.items, cells, V, w, start) && Forward(P, s, v, a).1 == LeaveStmt(P, s, Forward(P, s.items, w, start).1)
  {
    var start := RecordAt(a, StmtNode(s), EntryPoint, v);
    VisitsInside(P, s.items, EnterStmt(P, s, v), start);
  }

  lemma DefinesValues(p: Proc)
    ensures DefinesExpressions(ReturnProblem(p))
  {
    DefinedRespected(p);
    forall e, v ensures !ForwardExpr(ReturnProblem(p), e, v).undefined {
      var w := FlowValue(v.undefined, {REACHABLE});
      assert SameDefined()(v, w);
      ForwardExprRelated(SameDefined(), ReturnProblem(p), DefinedProblem(p, EntryPoint), e);
      DefinedForward(p, EntryPoint, e);
      assert SameDefined()(ForwardExpr(ReturnProblem(p), e, v), ForwardExpr(DefinedProblem(p, EntryPoint), e, w));
    }
  }

  // ---------- The walk along the final pass ----------

  // At a jump the final pass shows the value with which it is entered, once.
  lemma JumpShowsEntry(P: Problem, s: Stmt, cells: Cells, V: set<Visit>, v: FlowValue, a: State)
    requires (s.Goto? || s.Break? || s.Continue?) && PartOf(P, s, cells, V, v, a) && EnterStmt(P, s, v) == v
    ensures Shown(V, s.id, REACHABLE) <==> Has(v, REACHABLE)
    ensures Forward(P, s, v, a).1 == Undefine(v)
  {
    var r := Forward(P, s, v, a).0;
    assert Visit(s.id, ExitPoint, v) in r.visits;
    forall w | Visit(s.id, ExitPoint, w) in V ensures w == v {
      assert Visit(s.id, ExitPoint, w) in r.visits;
    }
  }

  lemma {:induction false} ReachedIsOnPath(p: Proc, s: Stmt, k: Cont)
    ensures FE.Reached(ReachFact(), p, true, Run(s, k)) <==> OnPath(p, Run(s, k))
  {
    forall t ensures (After(ReachFact(), t, true) <==> Returned !in t) && !After(ReachFact(), t, false) {
      ReachAfter(t);
    }
    forall path | IsRun(p, Run(p.body, Stop), path) && End(Run(p.body, Stop), path) == Run(s, k)
      ensures Returned !in TraceOf(path)
    {
      StillRunning(p, Run(p.body, Stop), path);
    }
  }

  lemma JumpPasses(p: Proc, m: Marks, fa: Cells, fb: Cells, VA: set<Visit>, VB: set<Visit>,
                   s: Stmt, k: Cont, v: FlowValue, a: State, w: FlowValue, b: State, bit: bool)
    requires InFinal(p, m, fa, fb, VA, VB) && (s.Goto? || s.Break? || s.Continue?) && Place(s, k) in AllPlaces(p)
    requires PartOf(ReturnProblem(p), s, fa, VA, v, a) && PartOf(DefinedProblem(p, EntryPoint), s, fb, VB, w, b)
    requires SameDefined()(v, w) && (v.undefined ==> (bit <==> REACHABLE in v.bits))
    ensures REACHABLE in Forward(ReturnProblem(p), s, v, a).1.bits <==> JumpBit(p, s, k, bit)
  {
    hide FE.Reached;
    hide Forward;
    hide AllPlaces;
    ReturnTransMeaning(StmtNode(s), EntryPoint, v);
    DefinedTransMeaning(EntryPoint, StmtNode(s), EntryPoint, w);
    JumpShowsEntry(ReturnProblem(p), s, fa, VA, v, a);
    JumpShowsEntry(DefinedProblem(p, EntryPoint), s, fb, VB, w, b);
    ReachedIsOnPath(p, s, k);
    assert JumpShown(p, VA, VB, Place(s, k));
  }

  // A return would make the value at the exit defined.
  lemma ReturnPasses(p: Proc, m: Marks, fa: Cells, fb: Cells, VA: set<Visit>, VB: set<Visit>, s: Stmt, v: FlowValue, a: State)
    requires InFinal(p, m, fa, fb, VA, VB) && s.Return? && PartOf(ReturnProblem(p), s, fa, VA, v, a)
    ensures Forward(ReturnProblem(p), s, v, a).1 == v && v.undefined
  {
    hide AllPlaces;
    var P := ReturnProblem(p);
    DefinesValues(p);
    ReturnTransMeaning(StmtNode(s), EntryPoint, v);
    var w := ForwardOpt(P, s.result, EnterStmt(P, s, v));
    ReturnTransMeaning(StmtNode(s), ExitPoint, w);
    assert s.result.TheExpr? || !v.undefined ==> !w.undefined;
    assert LeaveStmt(P, s, w).undefined == w.undefined;
    var st := RecordAt(RecordAt(a, StmtNode(s), EntryPoint, v), StmtNode(s), ExitPoint, w);
    var r := FlowInto(st, Cell(p.id, ReturnValues), LeaveStmt(P, s, w)).0;
    assert r == Forward(P, s, v, a).0;
    assert !r.changed && Get(r.cells, Cell(p.id, ReturnValues)) == Get(fa, Cell(p.id, ReturnValues));
    assert Get(fa, Cell(p.id, ReturnValues)).undefined;
  }

  lemma CellPasses(p: Proc, m: Marks, fa: Cells, fb: Cells, VA: set<Visit>, VB: set<Visit>, s: Stmt, v: FlowValue, a: State)
    requires InFinal(p, m, fa, fb, VA, VB) && (s.Switch? || IsLoop(s)) && PartOf(ReturnProblem(p), s, fa, VA, v, a)
    ensures Forward(ReturnProblem(p), s, v, a).1 == Get(fa, Cell(s.id, BreakValues))
  {
    hide AllPlaces;
    forall w ensures LeaveStmt(ReturnProblem(p), s, w) == w { ReturnTransMeaning(StmtNode(s), ExitPoint, w); }
  }

  lemma LeafPasses(p: Proc, m: Marks, fa: Cells, fb: Cells, VA: set<Visit>, VB: set<Visit>, s: Stmt, v: FlowValue, a: State, bit: bool)
    requires InFinal(p, m, fa, fb, VA, VB) && PartOf(ReturnProblem(p), s, fa, VA, v, a)
    requires s.Null? || s.Eval? || s.Decl? || s.Label? || s.Case? || s.Default? || s.Spawn? || s.Sync?
    requires v.undefined ==> (bit <==> REACHABLE in v.bits)
    ensures var u := Forward(ReturnProblem(p), s, v, a).1;
      u.undefined ==> (REACHABLE in u.bits <==> StaleBit(p, m.cells, s, Stop, bit))
  {
    hide AllPlaces;
    hide ForwardExpr;
    hide ForwardExprs;
    hide FE.Reached;
    hide Owns;
    hide CellsRelated;
    var P := ReturnProblem(p);
    DefinesValues(p);
    forall w, pt ensures P.trans(StmtNode(s), pt, w) == w { ReturnTransMeaning(StmtNode(s), pt, w); }
    if s.Spawn? {
      ExprsDefined(P, s.args, ForwardExpr(P, s.callee, ForwardOpt(P, s.receiver, EnterStmt(P, s, v))));
    }
  }

  lemma {:induction false} Walked(p: Proc, m: Marks, fa: Cells, fb: Cells, VA: set<Visit>, VB: set<Visit>,
                                  s: Stmt, k: Cont, v: FlowValue, a: State, w: FlowValue, b: State, bit: bool)
    requires InFinal(p, m, fa, fb, VA, VB) && Places(s, k) <= AllPlaces(p) && DistinctStmt(s) && InScope(ScopeOf(p), p.id, s)
    requires PartOf(ReturnProblem(p), s, fa, VA, v, a) && PartOf(DefinedProblem(p, EntryPoint), s, fb, VB, w, b)
    requires SameDefined()(v, w) && (v.undefined ==> (bit <==> REACHABLE in v.bits))
    ensures var u := Forward(ReturnProblem(p), s, v, a).1;
      u.undefined ==> (REACHABLE in u.bits <==> StaleBit(p, m.cells, s, k, bit))
    decreases s, 1
  {
    hide AllPlaces;
    hide PartOf;
    hide Forward;
    hide StmtIds;
    hide JumpBit;
    hide InFinal;
    hide InScope;
    var (P, Q, R, W) := (ReturnProblem(p), DefinedProblem(p, EntryPoint), SameDefined(), ScopeOf(p));
    PartsInScope(W, p.id, s);
    match s
    case Then(first, rest) =>
      PartsOfThen(P, s, fa, VA, v, a);
      PartsOfThen(Q, s, fb, VB, w, b);
      Walked(p, m, fa, fb, VA, VB, first, Seq(rest, k), v, a, w, b, bit);
      NextRelated(p, m, fa, fb, VA, VB, first, v, a, w, b);
      var (x, y) := (Forward(P, first, v, a), Forward(Q, first, w, b));
      Walked(p, m, fa, fb, VA, VB, rest, k, x.1, x.0, y.1, y.0, StaleBit(p, m.cells, first, Seq(rest, k), bit));
    case Block(_, items) =>
      PartOfBlock(P, s, fa, VA, v, a);
      PartOfBlock(Q, s, fb, VB, w, b);
      SameTrans(p, s);
      Walked(p, m, fa, fb, VA, VB, items, k, v, RecordAt(a, StmtNode(s), EntryPoint, v), w, RecordAt(b, StmtNode(s), EntryPoint, w), bit);
    case If(_, _, _, _) => WalkedIf(p, m, fa, fb, VA, VB, s, k, v, a, w, b, bit);
    case _ => EndWalked(p, m, fa, fb, VA, VB, s, k, v, a, w, b, bit);
  }

  // Jumps, loops and switches decide the bit; other statements pass it on.
  lemma EndWalked(p: Proc, m: Marks, fa: Cells, fb: Cells, VA: set<Visit>, VB: set<Visit>,
                  s: Stmt, k: Cont, v: FlowValue, a: State, w: FlowValue, b: State, bit: bool)
    requires !s.Then? && !s.Block? && !s.If?
    requires InFinal(p, m, fa, fb, VA, VB) && Place(s, k) in AllPlaces(p)
    requires PartOf(ReturnProblem(p), s, fa, VA, v, a) && PartOf(DefinedProblem(p, EntryPoint), s, fb, VB, w, b)
    requires SameDefined()(v, w) && (v.undefined ==> (bit <==> REACHABLE in v.bits))
    ensures var u := Forward(ReturnProblem(p), s, v, a).1;
      u.undefined ==> (REACHABLE in u.bits <==> StaleBit(p, m.cells, s, k, bit))
  {
    hide AllPlaces;
    hide PartOf;
    hide Forward;
    hide JumpBit;
    hide FE.Reached;
    if s.Goto? || s.Break? || s.Continue? {
      JumpPasses(p, m, fa, fb, VA, VB, s, k, v, a, w, b, bit);
    } else if s.Return? {
      ReturnPasses(p, m, fa, fb, VA, VB, s, v, a);
    } else if s.Switch? || IsLoop(s) {
      CellPasses(p, m, fa, fb, VA, VB, s, v, a);
    } else {
      LeafPasses(p, m, fa, fb, VA, VB, s, v, a, bit);
    }
  }

  lemma {:induction false} WalkedIf(p: Proc, m: Marks, fa: Cells, fb: Cells, VA: set<Visit>, VB: set<Visit>,
                                    s: Stmt, k: Cont, v: FlowValue, a: State, w: FlowValue, b: State, bit: bool)
    requires s.If? && InFinal(p, m, fa, fb, VA, VB) && Places(s, k) <= AllPlaces(p) && DistinctStmt(s) && InScope(ScopeOf(p), p.id, s)
    requires PartOf(ReturnProblem(p), s, fa, VA, v, a) && PartOf(DefinedProblem(p, EntryPoint), s, fb, VB, w, b)
    requires SameDefined()(v, w) && (v.undefined ==> (bit <==> REACHABLE in v.bits))
    ensures var u := Forward(ReturnProblem(p), s, v, a).1;
      u.undefined ==> (REACHABLE in u.bits <==> StaleBit(p, m.cells, s, k, bit))
    decreases s, 0
  {
    hide AllPlaces;
    hide PartOf;
    hide Forward;
    hide StmtIds;
    hide InFinal;
    var (P, Q) := (ReturnProblem(p), DefinedProblem(p, EntryPoint));
    PartsInScope(ScopeOf(p), p.id, s);
    PartsOfIf(P, s, fa, VA, v, a);
    PartsOfIf(Q, s, fb, VB, w, b);
    SameTrans(p, s);
    DefinesValues(p);
    DefinedForward(p, EntryPoint, s.test);
    var (c, d) := (ForwardExpr(P, s.test, v), ForwardExpr(Q, s.test, w));
    assert SameDefined()(c, d);
    var (x, y) := (Forward(P, s.yes, c, RecordAt(a, StmtNode(s), EntryPoint, v)), Forward(Q, s.yes, d, RecordAt(b, StmtNode(s), EntryPoint, w)));
    Walked(p, m, fa, fb, VA, VB, s.no, k, c, x.0, d, y.0, bit);
  }

  lemma SameTrans(p: Proc, s: Stmt)
    requires s.Block? || s.If?
    ensures forall v {:trigger EnterStmt(ReturnProblem(p), s, v)} :: EnterStmt(ReturnProblem(p), s, v) == v
    ensures forall v {:trigger LeaveStmt(ReturnProblem(p), s, v)} :: LeaveStmt(ReturnProblem(p), s, v) == v
    ensures forall v {:trigger EnterStmt(DefinedProblem(p, EntryPoint), s, v)} :: EnterStmt(DefinedProblem(p, EntryPoint), s, v) == v
  {
    forall v, pt ensures ReturnTrans()(StmtNode(s), pt, v) == v { ReturnTransMeaning(StmtNode(s), pt, v); }
    forall v, pt ensures DefinedTrans(EntryPoint)(StmtNode(s), pt, v) == v { DefinedTransMeaning(EntryPoint, StmtNode(s), pt, v); }
  }

  lemma NextRelated(p: Proc, m: Marks, fa: Cells, fb: Cells, VA: set<Visit>, VB: set<Visit>,
                    s: Stmt, v: FlowValue, a: State, w: FlowValue, b: State)
    requires InFinal(p, m, fa, fb, VA, VB) && InScope(ScopeOf(p), p.id, s) && a.cells == fa && b.cells == fb && SameDefined()(v, w)
    ensures SameDefined()(Forward(ReturnProblem(p), s, v, a).1, Forward(DefinedProblem(p, EntryPoint), s, w, b).1)
  {
    hide AllPlaces;
    DefinedRespected(p);
    assert CellsRelated(SameDefined(), ScopeOf(p), State(fa, false, true, {}), State(fb, false, true, {}));
    assert CellsRelated(SameDefined(), ScopeOf(p), a, b);
    ForwardRelated(SameDefined(), ScopeOf(p), ReturnProblem(p), DefinedProblem(p, EntryPoint), s);
    assert Related(SameDefined(), ScopeOf(p), Forward(ReturnProblem(p), s, v, a), Forward(DefinedProblem(p, EntryPoint), s, w, b));
  }

  // ---------- Exactly what the bit is ----------

  lemma FinalJumps(p: Proc, m: Marks, VA: set<Visit>, VB: set<Visit>, q: Place)
    requires Analyzable(p) && q in AllPlaces(p) && FE.ShowsOperands(q.s)
    requires VA == FinalVisits(ReturnProblem(p), Forwards, p, m.cells) && VB == FinalVisits(DefinedProblem(p, EntryPoint), Forwards, p, m.cells)
    ensures JumpShown(p, VA, VB, q)
  {
    hide FE.Reached;
    hide FinalVisits;
    hide AllPlaces;
    hide Tree;
    hide FP.AtExit;
    hide LikeStmt;
    hide Passes;
    TreeIsWellFormed(p);
    ReturnLike(p);
    DefinedLike(p, EntryPoint);
    ForwardAnalysisExact(ReturnProblem(p), REACHABLE, ReachFact(), p, true, m.cells, q);
    ForwardAnalysisExact(DefinedProblem(p, EntryPoint), REACHABLE, EvaluatedFact(), p, true, m.cells, q);
  }

  // A cell that is undefined in the end has not been written.
  lemma CellsKeepBits(P: Problem, p: Proc, cells: Cells, c: Cell)
    requires JumpsInside(p) && P.proc == p.id
    requires Get(FinalState(P, p, cells).cells, c).undefined
    ensures Get(FinalState(P, p, cells).cells, c).bits == Get(cells, c).bits
  {
    ConvergeDown(P, Forwards, p, Started(p, cells), c);
    InitPointsMeaning(p.body, cells, c);
  }

  // The body is passed over as a part of the final pass.
  lemma BodyIsPart(P: Problem, p: Proc, cells: Cells)
    requires Analyzable(p) && P.proc == p.id
    ensures var st := FinalState(P, p, cells); var v := P.trans(ProcNode(p), EntryPoint, P.init);
      PartOf(P, p.body, st.cells, FinalVisits(P, Forwards, p, cells), v, RecordAt(st, ProcNode(p), EntryPoint, P.init))
  {
    hide StmtIds;
    TreeIsWellFormed(p);
    var st := Final(P, Forwards, p, cells);
    var v := P.trans(ProcNode(p), EntryPoint, P.init);
    var a := RecordAt(st, ProcNode(p), EntryPoint, P.init);
    var (r, w) := Forward(P, p.body, v, a);
    var e := FlowInto(r, Cell(p.id, ReturnValues), w);
    assert OnePass(P, Forwards, p, st) == RecordAt(e.0, ProcNode(p), ExitPoint, e.1);
    assert !e.0.changed && !r.changed && r.final;
  }

  lemma CellsCorrespond(p: Proc, m: Marks)
    requires Analyzable(p)
    ensures CellsRelated(SameDefined(), ScopeOf(p), FinalState(ReturnProblem(p), p, m.cells), FinalState(DefinedProblem(p, EntryPoint), p, m.cells))
  {
    hide Respected;
    var st := Started(p, m.cells);
    DefinedRespected(p);
    StartRelated(p, m.cells);
    StartedSettles(ReturnProblem(p), Forwards, p, m.cells);
    StartedSettles(DefinedProblem(p, EntryPoint), Forwards, p, m.cells);
    ConvergeRelated(SameDefined(), ScopeOf(p), ReturnProblem(p), DefinedProblem(p, EntryPoint), Forwards, p, st, st);
  }

  lemma ExitIsFinal(p: Proc, m: Marks)
    requires Analyzable(p) && !ExitComputed(p)
    ensures InFinal(p, m, FinalState(ReturnProblem(p), p, m.cells).cells, FinalState(DefinedProblem(p, EntryPoint), p, m.cells).cells,
                    FinalVisits(ReturnProblem(p), Forwards, p, m.cells), FinalVisits(DefinedProblem(p, EntryPoint), Forwards, p, m.cells))
  {
    hide FE.Reached;
    hide JumpShown;
    hide Converge;
    hide FinalVisits;
    var (a, b) := (FinalState(ReturnProblem(p), p, m.cells), FinalState(DefinedProblem(p, EntryPoint), p, m.cells));
    var VA := FinalVisits(ReturnProblem(p), Forwards, p, m.cells);
    var VB := FinalVisits(DefinedProblem(p, EntryPoint), Forwards, p, m.cells);
    CellsCorrespond(p, m);
    forall c | Get(a.cells, c).undefined ensures Get(a.cells, c).bits == Get(m.cells, c).bits {
      CellsKeepBits(ReturnProblem(p), p, m.cells, c);
    }
    forall q | q in AllPlaces(p) && FE.ShowsOperands(q.s) ensures JumpShown(p, VA, VB, q) {
      FinalJumps(p, m, VA, VB, q);
    }
    ReturnExitDefined(p, m);
    BodyIsPart(ReturnProblem(p), p, m.cells);
  }

  /** What no path computes is decided by the last jump, loop, switch or case that is passed
      on the way to the end of the body. */
  lemma CarriedBit(p: Proc, m: Marks)
    requires Analyzable(p) && !ExitComputed(p)
    ensures REACHABLE in CarriedToEnd(p, m).bits <==> StaleBit(p, m.cells, p.body, Stop, true)
  {
    hide StaleBit;
    hide PartOf;
    hide InFinal;
    var (P, Q) := (ReturnProblem(p), DefinedProblem(p, EntryPoint));
    var (a, b) := (FinalState(P, p, m.cells), FinalState(Q, p, m.cells));
    BodyIsPart(P, p, m.cells);
    BodyIsPart(Q, p, m.cells);
    ExitIsFinal(p, m);
    ReturnTransMeaning(ProcNode(p), EntryPoint, P.init);
    DefinedTransMeaning(EntryPoint, ProcNode(p), EntryPoint, Q.init);
    Walked(p, m, a.cells, b.cells, FinalVisits(P, Forwards, p, m.cells), FinalVisits(Q, Forwards, p, m.cells), p.body, Stop,
           P.init, RecordAt(a, ProcNode(p), EntryPoint, P.init), Q.init, RecordAt(b, ProcNode(p), EntryPoint, Q.init), true);
    ReturnExitDefined(p, m);
    UndefinedIsCarried(p, m);
  }

  /** The bit that decides needs_return, for every procedure.  Where a path leads to the exit
      from the start or through some expression, it says whether some path falls off the end
      of the body.  Elsewhere no path does, and it is the stale bit. */
  lemma ReturnBitExact(p: Proc, m: Marks)
    requires Analyzable(p)
    ensures REACHABLE in ReturnExit(p, m).bits
       <==> if ExitComputed(p) then EndReachable(p) else StaleBit(p, m.cells, p.body, Stop, true)
    ensures !ExitComputed(p) ==> !EndReachable(p)
  {
    hide ExitComputed;
    hide EndReachable;
    hide ExitValue;
    hide CarriedToEnd;
    hide StaleBit;
    ReturnFlowExact(p, m);
    if !ExitComputed(p) { CarriedBit(p, m); }
  }

  /** So it is right, except for procedures whose exit no path computes and whose stale bit
      is set. */
  lemma NeedsReturnRight(p: Proc, m: Marks)
    requires Analyzable(p)
    ensures (REACHABLE in ReturnExit(p, m).bits <==> EndReachable(p))
       <==> (ExitComputed(p) || !StaleBit(p, m.cells, p.body, Stop, true))
  {
    hide ExitComputed;
    hide EndReachable;
    hide ReturnExit;
    hide StaleBit;
    ReturnBitExact(p, m);
  }

  // What the bit says.
  ghost predicate ReturnBit(p: Proc, past: Cells) {
    if ExitComputed(p) then EndReachable(p) else StaleBit(p, past, p.body, Stop, true)
  }

  // A C function that returns int may fall off its end.
  predicate IsPlainInt(ty: ProcType) {
    ty.isInt && !ty.isVoid && !ty.isCilk
  }

  /** Every procedure but a plain C function that returns int needs a return if and only if the
      bit is set; such a function never does. */
  lemma NeedsReturnMeans(p: Proc, m: Marks, ty: ProcType)
    requires Analyzable(p)
    ensures !IsPlainInt(ty) ==> (NeedsReturn(p, m, ty) <==> ReturnBit(p, m.cells))
    ensures IsPlainInt(ty) ==> !NeedsReturn(p, m, ty)
  {
    hide ExitComputed;
    hide EndReachable;
    hide ReturnExit;
    hide StaleBit;
    ReturnBitExact(p, m);
  }
}
