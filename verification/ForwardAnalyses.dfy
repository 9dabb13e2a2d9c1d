/**
 The forward analyses of a procedure: dirty variables, outstanding children, and whether
 the end of the body is reachable.
 */
module ForwardAnalyses {
  import opened Ast
  import opened FlowValues
  import opened Flow
  import opened TwoRuns
  import opened Convergence
  import opened Control
  import opened Facts
  import opened Bridge
  import opened Clients
  import opened Walks
  import opened Visited
  import opened Results
  import opened Analyses
  import FE = ForwardExact
  import FP = ForwardPaths

  // What holds on some path at the exit of q: after its operands, before it acts itself.
  ghost predicate HoldsAt(F: Fact, p: Proc, init: bool, q: Place) {
    FP.AtExit(F, {}, q.s, FE.Reached(F, p, init, Run(q.s, q.k)))
  }

  lemma ShownIsRaw(V: set<Visit>, n: nat, b: Bit)
    requires Shown(V, n, b)
    ensures b in RawBits(V, n)
  {
    var v :| Visit(n, ExitPoint, v) in V && Has(v, b);
    var w := Visit(n, ExitPoint, v);
    assert w in V && w.node == n && w.point == ExitPoint && b in w.value.bits;
  }

  // ---------- Dirty variables ----------

  // AnalyzeDV starts with the formal parameters dirty.
  ghost function FormalBits(chunk: seq<nat>, formals: set<nat>): FlowValue {
    FlowValue(false, set i: Bit | i < |chunk| && chunk[i] in formals)
  }

  ghost function DirtySets(p: Proc, chunk: seq<nat>, m: Marks): Store {
    WalkWhole(DirtyVariables, chunk, p, m.sets)
  }

  ghost function DirtyProblem(p: Proc, chunk: seq<nat>, formals: set<nat>, m: Marks): Problem {
    GenKillProblem(p, FormalBits(chunk, formals), DirtySets(p, chunk, m).gen, DirtySets(p, chunk, m).kill)
  }

  ghost function AfterDV(p: Proc, chunk: seq<nat>, formals: set<nat>, m: Marks): Marks
    requires JumpsInside(p)
  {
    Marks(DirtySets(p, chunk, m), Converge(DirtyProblem(p, chunk, formals, m), Forwards, p, Started(p, m.cells)).cells)
  }

  ghost function VisitsDV(p: Proc, chunk: seq<nat>, formals: set<nat>, m: Marks): set<Visit>
    requires JumpsInside(p)
  {
    FinalVisits(DirtyProblem(p, chunk, formals, m), Forwards, p, m.cells)
  }

  ghost function AfterDirty(p: Proc, chunks: seq<seq<nat>>, formals: set<nat>, m: Marks): Marks
    requires JumpsInside(p)
  {
    if chunks == [] then m else AfterDirty(p, chunks[1..], formals, AfterDV(p, chunks[0], formals, m))
  }

  // AnalyzeDirtyVariables: what it records at n, where `live` is recorded as live.
  ghost function DirtyVars(p: Proc, chunks: seq<seq<nat>>, formals: set<nat>, m: Marks, n: nat, live: set<nat>): set<nat>
    requires JumpsInside(p)
  {
    if chunks == [] then {}
    else Selected(chunks[0], RawBits(VisitsDV(p, chunks[0], formals, m), n)) * live +
         DirtyVars(p, chunks[1..], formals, AfterDV(p, chunks[0], formals, m), n, live)
  }

  lemma DirtyBitExact(p: Proc, chunk: seq<nat>, formals: set<nat>, m: Marks, q: Place, i: Bit)
    requires Analyzable(p) && i < |chunk| && q in AllPlaces(p) && FE.ShowsOperands(q.s)
    ensures Shown(VisitsDV(p, chunk, formals, m), q.s.id, i) <==> HoldsAt(DirtyFact(chunk[i]), p, chunk[i] in formals, q)
  {
    hide FE.Reached;
    hide FinalVisits;
    hide WalkWhole;
    var r := DirtySets(p, chunk, m);
    var P := DirtyProblem(p, chunk, formals, m);
    var F := DirtyFact(chunk[i]);
    TreeIsWellFormed(p);
    WalkWholeDone(DirtyVariables, chunk, p, m.sets);
    DirtyRuleIs(chunk, i);
    ProcLike(DirtyRule(chunk), r.gen, r.kill, i, F, p, FormalBits(chunk, formals));
    ForwardAnalysisExact(P, i, F, p, chunk[i] in formals, m.cells, q);
  }

  /** Every live variable that some path leaves dirty is recorded as dirty, and nothing that
      is not live is. */
  lemma {:induction false} DirtyVarsCover(p: Proc, chunks: seq<seq<nat>>, formals: set<nat>, m: Marks, q: Place, live: set<nat>, x: nat)
    requires Analyzable(p) && InWords(chunks) && q in AllPlaces(p) && FE.ShowsOperands(q.s)
    ensures DirtyVars(p, chunks, formals, m, q.s.id, live) <= live
    ensures x in live && InSome(chunks, x) && HoldsAt(DirtyFact(x), p, x in formals, q)
        ==> x in DirtyVars(p, chunks, formals, m, q.s.id, live)
  {
    hide HoldsAt;
    hide FinalVisits;
    if chunks != [] {
      var V := VisitsDV(p, chunks[0], formals, m);
      DirtyVarsCover(p, chunks[1..], formals, AfterDV(p, chunks[0], formals, m), q, live, x);
      InSomeSplit(chunks, x);
      if x in chunks[0] && HoldsAt(DirtyFact(x), p, x in formals, q) {
        var i :| 0 <= i < |chunks[0]| && chunks[0][i] == x;
        DirtyBitExact(p, chunks[0], formals, m, q, i);
        ShownIsRaw(V, q.s.id, i);
      }
    }
  }

  // ---------- Where nothing stale is recorded ----------

  lemma {:induction false} OnlyFromPlaces(s: Stmt, k: Cont, n: nat)
    requires forall r {:trigger r in Places(s, k)} :: r in Places(s, k) && HasId(r.s) && r.s.id == n ==> HasOperands(r.s)
    ensures OnlyWithOperands(s, n)
  {
    hide HasOperands;
    assert Place(s, k) in Places(s, k);
    match s
    case Then(first, rest) => OnlyFromPlaces(first, Seq(rest, k), n); OnlyFromPlaces(rest, k, n);
    case Block(_, items) => OnlyFromPlaces(items, k, n);
    case If(_, _, yes, no) => OnlyFromPlaces(yes, k, n); OnlyFromPlaces(no, k, n);
    case Switch(_, _, _, body) => OnlyFromPlaces(body, InSwitch(s, k), n);
    case While(_, _, body) => OnlyFromPlaces(body, InLoop(s, k), n);
    case Do(_, body, _) => OnlyFromPlaces(body, InLoop(s, k), n);
    case For(_, _, _, _, body) => OnlyFromPlaces(body, InLoop(s, k), n);
    case _ =>
  }

  lemma GenKillDefines(p: Proc, init: FlowValue, gen: BitSets, kill: BitSets)
    ensures DefinesExpressions(GenKillProblem(p, init, gen, kill))
  {
    var P := GenKillProblem(p, init, gen, kill);
    forall e, v ensures !ForwardExpr(P, e, v).undefined {
      forall w ensures !Leave(P, e, w).undefined {
        TransMeaning(gen, kill, ExprNode(e), ExitPoint, w);
      }
    }
  }

  // After its operands, a statement is shown a defined value, so the raw bits are facts.
  lemma OperandsDefined(p: Proc, init: FlowValue, gen: BitSets, kill: BitSets, cells: Cells, q: Place, b: Bit)
    requires Analyzable(p) && q in AllPlaces(p) && HasOperands(q.s)
    ensures var V := FinalVisits(GenKillProblem(p, init, gen, kill), Forwards, p, cells);
      b in RawBits(V, q.s.id) <==> Shown(V, q.s.id, b)
  {
    hide Converge;
    var P := GenKillProblem(p, init, gen, kill);
    var n := q.s.id;
    TreeIsWellFormed(p);
    OnlyFromPlaces(p.body, Stop, n);
    DefinedAllowed(n, p.body);
    GenKillDefines(p, init, gen, kill);
    ForwardWithin(DefinedAt(n), true, P, p.body);
    var st := FinalState(P, p, cells);
    var V := FinalVisits(P, Forwards, p, cells);
    var a := RecordAt(st, ProcNode(p), EntryPoint, P.init);
    var w := P.trans(ProcNode(p), EntryPoint, P.init);
    assert Within(DefinedAt(n), Forward(P, p.body, w, a).0);
    assert Within(DefinedAt(n), ForwardProc(P, p, st));
    if b in RawBits(V, n) {
      var v :| v in V && v.node == n && v.point == ExitPoint && b in v.value.bits;
      assert v == Visit(n, ExitPoint, v.value) && DefinedAt(n)(v);
      assert Has(v.value, b);
    }
    if Shown(V, n, b) { ShownIsRaw(V, n, b); }
  }

  // ---------- Outstanding children ----------

  ghost function SyncSets(p: Proc, m: Marks): Store {
    WalkWhole(SyncFlow, [], p, m.sets)
  }

  ghost function SyncProblem(p: Proc, m: Marks): Problem {
    GenKillProblem(p, EmptySet, SyncSets(p, m).gen, SyncSets(p, m).kill)
  }

  ghost function VisitsSF(p: Proc, m: Marks): set<Visit>
    requires JumpsInside(p)
  {
    FinalVisits(SyncProblem(p, m), Forwards, p, m.cells)
  }

  // TransSF sets needs_sync of a Return, and of the procedure, when the bit is set at its exit.
  ghost predicate NeedsSync(p: Proc, m: Marks, n: nat)
    requires JumpsInside(p)
  {
    CHILDREN_OUTSTANDING in RawBits(VisitsSF(p, m), n)
  }

  lemma SyncLike(p: Proc, m: Marks)
    requires Tree(p)
    ensures LikeProc(SyncProblem(p, m), CHILDREN_OUTSTANDING, ChildFact(), p, false)
  {
    var r := SyncSets(p, m);
    WalkWholeDone(SyncFlow, [], p, m.sets);
    ChildRuleIs();
    ProcLike(ChildRule(), r.gen, r.kill, CHILDREN_OUTSTANDING, ChildFact(), p, EmptySet);
  }

  /** A return that some path reaches with a child outstanding is marked. */
  lemma ReturnsMarked(p: Proc, m: Marks, q: Place)
    requires Analyzable(p) && q in AllPlaces(p) && q.s.Return?
    requires HoldsAt(ChildFact(), p, false, q)
    ensures NeedsSync(p, m, q.s.id)
  {
    hide FE.Reached;
    hide FinalVisits;
    TreeIsWellFormed(p);
    SyncLike(p, m);
    ForwardAnalysisExact(SyncProblem(p, m), CHILDREN_OUTSTANDING, ChildFact(), p, false, m.cells, q);
    ShownIsRaw(VisitsSF(p, m), q.s.id, CHILDREN_OUTSTANDING);
  }

  /** ... and so is the procedure if some path falls off its body with a child outstanding. */
  lemma EndMarked(p: Proc, m: Marks)
    requires Analyzable(p) && FE.Reached(ChildFact(), p, false, Halt)
    ensures NeedsSync(p, m, p.id)
  {
    hide FE.Reached;
    hide FinalVisits;
    TreeIsWellFormed(p);
    SyncLike(p, m);
    ForwardExitExact(SyncProblem(p, m), CHILDREN_OUTSTANDING, ChildFact(), p, false, m.cells);
    ShownIsRaw(VisitsSF(p, m), p.id, CHILDREN_OUTSTANDING);
  }

  // ---------- Return flow ----------

  const REACHABLE: Bit := 0
  const VALUE_RETURNED: Bit := 1
  const NOTHING_RETURNED: Bit := 2

  // TransRF, up to the warnings.  Only the bits change at a return: an undefined value stays
  // undefined.
  function ReturnTrans(): (Node, Point, FlowValue) -> FlowValue {
    (n: Node, pt: Point, v: FlowValue) =>
      if pt == EntryPoint then (if v.undefined && n.ExprNode? then EmptySet else v)
      else if n.StmtNode? && n.s.Return? then
        v.(bits := v.bits - {REACHABLE} + {if n.s.result.TheExpr? then VALUE_RETURNED else NOTHING_RETURNED})
      else v
  }

  function ReturnProblem(p: Proc): Problem {
    Problem(p.id, FlowValue(false, {REACHABLE}), ReturnTrans())
  }

  lemma ReturnTransMeaning(n: Node, pt: Point, v: FlowValue)
    ensures ReturnTrans()(n, pt, v) ==
      if pt == EntryPoint then (if v.undefined && n.ExprNode? then EmptySet else v)
      else if n.StmtNode? && n.s.Return? then
        v.(bits := v.bits - {REACHABLE} + {if n.s.result.TheExpr? then VALUE_RETURNED else NOTHING_RETURNED})
      else v
  {
  }

  // ---------- The value at the exit of the procedure ----------

  ghost function FinalState(P: Problem, p: Proc, cells: Cells): State
    requires JumpsInside(p) && P.proc == p.id
  {
    State(Converge(P, Forwards, p, Started(p, cells)).cells, false, true, {})
  }

  // What the final pass shows at the exit of the procedure.
  ghost function ExitValue(P: Problem, p: Proc, cells: Cells): FlowValue
    requires JumpsInside(p) && P.proc == p.id
  {
    var (st, v) := BodyEnd(P, p, FinalState(P, p, cells));
    FlowInto(st, Cell(p.id, ReturnValues), v).1
  }

  lemma ExitShown(P: Problem, p: Proc, cells: Cells, v: FlowValue)
    requires Analyzable(p) && P.proc == p.id
    ensures Visit(p.id, ExitPoint, v) in FinalVisits(P, Forwards, p, cells) <==> v == ExitValue(P, p, cells)
  {
    hide StmtIds;
    hide DistinctStmt;
    var st := FinalState(P, p, cells);
    var a := RecordAt(st, ProcNode(p), EntryPoint, P.init);
    var w := P.trans(ProcNode(p), EntryPoint, P.init);
    var ids := StmtIds(p.body);
    ExitsAllowed(ids, p.body);
    ForwardWithin(ExitsOf(ids), false, P, p.body);
    assert Within(ExitsOf(ids), Forward(P, p.body, w, a).0);
  }
}
