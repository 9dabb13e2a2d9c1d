/**
 Where the values shown by the forward gen/kill analyses are defined, so that what is
 recorded is exact: at every statement to which a path leads from the start of the
 procedure, or, dead code included, through some expression.
 */
module DefinedValues {
  import opened Ast
  import opened FlowValues
  import opened Flow
  import opened TwoRuns
  import opened Convergence
  import opened Control
  import opened Facts
  import opened Clients
  import opened Walks
  import opened Visited
  import opened PairedVisits
  import opened Results
  import opened Analyses
  import opened ForwardAnalyses
  import opened Leaving
  import opened StaleBits
  import FE = ForwardExact
  import FP = ForwardPaths

  // What the second client marks as computed, the first finds defined.
  ghost function ComputedIsDefined(): Relation {
    (v: FlowValue, w: FlowValue) => Has(w, REACHABLE) ==> !v.undefined
  }

  lemma ComputedRespected(p: Proc, init: FlowValue, gen: BitSets, kill: BitSets)
    requires !init.undefined
    ensures Respected(ComputedIsDefined(), GenKillProblem(p, init, gen, kill), DefinedProblem(p, ExitPoint))
  {
    forall n, pt, v, w | ComputedIsDefined()(v, w)
      ensures ComputedIsDefined()(GenKillTrans(gen, kill)(n, pt, v), DefinedTrans(ExitPoint)(n, pt, w))
    {
      TransMeaning(gen, kill, n, pt, v);
      DefinedTransMeaning(ExitPoint, n, pt, w);
    }
  }

  lemma FinalRelated(p: Proc, init: FlowValue, gen: BitSets, kill: BitSets, cells: Cells)
    requires Analyzable(p) && !init.undefined
    ensures CellsRelated(ComputedIsDefined(), ScopeOf(p),
                         FinalState(GenKillProblem(p, init, gen, kill), p, cells), FinalState(DefinedProblem(p, ExitPoint), p, cells))
  {
    hide Respected;
    var (R, W) := (ComputedIsDefined(), ScopeOf(p));
    var (P, Q) := (GenKillProblem(p, init, gen, kill), DefinedProblem(p, ExitPoint));
    var st := Started(p, cells);
    ComputedRespected(p, init, gen, kill);
    forall c | c in W ensures R(Get(st.cells, c), Get(st.cells, c)) {
      InitPointsMeaning(p.body, cells, c);
    }
    StartedSettles(P, Forwards, p, cells);
    StartedSettles(Q, Forwards, p, cells);
    ConvergeRelated(R, W, P, Q, Forwards, p, st, st);
  }

  lemma {:induction false} OnlyLeafAt(s: Stmt, k: Cont, n: nat)
    requires forall r {:trigger r in Places(s, k)} :: r in Places(s, k) && HasId(r.s) && r.s.id == n ==> IsLeaf(r.s)
    ensures OnlyLeaf(s, n)
  {
    assert Place(s, k) in Places(s, k);
    match s
    case Then(first, rest) => OnlyLeafAt(first, Seq(rest, k), n); OnlyLeafAt(rest, k, n);
    case Block(_, items) => OnlyLeafAt(items, k, n);
    case If(_, _, yes, no) => OnlyLeafAt(yes, k, n); OnlyLeafAt(no, k, n);
    case Switch(_, _, _, body) => OnlyLeafAt(body, InSwitch(s, k), n);
    case While(_, _, body) => OnlyLeafAt(body, InLoop(s, k), n);
    case Do(_, body, _) => OnlyLeafAt(body, InLoop(s, k), n);
    case For(_, _, _, _, body) => OnlyLeafAt(body, InLoop(s, k), n);
    case _ =>
  }

  // Where the final pass enters the body.
  ghost function BodyStart(P: Problem, p: Proc, cells: Cells): State
    requires JumpsInside(p) && P.proc == p.id
  {
    RecordAt(FinalState(P, p, cells), ProcNode(p), EntryPoint, P.init)
  }

  lemma ShownInBody(P: Problem, p: Proc, cells: Cells, n: nat, v: FlowValue)
    requires JumpsInside(p) && P.proc == p.id && n != p.id && Visit(n, ExitPoint, v) in FinalVisits(P, Forwards, p, cells)
    ensures Visit(n, ExitPoint, v) in Forward(P, p.body, P.trans(ProcNode(p), EntryPoint, P.init), BodyStart(P, p, cells)).0.visits
  {
    hide Converge;
  }

  lemma BodyPairs(p: Proc, init: FlowValue, gen: BitSets, kill: BitSets, q: Place)
    requires Analyzable(p) && !init.undefined && q in AllPlaces(p) && FE.ShowsOperands(q.s)
    ensures Pairs(ComputedIsDefined(), ScopeOf(p), GenKillProblem(p, init, gen, kill), DefinedProblem(p, ExitPoint), q.s.id, p.body)
    ensures q.s.id != p.id
  {
    hide Respected;
    hide StmtIds;
    hide DistinctStmt;
    hide Pairs;
    TreeIsWellFormed(p);
    OnlyLeafAt(p.body, Stop, q.s.id);
    ComputedRespected(p, init, gen, kill);
    ForwardPairs(ComputedIsDefined(), ScopeOf(p), GenKillProblem(p, init, gen, kill), DefinedProblem(p, ExitPoint), q.s.id, p.body);
  }

  lemma FinalPaired(p: Proc, init: FlowValue, gen: BitSets, kill: BitSets, cells: Cells, q: Place, v: FlowValue, w: FlowValue)
    requires Analyzable(p) && !init.undefined && q in AllPlaces(p) && FE.ShowsOperands(q.s)
    requires Visit(q.s.id, ExitPoint, v) in FinalVisits(GenKillProblem(p, init, gen, kill), Forwards, p, cells)
    requires Visit(q.s.id, ExitPoint, w) in FinalVisits(DefinedProblem(p, ExitPoint), Forwards, p, cells)
    ensures ComputedIsDefined()(v, w)
  {
    hide Pairs;
    hide FinalVisits;
    hide AllPlaces;
    hide Tree;
    hide Converge;
    hide Forward;
    var (R, W, n) := (ComputedIsDefined(), ScopeOf(p), q.s.id);
    var (P, Q) := (GenKillProblem(p, init, gen, kill), DefinedProblem(p, ExitPoint));
    BodyPairs(p, init, gen, kill, q);
    FinalRelated(p, init, gen, kill, cells);
    ShownInBody(P, p, cells, n, v);
    ShownInBody(Q, p, cells, n, w);
    TransMeaning(gen, kill, ProcNode(p), EntryPoint, P.init);
    PairsAt(R, W, P, Q, n, p.body, P.trans(ProcNode(p), EntryPoint, P.init), Q.trans(ProcNode(p), EntryPoint, Q.init),
            BodyStart(P, p, cells), BodyStart(Q, p, cells));
  }

  lemma PairsAt(R: Relation, W: Scope, P: Problem, Q: Problem, n: nat, s: Stmt, v: FlowValue, w: FlowValue, a: State, b: State)
    requires Pairs(R, W, P, Q, n, s) && CellsRelated(R, W, a, b) && R(v, w) && Unseen(n, a) && Unseen(n, b)
    ensures PairedAt(R, n, Forward(P, s, v, a).0, Forward(Q, s, w, b).0)
  {
  }

  // The client is shown a defined value at q.
  ghost predicate DefinedThere(p: Proc, q: Place)
    requires FE.ShowsOperands(q.s)
  {
    HasOperands(q.s) || ComputedAt(p, Run(q.s, q.k))
  }

  lemma ComputedShown(p: Proc, cells: Cells, q: Place)
    requires Analyzable(p) && q in AllPlaces(p) && FE.ShowsOperands(q.s) && !HasOperands(q.s) && ComputedAt(p, Run(q.s, q.k))
    ensures Shown(FinalVisits(DefinedProblem(p, ExitPoint), Forwards, p, cells), q.s.id, REACHABLE)
  {
    hide FE.Reached;
    hide FinalVisits;
    hide AllPlaces;
    TreeIsWellFormed(p);
    DefinedLike(p, ExitPoint);
    ForwardAnalysisExact(DefinedProblem(p, ExitPoint), REACHABLE, EvaluatedFact(), p, true, cells, q);
  }

  // At such a place, the raw bits are facts.
  lemma RawIsShown(p: Proc, init: FlowValue, gen: BitSets, kill: BitSets, cells: Cells, q: Place, b: Bit)
    requires Analyzable(p) && !init.undefined && q in AllPlaces(p) && FE.ShowsOperands(q.s) && DefinedThere(p, q)
    ensures var V := FinalVisits(GenKillProblem(p, init, gen, kill), Forwards, p, cells);
      b in RawBits(V, q.s.id) <==> Shown(V, q.s.id, b)
  {
    hide FinalVisits;
    hide AllPlaces;
    hide FE.Reached;
    var V := FinalVisits(GenKillProblem(p, init, gen, kill), Forwards, p, cells);
    if HasOperands(q.s) {
      OperandsDefined(p, init, gen, kill, cells, q, b);
    } else {
      var U := FinalVisits(DefinedProblem(p, ExitPoint), Forwards, p, cells);
      ComputedShown(p, cells, q);
      var w :| Visit(q.s.id, ExitPoint, w) in U && Has(w, REACHABLE);
      if b in RawBits(V, q.s.id) {
        var v :| v in V && v.node == q.s.id && v.point == ExitPoint && b in v.value.bits;
        assert v == Visit(q.s.id, ExitPoint, v.value);
        FinalPaired(p, init, gen, kill, cells, q, v.value, w);
        assert Has(v.value, b);
      }
      if Shown(V, q.s.id, b) { ShownIsRaw(V, q.s.id, b); }
    }
  }

  /** Wherever a path leads from the start or through an expression, the recorded dirty
      variables are exactly the live ones that some path leaves dirty. */
  lemma {:induction false} DirtyVarsExact(p: Proc, chunks: seq<seq<nat>>, formals: set<nat>, m: Marks, q: Place, live: set<nat>, x: nat)
    requires Analyzable(p) && InWords(chunks) && q in AllPlaces(p) && FE.ShowsOperands(q.s) && DefinedThere(p, q)
    ensures x in DirtyVars(p, chunks, formals, m, q.s.id, live)
       <==> x in live && InSome(chunks, x) && HoldsAt(DirtyFact(x), p, x in formals, q)
  {
    hide HoldsAt;
    hide FinalVisits;
    hide DefinedThere;
    if chunks != [] {
      var V := VisitsDV(p, chunks[0], formals, m);
      var r := DirtySets(p, chunks[0], m);
      DirtyVarsExact(p, chunks[1..], formals, AfterDV(p, chunks[0], formals, m), q, live, x);
      InSomeSplit(chunks, x);
      forall i: Bit | i < |chunks[0]|
        ensures i in RawBits(V, q.s.id) <==> HoldsAt(DirtyFact(chunks[0][i]), p, chunks[0][i] in formals, q)
      {
        DirtyBitExact(p, chunks[0], formals, m, q, i);
        RawIsShown(p, FormalBits(chunks[0], formals), r.gen, r.kill, m.cells, q, i);
      }
      if x in chunks[0] && HoldsAt(DirtyFact(x), p, x in formals, q) {
        var i :| 0 <= i < |chunks[0]| && chunks[0][i] == x;
        assert i in RawBits(V, q.s.id);
      }
    }
  }

  /** There, a return is marked if and only if some path reaches it with a child outstanding. */
  lemma ReturnsMarkedExactly(p: Proc, m: Marks, q: Place)
    requires Analyzable(p) && q in AllPlaces(p) && q.s.Return? && DefinedThere(p, q)
    ensures NeedsSync(p, m, q.s.id) <==> HoldsAt(ChildFact(), p, false, q)
  {
    hide FE.Reached;
    hide FinalVisits;
    var r := SyncSets(p, m);
    TreeIsWellFormed(p);
    SyncLike(p, m);
    ForwardAnalysisExact(SyncProblem(p, m), CHILDREN_OUTSTANDING, ChildFact(), p, false, m.cells, q);
    RawIsShown(p, EmptySet, r.gen, r.kill, m.cells, q, CHILDREN_OUTSTANDING);
  }
}
