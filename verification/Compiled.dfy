/**
 The analyses record enough: a procedure compiled with what they leave on its nodes is
 correct under every schedule.
 */
module Compiled {
  import opened Ast
  import opened FlowValues
  import opened Flow
  import opened Convergence
  import opened Control
  import opened Clients
  import opened Walks
  import opened Results
  import opened Analyses
  import opened ForwardAnalyses
  import opened Leaving
  import opened Semantics
  import opened Noninterference
  import opened Machine
  import opened SaveRestore
  import opened Schedules
  import BE = BackwardExact
  import FE = ForwardExact

  // The marks that AnalyzeReturnFlow leaves.
  ghost function AfterReturn(p: Proc, m: Marks): Marks
    requires JumpsInside(p)
  {
    Marks(m.sets, Converge(ReturnProblem(p), Forwards, p, Started(p, m.cells)).cells)
  }

  // The marks at each stage of AnalyzeProgram.
  ghost function MarksForDirty(p: Proc, vars: seq<nat>): Marks
    requires JumpsInside(p)
  {
    AfterLive(p, Chunks(vars), Unmarked)
  }

  ghost function MarksForReturn(p: Proc, vars: seq<nat>, formals: set<nat>): Marks
    requires JumpsInside(p)
  {
    AfterDirty(p, Chunks(vars), formals, MarksForDirty(p, vars))
  }

  ghost function MarksForSync(p: Proc, vars: seq<nat>, formals: set<nat>): Marks
    requires JumpsInside(p)
  {
    AfterReturn(p, MarksForReturn(p, vars, formals))
  }

  predicate IsReturnIn(s: Stmt, n: nat) {
    match s
    case Then(first, rest) => IsReturnIn(first, n) || IsReturnIn(rest, n)
    case Block(_, items) => IsReturnIn(items, n)
    case If(_, _, yes, no) => IsReturnIn(yes, n) || IsReturnIn(no, n)
    case Switch(_, _, _, body) => IsReturnIn(body, n)
    case While(_, _, body) => IsReturnIn(body, n)
    case Do(_, body, _) => IsReturnIn(body, n)
    case For(_, _, _, _, body) => IsReturnIn(body, n)
    case Return(id, _) => id == n
    case _ => false
  }

  // AnalyzeProgram recorded rec.
  ghost predicate RecordedBy(p: Proc, vars: seq<nat>, formals: set<nat>, rec: Recorded)
    requires JumpsInside(p)
  {
    && (forall n :: At(rec.live, n) == LiveVars(p, Chunks(vars), Unmarked, n))
    && (forall n :: At(rec.dirty, n) == DirtyVars(p, Chunks(vars), formals, MarksForDirty(p, vars), n, At(rec.live, n)))
    && (forall n :: n in rec.needsSync <==>
          (IsReturnIn(p.body, n) || n == p.id) && NeedsSync(p, MarksForSync(p, vars, formals), n))
  }

  lemma {:induction false} ReturnPlaced(s: Stmt, k: Cont, q: Place)
    requires q in Places(s, k) && q.s.Return?
    ensures IsReturnIn(s, q.s.id)
  {
    if q != Place(s, k) {
      match s
      case Then(first, rest) =>
        if q in Places(rest, k) { ReturnPlaced(rest, k, q); } else { ReturnPlaced(first, Seq(rest, k), q); }
      case Block(_, items) => ReturnPlaced(items, k, q);
      case If(_, _, yes, no) => if q in Places(yes, k) { ReturnPlaced(yes, k, q); } else { ReturnPlaced(no, k, q); }
      case Switch(_, _, _, body) => ReturnPlaced(body, InSwitch(s, k), q);
      case While(_, _, body) => ReturnPlaced(body, InLoop(s, k), q);
      case Do(_, body, _) => ReturnPlaced(body, InLoop(s, k), q);
      case For(_, _, _, _, body) => ReturnPlaced(body, InLoop(s, k), q);
    }
  }

  lemma VariablesCovered(p: Proc, vars: seq<nat>, formals: set<nat>, rec: Recorded, q: Place)
    requires Analyzable(p) && RecordedBy(p, vars, formals, rec)
    requires q in AllPlaces(p) && (q.s.Spawn? || q.s.Sync?)
    ensures CoversVariables(Code(p, SetOf(vars), rec), formals, q)
  {
    hide LiveVars;
    hide DirtyVars;
    hide HoldsAt;
    hide BE.Live;
    hide AllPlaces;
    RecordedLive(p, vars, q);
    var live := At(rec.live, q.s.id);
    assert live == LiveSet(p, SetOf(vars), Skip(q.k));
    forall x | x in live && HoldsAt(DirtyFact(x), p, x in formals, q) ensures x in At(rec.dirty, q.s.id) {
      ChunksCover(vars, x);
      DirtyVarsCover(p, Chunks(vars), formals, MarksForDirty(p, vars), q, live, x);
    }
  }

  lemma AnalysesCover(p: Proc, vars: seq<nat>, formals: set<nat>, rec: Recorded)
    requires Analyzable(p) && RecordedBy(p, vars, formals, rec)
    ensures Covers(Code(p, SetOf(vars), rec), formals)
  {
    hide HoldsAt;
    hide FE.Reached;
    hide CoversVariables;
    hide NeedsSync;
    var m := MarksForSync(p, vars, formals);
    forall q | q in AllPlaces(p) && q.s.Return? && HoldsAt(ChildFact(), p, false, q) ensures q.s.id in rec.needsSync {
      ReturnPlaced(p.body, Stop, q);
      ReturnsMarked(p, m, q);
    }
    if FE.Reached(ChildFact(), p, false, Halt) { EndMarked(p, m); }
    forall q | q in AllPlaces(p) && (q.s.Spawn? || q.s.Sync?) ensures CoversVariables(Code(p, SetOf(vars), rec), formals, q) {
      VariablesCovered(p, vars, formals, rec, q);
    }
  }

  /** A procedure compiled with what the analyses record behaves, under every schedule, as
      its serial meaning does on race-free runs, and leaves no child outstanding. */
  lemma CompiledCorrect(env: Env, p: Proc, vars: seq<nat>, rec: Recorded, arguments: Values, frame: Values, choices: seq<Choice>)
    requires Analyzable(p) && RecordedBy(p, vars, arguments.Keys, rec)
    requires SerialRun(env, SetOf(vars), p, SerialStart(p, arguments), |choices|).Next?
    requires RaceFree(SerialRun(env, SetOf(vars), p, SerialStart(p, arguments), |choices|).t, {})
    ensures var n := SerialRun(env, SetOf(vars), p, SerialStart(p, arguments), |choices|);
      var r := MachineRun(env, Code(p, SetOf(vars), rec), MachineStart(p, arguments, frame), choices);
      && r.Moved? && r.t == n.t && r.to.at == n.to.at && r.to.hist == n.to.hist
      && (r.to.at == Halt ==> r.to.outstanding == 0 && r.to.late == map[])
  {
    hide SerialRun;
    hide MachineRun;
    hide RecordedBy;
    hide Covers;
    hide RaceFree;
    AnalysesCover(p, vars, arguments.Keys, rec);
    SaveRestoreCorrect(env, Code(p, SetOf(vars), rec), arguments, frame, choices);
  }
}
