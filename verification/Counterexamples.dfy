/**
 Two small procedures on which the analyses of the exit go wrong: one whose exit no path
 computes, so that needs_return is left to a stale bit, and one with an outstanding child
 at an exit that control does not fall into, so that the assertion in TransSF fails.
 */
module Counterexamples {
  import opened Ast
  import opened FlowValues
  import opened Flow
  import opened Convergence
  import opened Control
  import opened Facts
  import opened Clients
  import opened Walks
  import opened Results
  import opened Analyses
  import opened ForwardAnalyses
  import opened Leaving
  import FE = ForwardExact

  // ---------- { L: goto L; } ----------

  const LoopJump := Then(Goto(3, 2), Null)
  const LoopItems := Then(Label(2), LoopJump)
  const Looping := Proc(0, Block(1, LoopItems))

  lemma LoopingIsTree()
    ensures Tree(Looping) && JumpsInside(Looping)
  {
    var q := Place(Label(2), Seq(LoopJump, Stop));
    assert q in Places(LoopItems, Stop);
    assert q in AllPlaces(Looping);
    TreeIsWellFormed(Looping);
  }

  // The control states that a run goes through.
  predicate InLoop(a: Control) {
    || a == Run(Block(1, LoopItems), Stop)
    || a == Run(LoopItems, Stop)
    || a == Run(Label(2), Seq(LoopJump, Stop))
    || a == Skip(Seq(LoopJump, Stop))
    || a == Run(LoopJump, Stop)
    || a == Run(Goto(3, 2), Seq(Null, Stop))
  }

  lemma OneLabel(k: Cont)
    requires Place(Label(2), k) in AllPlaces(Looping)
    ensures k == Seq(LoopJump, Stop)
  {
    assert Places(LoopJump, Stop) == {Place(LoopJump, Stop), Place(Goto(3, 2), Seq(Null, Stop)), Place(Null, Stop)};
    assert Places(Label(2), Seq(LoopJump, Stop)) == {Place(Label(2), Seq(LoopJump, Stop))};
  }

  lemma {:induction false} LoopsForever(a: Control, path: Path)
    requires InLoop(a) && IsRun(Looping, a, path)
    ensures InLoop(End(a, path))
    decreases |path|
  {
    hide AllPlaces;
    if path != [] {
      var b := path[0].to;
      if a == Run(Goto(3, 2), Seq(Null, Stop)) { OneLabel(b.k); }
      LoopsForever(b, path[1..]);
    }
  }

  // The only pass that changes a cell makes the label's values defined.
  ghost function LoopCells(): Cells {
    Started(Looping, map[]).cells[Cell(2, LabelValues) := FlowValue(false, {REACHABLE})]
  }

  lemma LoopPass(st: State)
    requires st.cells == Started(Looping, map[]).cells
    ensures var r := ForwardProc(ReturnProblem(Looping), Looping, st); r.cells == LoopCells() && r.changed
  {
  }

  lemma LoopPassAgain(st: State)
    requires st.cells == LoopCells()
    ensures ForwardProc(ReturnProblem(Looping), Looping, st).cells == st.cells
    ensures ForwardProc(ReturnProblem(Looping), Looping, st).changed == st.changed
    ensures var (a, v) := BodyEnd(ReturnProblem(Looping), Looping, st);
            FlowInto(a, Cell(0, ReturnValues), v).1 == FlowValue(true, {REACHABLE})
  {
  }

  /** The end of `{ L: goto L; }` cannot be reached, but the value at its exit is undefined and
      still carries the bit, so a void procedure is given an implicit return. */
  lemma StaleReachable()
    ensures Tree(Looping) && JumpsInside(Looping)
    ensures !EndReachable(Looping) && NeedsReturn(Looping, Unmarked, ProcType(true, false, false))
  {
    hide ForwardProc;
    LoopingIsTree();
    forall path | IsRun(Looping, Run(Looping.body, Stop), path) ensures End(Run(Looping.body, Stop), path) != Halt {
      LoopsForever(Run(Looping.body, Stop), path);
    }
    var P := ReturnProblem(Looping);
    var st := Started(Looping, map[]);
    LoopPass(st.(changed := false));
    var next := ForwardProc(P, Looping, st.(changed := false));
    LoopPassAgain(next.(changed := false));
    assert Converge(P, Forwards, Looping, st).cells == LoopCells();
    LoopPassAgain(FinalState(P, Looping, map[]));
  }

  // ---------- { return; spawn f(); } ----------

  const DeadSpawn := Then(Spawn(3, NoExpr, Assign, Id(4, 9), NoExprs), Null)
  const DeadItems := Then(Return(2, NoExpr), DeadSpawn)
  const Dead := Proc(0, Block(1, DeadItems))

  lemma DeadIsTree()
    ensures Tree(Dead) && JumpsInside(Dead)
    ensures Place(DeadSpawn.first, Seq(Null, Stop)) in AllPlaces(Dead)
  {
    DeadPlaces();
    hide Places;
    TreeIsWellFormed(Dead);
  }

  lemma DeadPlaces()
    ensures Place(DeadSpawn.first, Seq(Null, Stop)) in AllPlaces(Dead)
    ensures LabelsDefined(Dead)
  {
    assert Place(DeadSpawn.first, Seq(Null, Stop)) in Places(DeadSpawn, Stop);
    assert Places(DeadSpawn, Stop) <= Places(DeadItems, Stop);
  }

  // Every run returns after three steps.
  lemma DeadReturns(path: Path)
    requires IsRun(Dead, Run(Dead.body, Stop), path) && End(Run(Dead.body, Stop), path) == Halt
    ensures Returned in TraceOf(path)
  {
    hide AllPlaces;
    var a := path[1..];
    var b := a[1..];
    assert path[0].to == Run(DeadItems, Stop);
    assert a != [] && IsRun(Dead, path[0].to, a);
    assert a[0].to == Run(Return(2, NoExpr), Seq(DeadSpawn, Stop));
    assert b != [] && IsRun(Dead, a[0].to, b);
    assert b[0].t[|b[0].t| - 1] == Returned;
    FirstMove(path);
    FirstMove(a);
    FirstMove(b);
  }

  lemma DeadLeaves()
    ensures CanLeave(Dead)
  {
    hide AllPlaces;
    var r := Run(Return(2, NoExpr), Seq(DeadSpawn, Stop));
    Prepended(Dead, r, Move([Returned], Halt), []);
    var c := [Move([Returned], Halt)] + [];
    Prepended(Dead, Run(DeadItems, Stop), Move([], r), c);
    Prepended(Dead, Run(Dead.body, Stop), Move([], Run(DeadItems, Stop)), [Move([], r)] + c);
  }

  // From the dead spawn on, the end of the body is reached with the child outstanding.
  lemma DeadSpawnFallsOff()
    ensures FE.Reached(ChildFact(), Dead, false, Halt)
  {
    hide Places;
    hide Tree;
    hide JumpsInside;
    hide Step;
    hide IsRun;
    var (s, k) := (DeadSpawn.first, Seq(Null, Stop));
    DeadIsTree();
    var d := DeadRest();
    var t := [Use(9)] + [Spawned(NoReceipt)];
    DeadSpawnStep();
    Prepended(Dead, Run(s, k), Move(t, Skip(k)), d);
    Two(ChildFact(), Use(9), Spawned(NoReceipt), false);
    assert t + [] == t;
    assert FE.IsStart(Dead, Run(s, k));
    assert FE.Brings(ChildFact(), Dead, Run(s, k), false, Halt);
  }

  lemma DeadSpawnStep()
    ensures Step(Dead, Run(DeadSpawn.first, Seq(Null, Stop)), [Use(9)] + [Spawned(NoReceipt)], Skip(Seq(Null, Stop)))
  {
    hide Places;
    var (t, u: Trace) := ([Use(9)] + [Spawned(NoReceipt)], [Use(9)]);
    assert t[..1] == u && u[..0] == [] && u[0..1] == u && u[1..] == [];
    assert IsSpawnPath(DeadSpawn.first, u);
  }

  lemma DeadRest() returns (path: Path)
    ensures IsRun(Dead, Skip(Seq(Null, Stop)), path) && End(Skip(Seq(Null, Stop)), path) == Halt && TraceOf(path) == []
  {
    hide Places;
    var d := [Move([], Halt)];
    assert d[1..] == [];
    Prepended(Dead, Run(Null, Stop), Move([], Skip(Stop)), d);
    path := [Move([], Skip(Stop))] + d;
    Prepended(Dead, Skip(Seq(Null, Stop)), Move([], Run(Null, Stop)), path);
    path := [Move([], Run(Null, Stop))] + path;
  }

  /** An unreachable spawn after the last return trips the assertion in TransSF: the child
      counts as outstanding at the exit, but needs_return is not set. */
  lemma DeadSpawnTripsAssertion(m: Marks, n: Marks, ty: ProcType)
    ensures Tree(Dead) && JumpsInside(Dead) && CanLeave(Dead)
    ensures NeedsSync(Dead, m, Dead.id) && !NeedsReturn(Dead, n, ty)
  {
    hide FE.Reached;
    hide IsRun;
    hide ExitValue;
    hide FinalVisits;
    hide CanLeave;
    hide Tree;
    hide JumpsInside;
    hide ExitComputed;
    hide NeedsSync;
    hide CarriedToEnd;
    DeadIsTree();
    DeadLeaves();
    LeftIsComputed(Dead);
    DeadSpawnFallsOff();
    SyncFlowExact(Dead, m);
    ReturnFlowExact(Dead, n);
    forall path | IsRun(Dead, Run(Dead.body, Stop), path) && End(Run(Dead.body, Stop), path) == Halt
      ensures Returned in TraceOf(path)
    {
      DeadReturns(path);
    }
  }
}
