/**
 Sync safety: in every run of the compiled procedure, under every schedule and whatever its
 variables hold, no child is outstanding when the procedure is left.  Races do not matter
 for this, nor does what the serial meaning would do.
 */
module SyncSafety {
  import opened Ast
  import opened Control
  import opened Facts
  import opened Clients
  import opened Convergence
  import opened Analyses
  import opened ForwardAnalyses
  import opened Leaving
  import opened Semantics
  import opened Noninterference
  import opened Machine
  import opened SaveRestore
  import opened Schedules
  import opened Compiled

  // T are the events so far.  Only the slow version waits for children, and it has spawned
  // one since the last sync.
  ghost predicate Counted(c: Code, m: State, T: Trace) {
    && Reaches(c.p, T, m.at)
    && (m.outstanding > 0 ==> m.version.Slow? && After(ChildFact(), T, false))
    && (m.outstanding == 0 ==> m.late == map[])
    && (m.at == Halt ==> m.outstanding == 0)
  }

  lemma SpawnCounted(env: Env, c: Code, s: Stmt, k: Cont, m: State, T: Trace, choice: Choice)
    requires Counted(c, m, T) && s.Spawn? && m.at == Run(s, k) && SpawnMoves(env, c, s, k, m, choice).Moved?
    ensures var r := SpawnMoves(env, c, s, k, m, choice); Counted(c, r.to, T + r.t)
  {
    hide EvaluateSpawn;
    hide Receive;
    hide View;
    hide Reaches;
    hide IsSpawnPath;
    hide AllPlaces;
    var o := EvaluateSpawn(env, c.V, s, View(c, m), m.hist);
    var (ev, t) := (SpawnEvent(s), o.t + [SpawnEvent(s)]);
    EvalSpawnPath(env, c.V, s, View(c, m), m.hist);
    Cut(o.t, [ev]);
    assert t[..|t| - 1] == o.t && Step(c.p, m.at, t, Skip(k));
    ReachesOn(c.p, T, m.at, t, Skip(k));
    AfterSplit(ChildFact(), T, t, false);
    SplitLast(ChildFact(), t, After(ChildFact(), T, false));
  }

  lemma SyncCounted(c: Code, id: nat, k: Cont, m: State, T: Trace, choice: Choice)
    requires Counted(c, m, T) && m.at == Run(Sync(id), k)
    ensures var r := SyncMoves(c, id, k, m, choice); Counted(c, r.to, T + r.t)
  {
    hide Reaches;
    hide Step;
    SyncStep(c.p, id, k);
    ReachesOn(c.p, T, m.at, [Synced], Skip(k));
  }

  // A step that is neither a spawn nor a sync, up to the sync that leaving adds.
  lemma OrdinaryCounted(env: Env, c: Code, m: State, T: Trace)
    requires Counted(c, m, T) && !IsSpawnOrSync(m.at) && Ordinary(env, c, m).Moved?
    ensures var r := Ordinary(env, c, m);
      && Reaches(c.p, T + r.t, r.to.at)
      && r.to.version == m.version && r.to.outstanding == m.outstanding && r.to.late == m.late
      && (m.outstanding > 0 && !(m.at.Run? && m.at.s.Return?) ==> After(ChildFact(), T + r.t, false))
      && (r.to.at == Halt ==> (m.at.Run? && m.at.s.Return?) || m.at == Skip(Stop))
  {
    hide SerialStep;
    hide Step;
    hide View;
    hide Reaches;
    hide Unwritten;
    var S := Serial(m.at, View(c, m), m.hist, m.subject);
    var n := SerialStep(env, c.V, c.p, S);
    OrdinaryFacts(env, c.V, c.p, S);
    ReachesOn(c.p, T, m.at, n.t, n.to.at);
    if m.outstanding > 0 && !(m.at.Run? && m.at.s.Return?) {
      assert !IsLocal(Synced);
      ChildStays(n.t);
      AfterSplit(ChildFact(), T, n.t, false);
    }
    if n.to.at == Halt { OnlyLeavesHalt(env, c.V, c.p, S); }
  }

  // Leaving: a marked return or end syncs, an unmarked one has nothing to wait for.
  lemma LeavingCounted(env: Env, c: Code, m: State, T: Trace)
    requires Counted(c, m, T) && CoversChildren(c) && Ordinary(env, c, m).Moved?
    requires (m.at.Run? && m.at.s.Return?) || m.at == Skip(Stop)
    ensures var r := Ordinary(env, c, m);
      var marked := (if m.at.Run? then m.at.s.id else c.p.id) in c.rec.needsSync;
      Counted(c, LeaveIf(marked, r.to), T + r.t)
  {
    hide Reaches;
    hide SerialStep;
    hide CoversChildren;
    hide View;
    var S := Serial(m.at, View(c, m), m.hist, m.subject);
    OrdinaryCounted(env, c, m, T);
    var u := LeavingStep(env, c.V, c.p, S);
    if m.at.Run? && m.at.s.id !in c.rec.needsSync {
      UnmarkedReturn(c, m, T, m.at.s.id, m.at.s.result, m.at.k, u);
    } else if !m.at.Run? && c.p.id !in c.rec.needsSync {
      UnmarkedEnd(c, m, T);
    }
  }

  lemma StepCounted(env: Env, c: Code, m: State, T: Trace, choice: Choice)
    requires Counted(c, m, T) && CoversChildren(c) && MachineStep(env, c, m, choice).Moved?
    ensures var r := MachineStep(env, c, m, choice); Counted(c, r.to, T + r.t)
  {
    hide Reaches;
    hide Ordinary;
    hide SpawnMoves;
    hide SyncMoves;
    hide CoversChildren;
    var a := Arrive(m, choice.arrive);
    assert Counted(c, a, T);
    if a.at.Run? && a.at.s.Spawn? {
      SpawnCounted(env, c, a.at.s, a.at.k, a, T, choice);
    } else if a.at.Run? && a.at.s.Sync? {
      SyncCounted(c, a.at.s.id, a.at.k, a, T, choice);
    } else if (a.at.Run? && a.at.s.Return?) || a.at == Skip(Stop) {
      LeavingCounted(env, c, a, T);
    } else {
      OrdinaryCounted(env, c, a, T);
    }
  }

  lemma {:induction false} RunCounted(env: Env, c: Code, m: State, T: Trace, choices: seq<Choice>)
    requires Counted(c, m, T) && CoversChildren(c) && MachineRun(env, c, m, choices).Moved?
    ensures var r := MachineRun(env, c, m, choices); Counted(c, r.to, T + r.t)
    decreases |choices|
  {
    hide MachineStep;
    hide Counted;
    hide CoversChildren;
    if choices == [] {
      assert T + [] == T;
    } else {
      var one := MachineStep(env, c, m, choices[0]);
      var rest := MachineRun(env, c, one.to, choices[1..]);
      StepCounted(env, c, m, T, choices[0]);
      RunCounted(env, c, one.to, T + one.t, choices[1..]);
      assert (T + one.t) + rest.t == T + (one.t + rest.t);
    }
  }

  lemma StartCounted(c: Code, arguments: Values, frame: Values)
    ensures Counted(c, MachineStart(c.p, arguments, frame), [])
  {
    StartCorresponds(c, arguments, frame);
  }

  /** Where the returns and ends that paths reach with a child outstanding are marked, every
      run that leaves the procedure leaves it with no child outstanding and no result on
      its way. */
  lemma LeavesNoChild(env: Env, c: Code, arguments: Values, frame: Values, choices: seq<Choice>)
    requires CoversChildren(c)
    ensures var r := MachineRun(env, c, MachineStart(c.p, arguments, frame), choices);
      r.Moved? && r.to.at == Halt ==> r.to.outstanding == 0 && r.to.late == map[]
  {
    hide MachineRun;
    hide CoversChildren;
    StartCounted(c, arguments, frame);
    var m := MachineStart(c.p, arguments, frame);
    if MachineRun(env, c, m, choices).Moved? { RunCounted(env, c, m, [], choices); }
  }

  /** The implicit syncs that AnalyzeSyncFlow marks are enough. */
  lemma CompiledLeavesNoChild(env: Env, p: Proc, vars: seq<nat>, formals: set<nat>, rec: Recorded,
                              arguments: Values, frame: Values, choices: seq<Choice>)
    requires Analyzable(p) && RecordedBy(p, vars, formals, rec)
    ensures var r := MachineRun(env, Code(p, SetOf(vars), rec), MachineStart(p, arguments, frame), choices);
      r.Moved? && r.to.at == Halt ==> r.to.outstanding == 0 && r.to.late == map[]
  {
    hide MachineRun;
    hide RecordedBy;
    hide Covers;
    hide CoversChildren;
    AnalysesCover(p, vars, formals, rec);
    var c := Code(p, SetOf(vars), rec);
    ChildrenOf(c, formals);
    LeavesNoChild(env, c, arguments, frame, choices);
  }

  // ---------- Which children are outstanding ----------

  // The step steals the continuation of a spawn, so that its child goes on beside it.
  predicate Steals(m: State, choice: Choice) {
    m.at.Run? && m.at.s.Spawn? && choice.away
  }

  // The step waits for all children: a sync of the slow version, or leaving where it is marked.
  predicate Waits(c: Code, m: State) {
    m.version.Slow? && if m.at.Run? then m.at.s.Sync? || (m.at.s.Return? && m.at.s.id in c.rec.needsSync)
                       else m.at == Skip(Stop) && c.p.id in c.rec.needsSync
  }

  // Of the children that `n` stands for and those stolen from in a run, how many have not been
  // waited for.
  ghost function Unwaited(env: Env, c: Code, m: State, choices: seq<Choice>, n: nat): nat
    decreases |choices|
  {
    if choices == [] then n
    else
      var r := MachineStep(env, c, m, choices[0]);
      if r.Crash? then n
      else Unwaited(env, c, r.to, choices[1..], if Waits(c, m) then 0 else if Steals(m, choices[0]) then n + 1 else n)
  }

  /** What the machine counts as outstanding are the children stolen from since it last waited. */
  lemma {:induction false} OutstandingIsUnwaited(env: Env, c: Code, m: State, choices: seq<Choice>)
    ensures var r := MachineRun(env, c, m, choices);
      r.Moved? ==> r.to.outstanding == Unwaited(env, c, m, choices, m.outstanding)
    decreases |choices|
  {
    hide MachineStep;
    if choices != [] {
      StepCounts(env, c, m, choices[0]);
      var r := MachineStep(env, c, m, choices[0]);
      if r.Moved? { OutstandingIsUnwaited(env, c, r.to, choices[1..]); }
    }
  }

  lemma StepCounts(env: Env, c: Code, m: State, choice: Choice)
    ensures var r := MachineStep(env, c, m, choice);
      r.Moved? ==> r.to.outstanding == if Waits(c, m) then 0 else if Steals(m, choice) then m.outstanding + 1 else m.outstanding
  {
    hide SerialStep;
    hide EvaluateSpawn;
    hide Receive;
  }
}
