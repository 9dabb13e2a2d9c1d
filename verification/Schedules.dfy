/**
 Every schedule of a compiled procedure corresponds to its serial run.
 */
module Schedules {
  import opened Ast
  import opened Control
  import opened Facts
  import opened Clients
  import opened Convergence
  import opened Analyses
  import opened Semantics
  import opened Agreement
  import opened Noninterference
  import opened Machine
  import opened Positions
  import opened ForwardAnalyses
  import opened Leaving
  import opened SaveRestore
  import BP = BackwardPaths
  import FP = ForwardPaths
  import FE = ForwardExact

  // ---------- What the recorded sets have to cover ----------

  ghost predicate CoversVariables(c: Code, formals: set<nat>, q: Place)
    requires HasId(q.s)
  {
    var live := LiveSet(c.p, c.V, Skip(q.k));
    && live <= At(c.rec.live, q.s.id)
    && forall x :: x in live && HoldsAt(DirtyFact(x), c.p, x in formals, q) ==> x in At(c.rec.dirty, q.s.id)
  }

  ghost predicate CoversChildren(c: Code) {
    && (forall q {:trigger HoldsAt(ChildFact(), c.p, false, q)} ::
          q in AllPlaces(c.p) && q.s.Return? && HoldsAt(ChildFact(), c.p, false, q) ==> q.s.id in c.rec.needsSync)
    && (FE.Reached(ChildFact(), c.p, false, Halt) ==> c.p.id in c.rec.needsSync)
  }

  // The recorded sets are large enough at every spawn, sync and return.
  ghost predicate Covers(c: Code, formals: set<nat>) {
    && CoversChildren(c)
    && forall q :: q in AllPlaces(c.p) && (q.s.Spawn? || q.s.Sync?) ==> CoversVariables(c, formals, q)
  }

  lemma ChildrenOf(c: Code, formals: set<nat>)
    requires Covers(c, formals)
    ensures CoversChildren(c)
  {
  }

  // Some path brings control to a with the events T.
  ghost predicate Reaches(p: Proc, T: Trace, a: Control) {
    ControlPlaced(p, a) &&
    exists path :: IsRun(p, Run(p.body, Stop), path) && End(Run(p.body, Stop), path) == a && TraceOf(path) == T
  }

  lemma ReachesOn(p: Proc, T: Trace, a: Control, t: Trace, b: Control)
    requires Reaches(p, T, a) && Step(p, a, t, b)
    ensures Reaches(p, T + t, b)
  {
    hide Step;
    var path :| IsRun(p, Run(p.body, Stop), path) && End(Run(p.body, Stop), path) == a && TraceOf(path) == T;
    var m := [Move(t, b)];
    assert m[1..] == [] && IsRun(p, a, m) && TraceOf(m) == t + [];
    Leaving.Joined(p, Run(p.body, Stop), path, m);
    JoinedTraces(path, m);
    assert t + [] == t;
    StepPlaced(p, a, t, b);
  }

  // The part of a step that evaluates the operands of q.
  ghost predicate IsOperandPath(s: Stmt, u: Trace) {
    match s
    case Spawn(_, _, _, _, _) => IsSpawnPath(s, u)
    case Return(_, result) => IsPathOpt(result, u)
    case Sync(_) => u == []
    case _ => false
  }

  // What holds on the path of a run holds at the place, as the analyses see it.
  lemma HoldsOnRun(F: Fact, p: Proc, init: bool, q: Place, T: Trace, u: Trace)
    requires Reaches(p, T, Run(q.s, q.k)) && IsOperandPath(q.s, u) && After(F, T + u, init)
    ensures HoldsAt(F, p, init, q)
  {
    hide AfterExpr;
    hide AfterExprs;
    hide IsSpawnPath;
    AfterSplit(F, T, u, init);
    var now := After(F, T, init);
    match q.s {
      case Spawn(_, _, _, _, _) => BP.SpawnCovered(F, q.s, u, now);
      case Return(_, result) => BP.OptCovered(F, result, u, now);
      case Sync(_) =>
    }
    assert FP.AtExit(F, {}, q.s, now);
    FE.ExitGrows(F, q.s);
    if now {
      assert FE.Brings(F, p, Run(p.body, Stop), init, Run(q.s, q.k));
    }
  }

  lemma {:induction false} PlaceReceivers(s: Stmt, k: Cont, q: Place)
    requires q in Places(s, k)
    ensures Receivers(q.s) <= Receivers(s)
  {
    if q != Place(s, k) {
      match s
      case Then(first, rest) =>
        if q in Places(rest, k) { PlaceReceivers(rest, k, q); } else { PlaceReceivers(first, Seq(rest, k), q); }
      case Block(_, items) => PlaceReceivers(items, k, q);
      case If(_, _, yes, no) => if q in Places(yes, k) { PlaceReceivers(yes, k, q); } else { PlaceReceivers(no, k, q); }
      case Switch(_, _, _, body) => PlaceReceivers(body, InSwitch(s, k), q);
      case While(_, _, body) => PlaceReceivers(body, InLoop(s, k), q);
      case Do(_, body, _) => PlaceReceivers(body, InLoop(s, k), q);
      case For(_, _, _, _, body) => PlaceReceivers(body, InLoop(s, k), q);
    }
  }

  // ---------- Saving, restoring and late results ----------

  // Every variable of L is where it should be, and its frame copy is up to date.
  ghost predicate Clean(c: Code, m: State, sigma: Values, L: set<nat>) {
    forall x :: x in L ==> Fits(c, m, sigma, x, false)
  }

  lemma Saved(c: Code, formals: set<nat>, m: State, sigma: Values, T: Trace, L: set<nat>, A: set<nat>)
    requires AllFit(c, formals, m, sigma, T, L)
    requires forall x :: x in L && Dirty(formals, T, x) ==> x in A
    ensures Clean(c, Save(c, m, A), sigma, L)
  {
    hide View;
    hide Code.InRegisters;
    forall x | x in L ensures Fits(c, Save(c, m, A), sigma, x, false) {
      ViewAt(c, m, x);
      ViewAt(c, Save(c, m, A), x);
      ReplaceAt(m.frame, A * c.InRegisters(m.version), m.regs, x);
    }
  }

  lemma Resumed(c: Code, m: State, sigma: Values, L: set<nat>, A: set<nat>, garbage: Values)
    requires Clean(c, m, sigma, L) && L <= A
    ensures Clean(c, Resume(c, m, A, garbage), sigma, L)
  {
    hide View;
    forall x | x in L ensures Fits(c, Resume(c, m, A, garbage), sigma, x, false) {
      ViewAt(c, m, x);
      ViewAt(c, Resume(c, m, A, garbage), x);
      ReplaceAt(garbage, A * c.InRegisters(Slow), m.frame, x);
    }
  }

  lemma Arrived(c: Code, m: State, sigma: Values, x: nat, dirty: bool, A: set<nat>)
    requires Fits(c, m, sigma, x, dirty)
    requires m.late.Keys <= Receivers(c.p.body) && (m.version.Fast? ==> m.late == map[])
    ensures Fits(c, Arrive(m, A), sigma, x, dirty)
  {
    hide View;
    ViewAt(c, m, x);
    ViewAt(c, Arrive(m, A), x);
    ReplaceAt(m.frame, A * m.late.Keys, m.late, x);
  }

  lemma BooksArrive(c: Code, m: State, T: Trace, pending: set<nat>, A: set<nat>)
    requires Books(c, m, T, pending)
    ensures Books(c, Arrive(m, A), T, pending)
  {
  }

  // ---------- A spawn ----------

  // The result of a spawn arrives where the code looks for its receiver.
  lemma Received(c: Code, formals: set<nat>, env: Env, m: State, s: Stmt, address: int, v: int,
                 sigma: Values, hist: History, T: Trace, L: set<nat>)
    requires s.Spawn? && L <= c.V && (forall x :: x in m.late ==> x !in Touched(SpawnEvent(s)))
    requires Clean(c, m, sigma, if SpawnEvent(s).r.SetBy? then L - {SpawnEvent(s).r.x} else L)
    ensures var (store, h) := Receive(env, c.V, s, address, v, sigma, hist);
            var (tau, h') := Receive(env, c.V, s, address, v, View(c, m), hist);
      h' == h && AllFit(c, formals, StoreInto(c, m, tau), store, T + [SpawnEvent(s)], L)
  {
    hide View;
    hide StoreInto;
    hide Code.InRegisters;
    var ev := SpawnEvent(s);
    var (store, h) := Receive(env, c.V, s, address, v, sigma, hist);
    var (tau, h') := Receive(env, c.V, s, address, v, View(c, m), hist);
    forall x | x in L ensures Fits(c, StoreInto(c, m, tau), store, x, Dirty(formals, T + [ev], x)) {
      StoredAt(c, m, tau, x);
      AfterSplit(DirtyFact(x), T, [ev], x in formals);
      One(DirtyFact(x), ev, Dirty(formals, T, x));
    }
  }

  // The result is late.
  lemma ReceivedLate(c: Code, formals: set<nat>, m: State, s: Stmt, x: nat, v: int, sigma: Values, T: Trace, L: set<nat>)
    requires s.Spawn? && SpawnEvent(s) == Spawned(SetBy(x)) && Clean(c, m, sigma, L - {x})
    ensures AllFit(c, formals, m.(late := m.late[x := v]), sigma[x := v], T + [SpawnEvent(s)], L)
  {
    var r := m.(late := m.late[x := v]);
    forall y | y in L ensures Fits(c, r, sigma[x := v], y, Dirty(formals, T + [SpawnEvent(s)], y)) {
      if y != x { assert Fits(c, m, sigma, y, false); assert View(c, r) == View(c, m); }
    }
  }

  // ---------- One step ----------

  ghost predicate Corresponds(c: Code, formals: set<nat>, S: Serial, m: State, T: Trace, pending: set<nat>) {
    && m.at == S.at && m.hist == S.hist && m.subject == S.subject
    && Books(c, m, T, pending)
    && Reaches(c.p, T, S.at)
    && AllFit(c, formals, m, S.store, T, LiveSet(c.p, c.V, S.at))
    && (S.at == Halt ==> m.outstanding == 0)
  }

  lemma {:induction false} ChildStays(t: Trace)
    requires Synced !in t && Returned !in t
    ensures After(ChildFact(), t, true)
  {
    if t != [] { ChildStays(t[1..]); }
  }

  // What an ordinary step of the serial meaning and of control flow looks like.
  lemma OrdinaryFacts(env: Env, V: set<nat>, p: Proc, S: Serial)
    requires SerialStep(env, V, p, S).Next? && !IsSpawnOrSync(S.at)
    ensures var n := SerialStep(env, V, p, S);
      && Step(p, S.at, n.t, n.to.at) && Local(n.t)
      && (forall x :: Unwritten(n.t, x) ==> SameAt(x, S.store, n.to.store))
      && (forall x :: Declare(x) in n.t ==> x !in n.to.store)
      && (Returned in n.t ==> S.at.Run? && S.at.s.Return?)
  {
    hide Step;
    hide Unwritten;
    var n := SerialStep(env, V, p, S);
    SerialFollowsControl(env, V, p, S);
    forall ev | ev in n.t ensures IsLocal(ev) && (ev == Returned ==> S.at.Run? && S.at.s.Return?) {
      if !IsEvaluation(ev) { StepEvents(p, S.at, n.t, n.to.at, ev); }
    }
    forall x | Unwritten(n.t, x) ensures SameAt(x, S.store, n.to.store) {
      StepKeepsUnwritten(env, V, p, S, x);
    }
    forall x | Declare(x) in n.t ensures x !in n.to.store {
      StepEvents(p, S.at, n.t, n.to.at, Declare(x));
    }
  }

  lemma OrdinaryCorresponds(env: Env, c: Code, formals: set<nat>, S: Serial, m: State, T: Trace, pending: set<nat>)
    requires Corresponds(c, formals, S, m, T, pending) && !IsSpawnOrSync(S.at)
    requires SerialStep(env, c.V, c.p, S).Next? && RaceFree(SerialStep(env, c.V, c.p, S).t, pending)
    ensures var (n, r) := (SerialStep(env, c.V, c.p, S), Ordinary(env, c, m));
      && r.Moved? && r.t == n.t
      && r.to.at == n.to.at && r.to.hist == n.to.hist && r.to.subject == n.to.subject
      && r.to.version == m.version && r.to.late == m.late && r.to.outstanding == m.outstanding
      && PendingAfter(n.t, pending) == pending && Reaches(c.p, T + n.t, n.to.at)
      && AllFit(c, formals, r.to, n.to.store, T + n.t, LiveSet(c.p, c.V, n.to.at))
  {
    hide SerialStep;
    hide Step;
    hide Fits;
    hide View;
    hide Unwritten;
    hide Untouched;
    hide LiveSet;
    hide LiveBefore;
    hide Reaches;
    hide RaceFree;
    hide Agree;
    var n := SerialStep(env, c.V, c.p, S);
    var (L0, L1) := (LiveSet(c.p, c.V, S.at), LiveSet(c.p, c.V, n.to.at));
    OrdinaryFacts(env, c.V, c.p, S);
    LocalTrace(n.t, pending);
    LiveAcross(c.p, c.V, S.at, n.t, n.to.at);
    LiveSetInside(c.p, c.V, n.to.at);
    CanEvaluate(c, formals, m, S.store, T, n.t, L0, L1);
    StepSame(env, c.V, c.p, S, View(c, m), L1 - m.late.Keys);
    var tau := SerialStep(env, c.V, c.p, S.(store := View(c, m))).to.store;
    assert S.(store := View(c, m)) == Serial(m.at, View(c, m), m.hist, m.subject);
    Evaluated(c, formals, m, S.store, n.to.store, tau, T, n.t, L0, L1);
    AllFitCongruent(c, formals, StoreInto(c, m, tau), Ordinary(env, c, m).to, n.to.store, T + n.t, L1);
    ReachesOn(c.p, T, S.at, n.t, n.to.at);
  }

  // Where things are does not depend on where control is.
  lemma AllFitCongruent(c: Code, formals: set<nat>, m: State, r: State, sigma: Values, T: Trace, L: set<nat>)
    requires AllFit(c, formals, m, sigma, T, L)
    requires r.version == m.version && r.regs == m.regs && r.frame == m.frame && r.late == m.late
    ensures AllFit(c, formals, r, sigma, T, L)
  {
    assert View(c, r) == View(c, m);
  }

  // The operands of a spawn, evaluated by the serial meaning and by the machine.
  lemma SpawnOperands(env: Env, c: Code, formals: set<nat>, s: Stmt, k: Cont, S: Serial, m: State, T: Trace, pending: set<nat>, L: set<nat>)
    requires Corresponds(c, formals, S, m, T, pending) && s.Spawn? && S.at == Run(s, k)
    requires var o := EvaluateSpawn(env, c.V, s, S.store, S.hist);
      && o.Done? && RaceFree(o.t, pending) && L <= c.V
      && LiveBefore(c.V, o.t, L) <= LiveSet(c.p, c.V, S.at)
    ensures var o := EvaluateSpawn(env, c.V, s, S.store, S.hist);
      var r := EvaluateSpawn(env, c.V, s, View(c, m), m.hist);
      && r.Done? && r.v == o.v && r.hist == o.hist && r.t == o.t
      && IsSpawnPath(s, o.t) && PendingAfter(o.t, pending) == pending
      && AllFit(c, formals, StoreInto(c, m, r.store), o.store, T + o.t, L)
  {
    hide EvaluateSpawn;
    hide Fits;
    hide View;
    hide Unwritten;
    hide Untouched;
    hide LiveSet;
    hide LiveBefore;
    hide Reaches;
    hide RaceFree;
    hide Agree;
    var o := EvaluateSpawn(env, c.V, s, S.store, S.hist);
    EvalSpawnPath(env, c.V, s, S.store, S.hist);
    SpawnEvents(s, o.t);
    assert Local(o.t);
    LocalTrace(o.t, pending);
    CanEvaluate(c, formals, m, S.store, T, o.t, LiveSet(c.p, c.V, S.at), L);
    EvalSpawnSame(env, c.V, s, S.store, View(c, m), S.hist, L - m.late.Keys);
    forall x | Unwritten(o.t, x) ensures SameAt(x, S.store, o.store) {
      EvalSpawnKeeps(env, c.V, s, S.store, S.hist, x);
    }
    var tau := EvaluateSpawn(env, c.V, s, View(c, m), m.hist).store;
    Evaluated(c, formals, m, S.store, o.store, tau, T, o.t, LiveSet(c.p, c.V, S.at), L);
  }

  // The live variables whose values a spawn does not overwrite.
  ghost function LiveAround(c: Code, s: Stmt, k: Cont): set<nat>
    requires s.Spawn?
  {
    var L := LiveSet(c.p, c.V, Skip(k));
    if SpawnEvent(s).r.SetBy? then L - {SpawnEvent(s).r.x} else L
  }

  // After the operands and the save, everything live around the spawn is in the frame.
  lemma SpawnSaves(env: Env, c: Code, formals: set<nat>, s: Stmt, k: Cont, S: Serial, m: State, T: Trace, pending: set<nat>)
    requires Corresponds(c, formals, S, m, T, pending) && Covers(c, formals) && s.Spawn? && S.at == Run(s, k)
    requires var o := EvaluateSpawn(env, c.V, s, S.store, S.hist);
      && o.Done? && RaceFree(o.t, pending) && Step(c.p, S.at, o.t + [SpawnEvent(s)], Skip(k))
    ensures var o := EvaluateSpawn(env, c.V, s, S.store, S.hist);
      var r := EvaluateSpawn(env, c.V, s, View(c, m), m.hist);
      && r.Done? && r.v == o.v && r.hist == o.hist && r.t == o.t && |o.v| >= 2 && PendingAfter(o.t, pending) == pending
      && Clean(c, Save(c, StoreInto(c, m, r.store), At(c.rec.dirty, s.id)), o.store, LiveAround(c, s, k))
  {
    hide EvaluateSpawn;
    hide Fits;
    hide View;
    hide RaceFree;
    hide HoldsAt;
    hide Step;
    hide LiveSet;
    hide LiveBefore;
    hide IsSpawnPath;
    hide AllPlaces;
    var o := EvaluateSpawn(env, c.V, s, S.store, S.hist);
    var (ev, L, q) := (SpawnEvent(s), LiveSet(c.p, c.V, Skip(k)), Place(s, k));
    LiveSetInside(c.p, c.V, Skip(k));
    LiveAcross(c.p, c.V, S.at, o.t + [ev], Skip(k));
    LiveBeforeLast(c.V, o.t, ev, L);
    EvalSpawnPath(env, c.V, s, S.store, S.hist);
    SpawnOperands(env, c, formals, s, k, S, m, T, pending, LiveAround(c, s, k));
    assert CoversVariables(c, formals, q);
    forall x | x in LiveAround(c, s, k) && Dirty(formals, T + o.t, x) ensures x in At(c.rec.dirty, s.id) {
      HoldsOnRun(DirtyFact(x), c.p, x in formals, q, T, o.t);
    }
    var r := EvaluateSpawn(env, c.V, s, View(c, m), m.hist);
    Saved(c, formals, StoreInto(c, m, r.store), o.store, T + o.t, LiveAround(c, s, k), At(c.rec.dirty, s.id));
  }

  lemma CleanCongruent(c: Code, m: State, r: State, sigma: Values, L: set<nat>)
    requires Clean(c, m, sigma, L)
    requires r.version == m.version && r.regs == m.regs && r.frame == m.frame && r.late == m.late
    ensures Clean(c, r, sigma, L)
  {
    assert View(c, r) == View(c, m);
  }

  // A child is outstanding from now on; what was pending still is.
  lemma BooksSpawn(c: Code, m: State, r: State, T: Trace, pending: set<nat>, s: Stmt, u: Trace)
    requires Books(c, m, T, pending) && s.Spawn? && PendingAfter(u, pending) == pending
    requires r.late.Keys <= m.late.Keys + (if SpawnEvent(s).r.SetBy? then {SpawnEvent(s).r.x} * c.V * Receivers(c.p.body) else {})
    requires (r.outstanding == 0 ==> r.late == map[]) && (r.version.Fast? ==> r.outstanding == 0)
    ensures Books(c, r, T + (u + [SpawnEvent(s)]), PendingAfter(u + [SpawnEvent(s)], pending))
  {
    var ev := SpawnEvent(s);
    RaceFreeSplit(u, [ev], pending);
    assert [ev][1..] == [];
    AfterSplit(ChildFact(), T, u + [ev], false);
    SplitLast(ChildFact(), u + [ev], After(ChildFact(), T, false));
  }

  // The child's result comes at once.
  lemma ResultArrives(env: Env, c: Code, formals: set<nat>, s: Stmt, k: Cont, m: State, saved: State,
                      sigma: Values, h: History, u: Trace, address: int, T: Trace, pending: set<nat>)
    requires s.Spawn? && Books(c, m, T, pending) && PendingAfter(u, pending) == pending && Touched(SpawnEvent(s)) !! pending
    requires Clean(c, saved, sigma, LiveAround(c, s, k)) && saved.late == m.late
    requires (saved.outstanding == 0 ==> saved.late == map[]) && (saved.version.Fast? ==> saved.outstanding == 0)
    ensures var (store, hist) := Receive(env, c.V, s, address, env.reply(h), sigma, h);
      var (tau, hist') := Receive(env, c.V, s, address, env.reply(h), View(c, saved), h);
      var (r, t) := (StoreInto(c, saved, tau).(hist := hist'), u + [SpawnEvent(s)]);
      && hist' == hist && Books(c, r, T + t, PendingAfter(t, pending))
      && AllFit(c, formals, r, store, T + t, LiveSet(c.p, c.V, Skip(k)))
  {
    hide Fits;
    hide View;
    hide LiveSet;
    hide Receive;
    var (ev, v, L) := (SpawnEvent(s), env.reply(h), LiveSet(c.p, c.V, Skip(k)));
    LiveSetInside(c.p, c.V, Skip(k));
    Received(c, formals, env, saved, s, address, v, sigma, h, T + u, L);
    var (store, hist) := Receive(env, c.V, s, address, v, sigma, h);
    var (tau, hist') := Receive(env, c.V, s, address, v, View(c, saved), h);
    assert (T + u) + [ev] == T + (u + [ev]);
    var r := StoreInto(c, saved, tau).(hist := hist');
    AllFitCongruent(c, formals, StoreInto(c, saved, tau), r, store, T + (u + [ev]), L);
    BooksSpawn(c, m, r, T, pending, s, u);
  }

  // The continuation was stolen before the child was done: its result is late.
  lemma ResultIsLate(env: Env, c: Code, formals: set<nat>, s: Stmt, k: Cont, m: State, slow: State,
                     sigma: Values, h: History, u: Trace, address: int, T: Trace, pending: set<nat>, x: nat)
    requires s.Spawn? && SpawnEvent(s) == Spawned(SetBy(x)) && x in c.V * Receivers(c.p.body)
    requires Books(c, m, T, pending) && PendingAfter(u, pending) == pending
    requires Clean(c, slow, sigma, LiveAround(c, s, k)) && slow.late == m.late && slow.version.Slow? && slow.outstanding > 0
    ensures var (store, hist) := Receive(env, c.V, s, address, env.reply(h), sigma, h);
      var (r, t) := (slow.(late := slow.late[x := env.reply(h)]), u + [SpawnEvent(s)]);
      && hist == h && Books(c, r, T + t, PendingAfter(t, pending))
      && AllFit(c, formals, r, store, T + t, LiveSet(c.p, c.V, Skip(k)))
  {
    hide Fits;
    hide LiveSet;
    var r := slow.(late := slow.late[x := env.reply(h)]);
    ReceivedLate(c, formals, slow, s, x, env.reply(h), sigma, T + u, LiveSet(c.p, c.V, Skip(k)));
    assert (T + u) + [SpawnEvent(s)] == T + (u + [SpawnEvent(s)]);
    BooksSpawn(c, m, r, T, pending, s, u);
  }

  lemma SpawnCorresponds(env: Env, c: Code, formals: set<nat>, s: Stmt, k: Cont, S: Serial, m: State, T: Trace, pending: set<nat>, choice: Choice)
    requires Corresponds(c, formals, S, m, T, pending) && Covers(c, formals) && s.Spawn? && S.at == Run(s, k)
    requires SerialStep(env, c.V, c.p, S).Next? && RaceFree(SerialStep(env, c.V, c.p, S).t, pending)
    ensures var (n, r) := (SerialStep(env, c.V, c.p, S), SpawnMoves(env, c, s, k, m, choice));
      && r.Moved? && r.t == n.t
      && Corresponds(c, formals, n.to, r.to, T + n.t, PendingAfter(n.t, pending))
  {
    hide EvaluateSpawn;
    hide Fits;
    hide View;
    hide LiveSet;
    hide Receive;
    hide Reaches;
    hide AllPlaces;
    hide Step;
    hide Receivers;
    hide Replace;
    hide Code.InRegisters;
    var n := SerialStep(env, c.V, c.p, S);
    var (o, ev) := (EvaluateSpawn(env, c.V, s, S.store, S.hist), SpawnEvent(s));
    SerialFollowsControl(env, c.V, c.p, S);
    RaceFreeSplit(o.t, [ev], pending);
    SpawnSaves(env, c, formals, s, k, S, m, T, pending);
    ReachesOn(c.p, T, S.at, n.t, Skip(k));
    var tau := EvaluateSpawn(env, c.V, s, View(c, m), m.hist).store;
    var h := o.hist + [Perform(s.id, Called(o.v))];
    var before := Save(c, StoreInto(c, m, tau), At(c.rec.dirty, s.id));
    var saved := Save(c, StoreInto(c, m, tau).(at := Skip(k), hist := h), At(c.rec.dirty, s.id));
    CleanCongruent(c, before, saved, o.store, LiveAround(c, s, k));
    if !choice.away {
      ResultArrives(env, c, formals, s, k, m, saved, o.store, h, o.t, o.v[0], T, pending);
    } else {
      var resumed := Resume(c, saved, At(c.rec.live, s.id), choice.garbage);
      var slow := resumed.(outstanding := saved.outstanding + 1);
      assert CoversVariables(c, formals, Place(s, k)) by { PlacedRun(c.p, T, s, k); }
      Resumed(c, saved, o.store, LiveAround(c, s, k), At(c.rec.live, s.id), choice.garbage);
      CleanCongruent(c, resumed, slow, o.store, LiveAround(c, s, k));
      if ev.r.SetBy? && ev.r.x in c.V {
        PlacedRun(c.p, T, s, k);
        PlaceReceivers(c.p.body, Stop, Place(s, k));
        OwnReceiver(s);
        ResultIsLate(env, c, formals, s, k, m, slow, o.store, h, o.t, o.v[0], T, pending, ev.r.x);
      } else {
        ResultArrives(env, c, formals, s, k, m, slow, o.store, h, o.t, o.v[0], T, pending);
      }
    }
  }

  lemma PlacedRun(p: Proc, T: Trace, s: Stmt, k: Cont)
    requires Reaches(p, T, Run(s, k))
    ensures Place(s, k) in AllPlaces(p) && Place(s, k) in Places(p.body, Stop)
  {
  }

  lemma OwnReceiver(s: Stmt)
    requires s.Spawn? && SpawnEvent(s).r.SetBy?
    ensures SpawnEvent(s).r.x in Receivers(s)
  {
  }

  // ---------- A sync ----------

  // The slow version saves, waits, and restores if it goes on elsewhere.
  lemma SlowSync(c: Code, formals: set<nat>, id: nat, k: Cont, m: State, sigma: Values, T: Trace, choice: Choice)
    requires Covers(c, formals) && Reaches(c.p, T, Run(Sync(id), k)) && m.version.Slow? && m.late.Keys <= Receivers(c.p.body)
    requires AllFit(c, formals, m, sigma, T, LiveSet(c.p, c.V, Skip(k)))
    ensures Clean(c, SyncMoves(c, id, k, m, choice).to, sigma, LiveSet(c.p, c.V, Skip(k)))
  {
    hide Fits;
    hide View;
    hide LiveSet;
    hide Reaches;
    hide AllPlaces;
    hide Replace;
    hide Receivers;
    hide HoldsAt;
    var (q, L, A) := (Place(Sync(id), k), LiveSet(c.p, c.V, Skip(k)), At(c.rec.dirty, id));
    var next := m.(at := Skip(k));
    AllFitCongruent(c, formals, m, next, sigma, T, L);
    PlacedRun(c.p, T, Sync(id), k);
    assert CoversVariables(c, formals, q);
    forall x | x in L && Dirty(formals, T, x) ensures x in A {
      assert T + [] == T;
      HoldsOnRun(DirtyFact(x), c.p, x in formals, q, T, []);
    }
    Saved(c, formals, next, sigma, T, L, A);
    var saved := Save(c, next, A);
    forall x | x in L ensures Fits(c, Arrive(saved, saved.late.Keys), sigma, x, false) {
      Arrived(c, saved, sigma, x, false, saved.late.Keys);
    }
    var joined := Machine.Joined(saved);
    CleanCongruent(c, Arrive(saved, saved.late.Keys), joined, sigma, L);
    Resumed(c, joined, sigma, L, At(c.rec.live, id), choice.garbage);
  }

  lemma SyncCorresponds(env: Env, c: Code, formals: set<nat>, id: nat, k: Cont, S: Serial, m: State, T: Trace, pending: set<nat>, choice: Choice)
    requires Corresponds(c, formals, S, m, T, pending) && Covers(c, formals) && S.at == Run(Sync(id), k)
    ensures var r := SyncMoves(c, id, k, m, choice);
      && r.Moved? && r.t == [Synced]
      && Corresponds(c, formals, S.(at := Skip(k)), r.to, T + [Synced], PendingAfter([Synced], pending))
  {
    hide Fits;
    hide View;
    hide LiveSet;
    hide Reaches;
    hide Step;
    hide Replace;
    hide Receivers;
    hide Covers;
    hide Clean;
    var L := LiveSet(c.p, c.V, Skip(k));
    var r := SyncMoves(c, id, k, m, choice).to;
    SyncStep(c.p, id, k);
    ReachesOn(c.p, T, S.at, [Synced], Skip(k));
    LiveAcross(c.p, c.V, S.at, [Synced], Skip(k));
    LiveSetInside(c.p, c.V, Skip(k));
    LiveBeforeOne(c.V, Synced, L);
    forall x ensures Dirty(formals, T + [Synced], x) == Dirty(formals, T, x) {
      AfterSplit(DirtyFact(x), T, [Synced], x in formals);
      One(DirtyFact(x), Synced, Dirty(formals, T, x));
    }
    if m.version.Fast? {
      AllFitCongruent(c, formals, m, r, S.store, T, L);
    } else {
      SlowSync(c, formals, id, k, m, S.store, T, choice);
      CleanFits(c, formals, r, S.store, T + [Synced], L);
    }
  }

  lemma SyncStep(p: Proc, id: nat, k: Cont)
    ensures Step(p, Run(Sync(id), k), [Synced], Skip(k))
  {
  }

  lemma CleanFits(c: Code, formals: set<nat>, m: State, sigma: Values, T: Trace, L: set<nat>)
    requires Clean(c, m, sigma, L)
    ensures AllFit(c, formals, m, sigma, T, L)
  {
  }

  // ---------- Leaving ----------

  lemma NothingLiveAtHalt(p: Proc, V: set<nat>)
    ensures LiveSet(p, V, Halt) == {}
  {
    forall x, path | IsRun(p, Halt, path) ensures !Before(LiveFact(x), TraceOf(path), false) {
      assert path == [];
    }
  }

  // A return that is not marked is reached with no child outstanding.
  lemma UnmarkedReturn(c: Code, m: State, T: Trace, id: nat, result: OptExpr, k: Cont, u: Trace)
    requires CoversChildren(c) && Reaches(c.p, T, Run(Return(id, result), k))
    requires m.outstanding > 0 ==> After(ChildFact(), T, false)
    requires IsPathOpt(result, u) && id !in c.rec.needsSync
    ensures m.outstanding == 0
  {
    hide HoldsAt;
    hide AllPlaces;
    if m.outstanding > 0 {
      OptEvents(result, u);
      ChildStays(u);
      AfterSplit(ChildFact(), T, u, false);
      HoldsOnRun(ChildFact(), c.p, false, Place(Return(id, result), k), T, u);
      assert false;
    }
  }

  lemma UnmarkedEnd(c: Code, m: State, T: Trace)
    requires CoversChildren(c) && Reaches(c.p, T, Skip(Stop)) && c.p.id !in c.rec.needsSync
    requires m.outstanding > 0 ==> After(ChildFact(), T, false)
    ensures m.outstanding == 0
  {
    hide HoldsAt;
    hide AllPlaces;
    if m.outstanding > 0 {
      assert T + [] == T;
      ReachesOn(c.p, T, Skip(Stop), [], Halt);
      assert false;
    }
  }

  // Both ways of leaving lead to Halt; a return evaluates its result first.
  lemma LeavingStep(env: Env, V: set<nat>, p: Proc, S: Serial) returns (u: Trace)
    requires SerialStep(env, V, p, S).Next? && ((S.at.Run? && S.at.s.Return?) || S.at == Skip(Stop))
    ensures SerialStep(env, V, p, S).to.at == Halt
    ensures S.at.Run? ==> IsPathOpt(S.at.s.result, u)
  {
    hide Evaluate;
    hide AllPlaces;
    u := [];
    if S.at.Run? {
      EvalOptPath(env, V, S.at.s.result, S.store, S.hist);
      u := EvaluateOpt(env, V, S.at.s.result, S.store, S.hist).t;
    }
  }

  lemma LeaveCorresponds(env: Env, c: Code, formals: set<nat>, S: Serial, m: State, T: Trace, pending: set<nat>, choice: Choice)
    requires Corresponds(c, formals, S, m, T, pending) && Covers(c, formals)
    requires (S.at.Run? && S.at.s.Return?) || S.at == Skip(Stop)
    requires SerialStep(env, c.V, c.p, S).Next? && RaceFree(SerialStep(env, c.V, c.p, S).t, pending)
    ensures var (n, r) := (SerialStep(env, c.V, c.p, S), Ordinary(env, c, m));
      var marked := (if S.at.Run? then S.at.s.id else c.p.id) in c.rec.needsSync;
      && r.Moved? && r.t == n.t
      && Corresponds(c, formals, n.to, LeaveIf(marked, r.to), T + n.t, PendingAfter(n.t, pending))
  {
    hide Fits;
    hide View;
    hide Reaches;
    hide SerialStep;
    hide Ordinary;
    hide Covers;
    hide CoversChildren;
    hide Replace;
    hide RaceFree;
    hide LiveSet;
    OrdinaryCorresponds(env, c, formals, S, m, T, pending);
    NothingLiveAtHalt(c.p, c.V);
    ChildrenOf(c, formals);
    var u := LeavingStep(env, c.V, c.p, S);
    if S.at.Run? && S.at.s.id !in c.rec.needsSync {
      UnmarkedReturn(c, m, T, S.at.s.id, S.at.s.result, S.at.k, u);
    } else if !S.at.Run? && c.p.id !in c.rec.needsSync {
      UnmarkedEnd(c, m, T);
    }
  }

  // ---------- Runs ----------

  /** One step of the machine, whatever the scheduler chooses, is the serial step. */
  lemma StepCorresponds(env: Env, c: Code, formals: set<nat>, S: Serial, m: State, T: Trace, pending: set<nat>, choice: Choice)
    requires Corresponds(c, formals, S, m, T, pending) && Covers(c, formals)
    requires SerialStep(env, c.V, c.p, S).Next? && RaceFree(SerialStep(env, c.V, c.p, S).t, pending)
    ensures var (n, r) := (SerialStep(env, c.V, c.p, S), MachineStep(env, c, m, choice));
      && r.Moved? && r.t == n.t
      && Corresponds(c, formals, n.to, r.to, T + n.t, PendingAfter(n.t, pending))
  {
    hide SerialStep;
    hide Ordinary;
    hide SpawnMoves;
    hide SyncMoves;
    hide Covers;
    var a := Arrive(m, choice.arrive);
    ArrivalCorresponds(c, formals, S, m, T, pending, choice.arrive);
    if S.at.Run? && S.at.s.Spawn? {
      SpawnCorresponds(env, c, formals, S.at.s, S.at.k, S, a, T, pending, choice);
    } else if S.at.Run? && S.at.s.Sync? {
      SyncCorresponds(env, c, formals, S.at.s.id, S.at.k, S, a, T, pending, choice);
      SyncSerial(env, c.V, c.p, S);
    } else if (S.at.Run? && S.at.s.Return?) || S.at == Skip(Stop) {
      LeaveCorresponds(env, c, formals, S, a, T, pending, choice);
    } else {
      GoOnCorresponds(env, c, formals, S, a, T, pending);
    }
  }

  lemma SyncSerial(env: Env, V: set<nat>, p: Proc, S: Serial)
    requires S.at.Run? && S.at.s.Sync?
    ensures SerialStep(env, V, p, S) == Next(S.(at := Skip(S.at.k)), [Synced])
  {
  }

  lemma ArrivalCorresponds(c: Code, formals: set<nat>, S: Serial, m: State, T: Trace, pending: set<nat>, A: set<nat>)
    requires Corresponds(c, formals, S, m, T, pending)
    ensures Corresponds(c, formals, S, Arrive(m, A), T, pending)
  {
    hide Fits;
    hide Reaches;
    hide LiveSet;
    BooksArrive(c, m, T, pending, A);
    forall x | x in LiveSet(c.p, c.V, S.at) ensures Fits(c, Arrive(m, A), S.store, x, Dirty(formals, T, x)) {
      Arrived(c, m, S.store, x, Dirty(formals, T, x), A);
    }
  }

  lemma GoOnCorresponds(env: Env, c: Code, formals: set<nat>, S: Serial, m: State, T: Trace, pending: set<nat>)
    requires Corresponds(c, formals, S, m, T, pending) && !IsSpawnOrSync(S.at)
    requires !(S.at.Run? && S.at.s.Return?) && S.at != Skip(Stop)
    requires SerialStep(env, c.V, c.p, S).Next? && RaceFree(SerialStep(env, c.V, c.p, S).t, pending)
    ensures var (n, r) := (SerialStep(env, c.V, c.p, S), Ordinary(env, c, m));
      && r.Moved? && r.t == n.t && Corresponds(c, formals, n.to, r.to, T + n.t, PendingAfter(n.t, pending))
  {
    hide Fits;
    hide View;
    hide Reaches;
    hide LiveSet;
    hide SerialStep;
    hide Ordinary;
    hide Step;
    var n := SerialStep(env, c.V, c.p, S);
    OrdinaryCorresponds(env, c, formals, S, m, T, pending);
    OrdinaryFacts(env, c.V, c.p, S);
    if m.outstanding > 0 {
      assert !IsLocal(Synced);
      ChildStays(n.t);
      AfterSplit(ChildFact(), T, n.t, false);
    }
    if n.to.at == Halt { OnlyLeavesHalt(env, c.V, c.p, S); }
  }

  lemma OnlyLeavesHalt(env: Env, V: set<nat>, p: Proc, S: Serial)
    requires SerialStep(env, V, p, S).Next? && SerialStep(env, V, p, S).to.at == Halt
    ensures (S.at.Run? && S.at.s.Return?) || S.at == Skip(Stop)
  {
    hide Evaluate;
    hide EvaluateSpawn;
  }

  // As many machine steps as there are choices.
  ghost function MachineRun(env: Env, c: Code, m: State, choices: seq<Choice>): Moved
    decreases |choices|
  {
    if choices == [] then Moved(m, [])
    else
      var one := MachineStep(env, c, m, choices[0]);
      if one.Crash? then Crash
      else
        var rest := MachineRun(env, c, one.to, choices[1..]);
        if rest.Crash? then Crash else Moved(rest.to, one.t + rest.t)
  }

  lemma {:induction false} RunCorresponds(env: Env, c: Code, formals: set<nat>, S: Serial, m: State, T: Trace, pending: set<nat>, choices: seq<Choice>)
    requires Corresponds(c, formals, S, m, T, pending) && Covers(c, formals)
    requires SerialRun(env, c.V, c.p, S, |choices|).Next? && RaceFree(SerialRun(env, c.V, c.p, S, |choices|).t, pending)
    ensures var (n, r) := (SerialRun(env, c.V, c.p, S, |choices|), MachineRun(env, c, m, choices));
      && r.Moved? && r.t == n.t
      && Corresponds(c, formals, n.to, r.to, T + n.t, PendingAfter(n.t, pending))
    decreases |choices|
  {
    hide SerialStep;
    hide MachineStep;
    hide Corresponds;
    hide Covers;
    var n := SerialRun(env, c.V, c.p, S, |choices|);
    if choices == [] {
      assert T + [] == T;
    } else {
      var one := SerialStep(env, c.V, c.p, S);
      var rest := SerialRun(env, c.V, c.p, one.to, |choices[1..]|);
      RaceFreeSplit(one.t, rest.t, pending);
      StepCorresponds(env, c, formals, S, m, T, pending, choices[0]);
      RunCorresponds(env, c, formals, one.to, MachineStep(env, c, m, choices[0]).to, T + one.t, PendingAfter(one.t, pending), choices[1..]);
      assert (T + one.t) + rest.t == T + n.t;
    }
  }

  // Where both start: the formal parameters are in registers, and nothing else has a value.
  function SerialStart(p: Proc, arguments: Values): Serial {
    Serial(Run(p.body, Stop), arguments, [], 0)
  }

  function MachineStart(p: Proc, arguments: Values, frame: Values): State {
    Machine.State(Run(p.body, Stop), Fast, arguments, frame, map[], 0, [], 0)
  }

  lemma StartCorresponds(c: Code, arguments: Values, frame: Values)
    ensures Corresponds(c, arguments.Keys, SerialStart(c.p, arguments), MachineStart(c.p, arguments, frame), [], {})
  {
    hide View;
    var (S, m, L) := (SerialStart(c.p, arguments), MachineStart(c.p, arguments, frame), LiveSet(c.p, c.V, Run(c.p.body, Stop)));
    BodyPlaced(c.p);
    var path: Path := [];
    assert IsRun(c.p, S.at, path) && End(S.at, path) == S.at && TraceOf(path) == [];
    LiveSetInside(c.p, c.V, S.at);
    forall x | x in L ensures Fits(c, m, arguments, x, Dirty(arguments.Keys, [], x)) {
      ViewAt(c, m, x);
    }
  }

  /** Save and restore are correct: for every race-free serial run and every schedule of
      steals and late results, with any garbage in the registers of the thief, the compiled
      procedure takes the same steps with the same effects, and leaves with no child
      outstanding. */
  lemma SaveRestoreCorrect(env: Env, c: Code, arguments: Values, frame: Values, choices: seq<Choice>)
    requires Covers(c, arguments.Keys)
    requires SerialRun(env, c.V, c.p, SerialStart(c.p, arguments), |choices|).Next?
    requires RaceFree(SerialRun(env, c.V, c.p, SerialStart(c.p, arguments), |choices|).t, {})
    ensures var n := SerialRun(env, c.V, c.p, SerialStart(c.p, arguments), |choices|);
      var r := MachineRun(env, c, MachineStart(c.p, arguments, frame), choices);
      && r.Moved? && r.t == n.t && r.to.at == n.to.at && r.to.hist == n.to.hist
      && (r.to.at == Halt ==> r.to.outstanding == 0 && r.to.late == map[])
  {
    hide SerialRun;
    hide MachineRun;
    hide Covers;
    hide AllFit;
    hide Reaches;
    StartCorresponds(c, arguments, frame);
    RunCorresponds(env, c, arguments.Keys, SerialStart(c.p, arguments), MachineStart(c.p, arguments, frame), [], {}, choices);
  }
}
