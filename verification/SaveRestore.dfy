/**
 Saving dirty and restoring live variables is enough: whatever the scheduler decides, the
 compiled procedure does what its serial meaning does, and leaves no child behind.
 */
module SaveRestore {
  import opened Ast
  import opened Control
  import opened Facts
  import opened Clients
  import opened Semantics
  import opened Agreement
  import opened Noninterference
  import opened Machine
  import opened Positions
  import opened ForwardAnalyses
  import BP = BackwardPaths
  import FP = ForwardPaths
  import FE = ForwardExact
  import BE = BackwardExact
  import opened Leaving

  // ---------- Races ----------

  // The variables an event reads, writes or redeclares.
  function Touched(ev: Event): set<nat> {
    match ev
    case Use(x) => {x}
    case Set(x) => {x}
    case Update(x) => {x}
    case Declare(x) => {x}
    case Spawned(SetBy(x)) => {x}
    case Spawned(UpdatedBy(x)) => {x}
    case _ => {}
  }

  // The variables whose spawned values have not been synchronized with.
  function PendingOver(ev: Event, pending: set<nat>): set<nat> {
    if ev == Synced then {} else if ev.Spawned? && ev.r.SetBy? then pending + {ev.r.x} else pending
  }

  function PendingAfter(t: Trace, pending: set<nat>): set<nat> {
    if t == [] then pending else PendingAfter(t[1..], PendingOver(t[0], pending))
  }

  // No event touches a variable between the spawn that assigns it and the next sync.
  predicate RaceFree(t: Trace, pending: set<nat>) {
    t == [] || (Touched(t[0]) !! pending && RaceFree(t[1..], PendingOver(t[0], pending)))
  }

  lemma {:induction false} RaceFreeSplit(t: Trace, u: Trace, pending: set<nat>)
    ensures PendingAfter(t + u, pending) == PendingAfter(u, PendingAfter(t, pending))
    ensures RaceFree(t + u, pending) <==> RaceFree(t, pending) && RaceFree(u, PendingAfter(t, pending))
  {
    if t == [] {
      assert t + u == u;
    } else {
      assert (t + u)[1..] == t[1..] + u;
      RaceFreeSplit(t[1..], u, PendingOver(t[0], pending));
    }
  }

  // The events of expressions, declarations and returns.
  predicate IsLocal(ev: Event) {
    !ev.Spawned? && ev != Synced
  }

  predicate Local(t: Trace) {
    forall ev :: ev in t ==> IsLocal(ev)
  }

  predicate Untouched(t: Trace, x: nat) {
    forall ev :: ev in t ==> x !in Touched(ev)
  }

  lemma {:induction false} LocalTrace(t: Trace, pending: set<nat>)
    requires Local(t) && RaceFree(t, pending)
    ensures PendingAfter(t, pending) == pending
    ensures forall x :: x in pending ==> Untouched(t, x)
  {
    if t != [] {
      assert IsLocal(t[0]);
      assert Local(t[1..]);
      LocalTrace(t[1..], pending);
    }
  }

  lemma {:induction false} UntouchedLive(t: Trace, x: nat, b: bool)
    requires Untouched(t, x)
    ensures Before(LiveFact(x), t, b) == b
  {
    if t != [] {
      assert t[0] in t;
      assert Untouched(t[1..], x);
      UntouchedLive(t[1..], x, b);
    }
  }

  // Does t write x?
  predicate Unwritten(t: Trace, x: nat) {
    Set(x) !in t && Update(x) !in t && Declare(x) !in t
  }

  lemma {:induction false} UnwrittenLive(t: Trace, x: nat)
    requires Unwritten(t, x) && Local(t)
    ensures Before(LiveFact(x), t, true)
  {
    if t != [] {
      assert t[0] in t;
      assert Local(t[1..]);
      UnwrittenLive(t[1..], x);
    }
  }

  // What stays clean across local events was clean and is not written.
  lemma {:induction false} StaysClean(t: Trace, x: nat, b: bool)
    requires Local(t) && !After(DirtyFact(x), t, b)
    ensures !b && Set(x) !in t && Update(x) !in t
  {
    if t != [] {
      assert t[0] in t;
      assert Local(t[1..]);
      StaysClean(t[1..], x, Across(DirtyFact(x), t[0], b));
    }
  }

  // ---------- Evaluation leaves unwritten variables alone ----------

  ghost predicate SameAt(x: nat, sigma: Values, tau: Values) {
    (x in sigma <==> x in tau) && (x in sigma ==> sigma[x] == tau[x])
  }

  lemma UnwrittenParts(t: Trace, u: Trace, x: nat)
    requires Unwritten(t + u, x)
    ensures Unwritten(t, x) && Unwritten(u, x)
  {
  }

  lemma {:induction false} EvalKeeps(env: Env, V: set<nat>, e: Expr, store: Values, hist: History, x: nat)
    requires var o := Evaluate(env, V, e, store, hist); o.Done? && Unwritten(o.t, x)
    ensures SameAt(x, store, Evaluate(env, V, e, store, hist).store)
    decreases e
  {
    hide Unwritten;
    match e
    case Const(_, _) | Id(_, _) =>
    case Binop(_, op, left, right) =>
      if IsPlainTarget(op, left) {
        var r := Evaluate(env, V, right, store, hist);
        UnwrittenParts(r.t, [Set(left.decl)], x);
        NotWritten(Set(left.decl), x);
        EvalKeeps(env, V, right, store, hist, x);
      } else {
        var l := Evaluate(env, V, left, store, hist);
        if (op.AndAnd? && l.v == 0) || (op.OrOr? && l.v != 0) {
          EvalKeeps(env, V, left, store, hist, x);
        } else {
          var r := Evaluate(env, V, right, l.store, l.hist);
          if op.OpAssign? && left.Id? {
            UnwrittenParts(l.t + r.t, [Update(left.decl)], x);
            NotWritten(Update(left.decl), x);
          }
          UnwrittenParts(l.t, r.t, x);
          EvalKeeps(env, V, left, store, hist, x);
          EvalKeeps(env, V, right, l.store, l.hist, x);
        }
      }
    case Unary(_, uop, operand) =>
      if !uop.SizeOf? {
        var o := Evaluate(env, V, operand, store, hist);
        if uop.IncDec? && operand.Id? {
          UnwrittenParts(o.t, [Update(operand.decl)], x);
          NotWritten(Update(operand.decl), x);
        }
        EvalKeeps(env, V, operand, store, hist, x);
      }
    case Ternary(_, cond, yes, no) =>
      var o := Evaluate(env, V, cond, store, hist);
      var branch := if o.v != 0 then yes else no;
      UnwrittenParts(o.t, Evaluate(env, V, branch, o.store, o.hist).t, x);
      EvalKeeps(env, V, cond, store, hist, x);
      EvalKeeps(env, V, branch, o.store, o.hist, x);
    case Call(_, name, args) =>
      var f := Evaluate(env, V, name, store, hist);
      UnwrittenParts(f.t, EvaluateAll(env, V, args, f.store, f.hist).t, x);
      EvalKeeps(env, V, name, store, hist, x);
      EvalAllKeeps(env, V, args, f.store, f.hist, x);
  }

  lemma NotWritten(ev: Event, x: nat)
    requires Unwritten([ev], x) && (ev.Set? || ev.Update? || ev.Declare?)
    ensures ev.x != x
  {
    assert ev in [ev];
  }

  lemma {:induction false} EvalAllKeeps(env: Env, V: set<nat>, es: Exprs, store: Values, hist: History, x: nat)
    requires var o := EvaluateAll(env, V, es, store, hist); o.Done? && Unwritten(o.t, x)
    ensures SameAt(x, store, EvaluateAll(env, V, es, store, hist).store)
    decreases es
  {
    hide Unwritten;
    if es.MoreExprs? {
      var h := Evaluate(env, V, es.head, store, hist);
      UnwrittenParts(h.t, EvaluateAll(env, V, es.tail, h.store, h.hist).t, x);
      EvalKeeps(env, V, es.head, store, hist, x);
      EvalAllKeeps(env, V, es.tail, h.store, h.hist, x);
    }
  }

  lemma EvalOptKeeps(env: Env, V: set<nat>, o: OptExpr, store: Values, hist: History, x: nat)
    requires var r := EvaluateOpt(env, V, o, store, hist); r.Done? && Unwritten(r.t, x)
    ensures SameAt(x, store, EvaluateOpt(env, V, o, store, hist).store)
  {
    if o.TheExpr? { EvalKeeps(env, V, o.e, store, hist, x); }
  }

  lemma EvalSpawnKeeps(env: Env, V: set<nat>, s: Stmt, store: Values, hist: History, x: nat)
    requires s.Spawn?
    requires var r := EvaluateSpawn(env, V, s, store, hist); r.Done? && Unwritten(r.t, x)
    ensures SameAt(x, store, EvaluateSpawn(env, V, s, store, hist).store)
  {
    hide Evaluate;
    hide EvaluateAll;
    hide Unwritten;
    var receiver := if s.receiver.TheExpr? && IsPlainTarget(s.op, s.receiver.e) then NoExpr else s.receiver;
    var o := EvaluateOpt(env, V, receiver, store, hist);
    var f := Evaluate(env, V, s.callee, o.store, o.hist);
    var a := EvaluateAll(env, V, s.args, f.store, f.hist);
    UnwrittenParts(o.t, f.t + a.t, x);
    UnwrittenParts(f.t, a.t, x);
    EvalOptKeeps(env, V, receiver, store, hist, x);
    EvalKeeps(env, V, s.callee, o.store, o.hist, x);
    EvalAllKeeps(env, V, s.args, f.store, f.hist, x);
  }

  predicate IsSpawnOrSync(a: Control) {
    a.Run? && (a.s.Spawn? || a.s.Sync?)
  }

  lemma StepKeepsUnwritten(env: Env, V: set<nat>, p: Proc, S: Serial, x: nat)
    requires SerialStep(env, V, p, S).Next? && !IsSpawnOrSync(S.at) && Unwritten(SerialStep(env, V, p, S).t, x)
    ensures SameAt(x, S.store, SerialStep(env, V, p, S).to.store)
  {
    hide Evaluate;
    hide Unwritten;
    match S.at
    case Run(s, k) => RunKeepsUnwritten(env, V, p, s, k, S, x);
    case Skip(k) => if k.InLoop? && k.loop.For? { EvalOptKeeps(env, V, k.loop.next, S.store, S.hist, x); }
    case Test(l, k) => EvalOptKeeps(env, V, if l.For? then l.guard else TheExpr(l.test), S.store, S.hist, x);
    case Dispatch(_, _) =>
  }

  lemma RunKeepsUnwritten(env: Env, V: set<nat>, p: Proc, s: Stmt, k: Cont, S: Serial, x: nat)
    requires RunSerial(env, V, p, s, k, S).Next? && !s.Spawn? && !s.Sync? && Unwritten(RunSerial(env, V, p, s, k, S).t, x)
    ensures SameAt(x, S.store, RunSerial(env, V, p, s, k, S).to.store)
  {
    hide Evaluate;
    hide Unwritten;
    match s
    case Eval(e) => EvalKeeps(env, V, e, S.store, S.hist, x);
    case Decl(id, init) =>
      if init.NoExpr? {
        NotWritten(Declare(id), x);
      } else {
        var o := Evaluate(env, V, init.e, S.store, S.hist);
        UnwrittenParts(o.t, [Set(id)], x);
        NotWritten(Set(id), x);
        EvalKeeps(env, V, init.e, S.store, S.hist, x);
      }
    case Switch(_, _, e, _) => EvalKeeps(env, V, e, S.store, S.hist, x);
    case If(_, e, _, _) => EvalKeeps(env, V, e, S.store, S.hist, x);
    case For(_, start, _, _, _) => EvalOptKeeps(env, V, start, S.store, S.hist, x);
    case Return(_, result) =>
      UnwrittenParts(EvaluateOpt(env, V, result, S.store, S.hist).t, [Returned], x);
      EvalOptKeeps(env, V, result, S.store, S.hist, x);
    case _ =>
  }

  // ---------- The correspondence ----------

  ghost function Dirty(formals: set<nat>, T: Trace, x: nat): bool {
    After(DirtyFact(x), T, x in formals)
  }

  // The machine has x's value where the code looks for it, and in the frame if x is clean.
  // A late result is on its way.
  ghost predicate Fits(c: Code, m: State, sigma: Values, x: nat, dirty: bool) {
    x in sigma ==>
      if x in m.late then m.late[x] == sigma[x]
      else
        && x in View(c, m) && View(c, m)[x] == sigma[x]
        && (x in c.InRegisters(m.version) && !dirty ==> x in m.frame && m.frame[x] == sigma[x])
  }

  ghost predicate AllFit(c: Code, formals: set<nat>, m: State, sigma: Values, T: Trace, L: set<nat>) {
    forall x :: x in L ==> Fits(c, m, sigma, x, Dirty(formals, T, x))
  }

  // Late results belong to pending receivers of outstanding children of the slow version.
  ghost predicate Books(c: Code, m: State, T: Trace, pending: set<nat>) {
    && m.late.Keys <= pending && m.late.Keys <= c.V * Receivers(c.p.body)
    && (m.outstanding == 0 ==> m.late == map[])
    && (m.version.Fast? ==> m.outstanding == 0)
    && (m.outstanding > 0 ==> After(ChildFact(), T, false))
  }

  lemma ReplaceAt(m: Values, A: set<nat>, n: Values, x: nat)
    ensures x in Replace(m, A, n) <==> if x in A then x in n else x in m
    ensures x in Replace(m, A, n) ==> Replace(m, A, n)[x] == if x in A then n[x] else m[x]
  {
  }

  lemma ViewAt(c: Code, m: State, x: nat)
    ensures var R := c.InRegisters(m.version); x in View(c, m) <==> if x in R then x in m.regs else x in m.frame
    ensures var R := c.InRegisters(m.version); x in View(c, m) ==> View(c, m)[x] == if x in R then m.regs[x] else m.frame[x]
  {
    ReplaceAt(m.frame, c.InRegisters(m.version), m.regs, x);
  }

  // Updating the store shows in the view, and leaves the frame copies of registers alone.
  lemma StoredAt(c: Code, m: State, store: Values, x: nat)
    requires x in c.V
    ensures var r := StoreInto(c, m, store); SameAt(x, store, View(c, r)) && r.late == m.late && r.version == m.version
    ensures x in c.InRegisters(m.version) ==> SameAt(x, m.frame, StoreInto(c, m, store).frame)
  {
    var R := c.InRegisters(m.version);
    ViewAt(c, StoreInto(c, m, store), x);
    ReplaceAt(m.regs, R, store, x);
    ReplaceAt(m.frame, c.V - R, store, x);
  }

  // The machine can evaluate what the serial meaning evaluates.
  lemma CanEvaluate(c: Code, formals: set<nat>, m: State, sigma: Values, T: Trace, t: Trace, L0: set<nat>, L1: set<nat>)
    requires AllFit(c, formals, m, sigma, T, L0) && L1 <= c.V && LiveBefore(c.V, t, L1) <= L0
    requires forall x :: x in m.late ==> Untouched(t, x)
    ensures Agree(sigma, View(c, m), LiveBefore(c.V, t, L1 - m.late.Keys))
  {
    forall x | x in LiveBefore(c.V, t, L1 - m.late.Keys) ensures x in L0 && x !in m.late {
      BP.BeforeGrows(LiveFact(x), t);
      if x in m.late { UntouchedLive(t, x, false); }
    }
  }

  /** Local events keep the correspondence: t leads from sigma to sigma', and the store the
      machine sees to tau'. */
  lemma Evaluated(c: Code, formals: set<nat>, m: State, sigma: Values, sigma': Values, tau': Values, T: Trace, t: Trace, L0: set<nat>, L1: set<nat>)
    requires AllFit(c, formals, m, sigma, T, L0) && L1 <= c.V && LiveBefore(c.V, t, L1) <= L0 && Local(t)
    requires forall x :: x in m.late ==> Untouched(t, x)
    requires Agree(sigma', tau', L1 - m.late.Keys)
    requires forall x :: Unwritten(t, x) ==> SameAt(x, sigma, sigma')
    requires forall x :: Declare(x) in t ==> x !in sigma'
    ensures AllFit(c, formals, StoreInto(c, m, tau'), sigma', T + t, L1)
  {
    hide View;
    hide StoreInto;
    hide Code.InRegisters;
    forall x | x in L1 && x in sigma' ensures Fits(c, StoreInto(c, m, tau'), sigma', x, Dirty(formals, T + t, x)) {
      StoredAt(c, m, tau', x);
      AfterSplit(DirtyFact(x), T, t, x in formals);
      if x in m.late {
        assert Unwritten(t, x) by { UntouchedUnwritten(t, x); }
        UntouchedLive(t, x, true);
        assert x in LiveBefore(c.V, t, L1);
      } else if !Dirty(formals, T + t, x) {
        StaysClean(t, x, Dirty(formals, T, x));
        assert Unwritten(t, x);
        UnwrittenLive(t, x);
        assert x in LiveBefore(c.V, t, L1);
      }
    }
  }

  lemma UntouchedUnwritten(t: Trace, x: nat)
    requires Untouched(t, x)
    ensures Unwritten(t, x)
  {
  }
}
