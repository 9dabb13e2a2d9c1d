/**
 Two executions from stores that agree on the live variables do the same.
 */
module Agreement {
  import opened Ast
  import opened Control
  import opened Facts
  import opened Clients
  import opened Semantics

  // The variables of V that are live before t, when those of L are live after it.
  ghost function LiveBefore(V: set<nat>, t: Trace, L: set<nat>): set<nat> {
    set x | x in V && Before(LiveFact(x), t, x in L)
  }

  // tau gives the variables of A the values that sigma gives them.
  ghost predicate Agree(sigma: Values, tau: Values, A: set<nat>) {
    forall x :: x in A && x in sigma ==> x in tau && tau[x] == sigma[x]
  }

  lemma LiveBeforeSplit(V: set<nat>, t: Trace, u: Trace, L: set<nat>)
    ensures LiveBefore(V, t + u, L) == LiveBefore(V, t, LiveBefore(V, u, L))
  {
    forall x | x in V ensures x in LiveBefore(V, t + u, L) <==> x in LiveBefore(V, t, LiveBefore(V, u, L)) {
      BeforeSplit(LiveFact(x), t, u, x in L);
    }
  }

  lemma LiveBeforeOne(V: set<nat>, ev: Event, L: set<nat>)
    requires L <= V
    ensures ev.Use? ==> LiveBefore(V, [ev], L) == (if ev.x in V then L + {ev.x} else L)
    ensures ev.Set? || ev.Declare? ==> LiveBefore(V, [ev], L) == L - {ev.x}
    ensures ev == Computed || ev.Update? || ev == Synced || ev == Returned || ev == Spawned(NoReceipt) ==> LiveBefore(V, [ev], L) == L
    ensures ev.Spawned? && ev.r.UpdatedBy? ==> LiveBefore(V, [ev], L) == L
    ensures ev.Spawned? && ev.r.SetBy? ==> LiveBefore(V, [ev], L) == L - {ev.r.x}
  {
    forall x ensures Before(LiveFact(x), [ev], x in L) == Across(LiveFact(x), ev, x in L) {
      One(LiveFact(x), ev, x in L);
    }
  }

  lemma LiveBeforeNone(V: set<nat>, L: set<nat>)
    requires L <= V
    ensures LiveBefore(V, [], L) == L
  {
  }

  lemma LiveBeforeInside(V: set<nat>, t: Trace, L: set<nat>)
    ensures LiveBefore(V, t, L) <= V
  {
  }

  // Last event first: what must agree before t + [ev].
  lemma LiveBeforeLast(V: set<nat>, t: Trace, ev: Event, L: set<nat>)
    requires L <= V
    ensures ev.Set? || ev.Declare? ==> LiveBefore(V, t + [ev], L) == LiveBefore(V, t, L - {ev.x})
    ensures ev.Update? || ev == Returned ==> LiveBefore(V, t + [ev], L) == LiveBefore(V, t, L)
    ensures ev.Spawned? && !ev.r.SetBy? ==> LiveBefore(V, t + [ev], L) == LiveBefore(V, t, L)
    ensures ev.Spawned? && ev.r.SetBy? ==> LiveBefore(V, t + [ev], L) == LiveBefore(V, t, L - {ev.r.x})
  {
    LiveBeforeSplit(V, t, [ev], L);
    LiveBeforeOne(V, ev, L);
  }

  // o and r differ only in the stores, which agree on L.
  ghost predicate SameOutcome<T(!new)>(o: Outcome<T>, r: Outcome<T>, L: set<nat>) {
    o.Done? && r.Done? && r.v == o.v && r.hist == o.hist && r.t == o.t && Agree(o.store, r.store, L)
  }

  lemma {:induction false} EvalSame(env: Env, V: set<nat>, e: Expr, sigma: Values, tau: Values, hist: History, L: set<nat>)
    requires L <= V && Evaluate(env, V, e, sigma, hist).Done?
    requires Agree(sigma, tau, LiveBefore(V, Evaluate(env, V, e, sigma, hist).t, L))
    ensures SameOutcome(Evaluate(env, V, e, sigma, hist), Evaluate(env, V, e, tau, hist), L)
    decreases e, 1
  {
    hide LiveBefore;
    var o := Evaluate(env, V, e, sigma, hist);
    match e
    case Const(_, _) => LiveBeforeOne(V, Computed, L);
    case Id(_, x) => LiveBeforeOne(V, Use(x), L);
    case Binop(_, op, left, right) =>
      if IsPlainTarget(op, left) {
        LiveBeforeLast(V, Evaluate(env, V, right, sigma, hist).t, Set(left.decl), L);
        EvalSame(env, V, right, sigma, tau, hist, L - {left.decl});
      } else {
        BinopSame(env, V, e, sigma, tau, hist, L);
      }
    case Unary(_, uop, operand) =>
      if uop.SizeOf? {
        LiveBeforeOne(V, Computed, L);
      } else if uop.IncDec? && operand.Id? {
        LiveBeforeLast(V, Evaluate(env, V, operand, sigma, hist).t, Update(operand.decl), L);
        EvalSame(env, V, operand, sigma, tau, hist, L);
      } else {
        EvalSame(env, V, operand, sigma, tau, hist, L);
      }
    case Ternary(_, cond, yes, no) =>
      var c := Evaluate(env, V, cond, sigma, hist);
      var branch := if c.v != 0 then yes else no;
      var r := Evaluate(env, V, branch, c.store, c.hist);
      LiveBeforeSplit(V, c.t, r.t, L);
      LiveBeforeInside(V, r.t, L);
      EvalSame(env, V, cond, sigma, tau, hist, LiveBefore(V, r.t, L));
      EvalSame(env, V, branch, c.store, Evaluate(env, V, cond, tau, hist).store, c.hist, L);
    case Call(_, name, args) =>
      var f := Evaluate(env, V, name, sigma, hist);
      var r := EvaluateAll(env, V, args, f.store, f.hist);
      LiveBeforeSplit(V, f.t, r.t, L);
      LiveBeforeInside(V, r.t, L);
      EvalSame(env, V, name, sigma, tau, hist, LiveBefore(V, r.t, L));
      EvalAllSame(env, V, args, f.store, Evaluate(env, V, name, tau, hist).store, f.hist, L);
  }

  lemma {:induction false} BinopSame(env: Env, V: set<nat>, e: Expr, sigma: Values, tau: Values, hist: History, L: set<nat>)
    requires e.Binop? && !IsPlainTarget(e.op, e.left)
    requires L <= V && Evaluate(env, V, e, sigma, hist).Done?
    requires Agree(sigma, tau, LiveBefore(V, Evaluate(env, V, e, sigma, hist).t, L))
    ensures SameOutcome(Evaluate(env, V, e, sigma, hist), Evaluate(env, V, e, tau, hist), L)
    decreases e, 0
  {
    hide LiveBefore;
    var (op, left, right) := (e.op, e.left, e.right);
    var l := Evaluate(env, V, left, sigma, hist);
    if (op.AndAnd? && l.v == 0) || (op.OrOr? && l.v != 0) {
      EvalSame(env, V, left, sigma, tau, hist, L);
    } else {
      var r := Evaluate(env, V, right, l.store, l.hist);
      if op.OpAssign? && left.Id? { LiveBeforeLast(V, l.t + r.t, Update(left.decl), L); }
      LiveBeforeSplit(V, l.t, r.t, L);
      LiveBeforeInside(V, r.t, L);
      EvalSame(env, V, left, sigma, tau, hist, LiveBefore(V, r.t, L));
      EvalSame(env, V, right, l.store, Evaluate(env, V, left, tau, hist).store, l.hist, L);
    }
  }

  lemma {:induction false} EvalAllSame(env: Env, V: set<nat>, es: Exprs, sigma: Values, tau: Values, hist: History, L: set<nat>)
    requires L <= V && EvaluateAll(env, V, es, sigma, hist).Done?
    requires Agree(sigma, tau, LiveBefore(V, EvaluateAll(env, V, es, sigma, hist).t, L))
    ensures SameOutcome(EvaluateAll(env, V, es, sigma, hist), EvaluateAll(env, V, es, tau, hist), L)
    decreases es, 1
  {
    hide LiveBefore;
    if es.NoExprs? {
      LiveBeforeNone(V, L);
    } else {
      var h := Evaluate(env, V, es.head, sigma, hist);
      var r := EvaluateAll(env, V, es.tail, h.store, h.hist);
      LiveBeforeSplit(V, h.t, r.t, L);
      LiveBeforeInside(V, r.t, L);
      EvalSame(env, V, es.head, sigma, tau, hist, LiveBefore(V, r.t, L));
      EvalAllSame(env, V, es.tail, h.store, Evaluate(env, V, es.head, tau, hist).store, h.hist, L);
    }
  }

  lemma EvalOptSame(env: Env, V: set<nat>, o: OptExpr, sigma: Values, tau: Values, hist: History, L: set<nat>)
    requires L <= V && EvaluateOpt(env, V, o, sigma, hist).Done?
    requires Agree(sigma, tau, LiveBefore(V, EvaluateOpt(env, V, o, sigma, hist).t, L))
    ensures SameOutcome(EvaluateOpt(env, V, o, sigma, hist), EvaluateOpt(env, V, o, tau, hist), L)
  {
    if o.NoExpr? { LiveBeforeNone(V, L); } else { EvalSame(env, V, o.e, sigma, tau, hist, L); }
  }

  lemma EvalSpawnSame(env: Env, V: set<nat>, s: Stmt, sigma: Values, tau: Values, hist: History, L: set<nat>)
    requires s.Spawn? && L <= V && EvaluateSpawn(env, V, s, sigma, hist).Done?
    requires Agree(sigma, tau, LiveBefore(V, EvaluateSpawn(env, V, s, sigma, hist).t, L))
    ensures SameOutcome(EvaluateSpawn(env, V, s, sigma, hist), EvaluateSpawn(env, V, s, tau, hist), L)
  {
    hide LiveBefore;
    hide Evaluate;
    hide EvaluateAll;
    hide EvaluateOpt;
    var receiver := if s.receiver.TheExpr? && IsPlainTarget(s.op, s.receiver.e) then NoExpr else s.receiver;
    var o := EvaluateOpt(env, V, receiver, sigma, hist);
    var f := Evaluate(env, V, s.callee, o.store, o.hist);
    var a := EvaluateAll(env, V, s.args, f.store, f.hist);
    var L2 := LiveBefore(V, a.t, L);
    var L1 := LiveBefore(V, f.t, L2);
    LiveBeforeSplit(V, o.t, f.t + a.t, L);
    LiveBeforeSplit(V, f.t, a.t, L);
    LiveBeforeInside(V, a.t, L);
    LiveBeforeInside(V, f.t, L2);
    EvalOptSame(env, V, receiver, sigma, tau, hist, L1);
    var o' := EvaluateOpt(env, V, receiver, tau, hist);
    EvalSame(env, V, s.callee, o.store, o'.store, o.hist, L2);
    var f' := Evaluate(env, V, s.callee, o'.store, o.hist);
    EvalAllSame(env, V, s.args, f.store, f'.store, f.hist, L);
  }

  // ---------- Steps ----------

  // The next states differ only in the stores, which agree on L.
  ghost predicate SameNext(m: Next, n: Next, L: set<nat>) {
    m.Next? && n.Next? && n.t == m.t && n.to == m.to.(store := n.to.store) && Agree(m.to.store, n.to.store, L)
  }

  /** Stores that agree on what is live before a step lead to the same step, and then agree
      on what is live after it. */
  lemma StepSame(env: Env, V: set<nat>, p: Proc, S: Serial, tau: Values, L: set<nat>)
    requires L <= V && SerialStep(env, V, p, S).Next?
    requires Agree(S.store, tau, LiveBefore(V, SerialStep(env, V, p, S).t, L))
    ensures SameNext(SerialStep(env, V, p, S), SerialStep(env, V, p, S.(store := tau)), L)
  {
    hide LiveBefore;
    hide Evaluate;
    LiveBeforeNone(V, L);
    match S.at
    case Run(s, k) => RunSame(env, V, p, s, k, S, tau, L);
    case Skip(k) => if k.InLoop? && k.loop.For? { EvalOptSame(env, V, k.loop.next, S.store, tau, S.hist, L); }
    case Test(l, k) => EvalOptSame(env, V, if l.For? then l.guard else TheExpr(l.test), S.store, tau, S.hist, L);
    case Dispatch(sw, k) =>
  }

  lemma RunSame(env: Env, V: set<nat>, p: Proc, s: Stmt, k: Cont, S: Serial, tau: Values, L: set<nat>)
    requires L <= V && RunSerial(env, V, p, s, k, S).Next?
    requires Agree(S.store, tau, LiveBefore(V, RunSerial(env, V, p, s, k, S).t, L))
    ensures SameNext(RunSerial(env, V, p, s, k, S), RunSerial(env, V, p, s, k, S.(store := tau)), L)
  {
    hide LiveBefore;
    hide Evaluate;
    hide EvaluateSpawn;
    LiveBeforeNone(V, L);
    LiveBeforeOne(V, Synced, L);
    match s
    case Eval(e) => EvalSame(env, V, e, S.store, tau, S.hist, L);
    case Decl(_, _) => OperandsSame(env, V, p, s, k, S, tau, L);
    case Switch(_, _, e, _) => EvalSame(env, V, e, S.store, tau, S.hist, L);
    case If(_, e, _, _) => EvalSame(env, V, e, S.store, tau, S.hist, L);
    case For(_, start, _, _, _) => EvalOptSame(env, V, start, S.store, tau, S.hist, L);
    case Return(_, _) => OperandsSame(env, V, p, s, k, S, tau, L);
    case Spawn(_, _, _, _, _) => OperandsSame(env, V, p, s, k, S, tau, L);
    case _ =>
  }

  // Statements that act after their operands.
  lemma OperandsSame(env: Env, V: set<nat>, p: Proc, s: Stmt, k: Cont, S: Serial, tau: Values, L: set<nat>)
    requires s.Decl? || s.Return? || s.Spawn?
    requires L <= V && RunSerial(env, V, p, s, k, S).Next?
    requires Agree(S.store, tau, LiveBefore(V, RunSerial(env, V, p, s, k, S).t, L))
    ensures SameNext(RunSerial(env, V, p, s, k, S), RunSerial(env, V, p, s, k, S.(store := tau)), L)
  {
    hide LiveBefore;
    hide Evaluate;
    hide EvaluateSpawn;
    match s
    case Decl(id, init) =>
      if init.NoExpr? {
        LiveBeforeOne(V, Declare(id), L);
      } else {
        LiveBeforeLast(V, Evaluate(env, V, init.e, S.store, S.hist).t, Set(id), L);
        EvalSame(env, V, init.e, S.store, tau, S.hist, L - {id});
      }
    case Return(_, result) =>
      LiveBeforeLast(V, EvaluateOpt(env, V, result, S.store, S.hist).t, Returned, L);
      EvalOptSame(env, V, result, S.store, tau, S.hist, L);
    case Spawn(_, _, _, _, _) =>
      var o := EvaluateSpawn(env, V, s, S.store, S.hist);
      var ev := SpawnEvent(s);
      LiveBeforeLast(V, o.t, ev, L);
      EvalSpawnSame(env, V, s, S.store, tau, S.hist, if ev.r.SetBy? then L - {ev.r.x} else L);
  }
}
