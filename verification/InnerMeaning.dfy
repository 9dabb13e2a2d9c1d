/**
 Liveness inside expressions means what it says.  While a step evaluates an expression, all
 variables that are not live at the exit of some node may be overwritten there, or lose
 their values: the step, and every step after it, has the same branches and effects.
 */
module InnerMeaning {
  import opened Ast
  import opened Control
  import opened Facts
  import opened Clients
  import opened InnerPaths
  import opened InnerExact
  import opened InnerLive
  import opened Convergence
  import opened Analyses
  import opened Semantics
  import opened Agreement
  import opened Noninterference
  import BE = BackwardExact
  import FE = ForwardExact

  // What happens to the variables at the exit of node n.
  datatype Swap = Swap(n: nat, change: Values -> Values)

  function Swapped(w: Swap, id: nat, store: Values): Values {
    if id == w.n then w.change(store) else store
  }

  // ---------- Evaluation with a swap ----------

  function EvaluateSwap(env: Env, V: set<nat>, w: Swap, e: Expr, store: Values, hist: History): Outcome<int>
    decreases e, 1
  {
    var o := EvaluateParts(env, V, w, e, store, hist);
    if o.Stuck? then Stuck else o.(store := Swapped(w, e.id, o.store))
  }

  // As Evaluate, with swaps inside the parts.
  function EvaluateParts(env: Env, V: set<nat>, w: Swap, e: Expr, store: Values, hist: History): Outcome<int>
    decreases e, 0
  {
    match e
    case Const(_, _) => Evaluate(env, V, e, store, hist)
    case Id(_, _) => Evaluate(env, V, e, store, hist)
    case Binop(id, op, left, right) =>
      if IsPlainTarget(op, left) then
        var r := EvaluateSwap(env, V, w, right, Swapped(w, left.id, store), hist);
        if r.Stuck? then Stuck
        else
          var (s, h) := Assigned(V, left.decl, r.v, r.store, r.hist);
          Done(r.v, s, h, r.t + [Set(left.decl)])
      else
        var l := EvaluateSwap(env, V, w, left, store, hist);
        if l.Stuck? then Stuck
        else if (op.AndAnd? && l.v == 0) || (op.OrOr? && l.v != 0) then l.(v := env.apply(id, [l.v]))
        else
          var r := EvaluateSwap(env, V, w, right, l.store, l.hist);
          if r.Stuck? then Stuck else Combine(env, V, id, op, left, l, r)
    case Unary(id, uop, operand) =>
      if uop.SizeOf? then Done(env.apply(id, []), store, hist, [Computed])
      else
        var o := EvaluateSwap(env, V, w, operand, store, hist);
        if o.Stuck? then Stuck
        else if uop.IncDec? && operand.Id? then
          var v := env.apply(id, [o.v]);
          var (s, h) := Assigned(V, operand.decl, v, o.store, o.hist);
          Done(env.apply(id, [o.v, v]), s, h, o.t + [Update(operand.decl)])
        else if uop.Plain? then o.(v := env.apply(id, [o.v]))
        else Act(env, id, [o.v], o.store, o.hist, o.t)
    case Ternary(_, cond, yes, no) =>
      var c := EvaluateSwap(env, V, w, cond, store, hist);
      if c.Stuck? then Stuck
      else
        var r := EvaluateSwap(env, V, w, if c.v != 0 then yes else no, c.store, c.hist);
        if r.Stuck? then Stuck else r.(t := c.t + r.t)
    case Call(id, name, args) =>
      var f := EvaluateSwap(env, V, w, name, store, hist);
      if f.Stuck? then Stuck
      else
        var r := EvaluateAllSwap(env, V, w, args, f.store, f.hist);
        if r.Stuck? then Stuck else Act(env, id, [f.v] + r.v, r.store, r.hist, f.t + r.t)
  }

  function EvaluateAllSwap(env: Env, V: set<nat>, w: Swap, es: Exprs, store: Values, hist: History): Outcome<seq<int>>
    decreases es, 1
  {
    match es
    case NoExprs => Done([], store, hist, [])
    case MoreExprs(head, tail) =>
      var h := EvaluateSwap(env, V, w, head, store, hist);
      if h.Stuck? then Stuck
      else
        var r := EvaluateAllSwap(env, V, w, tail, h.store, h.hist);
        if r.Stuck? then Stuck else r.(v := [h.v] + r.v, t := h.t + r.t)
  }

  // ---------- The swap does not matter ----------

  // The swap leaves the variables of A alone.
  ghost predicate Spares(w: Swap, A: set<nat>) {
    forall sigma :: Agree(sigma, w.change(sigma), A)
  }

  // What is live along every rest after the node is spared.
  ghost predicate Covers(V: set<nat>, e: Expr, n: nat, L: set<nat>, A: set<nat>) {
    forall u :: IsRest(e, n, u) ==> LiveBefore(V, u, L) <= A
  }

  ghost predicate CoversAll(V: set<nat>, es: Exprs, n: nat, L: set<nat>, A: set<nat>) {
    forall u :: IsRestOfAll(es, n, u) ==> LiveBefore(V, u, L) <= A
  }

  lemma AgreeAlong(sigma: Values, tau: Values, w: Swap, id: nat, L: set<nat>, A: set<nat>)
    requires Agree(sigma, tau, L) && Spares(w, A) && (id == w.n ==> L <= A)
    ensures Agree(sigma, Swapped(w, id, tau), L)
  {
    assert Agree(tau, w.change(tau), A);
  }

  // Coverage of a part of e, by what follows the part.
  lemma PartCovered(V: set<nat>, e: Expr, part: Expr, n: nat, t: Trace, L: set<nat>, A: set<nat>)
    requires Covers(V, e, n, L, A)
    requires forall u :: IsRest(part, n, u) ==> IsRest(e, n, u + t)
    ensures Covers(V, part, n, LiveBefore(V, t, L), A)
  {
    hide IsRest;
    hide LiveBefore;
    forall u | IsRest(part, n, u) ensures LiveBefore(V, u, LiveBefore(V, t, L)) <= A {
      LiveBeforeSplit(V, u, t, L);
    }
  }

  // What a binary operator does itself, after its operands.
  function OwnTrace(e: Expr): Trace
    requires e.Binop?
  {
    if IsPlainTarget(e.op, e.left) then [Set(e.left.decl)]
    else if e.op.OpAssign? && e.left.Id? then [Update(e.left.decl)] else []
  }

  lemma RightRest(e: Expr, n: nat, u: Trace)
    requires e.Binop? && IsRest(e.right, n, u)
    ensures IsRest(e, n, u + OwnTrace(e))
  {
    var t := u + OwnTrace(e);
    if OwnTrace(e) != [] { assert t[..|t| - 1] == u; } else { assert t == u; }
  }

  lemma LeftRest(e: Expr, n: nat, u: Trace, w: Trace)
    requires e.Binop? && !IsPlainTarget(e.op, e.left) && IsRest(e.left, n, u) && IsPath(e.right, w)
    ensures IsRest(e, n, u + (w + OwnTrace(e)))
  {
    var t := u + (w + OwnTrace(e));
    assert (u + w)[..|u|] == u && (u + w)[|u|..] == w;
    if OwnTrace(e) != [] { assert t[..|t| - 1] == u + w; } else { assert t == u + w; }
  }

  lemma TernaryRest(e: Expr, n: nat, u: Trace, w: Trace)
    requires e.Ternary? && IsRest(e.cond, n, u) && (IsPath(e.yes, w) || IsPath(e.no, w))
    ensures IsRest(e, n, u + w)
  {
    assert (u + w)[..|u|] == u && (u + w)[|u|..] == w;
  }

  lemma CallRest(e: Expr, n: nat, u: Trace, w: Trace)
    requires e.Call? && IsRest(e.name, n, u) && IsPathThroughAll(e.args, w)
    ensures IsRest(e, n, u + w)
  {
    assert (u + w)[..|u|] == u && (u + w)[|u|..] == w;
  }

  lemma OwnLive(V: set<nat>, e: Expr, t: Trace, L: set<nat>)
    requires e.Binop? && L <= V
    ensures var M := if IsPlainTarget(e.op, e.left) then L - {e.left.decl} else L;
      LiveBefore(V, OwnTrace(e), L) == M && LiveBefore(V, t + OwnTrace(e), L) == LiveBefore(V, t, M)
  {
    hide LiveBefore;
    LiveBeforeNone(V, L);
    LiveBeforeSplit(V, t, OwnTrace(e), L);
    if OwnTrace(e) != [] { LiveBeforeOne(V, OwnTrace(e)[0], L); }
  }

  lemma {:induction false} SwapSame(env: Env, V: set<nat>, w: Swap, e: Expr, sigma: Values, tau: Values, hist: History, L: set<nat>, A: set<nat>)
    requires L <= V && Spares(w, A) && Covers(V, e, w.n, L, A) && Evaluate(env, V, e, sigma, hist).Done?
    requires Agree(sigma, tau, LiveBefore(V, Evaluate(env, V, e, sigma, hist).t, L))
    ensures SameOutcome(Evaluate(env, V, e, sigma, hist), EvaluateSwap(env, V, w, e, tau, hist), L)
    decreases e, 2
  {
    hide LiveBefore;
    hide Evaluate;
    hide EvaluateParts;
    PartsSame(env, V, w, e, sigma, tau, hist, L, A);
    if e.id == w.n {
      assert IsRest(e, w.n, []);
      LiveBeforeNone(V, L);
    }
    AgreeAlong(Evaluate(env, V, e, sigma, hist).store, EvaluateParts(env, V, w, e, tau, hist).store, w, e.id, L, A);
  }

  lemma {:induction false} PartsSame(env: Env, V: set<nat>, w: Swap, e: Expr, sigma: Values, tau: Values, hist: History, L: set<nat>, A: set<nat>)
    requires L <= V && Spares(w, A) && Covers(V, e, w.n, L, A) && Evaluate(env, V, e, sigma, hist).Done?
    requires Agree(sigma, tau, LiveBefore(V, Evaluate(env, V, e, sigma, hist).t, L))
    ensures SameOutcome(Evaluate(env, V, e, sigma, hist), EvaluateParts(env, V, w, e, tau, hist), L)
    decreases e, 1
  {
    hide LiveBefore;
    hide Spares;
    hide Covers;
    hide IsRest;
    match e
    case Const(_, _) => EvalSame(env, V, e, sigma, tau, hist, L);
    case Id(_, _) => EvalSame(env, V, e, sigma, tau, hist, L);
    case Binop(_, op, left, right) =>
      if IsPlainTarget(op, left) {
        AssignSwapSame(env, V, w, e, sigma, tau, hist, L, A);
      } else {
        BinopSwapSame(env, V, w, e, sigma, tau, hist, L, A);
      }
    case Unary(_, uop, operand) =>
      if uop.SizeOf? { LiveBeforeOne(V, Computed, L); } else { UnarySwapSame(env, V, w, e, sigma, tau, hist, L, A); }
    case Ternary(_, cond, yes, no) =>
      var c := Evaluate(env, V, cond, sigma, hist);
      var branch := if c.v != 0 then yes else no;
      var r := Evaluate(env, V, branch, c.store, c.hist);
      EvalPath(env, V, branch, c.store, c.hist);
      LiveBeforeSplit(V, c.t, r.t, L);
      LiveBeforeInside(V, r.t, L);
      forall u | IsRest(cond, w.n, u) ensures IsRest(e, w.n, u + r.t) { TernaryRest(e, w.n, u, r.t); }
      PartCovered(V, e, cond, w.n, r.t, L, A);
      SwapSame(env, V, w, cond, sigma, tau, hist, LiveBefore(V, r.t, L), A);
      BranchCovered(V, e, branch, w.n, L, A);
      SwapSame(env, V, w, branch, c.store, EvaluateSwap(env, V, w, cond, tau, hist).store, c.hist, L, A);
    case Call(_, name, args) =>
      var f := Evaluate(env, V, name, sigma, hist);
      var r := EvaluateAll(env, V, args, f.store, f.hist);
      EvalAllPath(env, V, args, f.store, f.hist);
      LiveBeforeSplit(V, f.t, r.t, L);
      LiveBeforeInside(V, r.t, L);
      forall u | IsRest(name, w.n, u) ensures IsRest(e, w.n, u + r.t) { CallRest(e, w.n, u, r.t); }
      PartCovered(V, e, name, w.n, r.t, L, A);
      SwapSame(env, V, w, name, sigma, tau, hist, LiveBefore(V, r.t, L), A);
      ArgsCovered(V, e, w.n, L, A);
      AllSwapSame(env, V, w, args, f.store, EvaluateSwap(env, V, w, name, tau, hist).store, f.hist, L, A);
  }

  lemma BranchCovered(V: set<nat>, e: Expr, branch: Expr, n: nat, L: set<nat>, A: set<nat>)
    requires e.Ternary? && (branch == e.yes || branch == e.no) && Covers(V, e, n, L, A)
    ensures Covers(V, branch, n, L, A)
  {
    forall u | IsRest(branch, n, u) ensures LiveBefore(V, u, L) <= A { assert IsRest(e, n, u); }
  }

  lemma ArgsCovered(V: set<nat>, e: Expr, n: nat, L: set<nat>, A: set<nat>)
    requires e.Call? && Covers(V, e, n, L, A)
    ensures CoversAll(V, e.args, n, L, A)
  {
    forall u | IsRestOfAll(e.args, n, u) ensures LiveBefore(V, u, L) <= A { assert IsRest(e, n, u); }
  }

  lemma {:induction false} AssignSwapSame(env: Env, V: set<nat>, w: Swap, e: Expr, sigma: Values, tau: Values, hist: History, L: set<nat>, A: set<nat>)
    requires e.Binop? && IsPlainTarget(e.op, e.left)
    requires L <= V && Spares(w, A) && Covers(V, e, w.n, L, A) && Evaluate(env, V, e, sigma, hist).Done?
    requires Agree(sigma, tau, LiveBefore(V, Evaluate(env, V, e, sigma, hist).t, L))
    ensures SameOutcome(Evaluate(env, V, e, sigma, hist), EvaluateParts(env, V, w, e, tau, hist), L)
    decreases e, 0
  {
    hide LiveBefore;
    hide Spares;
    hide IsRest;
    var (left, right) := (e.left, e.right);
    var r := Evaluate(env, V, right, sigma, hist);
    OwnLive(V, e, r.t, L);
    EvalPath(env, V, right, sigma, hist);
    if left.id == w.n { TargetRest(e, r.t); }
    AgreeAlong(sigma, tau, w, left.id, LiveBefore(V, r.t + OwnTrace(e), L), A);
    forall u | IsRest(right, w.n, u) ensures IsRest(e, w.n, u + OwnTrace(e)) { RightRest(e, w.n, u); }
    PartCovered(V, e, right, w.n, OwnTrace(e), L, A);
    SwapSame(env, V, w, right, sigma, Swapped(w, left.id, tau), hist, L - {left.decl}, A);
  }

  lemma TargetRest(e: Expr, t: Trace)
    requires e.Binop? && IsPlainTarget(e.op, e.left) && IsPath(e.right, t)
    ensures IsRest(e, e.left.id, t + OwnTrace(e))
  {
    var u := t + OwnTrace(e);
    assert u[..|u| - 1] == t;
  }

  lemma {:induction false} BinopSwapSame(env: Env, V: set<nat>, w: Swap, e: Expr, sigma: Values, tau: Values, hist: History, L: set<nat>, A: set<nat>)
    requires e.Binop? && !IsPlainTarget(e.op, e.left)
    requires L <= V && Spares(w, A) && Covers(V, e, w.n, L, A) && Evaluate(env, V, e, sigma, hist).Done?
    requires Agree(sigma, tau, LiveBefore(V, Evaluate(env, V, e, sigma, hist).t, L))
    ensures SameOutcome(Evaluate(env, V, e, sigma, hist), EvaluateParts(env, V, w, e, tau, hist), L)
    decreases e, 0
  {
    hide LiveBefore;
    hide Spares;
    hide IsRest;
    hide Covers;
    var (op, left, right) := (e.op, e.left, e.right);
    var l := Evaluate(env, V, left, sigma, hist);
    if (op.AndAnd? && l.v == 0) || (op.OrOr? && l.v != 0) {
      ShortCovered(V, e, w.n, L, A);
      SwapSame(env, V, w, left, sigma, tau, hist, L, A);
    } else {
      var r := Evaluate(env, V, right, l.store, l.hist);
      var x := OwnTrace(e);
      EvalPath(env, V, right, l.store, l.hist);
      OwnLive(V, e, l.t + r.t, L);
      OwnLive(V, e, r.t, L);
      LiveBeforeSplit(V, l.t, r.t, L);
      LiveBeforeInside(V, r.t, L);
      assert Evaluate(env, V, e, sigma, hist).t == l.t + r.t + x;
      forall u | IsRest(left, w.n, u) ensures IsRest(e, w.n, u + (r.t + x)) { LeftRest(e, w.n, u, r.t); }
      PartCovered(V, e, left, w.n, r.t + x, L, A);
      SwapSame(env, V, w, left, sigma, tau, hist, LiveBefore(V, r.t, L), A);
      forall u | IsRest(right, w.n, u) ensures IsRest(e, w.n, u + x) { RightRest(e, w.n, u); }
      PartCovered(V, e, right, w.n, x, L, A);
      SwapSame(env, V, w, right, l.store, EvaluateSwap(env, V, w, left, tau, hist).store, l.hist, L, A);
    }
  }

  lemma ShortCovered(V: set<nat>, e: Expr, n: nat, L: set<nat>, A: set<nat>)
    requires e.Binop? && (e.op.AndAnd? || e.op.OrOr?) && Covers(V, e, n, L, A)
    ensures Covers(V, e.left, n, L, A)
  {
    forall u | IsRest(e.left, n, u) ensures LiveBefore(V, u, L) <= A { assert IsRest(e, n, u); }
  }

  lemma {:induction false} UnarySwapSame(env: Env, V: set<nat>, w: Swap, e: Expr, sigma: Values, tau: Values, hist: History, L: set<nat>, A: set<nat>)
    requires e.Unary? && !e.uop.SizeOf?
    requires L <= V && Spares(w, A) && Covers(V, e, w.n, L, A) && Evaluate(env, V, e, sigma, hist).Done?
    requires Agree(sigma, tau, LiveBefore(V, Evaluate(env, V, e, sigma, hist).t, L))
    ensures SameOutcome(Evaluate(env, V, e, sigma, hist), EvaluateParts(env, V, w, e, tau, hist), L)
    decreases e, 0
  {
    hide LiveBefore;
    hide Spares;
    hide IsRest;
    hide Covers;
    var (uop, operand) := (e.uop, e.operand);
    var x: Trace := if uop.IncDec? && operand.Id? then [Update(operand.decl)] else [];
    var o := Evaluate(env, V, operand, sigma, hist);
    LiveBeforeNone(V, L);
    if x != [] {
      LiveBeforeLast(V, o.t, Update(operand.decl), L);
      LiveBeforeOne(V, Update(operand.decl), L);
    }
    forall u | IsRest(operand, w.n, u) ensures IsRest(e, w.n, u + x) { OperandRest(e, w.n, u); }
    PartCovered(V, e, operand, w.n, x, L, A);
    SwapSame(env, V, w, operand, sigma, tau, hist, L, A);
  }

  lemma OperandRest(e: Expr, n: nat, u: Trace)
    requires e.Unary? && !e.uop.SizeOf? && IsRest(e.operand, n, u)
    ensures IsRest(e, n, u + if e.uop.IncDec? && e.operand.Id? then [Update(e.operand.decl)] else [])
  {
    if e.uop.IncDec? && e.operand.Id? {
      var t := u + [Update(e.operand.decl)];
      assert t[..|t| - 1] == u;
    } else {
      assert u + [] == u;
    }
  }

  lemma {:induction false} AllSwapSame(env: Env, V: set<nat>, w: Swap, es: Exprs, sigma: Values, tau: Values, hist: History, L: set<nat>, A: set<nat>)
    requires L <= V && Spares(w, A) && CoversAll(V, es, w.n, L, A) && EvaluateAll(env, V, es, sigma, hist).Done?
    requires Agree(sigma, tau, LiveBefore(V, EvaluateAll(env, V, es, sigma, hist).t, L))
    ensures SameOutcome(EvaluateAll(env, V, es, sigma, hist), EvaluateAllSwap(env, V, w, es, tau, hist), L)
    decreases es, 2
  {
    hide LiveBefore;
    hide Spares;
    hide Covers;
    if es.NoExprs? {
      LiveBeforeNone(V, L);
    } else {
      var h := Evaluate(env, V, es.head, sigma, hist);
      var r := EvaluateAll(env, V, es.tail, h.store, h.hist);
      EvalAllPath(env, V, es.tail, h.store, h.hist);
      LiveBeforeSplit(V, h.t, r.t, L);
      LiveBeforeInside(V, r.t, L);
      HeadCovered(V, es, w.n, r.t, L, A);
      SwapSame(env, V, w, es.head, sigma, tau, hist, LiveBefore(V, r.t, L), A);
      AllSwapSame(env, V, w, es.tail, h.store, EvaluateSwap(env, V, w, es.head, tau, hist).store, h.hist, L, A);
    }
  }

  lemma HeadCovered(V: set<nat>, es: Exprs, n: nat, t: Trace, L: set<nat>, A: set<nat>)
    requires es.MoreExprs? && IsPathThroughAll(es.tail, t) && CoversAll(V, es, n, L, A)
    ensures Covers(V, es.head, n, LiveBefore(V, t, L), A) && CoversAll(V, es.tail, n, L, A)
  {
    hide IsRest;
    hide LiveBefore;
    forall u | IsRest(es.head, n, u) ensures LiveBefore(V, u, LiveBefore(V, t, L)) <= A {
      LiveBeforeSplit(V, u, t, L);
      assert (u + t)[..|u|] == u && (u + t)[|u|..] == t;
      assert IsRestOfAll(es, n, u + t);
    }
    forall u | IsRestOfAll(es.tail, n, u) ensures LiveBefore(V, u, L) <= A { assert IsRestOfAll(es, n, u); }
  }

  // ---------- Steps with a swap ----------

  function EvaluateOptSwap(env: Env, V: set<nat>, w: Swap, o: OptExpr, store: Values, hist: History): Outcome<int> {
    if o.NoExpr? then Done(1, store, hist, []) else EvaluateSwap(env, V, w, o.e, store, hist)
  }

  function EvaluateSpawnSwap(env: Env, V: set<nat>, w: Swap, s: Stmt, store: Values, hist: History): Outcome<seq<int>>
    requires s.Spawn?
  {
    var plain := s.receiver.TheExpr? && IsPlainTarget(s.op, s.receiver.e);
    var o := if plain then Done(1, Swapped(w, s.receiver.e.id, store), hist, [])
             else EvaluateOptSwap(env, V, w, s.receiver, store, hist);
    if o.Stuck? then Stuck
    else
      var f := EvaluateSwap(env, V, w, s.callee, o.store, o.hist);
      if f.Stuck? then Stuck
      else
        var r := EvaluateAllSwap(env, V, w, s.args, f.store, f.hist);
        if r.Stuck? then Stuck else r.(v := [o.v, f.v] + r.v, t := o.t + (f.t + r.t))
  }

  // As RunSerial.
  ghost function RunSwap(env: Env, V: set<nat>, w: Swap, p: Proc, s: Stmt, k: Cont, S: Serial): Next {
    match s
    case Eval(e) => Proceed(EvaluateSwap(env, V, w, e, S.store, S.hist), Skip(k), S.subject)
    case Decl(id, init) =>
      if init.NoExpr? then RunSerial(env, V, p, s, k, S)
      else
        var o := EvaluateSwap(env, V, w, init.e, S.store, S.hist);
        if o.Stuck? then Error
        else
          var (store, hist) := Assigned(V, id, o.v, o.store, o.hist);
          Next(Serial(Skip(k), store, hist, S.subject), o.t + [Set(id)])
    case Switch(_, _, subject, _) =>
      var o := EvaluateSwap(env, V, w, subject, S.store, S.hist);
      Proceed(o, Dispatch(s, k), if o.Stuck? then 0 else o.v)
    case If(_, test, yes, no) =>
      var o := EvaluateSwap(env, V, w, test, S.store, S.hist);
      Proceed(o, if o.Done? && o.v != 0 then Run(yes, k) else Run(no, k), S.subject)
    case For(_, start, _, _, _) => Proceed(EvaluateOptSwap(env, V, w, start, S.store, S.hist), Test(s, k), S.subject)
    case Return(_, result) =>
      var o := EvaluateOptSwap(env, V, w, result, S.store, S.hist);
      if o.Stuck? then Error
      else Next(Serial(Halt, o.store, o.hist + (if result.NoExpr? then [] else [Give(o.v)]), S.subject), o.t + [Returned])
    case Spawn(_, _, _, _, _) =>
      var o := EvaluateSpawnSwap(env, V, w, s, S.store, S.hist);
      if o.Stuck? then Error
      else
        var h := o.hist + [Perform(s.id, Called(o.v))];
        var (store, hist) := Receive(env, V, s, if o.v == [] then 0 else o.v[0], env.reply(h), o.store, h);
        Next(Serial(Skip(k), store, hist, S.subject), o.t + [SpawnEvent(s)])
    case _ => RunSerial(env, V, p, s, k, S)
  }

  // As SerialStep, with all variables changed at the exit of node w.n.
  ghost function StepSwap(env: Env, V: set<nat>, w: Swap, p: Proc, S: Serial): Next {
    match S.at
    case Run(s, k) => RunSwap(env, V, w, p, s, k, S)
    case Skip(k) =>
      if k.InLoop? && k.loop.For? then Proceed(EvaluateOptSwap(env, V, w, k.loop.next, S.store, S.hist), Test(k.loop, k.k), S.subject)
      else SerialStep(env, V, p, S)
    case Test(l, k) =>
      if !IsLoop(l) then Error
      else
        var o := EvaluateOptSwap(env, V, w, if l.For? then l.guard else TheExpr(l.test), S.store, S.hist);
        Proceed(o, if o.Done? && o.v != 0 then Run(l.body, InLoop(l, k)) else Skip(k), S.subject)
    case _ => SerialStep(env, V, p, S)
  }

  // The variables of V that are live at the exit of node n.
  ghost function LiveInsideSet(p: Proc, V: set<nat>, n: nat): set<nat> {
    set x | x in V && LiveInside(LiveFact(x), p, n)
  }

  // What is live after a rest is live at the node.
  lemma RestLive(p: Proc, V: set<nat>, a: Control, n: nat, u: Trace, b: Control)
    requires FE.IsStart(p, a) && RestStep(a, n, u, b)
    ensures LiveBefore(V, u, LiveSet(p, V, b)) <= LiveInsideSet(p, V, n)
  {
    hide BE.Live;
    hide LiveInside;
    hide RestStep;
    hide FE.IsStart;
    forall x | x in LiveBefore(V, u, LiveSet(p, V, b)) ensures LiveInside(LiveFact(x), p, n) {
      LeadsOn(LiveFact(x), p, a, n, u, b, x in LiveSet(p, V, b));
    }
  }

  // The expression e is evaluated at a, and `tail` happens after it.
  lemma ExprSpared(p: Proc, V: set<nat>, a: Control, e: Expr, n: nat, tail: Trace, b: Control)
    requires FE.IsStart(p, a)
    requires forall u :: IsRest(e, n, u) ==> RestStep(a, n, u + tail, b)
    ensures Covers(V, e, n, LiveBefore(V, tail, LiveSet(p, V, b)), LiveInsideSet(p, V, n))
  {
    hide IsRest;
    hide LiveBefore;
    hide LiveInsideSet;
    hide LiveSet;
    hide RestStep;
    hide FE.IsStart;
    forall u | IsRest(e, n, u) ensures LiveBefore(V, u, LiveBefore(V, tail, LiveSet(p, V, b))) <= LiveInsideSet(p, V, n) {
      LiveBeforeSplit(V, u, tail, LiveSet(p, V, b));
      RestLive(p, V, a, n, u + tail, b);
    }
  }

  lemma AgreesWithItself(sigma: Values, A: set<nat>)
    ensures Agree(sigma, sigma, A)
  {
  }

  // An optional expression that ends the step.
  lemma OptSwapSame(env: Env, V: set<nat>, w: Swap, p: Proc, a: Control, o: OptExpr, sigma: Values, hist: History, tail: Trace, b: Control)
    requires FE.IsStart(p, a) && Spares(w, LiveInsideSet(p, V, w.n)) && EvaluateOpt(env, V, o, sigma, hist).Done?
    requires forall u :: IsRestOpt(o, w.n, u) ==> RestStep(a, w.n, u + tail, b)
    ensures SameOutcome(EvaluateOpt(env, V, o, sigma, hist), EvaluateOptSwap(env, V, w, o, sigma, hist), LiveBefore(V, tail, LiveSet(p, V, b)))
  {
    hide LiveBefore;
    hide LiveInsideSet;
    hide LiveSet;
    hide RestStep;
    hide FE.IsStart;
    hide Evaluate;
    hide EvaluateSwap;
    hide IsRest;
    hide Covers;
    var L := LiveBefore(V, tail, LiveSet(p, V, b));
    AgreesWithItself(sigma, V);
    LiveBeforeInside(V, tail, LiveSet(p, V, b));
    if o.TheExpr? {
      forall u | IsRest(o.e, w.n, u) ensures RestStep(a, w.n, u + tail, b) { assert IsRestOpt(o, w.n, u); }
      ExprSpared(p, V, a, o.e, w.n, tail, b);
      AgreesWithItself(sigma, LiveBefore(V, Evaluate(env, V, o.e, sigma, hist).t, L));
      SwapSame(env, V, w, o.e, sigma, sigma, hist, L, LiveInsideSet(p, V, w.n));
    } else {
      AgreesWithItself(sigma, L);
    }
  }

  // ---------- Spawns ----------

  ghost predicate CoversSpawn(V: set<nat>, s: Stmt, n: nat, L: set<nat>, A: set<nat>)
    requires s.Spawn?
  {
    forall u :: IsSpawnRest(s, n, u) ==> LiveBefore(V, u, L) <= A
  }

  lemma ReceiverRest(s: Stmt, n: nat, u: Trace, v: Trace, t: Trace)
    requires s.Spawn? && IsReceiverRest(s, n, u) && IsPath(s.callee, v) && IsPathThroughAll(s.args, t)
    ensures IsSpawnRest(s, n, u + (v + t))
  {
    hide IsPath;
    hide IsRest;
    hide IsPathThroughAll;
    hide IsReceiverRest;
    var r := u + (v + t);
    ThreeParts(u, v, t);
    var (i, j) := (|u|, |u + v|);
    assert 0 <= i <= j <= |r| && IsReceiverRest(s, n, r[..i]) && IsPath(s.callee, r[i..j]) && IsPathThroughAll(s.args, r[j..]);
  }

  lemma SpawnPartsCovered(V: set<nat>, s: Stmt, n: nat, v: Trace, t: Trace, L: set<nat>, A: set<nat>)
    requires s.Spawn? && CoversSpawn(V, s, n, L, A) && IsPath(s.callee, v) && IsPathThroughAll(s.args, t)
    ensures CoversAll(V, s.args, n, L, A)
    ensures Covers(V, s.callee, n, LiveBefore(V, t, L), A)
    ensures forall u :: IsReceiverRest(s, n, u) ==> LiveBefore(V, u, LiveBefore(V, v, LiveBefore(V, t, L))) <= A
  {
    hide IsRest;
    hide IsPath;
    hide LiveBefore;
    hide IsReceiverRest;
    hide IsRestOfAll;
    hide IsPathThroughAll;
    forall u | IsRestOfAll(s.args, n, u) ensures LiveBefore(V, u, L) <= A { assert IsSpawnRest(s, n, u); }
    forall u | IsRest(s.callee, n, u) ensures LiveBefore(V, u, LiveBefore(V, t, L)) <= A {
      LiveBeforeSplit(V, u, t, L);
      assert (u + t)[..|u|] == u && (u + t)[|u|..] == t;
      assert IsSpawnRest(s, n, u + t);
    }
    forall u | IsReceiverRest(s, n, u) ensures LiveBefore(V, u, LiveBefore(V, v, LiveBefore(V, t, L))) <= A {
      ReceiverRest(s, n, u, v, t);
      LiveBeforeSplit(V, v, t, L);
      LiveBeforeSplit(V, u, v + t, L);
    }
  }

  // The receiver of a spawn, which a plain spawn into a variable does not read.
  lemma ReceiverSwapSame(env: Env, V: set<nat>, w: Swap, s: Stmt, sigma: Values, hist: History, L: set<nat>, A: set<nat>)
    requires s.Spawn? && L <= V && Spares(w, A)
    requires forall u :: IsReceiverRest(s, w.n, u) ==> LiveBefore(V, u, L) <= A
    requires var plain := s.receiver.TheExpr? && IsPlainTarget(s.op, s.receiver.e);
      EvaluateOpt(env, V, if plain then NoExpr else s.receiver, sigma, hist).Done?
    ensures var plain := s.receiver.TheExpr? && IsPlainTarget(s.op, s.receiver.e);
      SameOutcome(EvaluateOpt(env, V, if plain then NoExpr else s.receiver, sigma, hist),
                  if plain then Done(1, Swapped(w, s.receiver.e.id, sigma), hist, []) else EvaluateOptSwap(env, V, w, s.receiver, sigma, hist), L)
  {
    hide LiveBefore;
    hide Spares;
    hide Evaluate;
    hide EvaluateSwap;
    AgreesWithItself(sigma, L);
    if s.receiver.TheExpr? {
      var e := s.receiver.e;
      if IsPlainTarget(s.op, e) {
        if e.id == w.n {
          assert IsReceiverRest(s, w.n, []);
          LiveBeforeNone(V, L);
        }
        AgreeAlong(sigma, sigma, w, e.id, L, A);
      } else {
        forall u | IsRest(e, w.n, u) ensures LiveBefore(V, u, L) <= A { assert IsReceiverRest(s, w.n, u); }
        AgreesWithItself(sigma, LiveBefore(V, Evaluate(env, V, e, sigma, hist).t, L));
        SwapSame(env, V, w, e, sigma, sigma, hist, L, A);
      }
    }
  }

  lemma SpawnSwapSame(env: Env, V: set<nat>, w: Swap, s: Stmt, sigma: Values, hist: History, L: set<nat>, A: set<nat>)
    requires s.Spawn? && L <= V && Spares(w, A) && CoversSpawn(V, s, w.n, L, A)
    requires EvaluateSpawn(env, V, s, sigma, hist).Done?
    ensures SameOutcome(EvaluateSpawn(env, V, s, sigma, hist), EvaluateSpawnSwap(env, V, w, s, sigma, hist), L)
  {
    hide LiveBefore;
    hide Evaluate;
    hide EvaluateSwap;
    hide EvaluateAll;
    hide EvaluateAllSwap;
    hide EvaluateOpt;
    hide EvaluateOptSwap;
    hide Spares;
    hide Covers;
    hide CoversAll;
    hide CoversSpawn;
    hide IsReceiverRest;
    hide IsPath;
    hide IsPathThroughAll;
    var plain := s.receiver.TheExpr? && IsPlainTarget(s.op, s.receiver.e);
    var o := EvaluateOpt(env, V, if plain then NoExpr else s.receiver, sigma, hist);
    var f := Evaluate(env, V, s.callee, o.store, o.hist);
    var a := EvaluateAll(env, V, s.args, f.store, f.hist);
    EvalPath(env, V, s.callee, o.store, o.hist);
    EvalAllPath(env, V, s.args, f.store, f.hist);
    var M := LiveBefore(V, a.t, L);
    SpawnPartsCovered(V, s, w.n, f.t, a.t, L, A);
    LiveBeforeInside(V, a.t, L);
    LiveBeforeInside(V, f.t, M);
    ReceiverSwapSame(env, V, w, s, sigma, hist, LiveBefore(V, f.t, M), A);
    var o' := if plain then Done(1, Swapped(w, s.receiver.e.id, sigma), hist, []) else EvaluateOptSwap(env, V, w, s.receiver, sigma, hist);
    SwapSame(env, V, w, s.callee, o.store, o'.store, o.hist, M, A);
    var f' := EvaluateSwap(env, V, w, s.callee, o'.store, o.hist);
    AllSwapSame(env, V, w, s.args, f.store, f'.store, f.hist, L, A);
  }

  // ---------- Steps ----------

  lemma SpawnStepSwapSame(env: Env, V: set<nat>, w: Swap, p: Proc, s: Stmt, k: Cont, S: Serial)
    requires s.Spawn? && S.at == Run(s, k) && FE.IsStart(p, S.at) && Spares(w, LiveInsideSet(p, V, w.n))
    requires RunSerial(env, V, p, s, k, S).Next?
    ensures SameNext(RunSerial(env, V, p, s, k, S), RunSwap(env, V, w, p, s, k, S), LiveSet(p, V, Skip(k)))
  {
    hide LiveBefore;
    hide LiveInsideSet;
    hide LiveSet;
    hide Spares;
    hide EvaluateSpawn;
    hide EvaluateSpawnSwap;
    hide FE.IsStart;
    hide IsSpawnRest;
    var L := LiveSet(p, V, Skip(k));
    var A := LiveInsideSet(p, V, w.n);
    var ev := SpawnEvent(s);
    var M := if ev.r.SetBy? then L - {ev.r.x} else L;
    LiveSetInside(p, V, Skip(k));
    LiveBeforeOne(V, ev, L);
    forall u | IsSpawnRest(s, w.n, u) ensures LiveBefore(V, u, M) <= A {
      assert (u + [ev])[..|u + [ev]| - 1] == u;
      RestLive(p, V, S.at, w.n, u + [ev], Skip(k));
      LiveBeforeSplit(V, u, [ev], L);
    }
    SpawnSwapSame(env, V, w, s, S.store, S.hist, M, A);
  }

  // Statements that act after their operands.
  lemma OperandsSwapSame(env: Env, V: set<nat>, w: Swap, p: Proc, s: Stmt, k: Cont, S: Serial)
    requires (s.Decl? && s.init.TheExpr?) || s.Return?
    requires S.at == Run(s, k) && FE.IsStart(p, S.at) && Spares(w, LiveInsideSet(p, V, w.n)) && RunSerial(env, V, p, s, k, S).Next?
    ensures SameNext(RunSerial(env, V, p, s, k, S), RunSwap(env, V, w, p, s, k, S), LiveSet(p, V, RunSerial(env, V, p, s, k, S).to.at))
  {
    hide LiveBefore;
    hide LiveInsideSet;
    hide LiveSet;
    hide Spares;
    hide Evaluate;
    hide EvaluateSwap;
    hide FE.IsStart;
    hide IsRestOpt;
    var b := RunSerial(env, V, p, s, k, S).to.at;
    var ev := if s.Decl? then Set(s.id) else Returned;
    var o := if s.Decl? then s.init else s.result;
    LiveSetInside(p, V, b);
    LiveBeforeOne(V, ev, LiveSet(p, V, b));
    forall u | IsRestOpt(o, w.n, u) ensures RestStep(S.at, w.n, u + [ev], b) {
      assert (u + [ev])[..|u + [ev]| - 1] == u;
    }
    OptSwapSame(env, V, w, p, S.at, o, S.store, S.hist, [ev], b);
  }

  lemma RunSwapSame(env: Env, V: set<nat>, w: Swap, p: Proc, s: Stmt, k: Cont, S: Serial)
    requires S.at == Run(s, k) && FE.IsStart(p, S.at) && Spares(w, LiveInsideSet(p, V, w.n))
    requires RunSerial(env, V, p, s, k, S).Next?
    ensures SameNext(RunSerial(env, V, p, s, k, S), RunSwap(env, V, w, p, s, k, S), LiveSet(p, V, RunSerial(env, V, p, s, k, S).to.at))
  {
    hide LiveBefore;
    hide LiveInsideSet;
    hide LiveSet;
    hide Spares;
    hide Evaluate;
    hide EvaluateSwap;
    hide FE.IsStart;
    hide IsRest;
    hide SpawnSerial;
    hide EvaluateSpawnSwap;
    hide AllPlaces;
    var m := RunSerial(env, V, p, s, k, S);
    var b := m.to.at;
    LiveSetInside(p, V, b);
    LiveBeforeNone(V, LiveSet(p, V, b));
    if s.Spawn? {
      SpawnStepSwapSame(env, V, w, p, s, k, S);
    } else if (s.Decl? && s.init.TheExpr?) || s.Return? {
      OperandsSwapSame(env, V, w, p, s, k, S);
    } else if s.Eval? || s.Switch? || s.If? || s.For? {
      var o := if s.Eval? then TheExpr(s.e) else if s.Switch? then TheExpr(s.subject) else if s.If? then TheExpr(s.test) else s.start;
      ExprStepSwapSame(env, V, w, p, o, S, b);
    } else {
      AgreesWithItself(m.to.store, LiveSet(p, V, b));
    }
  }

  // The expression is all that the step does.
  lemma ExprStepSwapSame(env: Env, V: set<nat>, w: Swap, p: Proc, o: OptExpr, S: Serial, b: Control)
    requires FE.IsStart(p, S.at) && Spares(w, LiveInsideSet(p, V, w.n)) && EvaluateOpt(env, V, o, S.store, S.hist).Done?
    requires forall u :: IsRestOpt(o, w.n, u) ==> RestStep(S.at, w.n, u, b)
    ensures SameOutcome(EvaluateOpt(env, V, o, S.store, S.hist), EvaluateOptSwap(env, V, w, o, S.store, S.hist), LiveSet(p, V, b))
  {
    hide LiveBefore;
    hide LiveInsideSet;
    hide LiveSet;
    hide Spares;
    hide FE.IsStart;
    hide RestStep;
    hide IsRestOpt;
    hide EvaluateOpt;
    hide EvaluateOptSwap;
    LiveSetInside(p, V, b);
    LiveBeforeNone(V, LiveSet(p, V, b));
    forall u | IsRestOpt(o, w.n, u) ensures RestStep(S.at, w.n, u + [], b) { assert u + [] == u; }
    OptSwapSame(env, V, w, p, S.at, o, S.store, S.hist, [], b);
  }

  /** A step in which the variables that are not live at the exit of a node are changed there
      is the same step, and afterwards the stores agree on what is live. */
  lemma StepSwapSame(env: Env, V: set<nat>, w: Swap, p: Proc, S: Serial)
    requires FE.IsStart(p, S.at) && Spares(w, LiveInsideSet(p, V, w.n)) && SerialStep(env, V, p, S).Next?
    ensures SameNext(SerialStep(env, V, p, S), StepSwap(env, V, w, p, S), LiveSet(p, V, SerialStep(env, V, p, S).to.at))
  {
    hide LiveBefore;
    hide LiveInsideSet;
    hide LiveSet;
    hide Spares;
    hide Evaluate;
    hide EvaluateSwap;
    hide RunSerial;
    hide RunSwap;
    hide IsRestOpt;
    hide AllPlaces;
    var m := SerialStep(env, V, p, S);
    match S.at
    case Run(s, k) => RunSwapSame(env, V, w, p, s, k, S);
    case Skip(k) =>
      if k.loop.For? {
        ExprStepSwapSame(env, V, w, p, k.loop.next, S, m.to.at);
      } else {
        AgreesWithItself(m.to.store, LiveSet(p, V, m.to.at));
      }
    case Test(l, k) => TestSwapSame(env, V, w, p, l, k, S);
  }

  lemma TestSwapSame(env: Env, V: set<nat>, w: Swap, p: Proc, l: Stmt, k: Cont, S: Serial)
    requires S.at == Test(l, k) && FE.IsStart(p, S.at) && Spares(w, LiveInsideSet(p, V, w.n)) && SerialStep(env, V, p, S).Next?
    ensures SameNext(SerialStep(env, V, p, S), StepSwap(env, V, w, p, S), LiveSet(p, V, SerialStep(env, V, p, S).to.at))
  {
    hide LiveBefore;
    hide LiveInsideSet;
    hide LiveSet;
    hide Spares;
    hide Evaluate;
    hide EvaluateSwap;
    hide AllPlaces;
    hide IsRest;
    var m := SerialStep(env, V, p, S);
    var o := if l.For? then l.guard else TheExpr(l.test);
    assert forall u :: IsRestOpt(o, w.n, u) ==> RestStep(S.at, w.n, u, m.to.at);
    ExprStepSwapSame(env, V, w, p, o, S, m.to.at);
  }

  lemma RecordedInside(p: Proc, vars: seq<nat>, n: nat)
    requires Analyzable(p)
    ensures ExprLiveVars(p, Chunks(vars), Unmarked, n) == LiveInsideSet(p, SetOf(vars), n)
  {
    hide ExprLiveVars;
    hide LiveInside;
    forall x ensures x in ExprLiveVars(p, Chunks(vars), Unmarked, n) <==> x in LiveInsideSet(p, SetOf(vars), n) {
      AnalyzeExprLiveExact(p, vars, n, x);
    }
  }

  /** From the exit of an expression node on, the variables that the analysis does not record
      as live there can have any value, or none: the evaluation that is under way and any
      number of further steps have the same branches and effects. */
  lemma RecordedInsideMeans(env: Env, vars: seq<nat>, p: Proc, S: Serial, w: Swap, m: nat)
    requires Analyzable(p) && FE.IsStart(p, S.at) && Spares(w, ExprLiveVars(p, Chunks(vars), Unmarked, w.n))
    requires SerialRun(env, SetOf(vars), p, S, m + 1).Next?
    ensures var run := SerialRun(env, SetOf(vars), p, S, m + 1);
      var one := StepSwap(env, SetOf(vars), w, p, S);
      && one.Next?
      && var rest := SerialRun(env, SetOf(vars), p, one.to, m);
         rest.Next? && one.t + rest.t == run.t && rest.to.at == run.to.at && rest.to.hist == run.to.hist
  {
    hide ExprLiveVars;
    hide SerialStep;
    hide StepSwap;
    hide LiveSet;
    hide LiveInsideSet;
    hide Spares;
    hide FE.IsStart;
    var V := SetOf(vars);
    RecordedInside(p, vars, w.n);
    StepSwapSame(env, V, w, p, S);
    var one := SerialStep(env, V, p, S);
    LivenessMeans(env, V, p, one.to, StepSwap(env, V, w, p, S).to.store, m);
  }
}
