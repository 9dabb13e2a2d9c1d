/**
 The serial meaning of a procedure: what it computes when every spawn is an ordinary call.

 Variables of the set V are those the compiler keeps in registers; everything else
 (memory, other variables, calls) is reached through actions whose results the environment
 decides from the history of actions.  Reading a variable that has no value is an error,
 and execution is stuck.
 */
module Semantics {
  import opened Ast
  import opened Control

  datatype Action =
    | Read(x: nat)                          // of a variable that is not in V
    | Write(x: nat, v: int)
    | Perform(node: nat, operands: seq<int>) // calls, spawns and memory accesses
    | Give(v: int)                          // the value returned

  type History = seq<Action>

  type Values = map<nat, int>

  // `apply` is what the operator of a node computes, `reply` what the last action yields.
  datatype Env = Env(apply: (nat, seq<int>) -> int, reply: History -> int)

  datatype Outcome<T> = Stuck | Done(v: T, store: Values, hist: History, t: Trace)

  // ---------- Expressions ----------

  function Fetch(env: Env, V: set<nat>, x: nat, store: Values, hist: History): Outcome<int> {
    if x !in V then Done(env.reply(hist + [Read(x)]), store, hist + [Read(x)], [Use(x)])
    else if x in store then Done(store[x], store, hist, [Use(x)])
    else Stuck
  }

  // The store and history after x has been assigned v.
  function Assigned(V: set<nat>, x: nat, v: int, store: Values, hist: History): (Values, History) {
    if x in V then (store[x := v], hist) else (store, hist + [Write(x, v)])
  }

  function Act(env: Env, node: nat, operands: seq<int>, store: Values, hist: History, t: Trace): Outcome<int> {
    var h := hist + [Perform(node, operands)];
    Done(env.reply(h), store, h, t)
  }

  function Evaluate(env: Env, V: set<nat>, e: Expr, store: Values, hist: History): Outcome<int> {
    match e
    case Const(_, c) => Done(c, store, hist, [Computed])
    case Id(_, x) => Fetch(env, V, x, store, hist)
    case Binop(id, op, left, right) =>
      if IsPlainTarget(op, left) then
        var r := Evaluate(env, V, right, store, hist);
        if r.Stuck? then Stuck
        else
          var (s, h) := Assigned(V, left.decl, r.v, r.store, r.hist);
          Done(r.v, s, h, r.t + [Set(left.decl)])
      else
        var l := Evaluate(env, V, left, store, hist);
        if l.Stuck? then Stuck
        else if (op.AndAnd? && l.v == 0) || (op.OrOr? && l.v != 0) then l.(v := env.apply(id, [l.v]))
        else
          var r := Evaluate(env, V, right, l.store, l.hist);
          if r.Stuck? then Stuck else Combine(env, V, id, op, left, l, r)
    case Unary(id, uop, operand) =>
      if uop.SizeOf? then Done(env.apply(id, []), store, hist, [Computed])
      else
        var o := Evaluate(env, V, operand, store, hist);
        if o.Stuck? then Stuck
        else if uop.IncDec? && operand.Id? then
          var v := env.apply(id, [o.v]);
          var (s, h) := Assigned(V, operand.decl, v, o.store, o.hist);
          Done(env.apply(id, [o.v, v]), s, h, o.t + [Update(operand.decl)])
        else if uop.Plain? then o.(v := env.apply(id, [o.v]))
        else Act(env, id, [o.v], o.store, o.hist, o.t)
    case Ternary(_, cond, yes, no) =>
      var c := Evaluate(env, V, cond, store, hist);
      if c.Stuck? then Stuck
      else
        var r := Evaluate(env, V, if c.v != 0 then yes else no, c.store, c.hist);
        if r.Stuck? then Stuck else r.(t := c.t + r.t)
    case Call(id, name, args) =>
      var f := Evaluate(env, V, name, store, hist);
      if f.Stuck? then Stuck
      else
        var r := EvaluateAll(env, V, args, f.store, f.hist);
        if r.Stuck? then Stuck else Act(env, id, [f.v] + r.v, r.store, r.hist, f.t + r.t)
  }

  // Both operands are evaluated; what the operator does with them.
  function Combine(env: Env, V: set<nat>, id: nat, op: Operator, left: Expr, l: Outcome<int>, r: Outcome<int>): Outcome<int>
    requires l.Done? && r.Done?
  {
    if op.OpAssign? && left.Id? then
      var v := env.apply(id, [l.v, r.v]);
      var (s, h) := Assigned(V, left.decl, v, r.store, r.hist);
      Done(v, s, h, l.t + r.t + [Update(left.decl)])
    else if op == Assign || op.OpAssign? then Act(env, id, [l.v, r.v], r.store, r.hist, l.t + r.t)
    else Done(env.apply(id, [l.v, r.v]), r.store, r.hist, l.t + r.t)
  }

  function EvaluateAll(env: Env, V: set<nat>, es: Exprs, store: Values, hist: History): Outcome<seq<int>> {
    match es
    case NoExprs => Done([], store, hist, [])
    case MoreExprs(head, tail) =>
      var h := Evaluate(env, V, head, store, hist);
      if h.Stuck? then Stuck
      else
        var r := EvaluateAll(env, V, tail, h.store, h.hist);
        if r.Stuck? then Stuck else r.(v := [h.v] + r.v, t := h.t + r.t)
  }

  // An absent expression counts as true.
  function EvaluateOpt(env: Env, V: set<nat>, o: OptExpr, store: Values, hist: History): Outcome<int> {
    if o.NoExpr? then Done(1, store, hist, []) else Evaluate(env, V, o.e, store, hist)
  }

  // Receiver, callee and arguments of a spawn; a plainly assigned receiver is not read.
  function EvaluateSpawn(env: Env, V: set<nat>, s: Stmt, store: Values, hist: History): Outcome<seq<int>>
    requires s.Spawn?
  {
    var o := EvaluateOpt(env, V, if s.receiver.TheExpr? && IsPlainTarget(s.op, s.receiver.e) then NoExpr else s.receiver, store, hist);
    if o.Stuck? then Stuck
    else
      var f := Evaluate(env, V, s.callee, o.store, o.hist);
      if f.Stuck? then Stuck
      else
        var r := EvaluateAll(env, V, s.args, f.store, f.hist);
        if r.Stuck? then Stuck else r.(v := [o.v, f.v] + r.v, t := o.t + (f.t + r.t))
  }

  // The callee and the arguments, without what the receiver yielded.
  function Called(v: seq<int>): seq<int> {
    if v == [] then [] else v[1..]
  }

  // ---------- Statements ----------

  // `subject` is the value of the last switch subject.
  datatype Serial = Serial(at: Control, store: Values, hist: History, subject: int)

  datatype Next = Error | Next(to: Serial, t: Trace)

  // After evaluating an expression, go on at b.
  function Proceed(o: Outcome<int>, b: Control, subject: int): Next {
    if o.Stuck? then Error else Next(Serial(b, o.store, o.hist, subject), o.t)
  }

  ghost predicate IsLabelAt(p: Proc, d: nat, k: Cont) {
    Place(Label(d), k) in AllPlaces(p)
  }

  ghost predicate IsCaseAt(sw: Stmt, k: Cont, v: int, q: Place)
    requires sw.Switch?
  {
    q in Places(sw.body, InSwitch(sw, k)) && q.s.Case? && q.s.container == sw.id && q.s.value == v
  }

  ghost predicate IsDefaultAt(sw: Stmt, k: Cont, q: Place)
    requires sw.Switch?
  {
    q in Places(sw.body, InSwitch(sw, k)) && q.s.Default? && q.s.container == sw.id
  }

  // Where a switch on v leads: a case for v, else the default, else past the switch.
  ghost function DispatchTo(sw: Stmt, k: Cont, v: int): Control
    requires sw.Switch?
  {
    if exists q :: IsCaseAt(sw, k, v, q) then
      var q :| IsCaseAt(sw, k, v, q);
      Run(q.s, q.k)
    else if !sw.hasDefault then Skip(k)
    else if exists q :: IsDefaultAt(sw, k, q) then
      var q :| IsDefaultAt(sw, k, q);
      Run(q.s, q.k)
    else Halt
  }

  // What a spawned child's result does.  An op-assigned variable is read when the result
  // arrives; `address` is what the receiver expression yielded before.
  function Receive(env: Env, V: set<nat>, s: Stmt, address: int, v: int, store: Values, hist: History): (Values, History)
    requires s.Spawn?
  {
    if s.receiver.NoExpr? then (store, hist)
    else if !s.receiver.e.Id? then (store, hist + [Perform(s.receiver.e.id, [address, v])])
    else
      var x := s.receiver.e.decl;
      if s.op == Assign then Assigned(V, x, v, store, hist)
      else if x !in V then (store, hist + [Write(x, env.apply(s.receiver.e.id, [address, v]))])
      else if x in store then (store[x := env.apply(s.receiver.e.id, [store[x], v])], hist)
      else (store, hist)
  }

  ghost function SpawnSerial(env: Env, V: set<nat>, s: Stmt, k: Cont, S: Serial): Next
    requires s.Spawn?
  {
    var o := EvaluateSpawn(env, V, s, S.store, S.hist);
    if o.Stuck? then Error
    else
      var h := o.hist + [Perform(s.id, Called(o.v))];
      var (store, hist) := Receive(env, V, s, if o.v == [] then 0 else o.v[0], env.reply(h), o.store, h);
      Next(Serial(Skip(k), store, hist, S.subject), o.t + [SpawnEvent(s)])
  }

  ghost function RunSerial(env: Env, V: set<nat>, p: Proc, s: Stmt, k: Cont, S: Serial): Next {
    match s
    case Null => Next(S.(at := Skip(k)), [])
    case Then(first, rest) => Next(S.(at := Run(first, Seq(rest, k))), [])
    case Eval(e) => Proceed(Evaluate(env, V, e, S.store, S.hist), Skip(k), S.subject)
    case Decl(id, init) =>
      if init.NoExpr? then Next(S.(at := Skip(k), store := S.store - {id}), [Declare(id)])
      else
        var o := Evaluate(env, V, init.e, S.store, S.hist);
        if o.Stuck? then Error
        else
          var (store, hist) := Assigned(V, id, o.v, o.store, o.hist);
          Next(Serial(Skip(k), store, hist, S.subject), o.t + [Set(id)])
    case Block(_, items) => Next(S.(at := Run(items, k)), [])
    case Label(_) => Next(S.(at := Skip(k)), [])
    case Goto(_, d) =>
      if j :| IsLabelAt(p, d, j) then Next(S.(at := Run(Label(d), j)), []) else Error
    case Switch(_, _, subject, _) =>
      var o := Evaluate(env, V, subject, S.store, S.hist);
      Proceed(o, Dispatch(s, k), if o.Stuck? then 0 else o.v)
    case Case(_, _, _) => Next(S.(at := Skip(k)), [])
    case Default(_, _) => Next(S.(at := Skip(k)), [])
    case If(_, test, yes, no) =>
      var o := Evaluate(env, V, test, S.store, S.hist);
      Proceed(o, if o.Done? && o.v != 0 then Run(yes, k) else Run(no, k), S.subject)
    case While(_, _, _) => Next(S.(at := Test(s, k)), [])
    case Do(_, body, _) => Next(S.(at := Run(body, InLoop(s, k))), [])
    case For(_, start, _, _, _) => Proceed(EvaluateOpt(env, V, start, S.store, S.hist), Test(s, k), S.subject)
    case Break(_, _) => if BreakFrame(k).Stop? then Error else Next(S.(at := Skip(BreakFrame(k).k)), [])
    case Continue(_, _) => if LoopFrame(k).Stop? then Error else Next(S.(at := Skip(LoopFrame(k))), [])
    case Return(_, result) =>
      var o := EvaluateOpt(env, V, result, S.store, S.hist);
      if o.Stuck? then Error
      else Next(Serial(Halt, o.store, o.hist + (if result.NoExpr? then [] else [Give(o.v)]), S.subject), o.t + [Returned])
    case Spawn(_, _, _, _, _) => SpawnSerial(env, V, s, k, S)
    case Sync(_) => Next(S.(at := Skip(k)), [Synced])
  }

  ghost function SkipSerial(env: Env, V: set<nat>, k: Cont, S: Serial): Next {
    match k
    case Stop => Next(S.(at := Halt), [])
    case Seq(s, k) => Next(S.(at := Run(s, k)), [])
    case InLoop(l, k) =>
      if l.For? then Proceed(EvaluateOpt(env, V, l.next, S.store, S.hist), Test(l, k), S.subject)
      else Next(S.(at := Test(l, k)), [])
    case InSwitch(_, k) => Next(S.(at := Skip(k)), [])
  }

  ghost function TestSerial(env: Env, V: set<nat>, l: Stmt, k: Cont, S: Serial): Next {
    if !IsLoop(l) then Error
    else
      var o := EvaluateOpt(env, V, if l.For? then l.guard else TheExpr(l.test), S.store, S.hist);
      Proceed(o, if o.Done? && o.v != 0 then Run(l.body, InLoop(l, k)) else Skip(k), S.subject)
  }

  ghost function SerialStep(env: Env, V: set<nat>, p: Proc, S: Serial): Next {
    match S.at
    case Run(s, k) => RunSerial(env, V, p, s, k, S)
    case Skip(k) => SkipSerial(env, V, k, S)
    case Test(l, k) => TestSerial(env, V, l, k, S)
    case Dispatch(sw, k) =>
      if !sw.Switch? || DispatchTo(sw, k, S.subject) == Halt then Error else Next(S.(at := DispatchTo(sw, k, S.subject)), [])
    case Halt => Error
  }

  /** Tests decide: a branch is taken, and a loop is entered, if and only if the test is not 0,
      and a switch goes to a case with the value of its subject if there is one. */
  lemma TestsDecide(env: Env, V: set<nat>, p: Proc, S: Serial)
    requires SerialStep(env, V, p, S).Next?
    ensures var b := SerialStep(env, V, p, S).to.at;
      && (S.at.Run? && S.at.s.If? ==>
            b == Run(if Evaluate(env, V, S.at.s.test, S.store, S.hist).v == 0 then S.at.s.no else S.at.s.yes, S.at.k))
      && (S.at.Test? && (S.at.loop.While? || S.at.loop.Do?) ==>
            var o := Evaluate(env, V, S.at.loop.test, S.store, S.hist);
            b == if o.v == 0 then Skip(S.at.k) else Run(S.at.loop.body, InLoop(S.at.loop, S.at.k)))
      && (S.at.Test? && S.at.loop.For? ==>
            var g := S.at.loop.guard;
            b == if g.TheExpr? && Evaluate(env, V, g.e, S.store, S.hist).v == 0 then Skip(S.at.k)
                 else Run(S.at.loop.body, InLoop(S.at.loop, S.at.k)))
      && (S.at.Dispatch? && S.at.sw.Switch? && (exists q :: IsCaseAt(S.at.sw, S.at.k, S.subject, q)) ==>
            b.Run? && IsCaseAt(S.at.sw, S.at.k, S.subject, Place(b.s, b.k)))
  {
  }

  // ---------- Every step follows control flow ----------

  lemma Cut(t: Trace, u: Trace)
    ensures (t + u)[..|t|] == t && (t + u)[|t|..] == u
  {
  }

  // Paths through an expression, from paths through its operands.
  lemma PlainIsPath(e: Expr, u: Trace)
    requires e.Binop? && IsPlainTarget(e.op, e.left) && IsPath(e.right, u)
    ensures IsPath(e, u + [Set(e.left.decl)])
  {
    Cut(u, [Set(e.left.decl)]);
  }

  lemma ShortIsPath(e: Expr, u: Trace)
    requires e.Binop? && (e.op.AndAnd? || e.op.OrOr?) && IsPath(e.left, u)
    ensures IsPath(e, u)
  {
  }

  lemma BothArePath(e: Expr, u: Trace, w: Trace)
    requires e.Binop? && !IsPlainTarget(e.op, e.left) && IsPath(e.left, u) && IsPath(e.right, w)
    ensures if e.op.OpAssign? && e.left.Id? then IsPath(e, u + w + [Update(e.left.decl)]) else IsPath(e, u + w)
  {
    Cut(u, w);
    if e.op.OpAssign? && e.left.Id? {
      Cut(u + w, [Update(e.left.decl)]);
      var t := u + w + [Update(e.left.decl)];
      assert t[..|t| - 1] == u + w;
    }
  }

  lemma BranchIsPath(e: Expr, u: Trace, w: Trace)
    requires e.Ternary? && IsPath(e.cond, u) && (IsPath(e.yes, w) || IsPath(e.no, w))
    ensures IsPath(e, u + w)
  {
    Cut(u, w);
  }

  lemma CallIsPath(e: Expr, u: Trace, w: Trace)
    requires e.Call? && IsPath(e.name, u) && IsPathThroughAll(e.args, w)
    ensures IsPath(e, u + w)
  {
    Cut(u, w);
  }

  lemma UnaryIsPath(e: Expr, u: Trace)
    requires e.Unary? && !e.uop.SizeOf? && IsPath(e.operand, u)
    ensures IsPath(e, if e.uop.IncDec? && e.operand.Id? then u + [Update(e.operand.decl)] else u)
  {
  }

  lemma LeafIsPath(e: Expr)
    ensures e.Const? || (e.Unary? && e.uop.SizeOf?) ==> IsPath(e, [Computed])
    ensures e.Id? ==> IsPath(e, [Use(e.decl)])
  {
  }

  lemma {:induction false} EvalPath(env: Env, V: set<nat>, e: Expr, store: Values, hist: History)
    ensures var o := Evaluate(env, V, e, store, hist); o.Done? ==> IsPath(e, o.t)
    decreases e, 1
  {
    hide Assigned;
    hide IsPath;
    hide IsPathThroughAll;
    LeafIsPath(e);
    if Evaluate(env, V, e, store, hist).Done? {
      match e {
        case Const(_, _) | Id(_, _) =>
        case Binop(_, op, left, right) =>
          if IsPlainTarget(op, left) {
            EvalPath(env, V, right, store, hist);
            PlainIsPath(e, Evaluate(env, V, right, store, hist).t);
          } else {
            BinopPath(env, V, e, store, hist);
          }
        case Unary(_, uop, operand) =>
          if !uop.SizeOf? {
            EvalPath(env, V, operand, store, hist);
            UnaryIsPath(e, Evaluate(env, V, operand, store, hist).t);
          }
        case Ternary(_, cond, yes, no) =>
          var c := Evaluate(env, V, cond, store, hist);
          var branch := if c.v != 0 then yes else no;
          EvalPath(env, V, cond, store, hist);
          EvalPath(env, V, branch, c.store, c.hist);
          BranchIsPath(e, c.t, Evaluate(env, V, branch, c.store, c.hist).t);
        case Call(_, name, args) =>
          var f := Evaluate(env, V, name, store, hist);
          EvalPath(env, V, name, store, hist);
          EvalAllPath(env, V, args, f.store, f.hist);
          CallIsPath(e, f.t, EvaluateAll(env, V, args, f.store, f.hist).t);
      }
    }
  }

  lemma {:induction false} BinopPath(env: Env, V: set<nat>, e: Expr, store: Values, hist: History)
    requires e.Binop? && !IsPlainTarget(e.op, e.left) && Evaluate(env, V, e, store, hist).Done?
    ensures IsPath(e, Evaluate(env, V, e, store, hist).t)
    decreases e, 0
  {
    hide Assigned;
    hide IsPath;
    var (op, left, right) := (e.op, e.left, e.right);
    var l := Evaluate(env, V, left, store, hist);
    EvalPath(env, V, left, store, hist);
    if (op.AndAnd? && l.v == 0) || (op.OrOr? && l.v != 0) {
      ShortIsPath(e, l.t);
    } else {
      EvalPath(env, V, right, l.store, l.hist);
      BothArePath(e, l.t, Evaluate(env, V, right, l.store, l.hist).t);
    }
  }

  lemma {:induction false} EvalAllPath(env: Env, V: set<nat>, es: Exprs, store: Values, hist: History)
    ensures var o := EvaluateAll(env, V, es, store, hist); o.Done? ==> IsPathThroughAll(es, o.t)
    decreases es, 1
  {
    if es.MoreExprs? {
      var h := Evaluate(env, V, es.head, store, hist);
      if h.Done? {
        EvalPath(env, V, es.head, store, hist);
        EvalAllPath(env, V, es.tail, h.store, h.hist);
        var r := EvaluateAll(env, V, es.tail, h.store, h.hist);
        if r.Done? { Cut(h.t, r.t); }
      }
    }
  }

  lemma EvalOptPath(env: Env, V: set<nat>, o: OptExpr, store: Values, hist: History)
    ensures var r := EvaluateOpt(env, V, o, store, hist); r.Done? ==> IsPathOpt(o, r.t)
  {
    if o.TheExpr? { EvalPath(env, V, o.e, store, hist); }
  }

  lemma EvalSpawnPath(env: Env, V: set<nat>, s: Stmt, store: Values, hist: History)
    requires s.Spawn?
    ensures var r := EvaluateSpawn(env, V, s, store, hist); r.Done? ==> IsSpawnPath(s, r.t) && |r.v| >= 2
  {
    hide IsPath;
    var r := EvaluateSpawn(env, V, s, store, hist);
    if r.Done? {
      var receiver := if s.receiver.TheExpr? && IsPlainTarget(s.op, s.receiver.e) then NoExpr else s.receiver;
      var o := EvaluateOpt(env, V, receiver, store, hist);
      var f := Evaluate(env, V, s.callee, o.store, o.hist);
      var a := EvaluateAll(env, V, s.args, f.store, f.hist);
      EvalOptPath(env, V, receiver, store, hist);
      EvalPath(env, V, s.callee, o.store, o.hist);
      EvalAllPath(env, V, s.args, f.store, f.hist);
      ThreeParts(o.t, f.t, a.t);
      var (i, j) := (|o.t|, |o.t + f.t|);
      assert 0 <= i <= j <= |r.t| && IsReceiverPath(s, r.t[..i]) && IsPath(s.callee, r.t[i..j]) && IsPathThroughAll(s.args, r.t[j..]);
    }
  }

  /** The serial meaning takes only steps that control flow allows, with the same events. */
  lemma SerialFollowsControl(env: Env, V: set<nat>, p: Proc, S: Serial)
    ensures var n := SerialStep(env, V, p, S); n.Next? ==> Step(p, S.at, n.t, n.to.at)
  {
    hide IsPath;
    hide IsSpawnPath;
    hide Places;
    hide AllPlaces;
    hide Evaluate;
    match S.at
    case Run(s, k) => RunFollows(env, V, p, s, k, S);
    case Skip(k) => if k.InLoop? && k.loop.For? { EvalOptPath(env, V, k.loop.next, S.store, S.hist); }
    case Test(l, k) =>
      if IsLoop(l) { EvalOptPath(env, V, if l.For? then l.guard else TheExpr(l.test), S.store, S.hist); }
    case Dispatch(sw, k) =>
    case Halt =>
  }

  lemma RunFollows(env: Env, V: set<nat>, p: Proc, s: Stmt, k: Cont, S: Serial)
    ensures var n := RunSerial(env, V, p, s, k, S); n.Next? ==> RunStep(p, s, k, n.t, n.to.at)
  {
    hide IsPath;
    hide IsSpawnPath;
    hide AllPlaces;
    hide Evaluate;
    match s
    case Eval(e) => EvalPath(env, V, e, S.store, S.hist);
    case Decl(_, _) => OperandsFollow(env, V, p, s, k, S);
    case Switch(_, _, e, _) => EvalPath(env, V, e, S.store, S.hist);
    case If(_, e, _, _) => EvalPath(env, V, e, S.store, S.hist);
    case For(_, start, _, _, _) => EvalOptPath(env, V, start, S.store, S.hist);
    case Return(_, _) => OperandsFollow(env, V, p, s, k, S);
    case Spawn(_, _, _, _, _) => OperandsFollow(env, V, p, s, k, S);
    case _ =>
  }

  // Statements that act after their operands have been evaluated.
  lemma OperandsFollow(env: Env, V: set<nat>, p: Proc, s: Stmt, k: Cont, S: Serial)
    requires s.Decl? || s.Return? || s.Spawn?
    ensures var n := RunSerial(env, V, p, s, k, S); n.Next? ==> RunStep(p, s, k, n.t, n.to.at)
  {
    hide IsPath;
    hide IsSpawnPath;
    hide AllPlaces;
    hide Evaluate;
    match s
    case Decl(id, init) =>
      if init.TheExpr? {
        EvalPath(env, V, init.e, S.store, S.hist);
        var o := Evaluate(env, V, init.e, S.store, S.hist);
        if o.Done? { Cut(o.t, [Set(id)]); }
      }
    case Return(_, result) =>
      EvalOptPath(env, V, result, S.store, S.hist);
      var o := EvaluateOpt(env, V, result, S.store, S.hist);
      if o.Done? { Cut(o.t, [Returned]); }
    case Spawn(_, _, _, _, _) =>
      hide EvaluateSpawn;
      EvalSpawnPath(env, V, s, S.store, S.hist);
      var o := EvaluateSpawn(env, V, s, S.store, S.hist);
      if o.Done? { Cut(o.t, [SpawnEvent(s)]); }
  }
}
