/**
 Serial elision: the C procedure that is left when the Cilk keywords are taken away.  It
 computes what the serial meaning computes, and therefore what the compiled procedure
 computes under every schedule.
 */
module Elision {
  import opened Ast
  import opened Control
  import opened Convergence
  import opened Walks
  import opened Analyses
  import opened Semantics
  import opened Noninterference
  import opened Positions
  import opened Machine
  import opened SaveRestore
  import opened Schedules
  import opened Compiled

  // ElideSpawn: the call keeps the position of the spawn, the assignment that of the receiver.
  function ElidedSpawn(s: Stmt): Expr
    requires s.Spawn?
  {
    var call := Call(s.id, s.callee, s.args);
    if s.receiver.NoExpr? then call else Binop(s.receiver.e.id, s.op, s.receiver.e, call)
  }

  function Elided(s: Stmt): Stmt {
    match s
    case Then(first, rest) => Then(Elided(first), Elided(rest))
    case Block(id, items) => Block(id, Elided(items))
    case Switch(id, hasDefault, subject, body) => Switch(id, hasDefault, subject, Elided(body))
    case If(id, test, yes, no) => If(id, test, Elided(yes), Elided(no))
    case While(id, test, body) => While(id, test, Elided(body))
    case Do(id, body, test) => Do(id, Elided(body), test)
    case For(id, start, guard, next, body) => For(id, start, guard, next, Elided(body))
    case Spawn(_, _, _, _, _) => Eval(ElidedSpawn(s))
    case Sync(_) => Null
    case _ => s
  }

  function ElidedProc(p: Proc): Proc {
    Proc(p.id, Elided(p.body))
  }

  // No Cilk is left.
  predicate IsC(s: Stmt) {
    match s
    case Then(first, rest) => IsC(first) && IsC(rest)
    case Block(_, items) => IsC(items)
    case Switch(_, _, _, body) => IsC(body)
    case If(_, _, yes, no) => IsC(yes) && IsC(no)
    case While(_, _, body) => IsC(body)
    case Do(_, body, _) => IsC(body)
    case For(_, _, _, _, body) => IsC(body)
    case Spawn(_, _, _, _, _) => false
    case Sync(_) => false
    case _ => true
  }

  // A C procedure is left as it is, and only those are.
  lemma {:induction false} ElidedIsC(s: Stmt)
    ensures IsC(Elided(s)) && (IsC(s) <==> Elided(s) == s)
  {
    match s
    case Then(first, rest) => ElidedIsC(first); ElidedIsC(rest);
    case Block(_, items) => ElidedIsC(items);
    case Switch(_, _, _, body) => ElidedIsC(body);
    case If(_, _, yes, no) => ElidedIsC(yes); ElidedIsC(no);
    case While(_, _, body) => ElidedIsC(body);
    case Do(_, body, _) => ElidedIsC(body);
    case For(_, _, _, _, body) => ElidedIsC(body);
    case _ =>
  }

  // r is s, but that expression statements stand for spawns and nothing stands for syncs.
  predicate SameButCilk(s: Stmt, r: Stmt) {
    match s
    case Then(first, rest) => r.Then? && SameButCilk(first, r.first) && SameButCilk(rest, r.rest)
    case Block(id, items) => r.Block? && r.id == id && SameButCilk(items, r.items)
    case Switch(id, hasDefault, subject, body) =>
      r.Switch? && r.id == id && r.hasDefault == hasDefault && r.subject == subject && SameButCilk(body, r.body)
    case If(id, test, yes, no) => r.If? && r.id == id && r.test == test && SameButCilk(yes, r.yes) && SameButCilk(no, r.no)
    case While(id, test, body) => r.While? && r.id == id && r.test == test && SameButCilk(body, r.body)
    case Do(id, body, test) => r.Do? && r.id == id && r.test == test && SameButCilk(body, r.body)
    case For(id, start, guard, next, body) =>
      r.For? && r.id == id && r.start == start && r.guard == guard && r.next == next && SameButCilk(body, r.body)
    case Spawn(id, receiver, op, callee, args) =>
      r.Eval? && if receiver.NoExpr? then IsCallOf(s, r.e)
                 else r.e.Binop? && r.e.op == op && r.e.left == receiver.e && IsCallOf(s, r.e.right)
    case Sync(_) => r.Null?
    case _ => r == s
  }

  predicate IsCallOf(s: Stmt, e: Expr)
    requires s.Spawn?
  {
    e.Call? && e.id == s.id && e.name == s.callee && e.args == s.args
  }

  // Nothing but Cilk is changed: not the order, not the operands.
  lemma {:induction false} ElidedIsSame(s: Stmt)
    ensures SameButCilk(s, Elided(s))
  {
    match s
    case Then(first, rest) => ElidedIsSame(first); ElidedIsSame(rest);
    case Block(_, items) => ElidedIsSame(items);
    case Switch(_, _, _, body) => ElidedIsSame(body);
    case If(_, _, yes, no) => ElidedIsSame(yes); ElidedIsSame(no);
    case While(_, _, body) => ElidedIsSame(body);
    case Do(_, body, _) => ElidedIsSame(body);
    case For(_, _, _, _, body) => ElidedIsSame(body);
    case _ =>
  }

  // ---------- Where things are after elision ----------

  function ElidedCont(k: Cont): Cont {
    match k
    case Stop => Stop
    case Seq(s, k) => Seq(Elided(s), ElidedCont(k))
    case InLoop(l, k) => InLoop(Elided(l), ElidedCont(k))
    case InSwitch(sw, k) => InSwitch(Elided(sw), ElidedCont(k))
  }

  function ElidedPlace(q: Place): Place {
    Place(Elided(q.s), ElidedCont(q.k))
  }

  function ElidedControl(a: Control): Control {
    match a
    case Run(s, k) => Run(Elided(s), ElidedCont(k))
    case Skip(k) => Skip(ElidedCont(k))
    case Test(l, k) => Test(Elided(l), ElidedCont(k))
    case Dispatch(sw, k) => Dispatch(Elided(sw), ElidedCont(k))
    case Halt => Halt
  }

  function ElidedState(S: Serial): Serial {
    S.(at := ElidedControl(S.at))
  }

  ghost function ElidedPlaces(places: set<Place>): set<Place> {
    set q | q in places :: ElidedPlace(q)
  }

  lemma ElidedUnion(a: set<Place>, b: set<Place>)
    ensures ElidedPlaces(a + b) == ElidedPlaces(a) + ElidedPlaces(b)
  {
  }

  lemma ElidedOne(q: Place)
    ensures ElidedPlaces({q}) == {ElidedPlace(q)}
  {
  }

  lemma {:induction false} PlacesElided(s: Stmt, k: Cont)
    ensures Places(Elided(s), ElidedCont(k)) == ElidedPlaces(Places(s, k))
    decreases s, 1
  {
    hide ElidedPlaces;
    ElidedOne(Place(s, k));
    match s
    case Then(first, rest) =>
      PlacesElided(first, Seq(rest, k));
      PlacesElided(rest, k);
      ElidedUnion(Places(first, Seq(rest, k)), Places(rest, k));
      ElidedUnion({Place(s, k)}, Places(first, Seq(rest, k)) + Places(rest, k));
    case Block(_, items) =>
      PlacesElided(items, k);
      ElidedUnion({Place(s, k)}, Places(items, k));
    case If(_, _, yes, no) =>
      PlacesElided(yes, k);
      PlacesElided(no, k);
      ElidedUnion(Places(yes, k), Places(no, k));
      ElidedUnion({Place(s, k)}, Places(yes, k) + Places(no, k));
    case Switch(_, _, _, body) => BodyElided(s, k, body, InSwitch(s, k));
    case While(_, _, body) => BodyElided(s, k, body, InLoop(s, k));
    case Do(_, body, _) => BodyElided(s, k, body, InLoop(s, k));
    case For(_, _, _, _, body) => BodyElided(s, k, body, InLoop(s, k));
    case _ => assert Places(s, k) == {Place(s, k)};
  }

  lemma BodyElided(s: Stmt, k: Cont, body: Stmt, inner: Cont)
    requires body < s
    ensures Places(Elided(body), ElidedCont(inner)) == ElidedPlaces(Places(body, inner))
    ensures ElidedPlaces({Place(s, k)} + Places(body, inner)) == ElidedPlaces({Place(s, k)}) + ElidedPlaces(Places(body, inner))
    decreases s, 0
  {
    PlacesElided(body, inner);
    ElidedUnion({Place(s, k)}, Places(body, inner));
  }

  lemma {:induction false} FramesElided(k: Cont)
    ensures BreakFrame(ElidedCont(k)) == ElidedCont(BreakFrame(k))
    ensures LoopFrame(ElidedCont(k)) == ElidedCont(LoopFrame(k))
  {
    if !k.Stop? { FramesElided(k.k); }
  }

  // ---------- Procedures with one meaning ----------

  // The variables that evaluating e may write.
  function Assigns(e: Expr): set<nat> {
    match e
    case Const(_, _) => {}
    case Id(_, _) => {}
    case Binop(_, op, left, right) =>
      Assigns(left) + Assigns(right) + (if (op == Assign || op.OpAssign?) && left.Id? then {left.decl} else {})
    case Unary(_, uop, operand) =>
      if uop.SizeOf? then {} else if uop.IncDec? && operand.Id? then {operand.decl} else Assigns(operand)
    case Ternary(_, cond, yes, no) => Assigns(cond) + Assigns(yes) + Assigns(no)
    case Call(_, name, args) => Assigns(name) + AssignsAll(args)
  }

  function AssignsAll(es: Exprs): set<nat> {
    match es
    case NoExprs => {}
    case MoreExprs(head, tail) => Assigns(head) + AssignsAll(tail)
  }

  // The operator of a spawn is an assignment.
  predicate IsAssigning(s: Stmt)
    requires s.Spawn?
  {
    s.receiver.TheExpr? ==> s.op == Assign || s.op.OpAssign?
  }

  // The result is combined with a variable in a register.
  predicate Combines(V: set<nat>, s: Stmt)
    requires s.Spawn?
  {
    s.receiver.TheExpr? && s.op.OpAssign? && s.receiver.e.Id? && s.receiver.e.decl in V
  }

  // No operand writes to that variable.
  predicate IsProperSpawn(s: Stmt)
    requires s.Spawn?
  {
    s.receiver.TheExpr? && s.op.OpAssign? && s.receiver.e.Id? ==> s.receiver.e.decl !in Assigns(s.callee) + AssignsAll(s.args)
  }

  // A switch has one case for a value, and one default.
  ghost predicate CasesApart(p: Proc) {
    forall a, b :: a in AllPlaces(p) && b in AllPlaces(p) && SameCase(a.s, b.s) ==> a == b
  }

  predicate SameCase(a: Stmt, b: Stmt) {
    || (a.Case? && b.Case? && a.container == b.container && a.value == b.value)
    || (a.Default? && b.Default? && a.container == b.container)
  }

  // What the parser and the semantic checks guarantee.
  ghost predicate Checked(p: Proc) {
    Tree(p) && CasesApart(p) && forall q :: q in AllPlaces(p) && q.s.Spawn? ==> IsAssigning(q.s)
  }

  ghost predicate Proper(p: Proc) {
    forall q :: q in AllPlaces(p) && q.s.Spawn? ==> IsProperSpawn(q.s)
  }

  // ---------- One step ----------

  lemma {:induction false} EvalLeaves(env: Env, V: set<nat>, e: Expr, store: Values, hist: History, x: nat)
    requires Evaluate(env, V, e, store, hist).Done? && x !in Assigns(e)
    ensures SameAt(x, store, Evaluate(env, V, e, store, hist).store)
    decreases e
  {
    match e
    case Const(_, _) =>
    case Id(_, _) =>
    case Binop(_, op, left, right) =>
      if IsPlainTarget(op, left) {
        EvalLeaves(env, V, right, store, hist, x);
      } else {
        var l := Evaluate(env, V, left, store, hist);
        EvalLeaves(env, V, left, store, hist, x);
        if !((op.AndAnd? && l.v == 0) || (op.OrOr? && l.v != 0)) {
          EvalLeaves(env, V, right, l.store, l.hist, x);
        }
      }
    case Unary(_, uop, operand) =>
      if !uop.SizeOf? && !(uop.IncDec? && operand.Id?) { EvalLeaves(env, V, operand, store, hist, x); }
    case Ternary(_, cond, yes, no) =>
      var c := Evaluate(env, V, cond, store, hist);
      EvalLeaves(env, V, cond, store, hist, x);
      EvalLeaves(env, V, if c.v != 0 then yes else no, c.store, c.hist, x);
    case Call(_, name, args) =>
      var f := Evaluate(env, V, name, store, hist);
      EvalLeaves(env, V, name, store, hist, x);
      EvalAllLeaves(env, V, args, f.store, f.hist, x);
  }

  lemma {:induction false} EvalAllLeaves(env: Env, V: set<nat>, es: Exprs, store: Values, hist: History, x: nat)
    requires EvaluateAll(env, V, es, store, hist).Done? && x !in AssignsAll(es)
    ensures SameAt(x, store, EvaluateAll(env, V, es, store, hist).store)
    decreases es
  {
    if es.MoreExprs? {
      var h := Evaluate(env, V, es.head, store, hist);
      EvalLeaves(env, V, es.head, store, hist, x);
      EvalAllLeaves(env, V, es.tail, h.store, h.hist, x);
    }
  }

  // Both are stuck, or r does what m does.
  ghost predicate Matches(m: Next, r: Next) {
    if m.Error? then r.Error? else r.Next? && r.to == ElidedState(m.to)
  }

  lemma {:induction false} EvalGrows(env: Env, V: set<nat>, e: Expr, store: Values, hist: History, x: nat)
    requires Evaluate(env, V, e, store, hist).Done? && x in store
    ensures x in Evaluate(env, V, e, store, hist).store
    decreases e
  {
    match e
    case Const(_, _) =>
    case Id(_, _) =>
    case Binop(_, op, left, right) =>
      if IsPlainTarget(op, left) {
        EvalGrows(env, V, right, store, hist, x);
      } else {
        var l := Evaluate(env, V, left, store, hist);
        EvalGrows(env, V, left, store, hist, x);
        if !((op.AndAnd? && l.v == 0) || (op.OrOr? && l.v != 0)) {
          EvalGrows(env, V, right, l.store, l.hist, x);
        }
      }
    case Unary(_, uop, operand) =>
      if !uop.SizeOf? { EvalGrows(env, V, operand, store, hist, x); }
    case Ternary(_, cond, yes, no) =>
      var c := Evaluate(env, V, cond, store, hist);
      EvalGrows(env, V, cond, store, hist, x);
      EvalGrows(env, V, if c.v != 0 then yes else no, c.store, c.hist, x);
    case Call(_, name, args) =>
      var f := Evaluate(env, V, name, store, hist);
      EvalGrows(env, V, name, store, hist, x);
      EvalAllGrows(env, V, args, f.store, f.hist, x);
  }

  lemma {:induction false} EvalAllGrows(env: Env, V: set<nat>, es: Exprs, store: Values, hist: History, x: nat)
    requires EvaluateAll(env, V, es, store, hist).Done? && x in store
    ensures x in EvaluateAll(env, V, es, store, hist).store
    decreases es
  {
    if es.MoreExprs? {
      var h := Evaluate(env, V, es.head, store, hist);
      EvalGrows(env, V, es.head, store, hist, x);
      EvalAllGrows(env, V, es.tail, h.store, h.hist, x);
    }
  }

  // A combined result is combined with the value the variable has after the operands, where
  // the elided assignment reads it before them.
  lemma CombinedBefore(env: Env, V: set<nat>, s: Stmt, S: Serial)
    requires s.Spawn? && Combines(V, s)
    ensures var o := EvaluateSpawn(env, V, s, S.store, S.hist); var x := s.receiver.e.decl;
      o.Done? ==> |o.v| >= 2 && x in S.store && o.v[0] == S.store[x] && x in o.store
  {
    var o := EvaluateOpt(env, V, s.receiver, S.store, S.hist);
    if o.Done? {
      var f := Evaluate(env, V, s.callee, o.store, o.hist);
      if f.Done? {
        EvalGrows(env, V, s.callee, o.store, o.hist, s.receiver.e.decl);
        if EvaluateAll(env, V, s.args, f.store, f.hist).Done? {
          EvalAllGrows(env, V, s.args, f.store, f.hist, s.receiver.e.decl);
        }
      }
    }
  }

  // The operator yields the same with both values.
  ghost predicate OperatorAgrees(env: Env, V: set<nat>, s: Stmt, S: Serial)
    requires s.Spawn?
  {
    Combines(V, s) ==>
      var o := EvaluateSpawn(env, V, s, S.store, S.hist);
      var x := s.receiver.e.decl;
      o.Done? && x in o.store && o.v != [] ==>
        var v := env.reply(o.hist + [Perform(s.id, Called(o.v))]);
        env.apply(s.receiver.e.id, [o.store[x], v]) == env.apply(s.receiver.e.id, [o.v[0], v])
  }

  // The values are the same: evaluating callee and arguments leaves the variable as it was.
  ghost predicate OperandsKeep(env: Env, V: set<nat>, s: Stmt, S: Serial)
    requires s.Spawn?
  {
    Combines(V, s) ==>
      var o := EvaluateSpawn(env, V, s, S.store, S.hist);
      o.Done? ==> SameAt(s.receiver.e.decl, S.store, o.store)
  }

  // One spawn is elided right exactly when the operator agrees.
  lemma SpawnElided(env: Env, V: set<nat>, s: Stmt, k: Cont, S: Serial)
    requires s.Spawn? && IsAssigning(s)
    ensures Matches(SpawnSerial(env, V, s, k, S),
                    Proceed(Evaluate(env, V, ElidedSpawn(s), S.store, S.hist), Skip(ElidedCont(k)), S.subject))
       <==> OperatorAgrees(env, V, s, S)
  {
    var plain := s.receiver.TheExpr? && IsPlainTarget(s.op, s.receiver.e);
    var o := EvaluateOpt(env, V, if plain then NoExpr else s.receiver, S.store, S.hist);
    if o.Done? {
      var f := Evaluate(env, V, s.callee, o.store, o.hist);
      if f.Done? {
        var a := EvaluateAll(env, V, s.args, f.store, f.hist);
        if a.Done? {
          assert Called([o.v, f.v] + a.v) == [f.v] + a.v;
          if Combines(V, s) { CombinedElided(env, V, s, k, S); }
        }
      }
    }
  }

  lemma CombinedElided(env: Env, V: set<nat>, s: Stmt, k: Cont, S: Serial)
    requires s.Spawn? && Combines(V, s) && EvaluateSpawn(env, V, s, S.store, S.hist).Done?
    ensures Matches(SpawnSerial(env, V, s, k, S),
                    Proceed(Evaluate(env, V, ElidedSpawn(s), S.store, S.hist), Skip(ElidedCont(k)), S.subject))
       <==> OperatorAgrees(env, V, s, S)
  {
    CombinedBefore(env, V, s, S);
    var (x, id) := (s.receiver.e.decl, s.receiver.e.id);
    var o := EvaluateSpawn(env, V, s, S.store, S.hist);
    var h := o.hist + [Perform(s.id, Called(o.v))];
    var v := env.reply(h);
    var m := SpawnSerial(env, V, s, k, S);
    assert m.Next? && m.to.store == o.store[x := env.apply(id, [o.store[x], v])];
    var r := Evaluate(env, V, ElidedSpawn(s), S.store, S.hist);
    CallElided(env, V, s, S);
    assert r.Done? && r.store == o.store[x := env.apply(id, [o.v[0], v])] && r.hist == h == m.to.hist;
    assert m.to.store[x] == env.apply(id, [o.store[x], v]) && r.store[x] == env.apply(id, [o.v[0], v]);
  }

  // The call that is left does what the spawn's operands and its action do.
  lemma CallElided(env: Env, V: set<nat>, s: Stmt, S: Serial)
    requires s.Spawn? && Combines(V, s) && EvaluateSpawn(env, V, s, S.store, S.hist).Done?
    ensures var o := EvaluateSpawn(env, V, s, S.store, S.hist);
      var l := Evaluate(env, V, s.receiver.e, S.store, S.hist);
      var h := o.hist + [Perform(s.id, Called(o.v))];
      && l.Done? && |o.v| >= 2 && l.v == o.v[0]
      && var r := Evaluate(env, V, Call(s.id, s.callee, s.args), l.store, l.hist);
         r.Done? && r.v == env.reply(h) && r.store == o.store && r.hist == h
  {
    var l := Evaluate(env, V, s.receiver.e, S.store, S.hist);
    var f := Evaluate(env, V, s.callee, l.store, l.hist);
    var a := EvaluateAll(env, V, s.args, f.store, f.hist);
    assert Called([l.v, f.v] + a.v) == [f.v] + a.v;
  }

  // ---------- Exactly which spawns are elided right for every operator ----------

  // The environments differ in what the operator of node id computes.
  ghost predicate SameBut(id: nat, env: Env, other: Env) {
    && (forall h :: other.reply(h) == env.reply(h))
    && (forall n, vs :: n != id ==> other.apply(n, vs) == env.apply(n, vs))
  }

  lemma CombineIgnores(env: Env, other: Env, id: nat, V: set<nat>, n: nat, op: Operator, left: Expr, l: Outcome<int>, r: Outcome<int>)
    requires SameBut(id, env, other) && n != id && l.Done? && r.Done?
    ensures Combine(other, V, n, op, left, l, r) == Combine(env, V, n, op, left, l, r)
  {
    hide Assigned;
  }

  lemma {:induction false} EvalIgnores(env: Env, other: Env, id: nat, V: set<nat>, e: Expr, store: Values, hist: History)
    requires SameBut(id, env, other) && id !in ExprIds(e)
    ensures Evaluate(other, V, e, store, hist) == Evaluate(env, V, e, store, hist)
    decreases e
  {
    hide Assigned;
    hide Combine;
    match e
    case Const(_, _) =>
    case Id(_, _) =>
    case Binop(_, op, left, right) =>
      EvalIgnores(env, other, id, V, right, store, hist);
      EvalIgnores(env, other, id, V, left, store, hist);
      var l := Evaluate(env, V, left, store, hist);
      if l.Done? {
        EvalIgnores(env, other, id, V, right, l.store, l.hist);
        var r := Evaluate(env, V, right, l.store, l.hist);
        if r.Done? { CombineIgnores(env, other, id, V, e.id, op, left, l, r); }
      }
    case Unary(_, uop, operand) => EvalIgnores(env, other, id, V, operand, store, hist);
    case Ternary(_, cond, yes, no) =>
      EvalIgnores(env, other, id, V, cond, store, hist);
      var c := Evaluate(env, V, cond, store, hist);
      if c.Done? { EvalIgnores(env, other, id, V, if c.v != 0 then yes else no, c.store, c.hist); }
    case Call(_, name, args) =>
      EvalIgnores(env, other, id, V, name, store, hist);
      var f := Evaluate(env, V, name, store, hist);
      if f.Done? { EvalAllIgnores(env, other, id, V, args, f.store, f.hist); }
  }

  lemma {:induction false} EvalAllIgnores(env: Env, other: Env, id: nat, V: set<nat>, es: Exprs, store: Values, hist: History)
    requires SameBut(id, env, other) && id !in ExprsIds(es)
    ensures EvaluateAll(other, V, es, store, hist) == EvaluateAll(env, V, es, store, hist)
    decreases es
  {
    if es.MoreExprs? {
      EvalIgnores(env, other, id, V, es.head, store, hist);
      var h := Evaluate(env, V, es.head, store, hist);
      if h.Done? { EvalAllIgnores(env, other, id, V, es.tail, h.store, h.hist); }
    }
  }

  lemma SpawnIgnores(env: Env, other: Env, V: set<nat>, s: Stmt, S: Serial)
    requires s.Spawn? && Combines(V, s) && SameBut(s.receiver.e.id, env, other)
    requires s.receiver.e.id !in ExprIds(s.callee) + ExprsIds(s.args)
    ensures EvaluateSpawn(other, V, s, S.store, S.hist) == EvaluateSpawn(env, V, s, S.store, S.hist)
  {
    var id := s.receiver.e.id;
    var l := Evaluate(env, V, s.receiver.e, S.store, S.hist);
    if l.Done? {
      EvalIgnores(env, other, id, V, s.callee, l.store, l.hist);
      var f := Evaluate(env, V, s.callee, l.store, l.hist);
      if f.Done? { EvalAllIgnores(env, other, id, V, s.args, f.store, f.hist); }
    }
  }

  // The operator that yields its first operand tells all values apart.
  function FirstOperand(id: nat, apply: (nat, seq<int>) -> int): (nat, seq<int>) -> int {
    (n: nat, vs: seq<int>) => if n == id && vs != [] then vs[0] else apply(n, vs)
  }

  /** A spawn is elided right for every operator if and only if its operands leave the
      variable that the result is combined with as it was. */
  lemma SpawnExact(env: Env, V: set<nat>, s: Stmt, k: Cont, S: Serial)
    requires s.Spawn? && IsAssigning(s) && DistinctStmt(s)
    ensures OperandsKeep(env, V, s, S)
       <==> forall other :: (s.receiver.TheExpr? ==> SameBut(s.receiver.e.id, env, other)) ==>
              Matches(SpawnSerial(other, V, s, k, S),
                      Proceed(Evaluate(other, V, ElidedSpawn(s), S.store, S.hist), Skip(ElidedCont(k)), S.subject))
  {
    hide Evaluate;
    hide SpawnSerial;
    hide ElidedSpawn;
    hide Matches;
    hide EvaluateSpawn;
    forall other ensures Matches(SpawnSerial(other, V, s, k, S), Proceed(Evaluate(other, V, ElidedSpawn(s), S.store, S.hist), Skip(ElidedCont(k)), S.subject))
                    <==> OperatorAgrees(other, V, s, S)
    {
      SpawnElided(other, V, s, k, S);
    }
    if Combines(V, s) {
      var id := s.receiver.e.id;
      forall other | SameBut(id, env, other)
        ensures EvaluateSpawn(other, V, s, S.store, S.hist) == EvaluateSpawn(env, V, s, S.store, S.hist)
      {
        SpawnIgnores(env, other, V, s, S);
      }
      CombinedBefore(env, V, s, S);
      var first := Env(FirstOperand(id, env.apply), env.reply);
      assert SameBut(id, env, first);
      var o := EvaluateSpawn(env, V, s, S.store, S.hist);
      if o.Done? && OperatorAgrees(first, V, s, S) {
        assert SameAt(s.receiver.e.decl, S.store, o.store);
      }
    }
  }

  lemma KeepingAgrees(env: Env, V: set<nat>, s: Stmt, S: Serial)
    requires s.Spawn? && OperandsKeep(env, V, s, S)
    ensures OperatorAgrees(env, V, s, S)
  {
    hide EvaluateSpawn;
    if Combines(V, s) { CombinedBefore(env, V, s, S); }
  }

  lemma ProperKeeps(env: Env, V: set<nat>, s: Stmt, S: Serial)
    requires s.Spawn? && IsProperSpawn(s)
    ensures OperandsKeep(env, V, s, S)
  {
    var o := EvaluateSpawn(env, V, s, S.store, S.hist);
    if Combines(V, s) && o.Done? {
      var l := Evaluate(env, V, s.receiver.e, S.store, S.hist);
      var f := Evaluate(env, V, s.callee, l.store, l.hist);
      EvalLeaves(env, V, s.callee, l.store, l.hist, s.receiver.e.decl);
      EvalAllLeaves(env, V, s.args, f.store, f.hist, s.receiver.e.decl);
    }
  }

  lemma PlaceFrom(s: Stmt, k: Cont, r: Place) returns (q: Place)
    requires r in Places(Elided(s), ElidedCont(k))
    ensures q in Places(s, k) && r == ElidedPlace(q)
  {
    PlacesElided(s, k);
    q :| q in Places(s, k) && r == ElidedPlace(q);
  }

  lemma LabelIsLabel(s: Stmt, d: nat)
    requires Elided(s) == Label(d)
    ensures s == Label(d)
  {
  }

  lemma LabelElided(p: Proc, d: nat, j: Cont)
    requires IsLabelAt(ElidedProc(p), d, j)
    ensures exists k :: IsLabelAt(p, d, k) && j == ElidedCont(k)
  {
    hide Places;
    hide Elided;
    var q := PlaceFrom(p.body, Stop, Place(Label(d), j));
    LabelIsLabel(q.s, d);
    assert IsLabelAt(p, d, q.k);
  }

  lemma GotoElided(env: Env, V: set<nat>, p: Proc, S: Serial)
    requires Tree(p) && S.at.Run? && S.at.s.Goto?
    ensures Matches(SerialStep(env, V, p, S), SerialStep(env, V, ElidedProc(p), ElidedState(S)))
  {
    hide AllPlaces;
    var d := S.at.s.destination;
    TreeIsWellFormed(p);
    if k :| IsLabelAt(p, d, k) {
      assert IsLabelAt(ElidedProc(p), d, ElidedCont(k)) by { LabelKept(p, d, k); }
      forall i, j | IsLabelAt(p, d, i) && IsLabelAt(p, d, j) ensures i == j {
        assert Place(Label(d), i) in AllPlaces(p) && Place(Label(d), j) in AllPlaces(p);
      }
    }
    forall j | IsLabelAt(ElidedProc(p), d, j) ensures exists k :: IsLabelAt(p, d, k) && j == ElidedCont(k) {
      LabelElided(p, d, j);
    }
  }

  lemma LabelKept(p: Proc, d: nat, k: Cont)
    requires IsLabelAt(p, d, k)
    ensures IsLabelAt(ElidedProc(p), d, ElidedCont(k))
  {
    PlacesElided(p.body, Stop);
    assert ElidedPlace(Place(Label(d), k)) in ElidedPlaces(AllPlaces(p));
  }

  lemma ElidedHead(s: Stmt)
    ensures (Elided(s).Case? <==> s.Case?) && (s.Case? ==> Elided(s) == s)
    ensures (Elided(s).Default? <==> s.Default?) && (s.Default? ==> Elided(s) == s)
    ensures s.Switch? ==> Elided(s) == Switch(s.id, s.hasDefault, s.subject, Elided(s.body))
  {
  }

  // The cases and defaults of a switch, before and after.
  lemma CaseKept(sw: Stmt, k: Cont, v: int, q: Place)
    requires sw.Switch? && q in Places(sw.body, InSwitch(sw, k))
    ensures IsCaseAt(Elided(sw), ElidedCont(k), v, ElidedPlace(q)) <==> IsCaseAt(sw, k, v, q)
    ensures IsDefaultAt(Elided(sw), ElidedCont(k), ElidedPlace(q)) <==> IsDefaultAt(sw, k, q)
  {
    assert ElidedCont(InSwitch(sw, k)) == InSwitch(Elided(sw), ElidedCont(k));
    hide Places;
    hide Elided;
    hide ElidedCont;
    ElidedHead(sw);
    ElidedHead(q.s);
    PlacesElided(sw.body, InSwitch(sw, k));
    assert ElidedPlace(q) in Places(Elided(sw.body), ElidedCont(InSwitch(sw, k)));
  }

  lemma CasesElided(sw: Stmt, k: Cont, v: int, r: Place)
    requires sw.Switch?
    ensures IsCaseAt(Elided(sw), ElidedCont(k), v, r) <==> exists q :: IsCaseAt(sw, k, v, q) && r == ElidedPlace(q)
    ensures IsDefaultAt(Elided(sw), ElidedCont(k), r) <==> exists q :: IsDefaultAt(sw, k, q) && r == ElidedPlace(q)
  {
    hide Places;
    hide ElidedPlace;
    if r in Places(Elided(sw.body), ElidedCont(InSwitch(sw, k))) {
      var q := PlaceFrom(sw.body, InSwitch(sw, k), r);
      CaseKept(sw, k, v, q);
    }
    forall q | (IsCaseAt(sw, k, v, q) || IsDefaultAt(sw, k, q)) && r == ElidedPlace(q)
      ensures IsCaseAt(Elided(sw), ElidedCont(k), v, r) <==> IsCaseAt(sw, k, v, q)
      ensures IsDefaultAt(Elided(sw), ElidedCont(k), r) <==> IsDefaultAt(sw, k, q)
    {
      CaseKept(sw, k, v, q);
    }
  }

  lemma CasesUnique(p: Proc, sw: Stmt, k: Cont, v: int, q: Place, r: Place)
    requires CasesApart(p) && sw.Switch? && Places(sw.body, InSwitch(sw, k)) <= AllPlaces(p)
    requires (IsCaseAt(sw, k, v, q) && IsCaseAt(sw, k, v, r)) || (IsDefaultAt(sw, k, q) && IsDefaultAt(sw, k, r))
    ensures q == r
  {
    hide AllPlaces;
    hide Places;
    assert q in AllPlaces(p) && r in AllPlaces(p) && SameCase(q.s, r.s);
  }

  // The same case is chosen ...
  lemma CaseChosen(p: Proc, sw: Stmt, k: Cont, v: int)
    requires CasesApart(p) && sw.Switch? && Places(sw.body, InSwitch(sw, k)) <= AllPlaces(p)
    ensures forall q, r :: IsCaseAt(sw, k, v, q) && IsCaseAt(Elided(sw), ElidedCont(k), v, r) ==> r == ElidedPlace(q)
    ensures (exists q :: IsCaseAt(sw, k, v, q)) <==> (exists r :: IsCaseAt(Elided(sw), ElidedCont(k), v, r))
  {
    hide AllPlaces;
    hide Places;
    hide IsCaseAt;
    forall r | IsCaseAt(Elided(sw), ElidedCont(k), v, r)
      ensures exists q :: IsCaseAt(sw, k, v, q)
      ensures forall q :: IsCaseAt(sw, k, v, q) ==> r == ElidedPlace(q)
    {
      CasesElided(sw, k, v, r);
      var c :| IsCaseAt(sw, k, v, c) && r == ElidedPlace(c);
      forall q | IsCaseAt(sw, k, v, q) ensures q == c { CasesUnique(p, sw, k, v, q, c); }
    }
    if q :| IsCaseAt(sw, k, v, q) { CasesElided(sw, k, v, ElidedPlace(q)); }
  }

  // ... or the same default.
  lemma DefaultChosen(p: Proc, sw: Stmt, k: Cont)
    requires CasesApart(p) && sw.Switch? && Places(sw.body, InSwitch(sw, k)) <= AllPlaces(p)
    ensures forall q, r :: IsDefaultAt(sw, k, q) && IsDefaultAt(Elided(sw), ElidedCont(k), r) ==> r == ElidedPlace(q)
    ensures (exists q :: IsDefaultAt(sw, k, q)) <==> (exists r :: IsDefaultAt(Elided(sw), ElidedCont(k), r))
  {
    hide AllPlaces;
    hide Places;
    hide IsDefaultAt;
    forall r | IsDefaultAt(Elided(sw), ElidedCont(k), r)
      ensures exists q :: IsDefaultAt(sw, k, q)
      ensures forall q :: IsDefaultAt(sw, k, q) ==> r == ElidedPlace(q)
    {
      CasesElided(sw, k, 0, r);
      var c :| IsDefaultAt(sw, k, c) && r == ElidedPlace(c);
      forall q | IsDefaultAt(sw, k, q) ensures q == c { CasesUnique(p, sw, k, 0, q, c); }
    }
    if q :| IsDefaultAt(sw, k, q) { CasesElided(sw, k, 0, ElidedPlace(q)); }
  }

  lemma DispatchElided(p: Proc, sw: Stmt, k: Cont, v: int)
    requires CasesApart(p) && sw.Switch? && Places(sw.body, InSwitch(sw, k)) <= AllPlaces(p)
    ensures DispatchTo(Elided(sw), ElidedCont(k), v) == ElidedControl(DispatchTo(sw, k, v))
  {
    hide AllPlaces;
    hide Places;
    hide CasesApart;
    hide IsCaseAt;
    hide IsDefaultAt;
    CaseChosen(p, sw, k, v);
    DefaultChosen(p, sw, k);
  }

  // At a spawn, the operator agrees.
  ghost predicate AgreesHere(env: Env, V: set<nat>, S: Serial) {
    S.at.Run? && S.at.s.Spawn? ==> OperatorAgrees(env, V, S.at.s, S)
  }

  lemma SkipElided(env: Env, V: set<nat>, p: Proc, S: Serial)
    requires S.at.Skip? || S.at.Test? || S.at.Halt?
    ensures Matches(SerialStep(env, V, p, S), SerialStep(env, V, ElidedProc(p), ElidedState(S)))
  {
    hide EvaluateOpt;
    hide RunSerial;
    hide DispatchTo;
  }

  lemma StepElided(env: Env, V: set<nat>, p: Proc, S: Serial)
    requires Checked(p) && ControlPlaced(p, S.at)
    ensures Matches(SerialStep(env, V, p, S), SerialStep(env, V, ElidedProc(p), ElidedState(S))) <==> AgreesHere(env, V, S)
  {
    hide AllPlaces;
    hide Places;
    hide DispatchTo;
    hide RunSerial;
    hide EvaluateOpt;
    hide Evaluate;
    hide OperatorAgrees;
    hide SkipSerial;
    hide TestSerial;
    match S.at
    case Run(s, k) =>
      FramesElided(k);
      if s.Spawn? { assert IsAssigning(Place(s, k).s); SpawnStepElided(env, V, p, s, k, S); }
      else if s.Goto? { GotoElided(env, V, p, S); }
      else { RunElided(env, V, p, s, k, S); }
    case Dispatch(sw, k) =>
      PartsPlaced(p, sw, k);
      DispatchElided(p, sw, k, S.subject);
    case _ => SkipElided(env, V, p, S);
  }

  lemma SpawnStepElided(env: Env, V: set<nat>, p: Proc, s: Stmt, k: Cont, S: Serial)
    requires S.at == Run(s, k) && s.Spawn? && IsAssigning(s)
    ensures Matches(RunSerial(env, V, p, s, k, S), RunSerial(env, V, ElidedProc(p), Elided(s), ElidedCont(k), ElidedState(S)))
       <==> OperatorAgrees(env, V, s, S)
  {
    hide Evaluate;
    hide SpawnSerial;
    hide OperatorAgrees;
    SpawnElided(env, V, s, k, S);
  }

  // A statement without parts is left as it is.
  lemma LeafElided(env: Env, V: set<nat>, p: Proc, s: Stmt, k: Cont, S: Serial)
    requires S.at == Run(s, k) && Elided(s) == s && !s.Goto? && !s.Spawn? && !s.Then? && !s.Block? && !s.If? && !s.Switch? && !IsLoop(s)
    ensures Matches(RunSerial(env, V, p, s, k, S), RunSerial(env, V, ElidedProc(p), s, ElidedCont(k), ElidedState(S)))
  {
    hide Evaluate;
    hide EvaluateOpt;
    hide Assigned;
    hide BreakFrame;
    hide LoopFrame;
    hide AllPlaces;
    hide Elided;
    FramesElided(k);
  }

  lemma RunElided(env: Env, V: set<nat>, p: Proc, s: Stmt, k: Cont, S: Serial)
    requires S.at == Run(s, k) && !s.Spawn? && !s.Goto?
    ensures Matches(RunSerial(env, V, p, s, k, S), RunSerial(env, V, ElidedProc(p), Elided(s), ElidedCont(k), ElidedState(S)))
  {
    hide Evaluate;
    hide EvaluateOpt;
    hide Assigned;
    hide BreakFrame;
    hide LoopFrame;
    hide IsLabelAt;
    hide AllPlaces;
    hide SpawnSerial;
    if !s.Sync? && !s.Then? && !s.Block? && !s.If? && !s.Switch? && !IsLoop(s) {
      LeafElided(env, V, p, s, k, S);
    }
  }

  // x += spawn f(x++), with f yielding 0: the result is added to the incremented x, where the
  // elided assignment adds it to the old one.
  const AddsToItself := Spawn(1, TheExpr(Id(2, 7)), OpAssign(0), Const(3, 0), MoreExprs(Unary(4, IncDec(0), Id(5, 7)), NoExprs))

  function Counting(id: nat, operands: seq<int>): int {
    if id == 4 then (if |operands| == 1 then operands[0] + 1 else 0)
    else if |operands| == 2 then operands[0] + operands[1] else 0
  }

  /** The operands of this spawn change the variable, and its elision has another result. */
  lemma OrderMatters(k: Cont)
    ensures var S := Serial(Run(AddsToItself, k), map[7 := 1], [], 0);
      var env := Env(Counting, _ => 0);
      && !OperandsKeep(env, {7}, AddsToItself, S)
      && !Matches(SpawnSerial(env, {7}, AddsToItself, k, S),
                  Proceed(Evaluate(env, {7}, ElidedSpawn(AddsToItself), S.store, []), Skip(ElidedCont(k)), 0))
  {
    var env := Env(Counting, _ => 0);
    var inc := Unary(4, IncDec(0), Id(5, 7));
    var (x, f, args) := (Id(2, 7), Const(3, 0), MoreExprs(inc, NoExprs));
    assert Evaluate(env, {7}, x, map[7 := 1], []) == Done(1, map[7 := 1], [], [Use(7)]);
    assert Evaluate(env, {7}, f, map[7 := 1], []) == Done(0, map[7 := 1], [], [Computed]);
    assert Evaluate(env, {7}, inc.operand, map[7 := 1], []) == Done(1, map[7 := 1], [], [Use(7)]);
    var a := Evaluate(env, {7}, inc, map[7 := 1], []);
    assert a.Done? && a.store[7] == 2 && a.hist == [];
    assert EvaluateAll(env, {7}, args.tail, a.store, a.hist) == Done([], a.store, a.hist, []);
    var r := EvaluateAll(env, {7}, args, map[7 := 1], []);
    assert r.Done? && r.store == a.store && r.hist == [];
    var o := EvaluateSpawn(env, {7}, AddsToItself, map[7 := 1], []);
    assert o.Done? && |o.v| >= 2 && o.v[0] == 1 && o.store == a.store;
    var m := SpawnSerial(env, {7}, AddsToItself, k, Serial(Run(AddsToItself, k), map[7 := 1], [], 0));
    assert m.Next? && m.to.store[7] == 2;
    var c := Evaluate(env, {7}, Call(1, f, args), map[7 := 1], []);
    assert c.Done? && c.v == 0 && c.store == a.store;
    var e := Evaluate(env, {7}, ElidedSpawn(AddsToItself), map[7 := 1], []);
    assert e.Done? && e.store[7] == 1;
  }

  // ---------- Runs ----------

  // The operator agrees at every spawn in the first n steps.
  ghost predicate SpawnsAgree(env: Env, V: set<nat>, p: Proc, S: Serial, n: nat)
    decreases n
  {
    n > 0 ==> AgreesHere(env, V, S) && var one := SerialStep(env, V, p, S); one.Next? ==> SpawnsAgree(env, V, p, one.to, n - 1)
  }

  ghost predicate RunMatches(env: Env, V: set<nat>, p: Proc, S: Serial, m: nat) {
    Matches(SerialRun(env, V, p, S, m), SerialRun(env, V, ElidedProc(p), ElidedState(S), m))
  }

  lemma MatchesOnce(env: Env, V: set<nat>, p: Proc, S: Serial)
    ensures RunMatches(env, V, p, S, 1) <==> Matches(SerialStep(env, V, p, S), SerialStep(env, V, ElidedProc(p), ElidedState(S)))
    ensures RunMatches(env, V, p, S, 0)
  {
    hide SerialStep;
    var (m, r) := (SerialStep(env, V, p, S), SerialStep(env, V, ElidedProc(p), ElidedState(S)));
    if m.Next? { assert SerialRun(env, V, p, m.to, 0) == Next(m.to, []); }
    if r.Next? { assert SerialRun(env, V, ElidedProc(p), r.to, 0) == Next(r.to, []); }
  }

  lemma MatchesMore(env: Env, V: set<nat>, p: Proc, S: Serial, m: nat)
    requires m > 0 && Matches(SerialStep(env, V, p, S), SerialStep(env, V, ElidedProc(p), ElidedState(S)))
    ensures var one := SerialStep(env, V, p, S);
      RunMatches(env, V, p, S, m) <==> (one.Next? ==> RunMatches(env, V, p, one.to, m - 1))
  {
    hide SerialStep;
  }

  /** Exactly when elision keeps the serial meaning.  The elided procedure has the same stores
      and effects at every one of n steps, and is stuck if and only if the procedure is, if
      and only if at every spawn that is executed the operator yields the same whether the
      variable it combines the result with is read before the operands or after them. */
  lemma {:induction false} ElisionKeepsMeaning(env: Env, V: set<nat>, p: Proc, S: Serial, n: nat)
    requires Checked(p) && ControlPlaced(p, S.at)
    ensures (forall m: nat :: m <= n ==> RunMatches(env, V, p, S, m)) <==> SpawnsAgree(env, V, p, S, n)
    decreases n
  {
    hide SerialStep;
    hide AllPlaces;
    hide Step;
    hide RunMatches;
    hide Matches;
    hide AgreesHere;
    hide Checked;
    hide ElidedProc;
    MatchesOnce(env, V, p, S);
    if n > 0 {
      var one := SerialStep(env, V, p, S);
      StepElided(env, V, p, S);
      if AgreesHere(env, V, S) {
        forall m: nat | 0 < m ensures RunMatches(env, V, p, S, m) <==> (one.Next? ==> RunMatches(env, V, p, one.to, m - 1)) {
          MatchesMore(env, V, p, S, m);
        }
        if one.Next? {
          SerialFollowsControl(env, V, p, S);
          StepPlaced(p, S.at, one.t, one.to.at);
          ElisionKeepsMeaning(env, V, p, one.to, n - 1);
          if forall m: nat :: m <= n ==> RunMatches(env, V, p, S, m) {
            forall m: nat | m <= n - 1 ensures RunMatches(env, V, p, one.to, m) {
              assert RunMatches(env, V, p, S, m + 1);
            }
          }
        }
      } else {
        assert !RunMatches(env, V, p, S, 1);
      }
    }
  }

  // The operands keep the variable at every spawn in the first n steps.
  ghost predicate SpawnsKeep(env: Env, V: set<nat>, p: Proc, S: Serial, n: nat)
    decreases n
  {
    n > 0 ==>
      && (S.at.Run? && S.at.s.Spawn? ==> OperandsKeep(env, V, S.at.s, S))
      && var one := SerialStep(env, V, p, S);
         one.Next? ==> SpawnsKeep(env, V, p, one.to, n - 1)
  }

  lemma {:induction false} KeepingRunsAgree(env: Env, V: set<nat>, p: Proc, S: Serial, n: nat)
    requires SpawnsKeep(env, V, p, S, n)
    ensures SpawnsAgree(env, V, p, S, n)
    decreases n
  {
    hide SerialStep;
    hide OperandsKeep;
    hide OperatorAgrees;
    if n > 0 {
      if S.at.Run? && S.at.s.Spawn? { KeepingAgrees(env, V, S.at.s, S); }
      var one := SerialStep(env, V, p, S);
      if one.Next? { KeepingRunsAgree(env, V, p, one.to, n - 1); }
    }
  }

  // A run of proper spawns keeps the variables, whatever the operators are.
  lemma {:induction false} ProperRunsKeep(env: Env, V: set<nat>, p: Proc, S: Serial, n: nat)
    requires Checked(p) && Proper(p) && ControlPlaced(p, S.at)
    ensures SpawnsKeep(env, V, p, S, n)
    decreases n
  {
    hide SerialStep;
    hide OperandsKeep;
    hide AllPlaces;
    hide Step;
    if n > 0 {
      if S.at.Run? && S.at.s.Spawn? {
        assert IsProperSpawn(Place(S.at.s, S.at.k).s);
        ProperKeeps(env, V, S.at.s, S);
      }
      var one := SerialStep(env, V, p, S);
      if one.Next? {
        SerialFollowsControl(env, V, p, S);
        StepPlaced(p, S.at, one.t, one.to.at);
        ProperRunsKeep(env, V, p, one.to, n - 1);
      }
    }
  }

  /** So a run whose spawns keep the variables is elided right ... */
  lemma KeepingRunMatches(env: Env, V: set<nat>, p: Proc, S: Serial, n: nat)
    requires Checked(p) && ControlPlaced(p, S.at) && SpawnsKeep(env, V, p, S, n)
    ensures RunMatches(env, V, p, S, n)
  {
    hide Checked;
    hide RunMatches;
    hide SpawnsKeep;
    hide SpawnsAgree;
    KeepingRunsAgree(env, V, p, S, n);
    ElisionKeepsMeaning(env, V, p, S, n);
  }

  /** ... and so is every run of a procedure with proper spawns. */
  lemma ProperRunMatches(env: Env, V: set<nat>, p: Proc, S: Serial, n: nat)
    requires Checked(p) && Proper(p) && ControlPlaced(p, S.at)
    ensures RunMatches(env, V, p, S, n)
  {
    hide Checked;
    hide RunMatches;
    hide SpawnsKeep;
    ProperRunsKeep(env, V, p, S, n);
    KeepingRunMatches(env, V, p, S, n);
  }

  /** Compiled Cilk does what the C program does: whatever the scheduler chooses, the compiled
      procedure has the effects of its serial elision, and is where the elision is. */
  lemma CompiledDoesWhatElisionDoes(env: Env, p: Proc, vars: seq<nat>, rec: Recorded, arguments: Values, frame: Values, choices: seq<Choice>)
    requires Analyzable(p) && Checked(p) && RecordedBy(p, vars, arguments.Keys, rec)
    requires SpawnsAgree(env, SetOf(vars), p, SerialStart(p, arguments), |choices|)
    requires SerialRun(env, SetOf(vars), ElidedProc(p), SerialStart(ElidedProc(p), arguments), |choices|).Next?
    requires var m := SerialRun(env, SetOf(vars), p, SerialStart(p, arguments), |choices|); m.Next? ==> RaceFree(m.t, {})
    ensures var n := SerialRun(env, SetOf(vars), ElidedProc(p), SerialStart(ElidedProc(p), arguments), |choices|);
      var r := MachineRun(env, Code(p, SetOf(vars), rec), MachineStart(p, arguments, frame), choices);
      && r.Moved? && r.to.hist == n.to.hist && ElidedControl(r.to.at) == n.to.at
      && (n.to.at == Halt ==> r.to.at == Halt && r.to.outstanding == 0)
  {
    hide SerialRun;
    hide MachineRun;
    hide RecordedBy;
    hide RaceFree;
    hide AllPlaces;
    hide Checked;
    hide SpawnsAgree;
    BodyPlaced(p);
    ElisionKeepsMeaning(env, SetOf(vars), p, SerialStart(p, arguments), |choices|);
    assert RunMatches(env, SetOf(vars), p, SerialStart(p, arguments), |choices|);
    CompiledCorrect(env, p, vars, rec, arguments, frame, choices);
  }
}
