/**
 The walks that set up gen and kill sets on the nodes of a tree.
 */
module Walks {
  import opened Ast
  import opened FlowValues
  import opened Control
  import opened Clients
  import opened Lists

  // ---------- Node identities ----------

  ghost function ExprIds(e: Expr): set<nat> {
    {e.id} +
    match e
    case Binop(_, _, left, right) => ExprIds(left) + ExprIds(right)
    case Unary(_, _, operand) => ExprIds(operand)
    case Ternary(_, cond, yes, no) => ExprIds(cond) + ExprIds(yes) + ExprIds(no)
    case Call(_, name, args) => ExprIds(name) + ExprsIds(args)
    case _ => {}
  }

  ghost function ExprsIds(es: Exprs): set<nat> {
    match es
    case NoExprs => {}
    case MoreExprs(head, tail) => ExprIds(head) + ExprsIds(tail)
  }

  ghost function OptIds(o: OptExpr): set<nat> {
    if o.NoExpr? then {} else ExprIds(o.e)
  }

  ghost function StmtIds(s: Stmt): set<nat> {
    (if HasId(s) then {s.id} else {}) +
    match s
    case Then(first, rest) => StmtIds(first) + StmtIds(rest)
    case Eval(e) => ExprIds(e)
    case Decl(_, init) => OptIds(init)
    case Block(_, items) => StmtIds(items)
    case If(_, test, yes, no) => ExprIds(test) + StmtIds(yes) + StmtIds(no)
    case Switch(_, _, subject, body) => ExprIds(subject) + StmtIds(body)
    case While(_, test, body) => ExprIds(test) + StmtIds(body)
    case Do(_, body, test) => ExprIds(test) + StmtIds(body)
    case For(_, start, guard, next, body) => OptIds(start) + OptIds(guard) + OptIds(next) + StmtIds(body)
    case Return(_, result) => OptIds(result)
    case Spawn(_, receiver, _, callee, args) => OptIds(receiver) + ExprIds(callee) + ExprsIds(args)
    case _ => {}
  }

  ghost predicate DistinctExpr(e: Expr) {
    match e
    case Binop(id, _, left, right) =>
      DistinctExpr(left) && DistinctExpr(right) && ExprIds(left) !! ExprIds(right) && id !in ExprIds(left) + ExprIds(right)
    case Unary(id, _, operand) => DistinctExpr(operand) && id !in ExprIds(operand)
    case Ternary(id, cond, yes, no) =>
      DistinctExpr(cond) && DistinctExpr(yes) && DistinctExpr(no) &&
      ExprIds(cond) !! ExprIds(yes) !! ExprIds(no) && id !in ExprIds(cond) + ExprIds(yes) + ExprIds(no)
    case Call(id, name, args) =>
      DistinctExpr(name) && DistinctExprs(args) && ExprIds(name) !! ExprsIds(args) && id !in ExprIds(name) + ExprsIds(args)
    case _ => true
  }

  ghost predicate DistinctExprs(es: Exprs) {
    match es
    case NoExprs => true
    case MoreExprs(head, tail) => DistinctExpr(head) && DistinctExprs(tail) && ExprIds(head) !! ExprsIds(tail)
  }

  ghost predicate DistinctOpt(o: OptExpr) {
    o.TheExpr? ==> DistinctExpr(o.e)
  }

  // No two nodes of s share an identity.
  ghost predicate DistinctStmt(s: Stmt) {
    match s
    case Null => true
    case Then(first, rest) => DistinctStmt(first) && DistinctStmt(rest) && StmtIds(first) !! StmtIds(rest)
    case Eval(e) => DistinctExpr(e)
    case Decl(id, init) => DistinctOpt(init) && id !in OptIds(init)
    case Block(id, items) => DistinctStmt(items) && id !in StmtIds(items)
    case If(id, test, yes, no) =>
      DistinctExpr(test) && DistinctStmt(yes) && DistinctStmt(no) &&
      ExprIds(test) !! StmtIds(yes) !! StmtIds(no) && id !in ExprIds(test) + StmtIds(yes) + StmtIds(no)
    case Switch(id, _, e, body) =>
      DistinctExpr(e) && DistinctStmt(body) && ExprIds(e) !! StmtIds(body) && id !in ExprIds(e) + StmtIds(body)
    case While(id, e, body) =>
      DistinctExpr(e) && DistinctStmt(body) && ExprIds(e) !! StmtIds(body) && id !in ExprIds(e) + StmtIds(body)
    case Do(id, body, e) =>
      DistinctExpr(e) && DistinctStmt(body) && ExprIds(e) !! StmtIds(body) && id !in ExprIds(e) + StmtIds(body)
    case For(id, start, guard, next, body) =>
      DistinctOpt(start) && DistinctOpt(guard) && DistinctOpt(next) && DistinctStmt(body) &&
      OptIds(start) !! OptIds(guard) !! OptIds(next) !! StmtIds(body) &&
      id !in OptIds(start) + OptIds(guard) + OptIds(next) + StmtIds(body)
    case Return(id, result) => DistinctOpt(result) && id !in OptIds(result)
    case Spawn(id, receiver, _, callee, args) =>
      DistinctOpt(receiver) && DistinctExpr(callee) && DistinctExprs(args) &&
      OptIds(receiver) !! ExprIds(callee) !! ExprsIds(args) &&
      id !in OptIds(receiver) + ExprIds(callee) + ExprsIds(args)
    case _ => true
  }

  predicate HasTarget(e: Expr) {
    e.Binop? && IsPlainTarget(e.op, e.left)
  }

  // Nodes whose sets InitLVGenKill leaves as it finds them: operators that are no plain
  // assignment to a variable.
  ghost function OwnAlone(e: Expr): set<nat> {
    if e.Binop? && !HasTarget(e) then {e.id} else {}
  }

  ghost function LeftAlone(e: Expr): set<nat> {
    OwnAlone(e) +
    match e
    case Binop(_, _, left, right) => LeftAlone(left) + LeftAlone(right)
    case Unary(_, _, operand) => LeftAlone(operand)
    case Ternary(_, cond, yes, no) => LeftAlone(cond) + LeftAlone(yes) + LeftAlone(no)
    case Call(_, name, args) => LeftAlone(name) + LeftAloneAll(args)
    case _ => {}
  }

  ghost function LeftAloneAll(es: Exprs): set<nat> {
    match es
    case NoExprs => {}
    case MoreExprs(head, tail) => LeftAlone(head) + LeftAloneAll(tail)
  }

  ghost function LeftAloneOpt(o: OptExpr): set<nat> {
    if o.NoExpr? then {} else LeftAlone(o.e)
  }

  ghost function LeftAloneIn(s: Stmt): set<nat> {
    match s
    case Then(first, rest) => LeftAloneIn(first) + LeftAloneIn(rest)
    case Eval(e) => LeftAlone(e)
    case Decl(_, init) => LeftAloneOpt(init)
    case Block(_, items) => LeftAloneIn(items)
    case If(_, test, yes, no) => LeftAlone(test) + LeftAloneIn(yes) + LeftAloneIn(no)
    case Switch(_, _, e, body) => LeftAlone(e) + LeftAloneIn(body)
    case While(_, e, body) => LeftAlone(e) + LeftAloneIn(body)
    case Do(_, body, e) => LeftAlone(e) + LeftAloneIn(body)
    case For(_, start, guard, next, body) =>
      LeftAloneOpt(start) + LeftAloneOpt(guard) + LeftAloneOpt(next) + LeftAloneIn(body)
    case Return(_, result) => LeftAloneOpt(result)
    case Spawn(_, receiver, _, callee, args) => LeftAloneOpt(receiver) + LeftAlone(callee) + LeftAloneAll(args)
    case _ => {}
  }

  lemma {:induction false} ExprInside(e: Expr)
    ensures forall n, d :: (n, d) in ExprDeeds(e) ==> n in ExprIds(e)
    ensures LeftAlone(e) <= ExprIds(e)
  {
    match e
    case Binop(_, _, left, right) => ExprInside(left); ExprInside(right);
    case Unary(_, _, operand) => ExprInside(operand);
    case Ternary(_, cond, yes, no) => ExprInside(cond); ExprInside(yes); ExprInside(no);
    case Call(_, name, args) => ExprInside(name); ExprsInside(args);
    case _ =>
  }

  lemma {:induction false} ExprsInside(es: Exprs)
    ensures forall n, d :: (n, d) in ExprsDeeds(es) ==> n in ExprsIds(es)
    ensures LeftAloneAll(es) <= ExprsIds(es)
  {
    match es
    case NoExprs =>
    case MoreExprs(head, tail) => ExprInside(head); ExprsInside(tail);
  }

  lemma OptInside(o: OptExpr)
    ensures forall n, d :: (n, d) in OptDeeds(o) ==> n in OptIds(o)
    ensures LeftAloneOpt(o) <= OptIds(o)
  {
    if o.TheExpr? { ExprInside(o.e); }
  }

  lemma {:induction false} StmtInside(s: Stmt)
    ensures forall n, d :: (n, d) in StmtDeeds(s) ==> n in StmtIds(s)
    ensures LeftAloneIn(s) <= StmtIds(s)
  {
    hide ExprIds;
    hide ExprDeeds;
    hide LeftAlone;
    match s
    case Then(first, rest) => StmtInside(first); StmtInside(rest);
    case Eval(e) => ExprInside(e);
    case Decl(_, init) => OptInside(init);
    case Block(_, items) => StmtInside(items);
    case If(_, test, yes, no) => ExprInside(test); StmtInside(yes); StmtInside(no);
    case Switch(_, _, e, body) => ExprInside(e); StmtInside(body);
    case While(_, e, body) => ExprInside(e); StmtInside(body);
    case Do(_, body, e) => ExprInside(e); StmtInside(body);
    case For(_, start, guard, next, body) =>
      OptInside(start); OptInside(guard); OptInside(next); StmtInside(body);
    case Return(_, result) => OptInside(result);
    case Spawn(_, _, _, _, _) => SpawnInside(s);
    case _ =>
  }

  lemma SpawnInside(s: Stmt)
    requires s.Spawn?
    ensures forall n, d :: (n, d) in StmtDeeds(s) ==> n in StmtIds(s)
    ensures LeftAloneIn(s) <= StmtIds(s)
  {
    hide ExprDeeds;
    hide LeftAlone;
    OptInside(s.receiver);
    ExprInside(s.callee);
    ExprsInside(s.args);
  }

  // The two set stores agree outside ids.
  ghost predicate SameOutside(ids: set<nat>, old': BitSets, new': BitSets) {
    forall n :: n !in ids ==> Look(old', n) == Look(new', n)
  }

  ghost predicate Clear(gen: BitSets, kill: BitSets, ids: set<nat>) {
    forall n :: n in ids ==> Look(gen, n) == {} && Look(kill, n) == {}
  }

  datatype Client = LiveVariables | DirtyVariables | SyncFlow

  ghost function RuleOf(c: Client, vars: seq<nat>): Rule {
    match c
    case LiveVariables => LiveRule(vars)
    case DirtyVariables => DirtyRule(vars)
    case SyncFlow => ChildRule()
  }

  // What a node does in a tree, apart from its operands.
  ghost function OwnDeed(e: Expr): Deed {
    match e
    case Id(_, x) => Does(Use(x))
    case Binop(_, op, left, _) =>
      if IsPlainTarget(op, left) then Does(Set(left.decl))
      else if op.OpAssign? && left.Id? then Does(Update(left.decl)) else Nothing
    case Unary(_, uop, operand) => if uop.IncDec? && operand.Id? then Does(Update(operand.decl)) else Nothing
    case _ => Nothing
  }

  ghost function OwnStmtDeed(s: Stmt): Deed {
    match s
    case Decl(_, _) => Does(DeclEvent(s))
    case Return(_, _) => Does(Returned)
    case Spawn(_, _, _, _, _) => Does(SpawnEvent(s))
    case Sync(_) => Does(Synced)
    case _ => Nothing
  }

  // The gen and kill sets of all nodes.
  datatype Store = Store(gen: BitSets, kill: BitSets) {
    function With(n: nat, g: set<Bit>, k: set<Bit>): Store {
      Store(gen[n := g], kill[n := k])
    }
  }

  // InitLVGenKill, InitDVGenKill and InitSF at an expression node.
  ghost function InitExpr(c: Client, vars: seq<nat>, e: Expr, m: Store): Store {
    match c
    case LiveVariables =>
      if e.Id? then m.With(e.id, Find(vars, e.decl), {})
      else if e.Binop? then
        // a variable assigned to is an lvalue and generates no use; the sets of any other
        // operator are left as they are
        if IsPlainTarget(e.op, e.left) then m.With(e.id, {}, Find(vars, e.left.decl)).With(e.left.id, {}, {}) else m
      else m.With(e.id, {}, {})
    case DirtyVariables =>
      if e.Binop? && (e.op == Assign || e.op.OpAssign?) && e.left.Id? then m.With(e.id, Find(vars, e.left.decl), {})
      else if e.Unary? && e.uop.IncDec? && e.operand.Id? then m.With(e.id, Find(vars, e.operand.decl), {})
      else m.With(e.id, {}, {})
    case SyncFlow => m.With(e.id, {}, {})
  }

  // ... and at a statement node.
  ghost function InitStmt(c: Client, vars: seq<nat>, s: Stmt, m: Store): Store
    requires HasId(s)
  {
    var receiver := if s.Spawn? && s.receiver.TheExpr? && s.receiver.e.Id? then s.receiver else NoExpr;
    match c
    case LiveVariables =>
      if s.Decl? then m.With(s.id, {}, Find(vars, s.id))
      else if receiver.TheExpr? && s.op == Assign then
        m.With(s.id, {}, Find(vars, receiver.e.decl)).With(receiver.e.id, {}, {})
      else m.With(s.id, {}, {})
    case DirtyVariables =>
      if s.Decl? then m.With(s.id, if s.init.TheExpr? then Find(vars, s.id) else {}, {})
      else if s.Spawn? then m.With(s.id, if receiver.TheExpr? then Find(vars, receiver.e.decl) else {}, AllBits())
      else m.With(s.id, {}, {})
    case SyncFlow =>
      if s.Spawn? then m.With(s.id, {CHILDREN_OUTSTANDING}, {})
      else if s.Sync? || s.Return? then m.With(s.id, {}, {CHILDREN_OUTSTANDING})
      else m.With(s.id, {}, {})
  }

  predicate IsPreorder(c: Client) {
    c.SyncFlow?
  }

  // WalkTree over an expression: postorder for the variable analyses, preorder for SyncFlow.
  ghost function WalkExpr(c: Client, vars: seq<nat>, e: Expr, m: Store): Store
    decreases e, 1
  {
    if IsPreorder(c) then WalkParts(c, vars, e, InitExpr(c, vars, e, m))
    else InitExpr(c, vars, e, WalkParts(c, vars, e, m))
  }

  // The children of e, in order.
  ghost function WalkParts(c: Client, vars: seq<nat>, e: Expr, m: Store): Store
    decreases e, 0
  {
    match e
    case Binop(_, _, left, right) => WalkExpr(c, vars, right, WalkExpr(c, vars, left, m))
    case Unary(_, _, operand) => WalkExpr(c, vars, operand, m)
    case Ternary(_, cond, yes, no) => WalkExpr(c, vars, no, WalkExpr(c, vars, yes, WalkExpr(c, vars, cond, m)))
    case Call(_, name, args) => WalkExprs(c, vars, args, WalkExpr(c, vars, name, m))
    case _ => m
  }

  ghost function WalkExprs(c: Client, vars: seq<nat>, es: Exprs, m: Store): Store
    decreases es, 1
  {
    match es
    case NoExprs => m
    case MoreExprs(head, tail) => WalkExprs(c, vars, tail, WalkExpr(c, vars, head, m))
  }

  ghost function WalkOpt(c: Client, vars: seq<nat>, o: OptExpr, m: Store): Store {
    if o.NoExpr? then m else WalkExpr(c, vars, o.e, m)
  }

  ghost function WalkStmt(c: Client, vars: seq<nat>, s: Stmt, m: Store): Store
    decreases s, 1
  {
    if !HasId(s) then WalkStmtParts(c, vars, s, m)
    else if IsPreorder(c) then WalkStmtParts(c, vars, s, InitStmt(c, vars, s, m))
    else InitStmt(c, vars, s, WalkStmtParts(c, vars, s, m))
  }

  ghost function WalkStmtParts(c: Client, vars: seq<nat>, s: Stmt, m: Store): Store
    decreases s, 0
  {
    match s
    case Then(first, rest) => WalkStmt(c, vars, rest, WalkStmt(c, vars, first, m))
    case Eval(e) => WalkExpr(c, vars, e, m)
    case Decl(_, init) => WalkOpt(c, vars, init, m)
    case Block(_, items) => WalkStmt(c, vars, items, m)
    case If(_, test, yes, no) => WalkStmt(c, vars, no, WalkStmt(c, vars, yes, WalkExpr(c, vars, test, m)))
    case Switch(_, _, e, body) => WalkStmt(c, vars, body, WalkExpr(c, vars, e, m))
    case While(_, e, body) => WalkStmt(c, vars, body, WalkExpr(c, vars, e, m))
    case Do(_, body, e) => WalkExpr(c, vars, e, WalkStmt(c, vars, body, m))
    case For(_, start, guard, next, body) =>
      WalkStmt(c, vars, body, WalkOpt(c, vars, next, WalkOpt(c, vars, guard, WalkOpt(c, vars, start, m))))
    case Return(_, result) => WalkOpt(c, vars, result, m)
    case Spawn(_, receiver, _, callee, args) =>
      WalkExprs(c, vars, args, WalkExpr(c, vars, callee, WalkOpt(c, vars, receiver, m)))
    case _ => m
  }

  // ---------- What a walk leaves behind ----------

  ghost predicate Good(c: Client, vars: seq<nat>, m: Store, deeds: set<(nat, Deed)>) {
    AllMarked(RuleOf(c, vars), m.gen, m.kill, deeds)
  }

  ghost predicate Same(ids: set<nat>, a: Store, b: Store) {
    SameOutside(ids, a.gen, b.gen) && SameOutside(ids, a.kill, b.kill)
  }

  // Only live-variable set-up relies on what it does not write.
  ghost predicate Fresh(c: Client, m: Store, ids: set<nat>) {
    c.LiveVariables? ==> Clear(m.gen, m.kill, ids)
  }

  lemma GoodStays(c: Client, vars: seq<nat>, a: Store, b: Store, deeds: set<(nat, Deed)>, ids: set<nat>)
    requires Good(c, vars, a, deeds) && Same(ids, a, b) && (forall n, d :: (n, d) in deeds ==> n !in ids)
    ensures Good(c, vars, b, deeds)
  {
  }

  // A walk over some nodes leaves the deeds of those nodes, and nothing else changed.
  ghost predicate Done(c: Client, vars: seq<nat>, m: Store, r: Store, deeds: set<(nat, Deed)>, ids: set<nat>) {
    Good(c, vars, r, deeds) && Same(ids, m, r) && forall n, d :: (n, d) in deeds ==> n in ids
  }

  lemma TwoDone(c: Client, vars: seq<nat>, m: Store, a: Store, r: Store,
                d1: set<(nat, Deed)>, i1: set<nat>, d2: set<(nat, Deed)>, i2: set<nat>)
    requires Done(c, vars, m, a, d1, i1) && Done(c, vars, a, r, d2, i2) && i1 !! i2
    ensures Done(c, vars, m, r, d1 + d2, i1 + i2)
  {
  }

  lemma NoneDone(c: Client, vars: seq<nat>, m: Store)
    ensures Done(c, vars, m, m, {}, {})
  {
  }

  // Walking over i leaves fresh what lies elsewhere.
  lemma StillFresh(c: Client, vars: seq<nat>, m: Store, r: Store, d: set<(nat, Deed)>, i: set<nat>, fresh': set<nat>)
    requires Done(c, vars, m, r, d, i) && Fresh(c, m, fresh') && fresh' !! i
    ensures Fresh(c, r, fresh')
  {
  }

  lemma TargetApart(e: Expr)
    requires DistinctExpr(e) && e.Binop?
    ensures e.left.id != e.id
  {
    assert e.left.id in ExprIds(e.left);
  }

  // What InitExpr leaves on the node itself and, for an assigned variable, on that variable.
  lemma InitExprMarks(c: Client, vars: seq<nat>, e: Expr, m: Store)
    requires DistinctExpr(e) && Fresh(c, m, OwnAlone(e))
    ensures var (R, r) := (RuleOf(c, vars), InitExpr(c, vars, e, m));
      && Marked(R, r.gen, r.kill, e.id, OwnDeed(e))
      && (c.LiveVariables? && HasTarget(e) ==> Marked(R, r.gen, r.kill, e.left.id, Nothing))
      && Same(if c.LiveVariables? && HasTarget(e) then {e.id, e.left.id} else {e.id}, m, r)
  {
    hide DistinctExpr;
    hide Find;
    hide AllBits;
    if HasTarget(e) { TargetApart(e); }
  }

  ghost function PartIds(e: Expr): set<nat> {
    match e
    case Binop(_, _, left, right) => ExprIds(left) + ExprIds(right)
    case Unary(_, _, operand) => ExprIds(operand)
    case Ternary(_, cond, yes, no) => ExprIds(cond) + ExprIds(yes) + ExprIds(no)
    case Call(_, name, args) => ExprIds(name) + ExprsIds(args)
    case _ => {}
  }

  ghost function PartDeeds(e: Expr): set<(nat, Deed)> {
    match e
    case Binop(_, _, left, right) => ExprDeeds(left) + ExprDeeds(right)
    case Unary(_, _, operand) => ExprDeeds(operand)
    case Ternary(_, cond, yes, no) => ExprDeeds(cond) + ExprDeeds(yes) + ExprDeeds(no)
    case Call(_, name, args) => ExprDeeds(name) + ExprsDeeds(args)
    case _ => {}
  }

  lemma {:induction false} WalkExprDone(c: Client, vars: seq<nat>, e: Expr, m: Store)
    requires DistinctExpr(e) && Fresh(c, m, LeftAlone(e))
    ensures Done(c, vars, m, WalkExpr(c, vars, e, m), ExprDeeds(e), ExprIds(e))
    decreases e, 1
  {
    var i := InitExpr(c, vars, e, m);
    if IsPreorder(c) {
      InitExprMarks(c, vars, e, m);
      WalkPartsDone(c, vars, e, i);
      OwnFirst(c, vars, e, m, i, WalkParts(c, vars, e, i));
    } else {
      WalkPartsDone(c, vars, e, m);
      var a := WalkParts(c, vars, e, m);
      OwnIdApart(e);
      StillFresh(c, vars, m, a, PartDeeds(e), PartIds(e), OwnAlone(e));
      InitExprMarks(c, vars, e, a);
      OwnLast(c, vars, e, m, a, InitExpr(c, vars, e, a));
    }
  }

  lemma OwnIdApart(e: Expr)
    requires DistinctExpr(e)
    ensures e.id !in PartIds(e)
  {
  }

  // What the engine visits: the node itself, an assigned variable, or a node of a part.
  lemma DeedsAre(e: Expr, n: nat, d: Deed)
    requires DistinctExpr(e) && (n, d) in ExprDeeds(e)
    ensures || (n == e.id && d == OwnDeed(e))
            || (HasTarget(e) && n == e.left.id && d == Nothing)
            || ((n, d) in PartDeeds(e) && n in PartIds(e) && (HasTarget(e) ==> n != e.left.id))
  {
    PartDeedsInside(e);
    if HasTarget(e) { TargetDeed(e); ExprInside(e.right); }
  }

  lemma PartDeedsInside(e: Expr)
    ensures forall n, d :: (n, d) in PartDeeds(e) ==> n in PartIds(e)
  {
    match e
    case Binop(_, _, left, right) => ExprInside(left); ExprInside(right);
    case Unary(_, _, operand) => ExprInside(operand);
    case Ternary(_, cond, yes, no) => ExprInside(cond); ExprInside(yes); ExprInside(no);
    case Call(_, name, args) => ExprInside(name); ExprsInside(args);
    case _ =>
  }

  lemma TargetDeed(e: Expr)
    requires HasTarget(e)
    ensures (e.left.id, Does(Use(e.left.decl))) in PartDeeds(e)
    ensures e.left.id in ExprIds(e.left) && e.left.id in ExprIds(e)
  {
  }

  lemma PartsInside(e: Expr)
    ensures PartIds(e) <= ExprIds(e) && e.id in ExprIds(e)
  {
  }

  lemma UsesNothing(c: Client, vars: seq<nat>, m: Store, n: nat, x: nat)
    requires !c.LiveVariables? && Marked(RuleOf(c, vars), m.gen, m.kill, n, Does(Use(x)))
    ensures Marked(RuleOf(c, vars), m.gen, m.kill, n, Nothing)
  {
  }

  lemma MarkStays(R: Rule, a: Store, r: Store, ids: set<nat>, n: nat, d: Deed)
    requires Marked(R, a.gen, a.kill, n, d) && Same(ids, a, r) && n !in ids
    ensures Marked(R, r.gen, r.kill, n, d)
  {
  }

  // The parts were walked before or after the node itself was set up.
  lemma OwnAndParts(c: Client, vars: seq<nat>, e: Expr, m: Store, a: Store, r: Store)
    requires DistinctExpr(e) && Same(ExprIds(e), m, r)
    requires Good(c, vars, a, PartDeeds(e)) && Marked(RuleOf(c, vars), r.gen, r.kill, e.id, OwnDeed(e))
    requires Same(if c.LiveVariables? && HasTarget(e) then {e.id, e.left.id} else {e.id}, a, r)
    requires c.LiveVariables? && HasTarget(e) ==> Marked(RuleOf(c, vars), r.gen, r.kill, e.left.id, Nothing)
    ensures Done(c, vars, m, r, ExprDeeds(e), ExprIds(e))
  {
    hide DistinctExpr;
    hide PartDeeds;
    hide PartIds;
    hide ExprIds;
    hide ExprDeeds;
    hide Marked;
    hide Same;
    hide OwnDeed;
    hide RuleOf;
    var R := RuleOf(c, vars);
    var own := if c.LiveVariables? && HasTarget(e) then {e.id, e.left.id} else {e.id};
    ExprInside(e);
    OwnIdApart(e);
    forall n, d | (n, d) in ExprDeeds(e) ensures Marked(R, r.gen, r.kill, n, d) {
      DeedsAre(e, n, d);
      if n == e.id && d == OwnDeed(e) {
      } else if HasTarget(e) && n == e.left.id && d == Nothing {
        TargetDeed(e);
        if !c.LiveVariables? {
          UsesNothing(c, vars, a, n, e.left.decl);
          TargetApart(e);
          MarkStays(R, a, r, own, n, d);
        }
      } else {
        MarkStays(R, a, r, own, n, d);
      }
    }
  }

  lemma SameTwice(m: Store, a: Store, r: Store, i: set<nat>, j: set<nat>, k: set<nat>)
    requires Same(i, m, a) && Same(j, a, r) && i <= k && j <= k
    ensures Same(k, m, r)
  {
  }

  lemma OwnFirst(c: Client, vars: seq<nat>, e: Expr, m: Store, i: Store, r: Store)
    requires DistinctExpr(e) && IsPreorder(c) && i == InitExpr(c, vars, e, m)
    requires Done(c, vars, i, r, PartDeeds(e), PartIds(e))
    ensures Done(c, vars, m, r, ExprDeeds(e), ExprIds(e))
  {
    hide DistinctExpr;
    hide PartDeeds;
    hide PartIds;
    hide ExprIds;
    hide ExprDeeds;
    hide InitExpr;
    InitExprMarks(c, vars, e, m);
    OwnIdApart(e);
    MarkStays(RuleOf(c, vars), i, r, PartIds(e), e.id, OwnDeed(e));
    PartsInside(e);
    SameTwice(m, i, r, {e.id}, PartIds(e), ExprIds(e));
    OwnAndParts(c, vars, e, m, r, r);
  }

  lemma OwnLast(c: Client, vars: seq<nat>, e: Expr, m: Store, a: Store, r: Store)
    requires DistinctExpr(e) && !IsPreorder(c) && r == InitExpr(c, vars, e, a) && Fresh(c, a, OwnAlone(e))
    requires Done(c, vars, m, a, PartDeeds(e), PartIds(e))
    ensures Done(c, vars, m, r, ExprDeeds(e), ExprIds(e))
  {
    hide DistinctExpr;
    hide PartDeeds;
    hide PartIds;
    hide ExprIds;
    hide ExprDeeds;
    hide InitExpr;
    InitExprMarks(c, vars, e, a);
    PartsInside(e);
    if HasTarget(e) { TargetDeed(e); }
    SameTwice(m, a, r, PartIds(e), if c.LiveVariables? && HasTarget(e) then {e.id, e.left.id} else {e.id}, ExprIds(e));
    OwnAndParts(c, vars, e, m, a, r);
  }

  // The nodes an expression visits are its own node and its parts, except that an assigned
  // variable and the operand of sizeof count for nothing.
  lemma {:induction false} WalkPartsDone(c: Client, vars: seq<nat>, e: Expr, m: Store)
    requires DistinctExpr(e) && Fresh(c, m, LeftAlone(e))
    ensures Done(c, vars, m, WalkParts(c, vars, e, m), PartDeeds(e), PartIds(e))
    decreases e, 0
  {
    hide Done;
    match e
    case Binop(_, _, left, right) =>
      WalkExprDone(c, vars, left, m);
      var a := WalkExpr(c, vars, left, m);
      ExprInside(right);
      StillFresh(c, vars, m, a, ExprDeeds(left), ExprIds(left), LeftAlone(right));
      WalkExprDone(c, vars, right, a);
      TwoDone(c, vars, m, a, WalkExpr(c, vars, right, a), ExprDeeds(left), ExprIds(left), ExprDeeds(right), ExprIds(right));
    case Unary(_, _, operand) => WalkExprDone(c, vars, operand, m);
    case Ternary(_, cond, yes, no) =>
      WalkExprDone(c, vars, cond, m);
      var a := WalkExpr(c, vars, cond, m);
      ExprInside(yes);
      ExprInside(no);
      StillFresh(c, vars, m, a, ExprDeeds(cond), ExprIds(cond), LeftAlone(yes) + LeftAlone(no));
      WalkExprDone(c, vars, yes, a);
      var b := WalkExpr(c, vars, yes, a);
      StillFresh(c, vars, a, b, ExprDeeds(yes), ExprIds(yes), LeftAlone(no));
      WalkExprDone(c, vars, no, b);
      TwoDone(c, vars, m, a, b, ExprDeeds(cond), ExprIds(cond), ExprDeeds(yes), ExprIds(yes));
      TwoDone(c, vars, m, b, WalkExpr(c, vars, no, b),
              ExprDeeds(cond) + ExprDeeds(yes), ExprIds(cond) + ExprIds(yes), ExprDeeds(no), ExprIds(no));
    case Call(_, name, args) =>
      WalkExprDone(c, vars, name, m);
      var a := WalkExpr(c, vars, name, m);
      ExprsInside(args);
      StillFresh(c, vars, m, a, ExprDeeds(name), ExprIds(name), LeftAloneAll(args));
      WalkExprsDone(c, vars, args, a);
      TwoDone(c, vars, m, a, WalkExprs(c, vars, args, a), ExprDeeds(name), ExprIds(name), ExprsDeeds(args), ExprsIds(args));
    case _ => NoneDone(c, vars, m);
  }

  lemma {:induction false} WalkExprsDone(c: Client, vars: seq<nat>, es: Exprs, m: Store)
    requires DistinctExprs(es) && Fresh(c, m, LeftAloneAll(es))
    ensures Done(c, vars, m, WalkExprs(c, vars, es, m), ExprsDeeds(es), ExprsIds(es))
    decreases es, 1
  {
    match es
    case NoExprs =>
    case MoreExprs(head, tail) =>
      WalkExprDone(c, vars, head, m);
      var a := WalkExpr(c, vars, head, m);
      ExprsInside(tail);
      StillFresh(c, vars, m, a, ExprDeeds(head), ExprIds(head), LeftAloneAll(tail));
      WalkExprsDone(c, vars, tail, a);
      TwoDone(c, vars, m, a, WalkExprs(c, vars, tail, a), ExprDeeds(head), ExprIds(head), ExprsDeeds(tail), ExprsIds(tail));
  }

  // ---------- Statements ----------

  predicate HasReceiver(s: Stmt) {
    s.Spawn? && s.receiver.TheExpr? && IsPlainTarget(s.op, s.receiver.e)
  }

  ghost function StmtPartIds(s: Stmt): set<nat> {
    match s
    case Then(first, rest) => StmtIds(first) + StmtIds(rest)
    case Eval(e) => ExprIds(e)
    case Decl(_, init) => OptIds(init)
    case Block(_, items) => StmtIds(items)
    case If(_, test, yes, no) => ExprIds(test) + StmtIds(yes) + StmtIds(no)
    case Switch(_, _, subject, body) => ExprIds(subject) + StmtIds(body)
    case While(_, test, body) => ExprIds(test) + StmtIds(body)
    case Do(_, body, test) => StmtIds(body) + ExprIds(test)
    case For(_, start, guard, next, body) => OptIds(start) + OptIds(guard) + OptIds(next) + StmtIds(body)
    case Return(_, result) => OptIds(result)
    case Spawn(_, receiver, _, callee, args) => OptIds(receiver) + ExprIds(callee) + ExprsIds(args)
    case _ => {}
  }

  ghost function StmtPartDeeds(s: Stmt): set<(nat, Deed)> {
    match s
    case Then(first, rest) => StmtDeeds(first) + StmtDeeds(rest)
    case Eval(e) => ExprDeeds(e)
    case Decl(_, init) => OptDeeds(init)
    case Block(_, items) => StmtDeeds(items)
    case If(_, test, yes, no) => ExprDeeds(test) + StmtDeeds(yes) + StmtDeeds(no)
    case Switch(_, _, subject, body) => ExprDeeds(subject) + StmtDeeds(body)
    case While(_, test, body) => ExprDeeds(test) + StmtDeeds(body)
    case Do(_, body, test) => StmtDeeds(body) + ExprDeeds(test)
    case For(_, start, guard, next, body) => OptDeeds(start) + OptDeeds(guard) + OptDeeds(next) + StmtDeeds(body)
    case Return(_, result) => OptDeeds(result)
    case Spawn(_, receiver, _, callee, args) => OptDeeds(receiver) + ExprDeeds(callee) + ExprsDeeds(args)
    case _ => {}
  }

  ghost function OwnWrites(c: Client, s: Stmt): set<nat>
    requires HasId(s)
  {
    if c.LiveVariables? && HasReceiver(s) then {s.id, s.receiver.e.id} else {s.id}
  }

  lemma InitStmtMarks(c: Client, vars: seq<nat>, s: Stmt, m: Store)
    requires HasId(s) && (HasReceiver(s) ==> s.receiver.e.id != s.id)
    ensures var (R, r) := (RuleOf(c, vars), InitStmt(c, vars, s, m));
      && Marked(R, r.gen, r.kill, s.id, OwnStmtDeed(s))
      && (c.LiveVariables? && HasReceiver(s) ==> Marked(R, r.gen, r.kill, s.receiver.e.id, Nothing))
      && Same(OwnWrites(c, s), m, r)
  {
    hide Find;
    hide AllBits;
    match c
    case LiveVariables => InitLiveStmt(vars, s, m);
    case DirtyVariables => InitDirtyStmt(vars, s, m);
    case SyncFlow =>
  }

  lemma InitLiveStmt(vars: seq<nat>, s: Stmt, m: Store)
    requires HasId(s) && (HasReceiver(s) ==> s.receiver.e.id != s.id)
    ensures var (R, r) := (LiveRule(vars), InitStmt(LiveVariables, vars, s, m));
      && Marked(R, r.gen, r.kill, s.id, OwnStmtDeed(s))
      && (HasReceiver(s) ==> Marked(R, r.gen, r.kill, s.receiver.e.id, Nothing))
      && Same(OwnWrites(LiveVariables, s), m, r)
  {
    hide Find;
    hide AllBits;
  }

  lemma InitDirtyStmt(vars: seq<nat>, s: Stmt, m: Store)
    requires HasId(s)
    ensures var (R, r) := (DirtyRule(vars), InitStmt(DirtyVariables, vars, s, m));
      Marked(R, r.gen, r.kill, s.id, OwnStmtDeed(s)) && Same({s.id}, m, r)
  {
    hide Find;
    hide AllBits;
  }

  lemma StmtDeedsAre(s: Stmt, n: nat, d: Deed)
    requires DistinctStmt(s) && (n, d) in StmtDeeds(s)
    ensures || (HasId(s) && n == s.id && d == OwnStmtDeed(s))
            || (HasReceiver(s) && n == s.receiver.e.id && d == Nothing)
            || ((n, d) in StmtPartDeeds(s) && n in StmtPartIds(s) && (HasReceiver(s) ==> n != s.receiver.e.id))
  {
    hide ExprDeeds;
    hide ExprIds;
    hide DistinctExpr;
    StmtPartDeedsInside(s);
    if HasReceiver(s) { ReceiverDeed(s); ExprInside(s.callee); ExprsInside(s.args); }
  }

  lemma StmtPartDeedsInside(s: Stmt)
    ensures forall n, d :: (n, d) in StmtPartDeeds(s) ==> n in StmtPartIds(s)
  {
    hide ExprDeeds;
    hide ExprIds;
    match s
    case Then(first, rest) => StmtInside(first); StmtInside(rest);
    case Eval(e) => ExprInside(e);
    case Decl(_, init) => OptInside(init);
    case Block(_, items) => StmtInside(items);
    case If(_, test, yes, no) => ExprInside(test); StmtInside(yes); StmtInside(no);
    case Switch(_, _, e, body) => ExprInside(e); StmtInside(body);
    case While(_, e, body) => ExprInside(e); StmtInside(body);
    case Do(_, body, e) => ExprInside(e); StmtInside(body);
    case For(_, start, guard, next, body) => OptInside(start); OptInside(guard); OptInside(next); StmtInside(body);
    case Return(_, result) => OptInside(result);
    case Spawn(_, receiver, _, callee, args) => OptInside(receiver); ExprInside(callee); ExprsInside(args);
    case _ =>
  }

  lemma ReceiverDeed(s: Stmt)
    requires HasReceiver(s)
    ensures (s.receiver.e.id, Does(Use(s.receiver.e.decl))) in StmtPartDeeds(s)
    ensures s.receiver.e.id in OptIds(s.receiver) && s.receiver.e.id in StmtPartIds(s)
  {
  }

  lemma OwnStmtIdApart(s: Stmt)
    requires DistinctStmt(s) && HasId(s)
    ensures s.id !in StmtPartIds(s) && StmtPartIds(s) <= StmtIds(s) && s.id in StmtIds(s)
  {
    hide ExprIds;
    hide DistinctExpr;
  }

  lemma OwnAndStmtParts(c: Client, vars: seq<nat>, s: Stmt, m: Store, a: Store, r: Store)
    requires HasId(s) && DistinctStmt(s) && Same(StmtIds(s), m, r)
    requires Good(c, vars, a, StmtPartDeeds(s)) && Marked(RuleOf(c, vars), r.gen, r.kill, s.id, OwnStmtDeed(s))
    requires Same(OwnWrites(c, s), a, r)
    requires c.LiveVariables? && HasReceiver(s) ==> Marked(RuleOf(c, vars), r.gen, r.kill, s.receiver.e.id, Nothing)
    ensures Done(c, vars, m, r, StmtDeeds(s), StmtIds(s))
  {
    hide DistinctStmt;
    hide StmtPartDeeds;
    hide StmtPartIds;
    hide StmtIds;
    hide StmtDeeds;
    hide Marked;
    hide Same;
    hide OwnStmtDeed;
    hide RuleOf;
    var R := RuleOf(c, vars);
    StmtInside(s);
    OwnStmtIdApart(s);
    forall n, d | (n, d) in StmtDeeds(s) ensures Marked(R, r.gen, r.kill, n, d) {
      StmtDeedsAre(s, n, d);
      if n == s.id && d == OwnStmtDeed(s) {
      } else if HasReceiver(s) && n == s.receiver.e.id && d == Nothing {
        ReceiverDeed(s);
        if !c.LiveVariables? {
          UsesNothing(c, vars, a, n, s.receiver.e.decl);
          MarkStays(R, a, r, OwnWrites(c, s), n, d);
        }
      } else {
        MarkStays(R, a, r, OwnWrites(c, s), n, d);
      }
    }
  }

  /** The walk leaves on every node of the tree the sets that the rule prescribes. */
  lemma {:induction false} WalkStmtDone(c: Client, vars: seq<nat>, s: Stmt, m: Store)
    requires DistinctStmt(s) && Fresh(c, m, LeftAloneIn(s))
    ensures Done(c, vars, m, WalkStmt(c, vars, s, m), StmtDeeds(s), StmtIds(s))
    decreases s, 1
  {
    hide InitStmt;
    hide DistinctStmt;
    hide StmtDeeds;
    hide StmtIds;
    hide StmtPartDeeds;
    hide StmtPartIds;
    hide LeftAloneIn;
    hide Fresh;
    if !HasId(s) {
      WalkStmtPartsDone(c, vars, s, m);
      NoOwnId(s);
      return;
    }
    OwnStmtIdApart(s);
    if HasReceiver(s) { ReceiverDeed(s); }
    if IsPreorder(c) {
      var i := InitStmt(c, vars, s, m);
      InitStmtMarks(c, vars, s, m);
      assert Fresh(c, i, LeftAloneIn(s)) by { AnyFresh(c, i, LeftAloneIn(s)); }
      WalkStmtPartsDone(c, vars, s, i);
      var r := WalkStmtParts(c, vars, s, i);
      MarkStays(RuleOf(c, vars), i, r, StmtPartIds(s), s.id, OwnStmtDeed(s));
      SameTwice(m, i, r, {s.id}, StmtPartIds(s), StmtIds(s));
      OwnAndStmtParts(c, vars, s, m, r, r);
    } else {
      WalkStmtPartsDone(c, vars, s, m);
      var a := WalkStmtParts(c, vars, s, m);
      InitStmtMarks(c, vars, s, a);
      SameTwice(m, a, InitStmt(c, vars, s, a), StmtPartIds(s), OwnWrites(c, s), StmtIds(s));
      OwnAndStmtParts(c, vars, s, m, a, InitStmt(c, vars, s, a));
    }
  }

  lemma AnyFresh(c: Client, m: Store, ids: set<nat>)
    requires IsPreorder(c)
    ensures Fresh(c, m, ids)
  {
  }

  lemma NoOwnId(s: Stmt)
    requires !HasId(s)
    ensures StmtDeeds(s) == StmtPartDeeds(s) && StmtIds(s) == StmtPartIds(s)
  {
    hide ExprIds;
    hide ExprDeeds;
  }

  lemma WalkOptDone(c: Client, vars: seq<nat>, o: OptExpr, m: Store)
    requires DistinctOpt(o) && Fresh(c, m, LeftAloneOpt(o))
    ensures Done(c, vars, m, WalkOpt(c, vars, o, m), OptDeeds(o), OptIds(o))
  {
    if o.TheExpr? { WalkExprDone(c, vars, o.e, m); } else { NoneDone(c, vars, m); }
  }

  lemma {:induction false} WalkStmtPartsDone(c: Client, vars: seq<nat>, s: Stmt, m: Store)
    requires DistinctStmt(s) && Fresh(c, m, LeftAloneIn(s))
    ensures Done(c, vars, m, WalkStmtParts(c, vars, s, m), StmtPartDeeds(s), StmtPartIds(s))
    decreases s, 0, 1
  {
    hide Done;
    hide ExprDeeds;
    hide ExprIds;
    hide DistinctExpr;
    hide LeftAlone;
    hide WalkExpr;
    match s
    case Then(first, rest) =>
      StmtInside(rest);
      WalkStmtDone(c, vars, first, m);
      var a := WalkStmt(c, vars, first, m);
      StillFresh(c, vars, m, a, StmtDeeds(first), StmtIds(first), LeftAloneIn(rest));
      WalkStmtDone(c, vars, rest, a);
      var b := WalkStmt(c, vars, rest, a);
      TwoDone(c, vars, m, a, b, StmtDeeds(first), StmtIds(first), StmtDeeds(rest), StmtIds(rest));
    case Block(_, items) =>
      WalkStmtDone(c, vars, items, m);
      var a := WalkStmt(c, vars, items, m);
    case If(_, test, yes, no) =>
      StmtInside(yes);
      StmtInside(no);
      WalkExprDone(c, vars, test, m);
      var a := WalkExpr(c, vars, test, m);
      StillFresh(c, vars, m, a, ExprDeeds(test), ExprIds(test), LeftAloneIn(yes) + LeftAloneIn(no));
      WalkStmtDone(c, vars, yes, a);
      var b := WalkStmt(c, vars, yes, a);
      StillFresh(c, vars, a, b, StmtDeeds(yes), StmtIds(yes), LeftAloneIn(no));
      TwoDone(c, vars, m, a, b, ExprDeeds(test), ExprIds(test), StmtDeeds(yes), StmtIds(yes));
      WalkStmtDone(c, vars, no, b);
      var d := WalkStmt(c, vars, no, b);
      TwoDone(c, vars, m, b, d, ExprDeeds(test) + StmtDeeds(yes), ExprIds(test) + StmtIds(yes), StmtDeeds(no), StmtIds(no));
    case Spawn(_, receiver, _, callee, args) =>
      ExprInside(callee);
      ExprsInside(args);
      WalkOptDone(c, vars, receiver, m);
      var a := WalkOpt(c, vars, receiver, m);
      StillFresh(c, vars, m, a, OptDeeds(receiver), OptIds(receiver), LeftAlone(callee) + LeftAloneAll(args));
      WalkExprDone(c, vars, callee, a);
      var b := WalkExpr(c, vars, callee, a);
      StillFresh(c, vars, a, b, ExprDeeds(callee), ExprIds(callee), LeftAloneAll(args));
      TwoDone(c, vars, m, a, b, OptDeeds(receiver), OptIds(receiver), ExprDeeds(callee), ExprIds(callee));
      WalkExprsDone(c, vars, args, b);
      var d := WalkExprs(c, vars, args, b);
      TwoDone(c, vars, m, b, d, OptDeeds(receiver) + ExprDeeds(callee), OptIds(receiver) + ExprIds(callee), ExprsDeeds(args), ExprsIds(args));
    case Eval(e) => WalkExprDone(c, vars, e, m);
    case Decl(_, init) => WalkOptDone(c, vars, init, m);
    case Return(_, result) => WalkOptDone(c, vars, result, m);
    case Switch(_, _, _, _) => WalkLoopDone(c, vars, s, m);
    case While(_, _, _) => WalkLoopDone(c, vars, s, m);
    case Do(_, _, _) => WalkLoopDone(c, vars, s, m);
    case For(_, _, _, _, _) => WalkLoopDone(c, vars, s, m);
    case _ => NoneDone(c, vars, m);
  }

  lemma {:induction false} WalkLoopDone(c: Client, vars: seq<nat>, s: Stmt, m: Store)
    requires s.Switch? || s.While? || s.Do? || s.For?
    requires DistinctStmt(s) && Fresh(c, m, LeftAloneIn(s))
    ensures Done(c, vars, m, WalkStmtParts(c, vars, s, m), StmtPartDeeds(s), StmtPartIds(s))
    decreases s, 0, 0
  {
    hide Done;
    hide ExprDeeds;
    hide ExprIds;
    hide DistinctExpr;
    hide LeftAlone;
    hide WalkExpr;
    match s
    case Switch(_, _, e, body) =>
      StmtInside(body);
      WalkExprDone(c, vars, e, m);
      var a := WalkExpr(c, vars, e, m);
      StillFresh(c, vars, m, a, ExprDeeds(e), ExprIds(e), LeftAloneIn(body));
      WalkStmtDone(c, vars, body, a);
      var b := WalkStmt(c, vars, body, a);
      TwoDone(c, vars, m, a, b, ExprDeeds(e), ExprIds(e), StmtDeeds(body), StmtIds(body));
    case While(_, e, body) =>
      StmtInside(body);
      WalkExprDone(c, vars, e, m);
      var a := WalkExpr(c, vars, e, m);
      StillFresh(c, vars, m, a, ExprDeeds(e), ExprIds(e), LeftAloneIn(body));
      WalkStmtDone(c, vars, body, a);
      var b := WalkStmt(c, vars, body, a);
      TwoDone(c, vars, m, a, b, ExprDeeds(e), ExprIds(e), StmtDeeds(body), StmtIds(body));
    case Do(_, body, e) =>
      ExprInside(e);
      WalkStmtDone(c, vars, body, m);
      var a := WalkStmt(c, vars, body, m);
      StillFresh(c, vars, m, a, StmtDeeds(body), StmtIds(body), LeftAlone(e));
      WalkExprDone(c, vars, e, a);
      var b := WalkExpr(c, vars, e, a);
      TwoDone(c, vars, m, a, b, StmtDeeds(body), StmtIds(body), ExprDeeds(e), ExprIds(e));
    case For(_, start, guard, next, body) =>
      OptInside(guard);
      OptInside(next);
      StmtInside(body);
      WalkOptDone(c, vars, start, m);
      var a := WalkOpt(c, vars, start, m);
      StillFresh(c, vars, m, a, OptDeeds(start), OptIds(start), LeftAloneOpt(guard) + LeftAloneOpt(next) + LeftAloneIn(body));
      WalkOptDone(c, vars, guard, a);
      var b := WalkOpt(c, vars, guard, a);
      StillFresh(c, vars, a, b, OptDeeds(guard), OptIds(guard), LeftAloneOpt(next) + LeftAloneIn(body));
      TwoDone(c, vars, m, a, b, OptDeeds(start), OptIds(start), OptDeeds(guard), OptIds(guard));
      WalkOptDone(c, vars, next, b);
      var d := WalkOpt(c, vars, next, b);
      StillFresh(c, vars, b, d, OptDeeds(next), OptIds(next), LeftAloneIn(body));
      TwoDone(c, vars, m, b, d, OptDeeds(start) + OptDeeds(guard), OptIds(start) + OptIds(guard), OptDeeds(next), OptIds(next));
      WalkStmtDone(c, vars, body, d);
      var f := WalkStmt(c, vars, body, d);
      TwoDone(c, vars, m, d, f, OptDeeds(start) + OptDeeds(guard) + OptDeeds(next), OptIds(start) + OptIds(guard) + OptIds(next), StmtDeeds(body), StmtIds(body));
  }

  // ---------- A walk for live variables leaves alone what it found clear ----------

  ghost predicate Untouched(n: nat, a: Store, b: Store) {
    Look(a.gen, n) == Look(b.gen, n) && Look(a.kill, n) == Look(b.kill, n)
  }

  lemma InitLiveWrites(vars: seq<nat>, e: Expr, m: Store, n: nat)
    requires (n == e.id ==> n in OwnAlone(e)) && (HasTarget(e) ==> n != e.left.id)
    ensures Untouched(n, m, InitExpr(LiveVariables, vars, e, m))
  {
    hide Find;
  }

  lemma AloneApart(e: Expr, n: nat)
    requires DistinctExpr(e) && (n in LeftAlone(e) || n !in ExprIds(e))
    ensures (n == e.id ==> n in OwnAlone(e)) && (HasTarget(e) ==> n != e.left.id)
  {
    if e.Binop? { ExprInside(e.left); ExprInside(e.right); }
    if e.Unary? { ExprInside(e.operand); }
    if e.Ternary? { ExprInside(e.cond); ExprInside(e.yes); ExprInside(e.no); }
    if e.Call? { ExprInside(e.name); ExprsInside(e.args); }
  }

  lemma InitExprAlone(vars: seq<nat>, e: Expr, m: Store, n: nat)
    requires DistinctExpr(e) && (n in LeftAlone(e) || n !in ExprIds(e))
    ensures Untouched(n, m, InitExpr(LiveVariables, vars, e, m))
  {
    AloneApart(e, n);
    InitLiveWrites(vars, e, m, n);
  }

  lemma {:induction false} AloneStays(vars: seq<nat>, e: Expr, m: Store, n: nat)
    requires DistinctExpr(e) && (n in LeftAlone(e) || n !in ExprIds(e))
    ensures Untouched(n, m, WalkExpr(LiveVariables, vars, e, m))
  {
    hide Look;
    hide InitExpr;
    ExprInside(e);
    InitExprAlone(vars, e, WalkParts(LiveVariables, vars, e, m), n);
    match e
    case Binop(_, _, left, right) =>
      ExprInside(left);
      ExprInside(right);
      AloneStays(vars, left, m, n);
      AloneStays(vars, right, WalkExpr(LiveVariables, vars, left, m), n);
    case Unary(_, _, operand) =>
      ExprInside(operand);
      AloneStays(vars, operand, m, n);
    case Ternary(_, cond, yes, no) =>
      ExprInside(cond);
      ExprInside(yes);
      ExprInside(no);
      var a := WalkExpr(LiveVariables, vars, cond, m);
      AloneStays(vars, cond, m, n);
      AloneStays(vars, yes, a, n);
      AloneStays(vars, no, WalkExpr(LiveVariables, vars, yes, a), n);
    case Call(_, name, args) =>
      ExprInside(name);
      ExprsInside(args);
      AloneStays(vars, name, m, n);
      AloneAllStay(vars, args, WalkExpr(LiveVariables, vars, name, m), n);
    case _ =>
  }

  lemma {:induction false} AloneAllStay(vars: seq<nat>, es: Exprs, m: Store, n: nat)
    requires DistinctExprs(es) && (n in LeftAloneAll(es) || n !in ExprsIds(es))
    ensures Untouched(n, m, WalkExprs(LiveVariables, vars, es, m))
  {
    match es
    case NoExprs =>
    case MoreExprs(head, tail) =>
      ExprInside(head);
      ExprsInside(tail);
      AloneStays(vars, head, m, n);
      AloneAllStay(vars, tail, WalkExpr(LiveVariables, vars, head, m), n);
  }

  lemma AloneOptStays(vars: seq<nat>, o: OptExpr, m: Store, n: nat)
    requires DistinctOpt(o) && (n in LeftAloneOpt(o) || n !in OptIds(o))
    ensures Untouched(n, m, WalkOpt(LiveVariables, vars, o, m))
  {
    if o.TheExpr? { AloneStays(vars, o.e, m, n); }
  }

  lemma InitStmtAlone(vars: seq<nat>, s: Stmt, m: Store, n: nat)
    requires HasId(s) && DistinctStmt(s) && (n in LeftAloneIn(s) || n !in StmtIds(s))
    ensures Untouched(n, m, InitStmt(LiveVariables, vars, s, m))
  {
    hide ExprIds;
    hide Find;
    OwnStmtIdApart(s);
    StmtInside(s);
    if HasReceiver(s) {
      ReceiverDeed(s);
      OptInside(s.receiver);
      ExprInside(s.callee);
      ExprsInside(s.args);
    }
    if n in LeftAloneIn(s) { AloneInParts(s, n); }
    InitStmtMarks(LiveVariables, vars, s, m);
  }

  lemma AloneInParts(s: Stmt, n: nat)
    requires n in LeftAloneIn(s)
    ensures n in StmtPartIds(s)
  {
    hide ExprIds;
    hide LeftAlone;
    match s
    case Then(first, rest) => StmtInside(first); StmtInside(rest);
    case Eval(e) => ExprInside(e);
    case Decl(_, init) => OptInside(init);
    case Block(_, items) => StmtInside(items);
    case If(_, test, yes, no) => ExprInside(test); StmtInside(yes); StmtInside(no);
    case Switch(_, _, e, body) => ExprInside(e); StmtInside(body);
    case While(_, e, body) => ExprInside(e); StmtInside(body);
    case Do(_, body, e) => ExprInside(e); StmtInside(body);
    case For(_, start, guard, next, body) => OptInside(start); OptInside(guard); OptInside(next); StmtInside(body);
    case Return(_, result) => OptInside(result);
    case Spawn(_, receiver, _, callee, args) => OptInside(receiver); ExprInside(callee); ExprsInside(args);
    case _ =>
  }

  lemma {:induction false} AloneInStays(vars: seq<nat>, s: Stmt, m: Store, n: nat)
    requires DistinctStmt(s) && (n in LeftAloneIn(s) || n !in StmtIds(s))
    ensures Untouched(n, m, WalkStmt(LiveVariables, vars, s, m))
    decreases s, 1
  {
    AlonePartsStay(vars, s, m, n);
    if HasId(s) { InitStmtAlone(vars, s, WalkStmtParts(LiveVariables, vars, s, m), n); }
  }

  lemma {:induction false} AlonePartsStay(vars: seq<nat>, s: Stmt, m: Store, n: nat)
    requires DistinctStmt(s) && (n in LeftAloneIn(s) || n !in StmtIds(s))
    ensures Untouched(n, m, WalkStmtParts(LiveVariables, vars, s, m))
    decreases s, 0
  {
    hide Look;
    hide WalkExprs;
    hide LeftAloneAll;
    hide DistinctExprs;
    hide ExprsIds;
    hide ExprIds;
    hide LeftAlone;
    hide DistinctExpr;
    hide WalkExpr;
    match s
    case Then(first, rest) =>
      StmtInside(first); StmtInside(rest);
      AloneInStays(vars, first, m, n);
      var a := WalkStmt(LiveVariables, vars, first, m);
      AloneInStays(vars, rest, a, n);
    case Block(_, items) =>
      StmtInside(items);
      AloneInStays(vars, items, m, n);
    case If(_, test, yes, no) =>
      ExprInside(test); StmtInside(yes); StmtInside(no);
      AloneStays(vars, test, m, n);
      var a := WalkExpr(LiveVariables, vars, test, m);
      AloneInStays(vars, yes, a, n);
      var b := WalkStmt(LiveVariables, vars, yes, a);
      AloneInStays(vars, no, b, n);
    case Spawn(_, receiver, _, callee, args) =>
      OptInside(receiver); ExprInside(callee); ExprsInside(args);
      AloneOptStays(vars, receiver, m, n);
      var a := WalkOpt(LiveVariables, vars, receiver, m);
      AloneStays(vars, callee, a, n);
      var b := WalkExpr(LiveVariables, vars, callee, a);
      AloneAllStay(vars, args, b, n);
    case Eval(e) =>
      ExprInside(e);
      AloneStays(vars, e, m, n);
    case Decl(_, init) =>
      OptInside(init);
      AloneOptStays(vars, init, m, n);
    case Return(_, result) =>
      OptInside(result);
      AloneOptStays(vars, result, m, n);
    case Switch(_, _, _, _) => AloneLoopsStay(vars, s, m, n);
    case While(_, _, _) => AloneLoopsStay(vars, s, m, n);
    case Do(_, _, _) => AloneLoopsStay(vars, s, m, n);
    case For(_, _, _, _, _) => AloneLoopsStay(vars, s, m, n);
    case _ =>
  }

  lemma {:induction false} AloneLoopsStay(vars: seq<nat>, s: Stmt, m: Store, n: nat)
    requires s.Switch? || s.While? || s.Do? || s.For?
    requires DistinctStmt(s) && (n in LeftAloneIn(s) || n !in StmtIds(s))
    ensures Untouched(n, m, WalkStmtParts(LiveVariables, vars, s, m))
    decreases s, 0, 0
  {
    hide Look;
    hide WalkExprs;
    hide LeftAloneAll;
    hide DistinctExprs;
    hide ExprsIds;
    hide ExprIds;
    hide LeftAlone;
    hide DistinctExpr;
    hide WalkExpr;
    match s
    case Switch(_, _, e, body) =>
      ExprInside(e); StmtInside(body);
      AloneStays(vars, e, m, n);
      var a := WalkExpr(LiveVariables, vars, e, m);
      AloneInStays(vars, body, a, n);
    case While(_, e, body) =>
      ExprInside(e); StmtInside(body);
      AloneStays(vars, e, m, n);
      var a := WalkExpr(LiveVariables, vars, e, m);
      AloneInStays(vars, body, a, n);
    case Do(_, body, e) =>
      StmtInside(body); ExprInside(e);
      AloneInStays(vars, body, m, n);
      var a := WalkStmt(LiveVariables, vars, body, m);
      AloneStays(vars, e, a, n);
    case For(_, start, guard, next, body) =>
      OptInside(start); OptInside(guard); OptInside(next); StmtInside(body);
      AloneOptStays(vars, start, m, n);
      var a := WalkOpt(LiveVariables, vars, start, m);
      AloneOptStays(vars, guard, a, n);
      var b := WalkOpt(LiveVariables, vars, guard, a);
      AloneOptStays(vars, next, b, n);
      var d := WalkOpt(LiveVariables, vars, next, b);
      AloneInStays(vars, body, d, n);
  }

  // The whole walk; no set-up function does anything for the procedure node.
  ghost function WalkWhole(c: Client, vars: seq<nat>, p: Proc, m: Store): Store {
    if IsPreorder(c) then WalkStmt(c, vars, p.body, m.With(p.id, {}, {}))
    else WalkStmt(c, vars, p.body, m).With(p.id, {}, {})
  }

  class NodeSets {
    var gen: BitSets
    var kill: BitSets
    var variableSet: List?         // the variables currently being analyzed
    ghost var variables: seq<List> // its cells
    ghost var vars: seq<nat>       // and its members

    constructor ()
      ensures gen == kill == map[] && variableSet == null && variables == [] && vars == []
    {
      gen, kill := map[], map[];
      variableSet, variables, vars := null, [], [];
    }

    ghost predicate Ready()
      reads `variableSet, `variables, `vars, variables
    {
      IsList(variableSet, variables) && |variables| <= MAX_BITVECTOR_LENGTH && vars == Elements(variables)
    }

    // Bit i of the result is set iff member i of the list is the node.
    method ListFind(node: nat) returns (v: set<Bit>)
      requires Ready()
      ensures v == Find(vars, node)
    {
      v := {};
      var di: nat := 0;
      var list := variableSet;
      while list != null
        invariant di <= |variables|
        invariant list == if di < |variables| then variables[di] else null
        invariant v == set i: Bit | i < di && vars[i] == node
        decreases |variables| - di
      {
        ghost var before := v;
        if node == list.element {
          v := v + {di};
        }
        assert forall i: Bit :: i < di + 1 && vars[i] == node <==> i in before || (i == di && node == list.element);
        di := di + 1;
        list := list.next;
      }
    }

    // InitLVGenKill, InitDVGenKill or InitSF at an expression node.
    method InitExprSets(c: Client, e: Expr)
      requires Ready()
      modifies `gen, `kill
      ensures Store(gen, kill) == InitExpr(c, vars, e, old(Store(gen, kill)))
    {
      hide IsList;
      hide Find;
      match c {
        case LiveVariables =>
          if e.Id? {
            var v := ListFind(e.decl);
            Put(e.id, v, {});
          } else if e.Binop? {
            if e.op == Assign && e.left.Id? {
              var v := ListFind(e.left.decl);
              Put(e.id, {}, v);
              Put(e.left.id, {}, {});
            }
          } else {
            Put(e.id, {}, {});
          }
        case DirtyVariables =>
          Put(e.id, {}, {});
          if e.Binop? && (e.op == Assign || e.op.OpAssign?) && e.left.Id? {
            var v := ListFind(e.left.decl);
            Put(e.id, v, {});
          } else if e.Unary? && e.uop.IncDec? && e.operand.Id? {
            var v := ListFind(e.operand.decl);
            Put(e.id, v, {});
          }
        case SyncFlow => Put(e.id, {}, {});
      }
    }

    method InitStmtSets(c: Client, s: Stmt)
      requires Ready() && HasId(s)
      modifies `gen, `kill
      ensures Store(gen, kill) == InitStmt(c, vars, s, old(Store(gen, kill)))
    {
      hide AllBits;
      hide IsList;
      hide Find;
      match c {
        case LiveVariables =>
          if s.Decl? {
            var v := ListFind(s.id);
            Put(s.id, {}, v);
          } else if s.Spawn? && s.receiver.TheExpr? && s.receiver.e.Id? && s.op == Assign {
            var v := ListFind(s.receiver.e.decl);
            Put(s.id, {}, v);
            Put(s.receiver.e.id, {}, {});
          } else {
            Put(s.id, {}, {});
          }
        case DirtyVariables =>
          Put(s.id, {}, {});
          if s.Decl? && s.init.TheExpr? {
            var v := ListFind(s.id);
            Put(s.id, v, {});
          } else if s.Spawn? {
            var v: set<Bit> := {};
            if s.receiver.TheExpr? && s.receiver.e.Id? {
              v := ListFind(s.receiver.e.decl);
            }
            Put(s.id, v, AllBits());
          }
        case SyncFlow =>
          Put(s.id, if s.Spawn? then {CHILDREN_OUTSTANDING} else {},
                    if s.Sync? || s.Return? then {CHILDREN_OUTSTANDING} else {});
      }
    }

    method Put(n: nat, g: set<Bit>, k: set<Bit>)
      modifies `gen, `kill
      ensures Store(gen, kill) == old(Store(gen, kill)).With(n, g, k)
    {
      gen, kill := gen[n := g], kill[n := k];
    }

    // WalkTree with one of the set-up functions.
    method WalkTree(c: Client, e: Expr)
      requires Ready()
      modifies `gen, `kill
      ensures Store(gen, kill) == WalkExpr(c, vars, e, old(Store(gen, kill)))
    {
      hide InitExpr;
      hide IsList;
      if IsPreorder(c) { InitExprSets(c, e); }
      match e {
        case Binop(_, _, left, right) => WalkTree(c, left); WalkTree(c, right);
        case Unary(_, _, operand) => WalkTree(c, operand);
        case Ternary(_, cond, yes, no) => WalkTree(c, cond); WalkTree(c, yes); WalkTree(c, no);
        case Call(_, name, args) => WalkTree(c, name); WalkTrees(c, args);
        case _ =>
      }
      if !IsPreorder(c) { InitExprSets(c, e); }
    }

    method WalkTrees(c: Client, es: Exprs)
      requires Ready()
      modifies `gen, `kill
      ensures Store(gen, kill) == WalkExprs(c, vars, es, old(Store(gen, kill)))
    {
      match es
      case NoExprs =>
      case MoreExprs(head, tail) => WalkTree(c, head); WalkTrees(c, tail);
    }

    method WalkOptional(c: Client, o: OptExpr)
      requires Ready()
      modifies `gen, `kill
      ensures Store(gen, kill) == WalkOpt(c, vars, o, old(Store(gen, kill)))
    {
      if o.TheExpr? { WalkTree(c, o.e); }
    }

    method WalkStatement(c: Client, s: Stmt)
      requires Ready()
      modifies `gen, `kill
      ensures Store(gen, kill) == WalkStmt(c, vars, s, old(Store(gen, kill)))
      decreases s, 1
    {
      hide InitStmt;
      if IsPreorder(c) && HasId(s) { InitStmtSets(c, s); }
      WalkChildren(c, s);
      if !IsPreorder(c) && HasId(s) { InitStmtSets(c, s); }
    }

    method WalkChildren(c: Client, s: Stmt)
      requires Ready()
      modifies `gen, `kill
      ensures Store(gen, kill) == WalkStmtParts(c, vars, s, old(Store(gen, kill)))
      decreases s, 0, 1
    {
      hide IsList;
      hide WalkExpr;
      hide WalkExprs;
      hide WalkOpt;
      hide WalkStmt;
      match s {
        case Then(first, rest) => WalkStatement(c, first); WalkStatement(c, rest);
        case Eval(e) => WalkTree(c, e);
        case Decl(_, init) => WalkOptional(c, init);
        case Block(_, items) => WalkStatement(c, items);
        case If(_, test, yes, no) => WalkTree(c, test); WalkStatement(c, yes); WalkStatement(c, no);
        case Switch(_, _, _, _) => WalkLoop(c, s);
        case While(_, _, _) => WalkLoop(c, s);
        case Do(_, _, _) => WalkLoop(c, s);
        case For(_, _, _, _, _) => WalkLoop(c, s);
        case Return(_, result) => WalkOptional(c, result);
        case Spawn(_, receiver, _, callee, args) =>
          WalkOptional(c, receiver);
          WalkTree(c, callee);
          WalkTrees(c, args);
        case _ =>
      }
    }

    method WalkLoop(c: Client, s: Stmt)
      requires Ready() && (s.Switch? || s.While? || s.Do? || s.For?)
      modifies `gen, `kill
      ensures Store(gen, kill) == WalkStmtParts(c, vars, s, old(Store(gen, kill)))
      decreases s, 0, 0
    {
      hide IsList;
      hide WalkExpr;
      hide WalkOpt;
      hide WalkStmt;
      match s {
        case Switch(_, _, e, body) => WalkTree(c, e); WalkStatement(c, body);
        case While(_, e, body) => WalkTree(c, e); WalkStatement(c, body);
        case Do(_, body, e) => WalkStatement(c, body); WalkTree(c, e);
        case For(_, start, guard, next, body) =>
          WalkOptionals(c, start, guard, next);
          WalkStatement(c, body);
      }
    }

    method WalkOptionals(c: Client, a: OptExpr, b: OptExpr, d: OptExpr)
      requires Ready()
      modifies `gen, `kill
      ensures Store(gen, kill) == WalkOpt(c, vars, d, WalkOpt(c, vars, b, WalkOpt(c, vars, a, old(Store(gen, kill)))))
    {
      hide IsList;
      hide WalkExpr;
      WalkOptional(c, a);
      WalkOptional(c, b);
      WalkOptional(c, d);
    }

    // The whole walk, from the procedure node.
    method WalkProc(c: Client, p: Proc)
      requires Ready()
      modifies `gen, `kill
      ensures Store(gen, kill) == WalkWhole(c, vars, p, old(Store(gen, kill)))
    {
      if IsPreorder(c) { Put(p.id, {}, {}); }
      WalkStatement(c, p.body);
      if !IsPreorder(c) { Put(p.id, {}, {}); }
    }
  }
}
