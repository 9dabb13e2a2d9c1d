/**
 The bit-vector clients: which events generate and kill which facts, and the transfer
 functions that act on the gen and kill sets stored on the nodes.
 */
module Clients {
  import opened Ast
  import opened FlowValues
  import opened Flow
  import opened Control
  import opened Facts
  import opened Convergence
  import opened Bridge

  // ---------- The facts ----------

  function Fills(ev: Event): set<nat> {
    match ev
    case Set(x) => {x}
    case Spawned(SetBy(x)) => {x}
    case _ => {}
  }

  // x is live: it is read before it is overwritten or declared anew.
  ghost function LiveFact(x: nat): Fact {
    Fact((ev: Event) => ev == Use(x), (ev: Event) => ev == Declare(x) || x in Fills(ev))
  }

  // The register of x may differ from its frame copy: x was written since the last spawn.
  ghost function DirtyFact(x: nat): Fact {
    Fact((ev: Event) => x in Fills(ev) || ev == Update(x) || ev == Spawned(UpdatedBy(x)), (ev: Event) => ev.Spawned?)
  }

  // A child may be outstanding.
  ghost function ChildFact(): Fact {
    Fact((ev: Event) => ev.Spawned?, (ev: Event) => ev == Synced || ev == Returned)
  }

  // Control gets here without returning.
  ghost function ReachFact(): Fact {
    Fact((ev: Event) => false, (ev: Event) => ev == Returned)
  }

  // ---------- Gen and kill sets on nodes ----------

  type BitSets = map<nat, set<Bit>>

  function Look(m: BitSets, n: nat): set<Bit> {
    if n in m then m[n] else {}
  }

  // The bits that ListFind sets: the positions of x in the variable list.
  ghost function Find(vars: seq<nat>, x: nat): set<Bit> {
    set i: Bit | i < |vars| && vars[i] == x
  }

  // What an analysis stores for an event.
  datatype Rule = Rule(gen: Event -> set<Bit>, kill: Event -> set<Bit>)

  // LiveVariables: a use generates; what overwrites or declares the variable kills.
  ghost function LiveRule(vars: seq<nat>): Rule {
    Rule((ev: Event) => if ev.Use? then Find(vars, ev.x) else {},
         (ev: Event) => if ev.Set? || ev.Declare? then Find(vars, ev.x)
               else if ev.Spawned? && ev.r.SetBy? then Find(vars, ev.r.x) else {})
  }

  predicate InWord(i: nat) {
    i < MAX_BITVECTOR_LENGTH
  }

  // TotalSet.
  function AllBits(): set<Bit> {
    set i: nat | 0 <= i < MAX_BITVECTOR_LENGTH && InWord(i) :: i
  }

  // DirtyVariables: a write generates; a spawn saves everything else.
  ghost function DirtyRule(vars: seq<nat>): Rule {
    Rule((ev: Event) => if ev.Set? || ev.Update? then Find(vars, ev.x)
               else if ev.Spawned? && !ev.r.NoReceipt? then Find(vars, ev.r.x) else {},
         (ev: Event) => if ev.Spawned? then AllBits() else {})
  }

  const CHILDREN_OUTSTANDING: Bit := 1

  function ChildRule(): Rule {
    Rule((ev: Event) => if ev.Spawned? then {CHILDREN_OUTSTANDING} else {},
         (ev: Event) => if ev == Synced || ev == Returned then {CHILDREN_OUTSTANDING} else {})
  }

  // R treats bit b as the fact F.
  ghost predicate RuleIs(R: Rule, b: Bit, F: Fact) {
    && (forall ev :: (b in R.gen(ev) <==> F.gen(ev)) && (b in R.kill(ev) <==> F.kill(ev)))
    && !F.gen(Computed) && !F.kill(Computed)
  }

  lemma LiveRuleIs(vars: seq<nat>, b: Bit)
    requires b < |vars|
    ensures RuleIs(LiveRule(vars), b, LiveFact(vars[b]))
  {
  }

  lemma DirtyRuleIs(vars: seq<nat>, b: Bit)
    requires b < |vars|
    ensures RuleIs(DirtyRule(vars), b, DirtyFact(vars[b]))
  {
    assert InWord(b);
  }

  lemma ChildRuleIs()
    ensures RuleIs(ChildRule(), CHILDREN_OUTSTANDING, ChildFact())
  {
  }

  // What the node n does to facts: nothing, or the event.
  datatype Deed = Nothing | Does(ev: Event)

  // Every node of e that the engine visits, with what it does.  The operand of sizeof is
  // not visited, and the variable that a plain assignment overwrites does nothing itself.
  ghost function ExprDeeds(e: Expr): set<(nat, Deed)> {
    match e
    case Const(id, _) => {(id, Nothing)}
    case Id(id, x) => {(id, Does(Use(x)))}
    case Binop(id, op, left, right) =>
      ExprDeeds(right) +
      (if IsPlainTarget(op, left) then {(left.id, Nothing), (id, Does(Set(left.decl)))}
       else ExprDeeds(left) + {(id, if op.OpAssign? && left.Id? then Does(Update(left.decl)) else Nothing)})
    case Unary(id, uop, operand) =>
      if uop.SizeOf? then {(id, Nothing)}
      else ExprDeeds(operand) + {(id, if uop.IncDec? && operand.Id? then Does(Update(operand.decl)) else Nothing)}
    case Ternary(id, cond, yes, no) => ExprDeeds(cond) + ExprDeeds(yes) + ExprDeeds(no) + {(id, Nothing)}
    case Call(id, name, args) => ExprDeeds(name) + ExprsDeeds(args) + {(id, Nothing)}
  }

  ghost function ExprsDeeds(es: Exprs): set<(nat, Deed)> {
    match es
    case NoExprs => {}
    case MoreExprs(head, tail) => ExprDeeds(head) + ExprsDeeds(tail)
  }

  ghost function OptDeeds(o: OptExpr): set<(nat, Deed)> {
    if o.NoExpr? then {} else ExprDeeds(o.e)
  }

  ghost function StmtDeeds(s: Stmt): set<(nat, Deed)> {
    match s
    case Null => {}
    case Then(first, rest) => StmtDeeds(first) + StmtDeeds(rest)
    case Eval(e) => ExprDeeds(e)
    case Decl(id, init) => OptDeeds(init) + {(id, Does(DeclEvent(s)))}
    case Block(id, items) => StmtDeeds(items) + {(id, Nothing)}
    case If(id, test, yes, no) => ExprDeeds(test) + StmtDeeds(yes) + StmtDeeds(no) + {(id, Nothing)}
    case Switch(id, _, subject, body) => ExprDeeds(subject) + StmtDeeds(body) + {(id, Nothing)}
    case While(id, test, body) => ExprDeeds(test) + StmtDeeds(body) + {(id, Nothing)}
    case Do(id, body, test) => ExprDeeds(test) + StmtDeeds(body) + {(id, Nothing)}
    case For(id, start, guard, next, body) =>
      OptDeeds(start) + OptDeeds(guard) + OptDeeds(next) + StmtDeeds(body) + {(id, Nothing)}
    case Return(id, result) => OptDeeds(result) + {(id, Does(Returned))}
    case Spawn(id, receiver, op, callee, args) =>
      (if receiver.TheExpr? && IsPlainTarget(op, receiver.e) then {(receiver.e.id, Nothing)} else OptDeeds(receiver)) +
      ExprDeeds(callee) + ExprsDeeds(args) + {(id, Does(SpawnEvent(s)))}
    case Sync(id) => {(id, Does(Synced))}
    case _ => {(s.id, Nothing)}
  }

  ghost predicate Marked(R: Rule, gen: BitSets, kill: BitSets, n: nat, d: Deed) {
    match d
    case Nothing => Look(gen, n) == {} && Look(kill, n) == {}
    case Does(ev) => Look(gen, n) == R.gen(ev) && Look(kill, n) == R.kill(ev)
  }

  ghost predicate AllMarked(R: Rule, gen: BitSets, kill: BitSets, deeds: set<(nat, Deed)>) {
    forall n, d :: (n, d) in deeds ==> Marked(R, gen, kill, n, d)
  }

  // ---------- The transfer functions ----------

  // TransLV, TransDV and TransSF up to what they record: gen/kill at the exit point.
  function GenKillTrans(gen: BitSets, kill: BitSets): (Node, Point, FlowValue) -> FlowValue {
    (n, p, v) => if p == ExitPoint then GenKill(Look(gen, NodeId(n)), Look(kill, NodeId(n)), v) else v
  }

  function GenKillProblem(p: Proc, init: FlowValue, gen: BitSets, kill: BitSets): Problem {
    Problem(p.id, init, GenKillTrans(gen, kill))
  }

  lemma TransMeaning(gen: BitSets, kill: BitSets, n: Node, pt: Point, v: FlowValue)
    ensures GenKillTrans(gen, kill)(n, pt, v)
         == if pt == ExitPoint then GenKill(Look(gen, NodeId(n)), Look(kill, NodeId(n)), v) else v
  {
  }

  lemma GenKillMonotone(p: Proc, init: FlowValue, gen: BitSets, kill: BitSets)
    ensures Monotone(GenKillProblem(p, init, gen, kill))
  {
    var P := GenKillProblem(p, init, gen, kill);
    forall n, pt, v, w | Le(v, w) ensures Le(P.trans(n, pt, v), P.trans(n, pt, w)) {
      LeMeaning(v, w);
      TransMeaning(gen, kill, n, pt, v);
      TransMeaning(gen, kill, n, pt, w);
      LeMeaning(P.trans(n, pt, v), P.trans(n, pt, w));
    }
  }

  // A marked node acts on bit b as the fact prescribes.
  lemma NodeLike(R: Rule, gen: BitSets, kill: BitSets, b: Bit, F: Fact, P: Problem, n: Node, d: Deed)
    requires RuleIs(R, b, F) && P.trans == GenKillTrans(gen, kill) && Marked(R, gen, kill, NodeId(n), d)
    ensures Passes(P, b, n, EntryPoint)
    ensures d.Nothing? ==> Passes(P, b, n, ExitPoint) && Acts(P, b, F, Computed, n)
    ensures d.Does? ==> Acts(P, b, F, d.ev, n)
  {
    forall v, pt ensures P.trans(n, pt, v) == if pt == ExitPoint then GenKill(Look(gen, NodeId(n)), Look(kill, NodeId(n)), v) else v {
      TransMeaning(gen, kill, n, pt, v);
    }
  }

  lemma {:induction false} ExprNodesLike(R: Rule, gen: BitSets, kill: BitSets, b: Bit, F: Fact, P: Problem, e: Expr)
    requires RuleIs(R, b, F) && P.trans == GenKillTrans(gen, kill) && AllMarked(R, gen, kill, ExprDeeds(e))
    ensures NodesLike(P, b, F, e)
  {
    hide Passes;
    hide Acts;
    hide Marked;
    hide RuleIs;
    var n := ExprNode(e);
    match e
    case Const(id, _) => NodeLike(R, gen, kill, b, F, P, n, Nothing);
    case Id(id, x) => NodeLike(R, gen, kill, b, F, P, n, Does(Use(x)));
    case Binop(id, op, left, right) =>
      ExprNodesLike(R, gen, kill, b, F, P, right);
      if IsPlainTarget(op, left) {
        NodeLike(R, gen, kill, b, F, P, ExprNode(left), Nothing);
        NodeLike(R, gen, kill, b, F, P, n, Does(Set(left.decl)));
      } else {
        ExprNodesLike(R, gen, kill, b, F, P, left);
        NodeLike(R, gen, kill, b, F, P, n, if op.OpAssign? && left.Id? then Does(Update(left.decl)) else Nothing);
      }
    case Unary(id, uop, operand) =>
      if uop.SizeOf? {
        NodeLike(R, gen, kill, b, F, P, n, Nothing);
      } else {
        ExprNodesLike(R, gen, kill, b, F, P, operand);
        NodeLike(R, gen, kill, b, F, P, n, if uop.IncDec? && operand.Id? then Does(Update(operand.decl)) else Nothing);
      }
    case Ternary(id, cond, yes, no) =>
      ExprNodesLike(R, gen, kill, b, F, P, cond);
      ExprNodesLike(R, gen, kill, b, F, P, yes);
      ExprNodesLike(R, gen, kill, b, F, P, no);
      NodeLike(R, gen, kill, b, F, P, n, Nothing);
    case Call(id, name, args) =>
      ExprNodesLike(R, gen, kill, b, F, P, name);
      ExprsNodesLike(R, gen, kill, b, F, P, args);
      NodeLike(R, gen, kill, b, F, P, n, Nothing);
  }

  lemma {:induction false} ExprsNodesLike(R: Rule, gen: BitSets, kill: BitSets, b: Bit, F: Fact, P: Problem, es: Exprs)
    requires RuleIs(R, b, F) && P.trans == GenKillTrans(gen, kill) && AllMarked(R, gen, kill, ExprsDeeds(es))
    ensures AllNodesLike(P, b, F, es)
  {
    match es
    case NoExprs =>
    case MoreExprs(head, tail) =>
      ExprNodesLike(R, gen, kill, b, F, P, head);
      ExprsNodesLike(R, gen, kill, b, F, P, tail);
  }

  lemma ExprLike(R: Rule, gen: BitSets, kill: BitSets, b: Bit, F: Fact, P: Problem, e: Expr)
    requires RuleIs(R, b, F) && P.trans == GenKillTrans(gen, kill) && AllMarked(R, gen, kill, ExprDeeds(e))
    ensures LikeExpr(P, b, F, e)
  {
    ExprNodesLike(R, gen, kill, b, F, P, e);
    NodesMean(P, b, F, e);
  }

  lemma OptLike(R: Rule, gen: BitSets, kill: BitSets, b: Bit, F: Fact, P: Problem, o: OptExpr)
    requires RuleIs(R, b, F) && P.trans == GenKillTrans(gen, kill) && AllMarked(R, gen, kill, OptDeeds(o))
    ensures LikeOpt(P, b, F, o)
  {
    if o.TheExpr? { ExprLike(R, gen, kill, b, F, P, o.e); }
  }

  lemma OperandsLike(R: Rule, gen: BitSets, kill: BitSets, b: Bit, F: Fact, P: Problem, s: Stmt)
    requires RuleIs(R, b, F) && P.trans == GenKillTrans(gen, kill) && AllMarked(R, gen, kill, StmtDeeds(s)) && s.Spawn?
    ensures LikeOperands(P, b, F, s)
  {
    hide Passes;
    hide Acts;
    hide Marked;
    hide RuleIs;
    hide NodesLike;
    if s.receiver.TheExpr? {
      if IsPlainTarget(s.op, s.receiver.e) {
        NodeLike(R, gen, kill, b, F, P, ExprNode(s.receiver.e), Nothing);
      } else {
        ExprNodesLike(R, gen, kill, b, F, P, s.receiver.e);
      }
    }
    ExprNodesLike(R, gen, kill, b, F, P, s.callee);
    ExprsNodesLike(R, gen, kill, b, F, P, s.args);
    OperandsMean(P, b, F, s);
  }

  /** Gen and kill sets that follow the rule make the client like the fact on the whole tree. */
  lemma {:induction false} StmtLike(R: Rule, gen: BitSets, kill: BitSets, b: Bit, F: Fact, P: Problem, s: Stmt)
    requires RuleIs(R, b, F) && P.trans == GenKillTrans(gen, kill) && AllMarked(R, gen, kill, StmtDeeds(s))
    ensures LikeStmt(P, b, F, s)
  {
    hide Passes;
    hide Acts;
    hide Marked;
    hide RuleIs;
    hide LikeExpr;
    hide ExprDeeds;
    var n := StmtNode(s);
    if HasId(s) {
      NodeLike(R, gen, kill, b, F, P, n,
               if s.Decl? then Does(DeclEvent(s)) else if s.Return? then Does(Returned)
               else if s.Spawn? then Does(SpawnEvent(s)) else if s.Sync? then Does(Synced) else Nothing);
    }
    match s
    case Then(first, rest) => StmtLike(R, gen, kill, b, F, P, first); StmtLike(R, gen, kill, b, F, P, rest);
    case Eval(e) => ExprLike(R, gen, kill, b, F, P, e);
    case Decl(_, init) => OptLike(R, gen, kill, b, F, P, init);
    case Block(_, items) => StmtLike(R, gen, kill, b, F, P, items);
    case If(_, test, yes, no) =>
      ExprLike(R, gen, kill, b, F, P, test);
      StmtLike(R, gen, kill, b, F, P, yes);
      StmtLike(R, gen, kill, b, F, P, no);
    case Switch(_, _, subject, body) => ExprLike(R, gen, kill, b, F, P, subject); StmtLike(R, gen, kill, b, F, P, body);
    case While(_, test, body) => ExprLike(R, gen, kill, b, F, P, test); StmtLike(R, gen, kill, b, F, P, body);
    case Do(_, body, test) => ExprLike(R, gen, kill, b, F, P, test); StmtLike(R, gen, kill, b, F, P, body);
    case For(_, start, guard, next, body) =>
      OptLike(R, gen, kill, b, F, P, start);
      OptLike(R, gen, kill, b, F, P, guard);
      OptLike(R, gen, kill, b, F, P, next);
      StmtLike(R, gen, kill, b, F, P, body);
    case Return(_, result) => OptLike(R, gen, kill, b, F, P, result);
    case Spawn(_, receiver, op, callee, args) =>
      OperandsLike(R, gen, kill, b, F, P, s);
    case _ =>
  }

  lemma ProcLike(R: Rule, gen: BitSets, kill: BitSets, b: Bit, F: Fact, p: Proc, init: FlowValue)
    requires RuleIs(R, b, F) && AllMarked(R, gen, kill, StmtDeeds(p.body) + {(p.id, Nothing)})
    ensures LikeProc(GenKillProblem(p, init, gen, kill), b, F, p, Has(init, b))
  {
    var P := GenKillProblem(p, init, gen, kill);
    StmtLike(R, gen, kill, b, F, P, p.body);
    NodeLike(R, gen, kill, b, F, P, ProcNode(p), Nothing);
  }
}
