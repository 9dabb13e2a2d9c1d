/**
 Live variables at the exits of expression nodes.
 */
module InnerLive {
  import opened Ast
  import opened FlowValues
  import opened Flow
  import opened Inner
  import opened Convergence
  import opened Control
  import opened Facts
  import opened Bridge
  import opened InnerBridge
  import opened InnerExact
  import opened Clients
  import opened Walks
  import opened PassValues
  import opened Results
  import opened Analyses

  // ---------- The client is like the fact at every node ----------

  lemma OptNodes(R: Rule, gen: BitSets, kill: BitSets, b: Bit, F: Fact, P: Problem, o: OptExpr)
    requires RuleIs(R, b, F) && P.trans == GenKillTrans(gen, kill) && AllMarked(R, gen, kill, OptDeeds(o))
    ensures OptNodesLike(P, b, F, o)
  {
    if o.TheExpr? { ExprNodesLike(R, gen, kill, b, F, P, o.e); }
  }

  lemma {:induction false} StmtInnerLike(R: Rule, gen: BitSets, kill: BitSets, b: Bit, F: Fact, P: Problem, s: Stmt)
    requires RuleIs(R, b, F) && P.trans == GenKillTrans(gen, kill) && AllMarked(R, gen, kill, StmtDeeds(s))
    ensures InnerLike(P, b, F, s)
  {
    hide Marked;
    hide RuleIs;
    hide NodesLike;
    hide OptNodesLike;
    hide OptDeeds;
    hide ExprDeeds;
    match s
    case Then(first, rest) => StmtInnerLike(R, gen, kill, b, F, P, first); StmtInnerLike(R, gen, kill, b, F, P, rest);
    case Eval(e) => ExprNodesLike(R, gen, kill, b, F, P, e);
    case Decl(_, init) => OptNodes(R, gen, kill, b, F, P, init);
    case Block(_, items) => StmtInnerLike(R, gen, kill, b, F, P, items);
    case If(_, test, yes, no) =>
      ExprNodesLike(R, gen, kill, b, F, P, test);
      StmtInnerLike(R, gen, kill, b, F, P, yes);
      StmtInnerLike(R, gen, kill, b, F, P, no);
    case Switch(_, _, subject, body) =>
      ExprNodesLike(R, gen, kill, b, F, P, subject);
      StmtInnerLike(R, gen, kill, b, F, P, body);
    case While(_, test, body) => ExprNodesLike(R, gen, kill, b, F, P, test); StmtInnerLike(R, gen, kill, b, F, P, body);
    case Do(_, body, test) => ExprNodesLike(R, gen, kill, b, F, P, test); StmtInnerLike(R, gen, kill, b, F, P, body);
    case For(_, start, guard, next, body) =>
      OptNodes(R, gen, kill, b, F, P, start);
      OptNodes(R, gen, kill, b, F, P, guard);
      OptNodes(R, gen, kill, b, F, P, next);
      StmtInnerLike(R, gen, kill, b, F, P, body);
    case Return(_, result) => OptNodes(R, gen, kill, b, F, P, result);
    case Spawn(_, receiver, op, callee, args) =>
      if receiver.TheExpr? && IsPlainTarget(op, receiver.e) {
        NodeLike(R, gen, kill, b, F, P, ExprNode(receiver.e), Nothing);
      } else {
        OptNodes(R, gen, kill, b, F, P, receiver);
      }
      ExprNodesLike(R, gen, kill, b, F, P, callee);
      ExprsNodesLike(R, gen, kill, b, F, P, args);
    case _ =>
  }

  // ---------- Every value that is shown has a property of the pass ----------

  ghost predicate AllShownIn(Z: Property, shown: set<Visit>) {
    forall x {:trigger x in shown} :: x in shown ==> Z(x.value)
  }

  ghost predicate ExprKeeps(Z: Property, P: Problem, e: Expr) {
    forall v, shown {:trigger InnerExpr(P, e, v, shown)} :: Z(v) && AllShownIn(Z, shown) ==> AllShownIn(Z, InnerExpr(P, e, v, shown))
  }

  lemma {:induction false} InnerExprStaysIn(Z: Property, P: Problem, e: Expr)
    requires Closed(Z, P)
    ensures ExprKeeps(Z, P, e)
  {
    match e {
      case Const(_, _) | Id(_, _) =>
      case Binop(_, _, left, right) => InnerExprStaysIn(Z, P, left); InnerExprStaysIn(Z, P, right);
      case Unary(_, _, operand) => InnerExprStaysIn(Z, P, operand);
      case Ternary(_, cond, yes, no) => InnerExprStaysIn(Z, P, cond); InnerExprStaysIn(Z, P, yes); InnerExprStaysIn(Z, P, no);
      case Call(_, name, args) => InnerExprStaysIn(Z, P, name); InnerExprsStayIn(Z, P, args);
    }
    forall v, shown | Z(v) && AllShownIn(Z, shown) ensures AllShownIn(Z, InnerExpr(P, e, v, shown)) {
      var s := shown + {Visit(e.id, ExitPoint, v)};
      assert AllShownIn(Z, s);
      hide AllShownIn;
      match e
      case Binop(_, _, left, right) => ExprStaysIn(Z, P, right);
      case Ternary(_, cond, yes, no) => ExprStaysIn(Z, P, yes); ExprStaysIn(Z, P, no);
      case Call(_, name, args) => ExprsStayIn(Z, P, args);
      case _ =>
    }
  }

  lemma {:induction false} InnerExprsStayIn(Z: Property, P: Problem, es: Exprs)
    requires Closed(Z, P)
    ensures forall v, shown {:trigger InnerExprs(P, es, v, shown)} ::
      Z(v) && AllShownIn(Z, shown) ==> AllShownIn(Z, InnerExprs(P, es, v, shown))
  {
    hide AllShownIn;
    if es.MoreExprs? {
      InnerExprStaysIn(Z, P, es.head);
      InnerExprsStayIn(Z, P, es.tail);
      ExprsStayIn(Z, P, es.tail);
    }
  }

  lemma InnerOptStaysIn(Z: Property, P: Problem, o: OptExpr)
    requires Closed(Z, P)
    ensures forall v, shown {:trigger InnerOpt(P, o, v, shown)} ::
      Z(v) && AllShownIn(Z, shown) ==> AllShownIn(Z, InnerOpt(P, o, v, shown))
  {
    if o.TheExpr? { InnerExprStaysIn(Z, P, o.e); }
  }

  ghost predicate StmtKeeps(Z: Property, P: Problem, s: Stmt) {
    forall v, st, shown {:trigger InnerStmt(P, s, v, st, shown)} ::
      Z(v) && AllIn(Z, st) && AllShownIn(Z, shown) ==> AllShownIn(Z, InnerStmt(P, s, v, st, shown))
  }

  lemma InnerContainerStaysIn(Z: Property, P: Problem, s: Stmt, v: FlowValue, st: State, shown: set<Visit>)
    requires s.Switch? || s.While? || s.Do? || s.For?
    requires Closed(Z, P) && StmtKeeps(Z, P, s.body) && StaysIn(Z, P, s.body) && Z(v) && AllIn(Z, st) && AllShownIn(Z, shown)
    ensures s.Switch? ==> AllShownIn(Z, InnerSwitch(P, s, v, st, shown))
    ensures s.While? ==> AllShownIn(Z, InnerWhile(P, s, v, st, shown))
    ensures s.Do? ==> AllShownIn(Z, InnerDo(P, s, v, st, shown))
    ensures s.For? ==> AllShownIn(Z, InnerFor(P, s, v, st, shown))
  {
    hide AllIn;
    hide AllShownIn;
    FlowStaysIn(Z, P);
    match s
    case Switch(_, _, subject, _) => InnerExprStaysIn(Z, P, subject);
    case While(_, test, _) => InnerExprStaysIn(Z, P, test);
    case Do(_, _, test) => InnerExprStaysIn(Z, P, test); ExprStaysIn(Z, P, test);
    case For(_, start, guard, next, _) =>
      InnerOptStaysIn(Z, P, start);
      InnerOptStaysIn(Z, P, guard);
      InnerOptStaysIn(Z, P, next);
      OptStaysIn(Z, P, guard);
      OptStaysIn(Z, P, next);
  }

  lemma InnerOnceStaysIn(Z: Property, P: Problem, s: Stmt, v: FlowValue, st: State, shown: set<Visit>)
    requires Closed(Z, P) && Z(v) && AllIn(Z, st) && AllShownIn(Z, shown)
    requires s.Then? ==> StmtKeeps(Z, P, s.first) && StmtKeeps(Z, P, s.rest) && StaysIn(Z, P, s.rest)
    requires s.Block? ==> StmtKeeps(Z, P, s.items)
    requires s.If? ==> StmtKeeps(Z, P, s.yes) && StmtKeeps(Z, P, s.no) && StaysIn(Z, P, s.yes) && StaysIn(Z, P, s.no)
    requires s.Switch? || s.While? || s.Do? || s.For? ==> StmtKeeps(Z, P, s.body) && StaysIn(Z, P, s.body)
    ensures AllShownIn(Z, InnerStmt(P, s, v, st, shown))
  {
    hide AllIn;
    hide AllShownIn;
    hide InnerSwitch;
    hide InnerWhile;
    hide InnerDo;
    hide InnerFor;
    FlowStaysIn(Z, P);
    match s
    case Eval(e) => InnerExprStaysIn(Z, P, e);
    case Decl(_, init) => InnerOptStaysIn(Z, P, init);
    case Return(_, result) => InnerOptStaysIn(Z, P, result);
    case If(_, test, _, _) => InnerExprStaysIn(Z, P, test);
    case Spawn(_, receiver, _, callee, args) =>
      InnerOptStaysIn(Z, P, receiver);
      InnerExprStaysIn(Z, P, callee);
      InnerExprsStayIn(Z, P, args);
      ExprStaysIn(Z, P, callee);
      ExprsStayIn(Z, P, args);
    case Switch(_, _, _, _) => InnerContainerStaysIn(Z, P, s, v, RecordAt(st, StmtNode(s), ExitPoint, v), shown);
    case While(_, _, _) => InnerContainerStaysIn(Z, P, s, v, RecordAt(st, StmtNode(s), ExitPoint, v), shown);
    case Do(_, _, _) => InnerContainerStaysIn(Z, P, s, v, RecordAt(st, StmtNode(s), ExitPoint, v), shown);
    case For(_, _, _, _, _) => InnerContainerStaysIn(Z, P, s, v, RecordAt(st, StmtNode(s), ExitPoint, v), shown);
    case _ =>
  }

  lemma {:induction false} InnerStmtStaysIn(Z: Property, P: Problem, s: Stmt)
    requires Closed(Z, P)
    ensures StmtKeeps(Z, P, s)
  {
    hide AllIn;
    hide AllShownIn;
    hide Closed;
    match s {
      case Then(first, rest) => InnerStmtStaysIn(Z, P, first); InnerStmtStaysIn(Z, P, rest); BackwardStaysIn(Z, P, rest);
      case Block(_, items) => InnerStmtStaysIn(Z, P, items);
      case If(_, _, yes, no) =>
        InnerStmtStaysIn(Z, P, yes);
        InnerStmtStaysIn(Z, P, no);
        BackwardStaysIn(Z, P, yes);
        BackwardStaysIn(Z, P, no);
      case Switch(_, _, _, body) => InnerStmtStaysIn(Z, P, body); BackwardStaysIn(Z, P, body);
      case While(_, _, body) => InnerStmtStaysIn(Z, P, body); BackwardStaysIn(Z, P, body);
      case Do(_, body, _) => InnerStmtStaysIn(Z, P, body); BackwardStaysIn(Z, P, body);
      case For(_, _, _, _, body) => InnerStmtStaysIn(Z, P, body); BackwardStaysIn(Z, P, body);
      case _ =>
    }
    forall v, st, shown | Z(v) && AllIn(Z, st) && AllShownIn(Z, shown) ensures AllShownIn(Z, InnerStmt(P, s, v, st, shown)) {
      InnerOnceStaysIn(Z, P, s, v, st, shown);
    }
  }

  // ---------- Live variables ----------

  // What AnalyzeLV shows inside expressions.
  ghost function InnerLV(p: Proc, chunk: seq<nat>, m: Marks): set<Visit>
    requires JumpsInside(p)
  {
    FinalInner(LiveProblem(p, chunk, m), p, m.cells)
  }

  // The variables that AnalyzeLiveVariables records at the expression node n.
  ghost function ExprLiveVars(p: Proc, chunks: seq<seq<nat>>, m: Marks, n: nat): set<nat>
    requires JumpsInside(p)
  {
    if chunks == [] then {}
    else Selected(chunks[0], RawBits(InnerLV(p, chunks[0], m), n)) + ExprLiveVars(p, chunks[1..], AfterLV(p, chunks[0], m), n)
  }

  lemma InnerClean(p: Proc, chunk: seq<nat>, m: Marks)
    requires JumpsInside(p) && StaleFree(p, m.cells)
    ensures AllShownIn(Clean, InnerLV(p, chunk, m))
  {
    hide InnerStmt;
    var P := LiveProblem(p, chunk, m);
    var r := LiveSets(p, chunk, m);
    var st := State(AfterLV(p, chunk, m).cells, false, true, {});
    forall c ensures Clean(Get(st.cells, c)) {
      EndFlags(p, r.gen, r.kill, m.cells, c);
    }
    CleanIsClosed(p, r.gen, r.kill);
    InnerStmtStaysIn(Clean, P, p.body);
    FlowStaysIn(Clean, P);
    assert AllIn(Clean, RecordAt(st, ProcNode(p), ExitPoint, P.init));
    assert AllShownIn(Clean, {});
  }

  lemma RawIsShownInside(V: set<Visit>, n: nat, b: Bit)
    requires AllShownIn(Clean, V)
    ensures b in RawBits(V, n) <==> n in ShownIds(V, b)
  {
    if b in RawBits(V, n) {
      var x :| x in V && x.node == n && x.point == ExitPoint && b in x.value.bits;
      assert Has(x.value, b);
    }
    if n in ShownIds(V, b) {
      var x :| x in V && x.point == ExitPoint && Has(x.value, b) && x.node == n;
    }
  }

  lemma InnerBitExact(p: Proc, chunk: seq<nat>, m: Marks, n: nat, i: Bit)
    requires Analyzable(p) && ReadyForLive(p, m) && StaleFree(p, m.cells) && i < |chunk|
    ensures i in RawBits(InnerLV(p, chunk, m), n) <==> LiveInside(LiveFact(chunk[i]), p, n)
  {
    hide LiveInside;
    hide FinalInner;
    hide RawBits;
    hide ShownIds;
    var r := LiveSets(p, chunk, m);
    var P := LiveProblem(p, chunk, m);
    var F := LiveFact(chunk[i]);
    TreeIsWellFormed(p);
    LiveMarked(p, chunk, m);
    LiveRuleIs(chunk, i);
    ProcLike(LiveRule(chunk), r.gen, r.kill, i, F, p, EmptySet);
    StmtInnerLike(LiveRule(chunk), r.gen, r.kill, i, F, P, p.body);
    InnerAnalysisExact(P, i, F, p, m.cells, n);
    InnerClean(p, chunk, m);
    RawIsShownInside(InnerLV(p, chunk, m), n, i);
  }

  /** The live variables recorded at an expression node are exactly the variables with an
      evaluation that goes on from its exit to a use that no kill precedes. */
  lemma {:induction false} ExprLiveVarsExact(p: Proc, chunks: seq<seq<nat>>, m: Marks, n: nat, x: nat)
    requires Analyzable(p) && ReadyForLive(p, m) && StaleFree(p, m.cells) && InWords(chunks)
    ensures x in ExprLiveVars(p, chunks, m, n) <==> InSome(chunks, x) && LiveInside(LiveFact(x), p, n)
  {
    hide LiveInside;
    hide FinalInner;
    if chunks != [] {
      var V := InnerLV(p, chunks[0], m);
      forall i: Bit | i < |chunks[0]| ensures i in RawBits(V, n) <==> LiveInside(LiveFact(chunks[0][i]), p, n) {
        InnerBitExact(p, chunks[0], m, n, i);
      }
      if x in chunks[0] && LiveInside(LiveFact(x), p, n) {
        var i :| 0 <= i < |chunks[0]| && chunks[0][i] == x;
        assert i in RawBits(V, n);
      }
      StaysReady(p, chunks[0], m);
      ExprLiveVarsExact(p, chunks[1..], AfterLV(p, chunks[0], m), n, x);
      InSomeSplit(chunks, x);
    }
  }

  lemma AnalyzeExprLiveExact(p: Proc, vars: seq<nat>, n: nat, x: nat)
    requires Analyzable(p)
    ensures x in ExprLiveVars(p, Chunks(vars), Unmarked, n) <==> x in vars && LiveInside(LiveFact(x), p, n)
  {
    hide LiveInside;
    ChunksCover(vars, x);
    UnmarkedIsStaleFree(p);
    ExprLiveVarsExact(p, Chunks(vars), Unmarked, n, x);
  }
}
