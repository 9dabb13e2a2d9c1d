/**
 A pass that starts below a solution of the equations of a fact stays below it.
 */
module Bounds {
  import opened Ast
  import opened FlowValues
  import opened Flow
  import opened Control
  import opened Facts
  import opened BackwardPaths
  import opened ForwardPaths
  import opened Bridge

  // The bit is set in no cell of W outside c, and shown at no exit without its mark in c.
  ghost predicate Below(c: set<Cell>, b: Bit, W: set<Cell>, st: State) {
    && (forall x: Cell :: x in W && Has(Get(st.cells, x), b) ==> x in c)
    && (forall n, v :: Visit(n, ExitPoint, v) in st.visits && Has(v, b) ==> Cell(n, ExitMark) in c)
  }

  lemma FlowBelow(c: set<Cell>, b: Bit, W: set<Cell>)
    ensures forall st: State, x: Cell, v {:trigger FlowInto(st, x, v)} ::
      x in W && Below(c, b, W, st) && (Has(v, b) ==> x in c) ==>
        Below(c, b, W, FlowInto(st, x, v).0) && (Has(FlowInto(st, x, v).1, b) ==> x in c)
  {
  }

  // A pass over s from below, entered with no more than i, ends below and yields no more than the equations.
  ghost predicate ForwardBound(P: Problem, b: Bit, F: Fact, p: Proc, s: Stmt, c: set<Cell>, W: set<Cell>, v: FlowValue, st: State, i: bool) {
    Below(c, b, W, st) && (Has(v, b) ==> i) && AfterOk(F, p, c, s, i) ==>
      Below(c, b, W, Forward(P, s, v, st).0) && (Has(Forward(P, s, v, st).1, b) ==> AfterStmt(F, c, s, i))
  }

  ghost predicate ForwardBounded(P: Problem, b: Bit, F: Fact, p: Proc, s: Stmt, c: set<Cell>, W: set<Cell>) {
    forall v, st {:trigger Forward(P, s, v, st)} ::
      ForwardBound(P, b, F, p, s, c, W, v, st, false) && ForwardBound(P, b, F, p, s, c, W, v, st, true)
  }

  lemma ForwardBoundOf(P: Problem, b: Bit, F: Fact, p: Proc, s: Stmt, c: set<Cell>, W: set<Cell>, v: FlowValue, st: State, i: bool)
    requires ForwardBounded(P, b, F, p, s, c, W)
    ensures ForwardBound(P, b, F, p, s, c, W, v, st, i)
  {
    var r := Forward(P, s, v, st);
  }

  lemma ForwardSwitchBounded(P: Problem, b: Bit, F: Fact, p: Proc, s: Stmt, c: set<Cell>, W: set<Cell>, v: FlowValue, st: State, i: bool)
    requires s.Switch? && P.proc == p.id && LikeStmt(P, b, F, s) && CellsWritten(p.id, s) <= W && ForwardBounded(P, b, F, p, s.body, c, W)
    requires Below(c, b, W, st) && (Has(v, b) ==> i) && AfterOk(F, p, c, s, i)
    ensures Below(c, b, W, ForwardSwitch(P, s, v, st).0) && (Has(ForwardSwitch(P, s, v, st).1, b) ==> AfterStmt(F, c, s, i))
  {
    hide AfterExpr;
    hide Across;
    FlowBelow(c, b, W);
    ForwardExprBit(P, b, F, s.subject);
    ExprGrows(F, s.subject);
  }

  lemma ForwardWhileBounded(P: Problem, b: Bit, F: Fact, p: Proc, s: Stmt, c: set<Cell>, W: set<Cell>, v: FlowValue, st: State, i: bool)
    requires s.While? && P.proc == p.id && LikeStmt(P, b, F, s) && CellsWritten(p.id, s) <= W && ForwardBounded(P, b, F, p, s.body, c, W)
    requires Below(c, b, W, st) && (Has(v, b) ==> i) && AfterOk(F, p, c, s, i)
    ensures Below(c, b, W, ForwardWhile(P, s, v, st).0) && (Has(ForwardWhile(P, s, v, st).1, b) ==> AfterStmt(F, c, s, i))
  {
    hide AfterExpr;
    hide Across;
    FlowBelow(c, b, W);
    ForwardExprBit(P, b, F, s.test);
    ExprGrows(F, s.test);
  }

  lemma ForwardDoBounded(P: Problem, b: Bit, F: Fact, p: Proc, s: Stmt, c: set<Cell>, W: set<Cell>, v: FlowValue, st: State, i: bool)
    requires s.Do? && P.proc == p.id && LikeStmt(P, b, F, s) && CellsWritten(p.id, s) <= W && ForwardBounded(P, b, F, p, s.body, c, W)
    requires Below(c, b, W, st) && (Has(v, b) ==> i) && AfterOk(F, p, c, s, i)
    ensures Below(c, b, W, ForwardDo(P, s, v, st).0) && (Has(ForwardDo(P, s, v, st).1, b) ==> AfterStmt(F, c, s, i))
  {
    hide AfterExpr;
    hide Across;
    FlowBelow(c, b, W);
    ForwardExprBit(P, b, F, s.test);
    ExprGrows(F, s.test);
  }

  lemma ForwardForBounded(P: Problem, b: Bit, F: Fact, p: Proc, s: Stmt, c: set<Cell>, W: set<Cell>, v: FlowValue, st: State, i: bool)
    requires s.For? && P.proc == p.id && LikeStmt(P, b, F, s) && CellsWritten(p.id, s) <= W && ForwardBounded(P, b, F, p, s.body, c, W)
    requires Below(c, b, W, st) && (Has(v, b) ==> i) && AfterOk(F, p, c, s, i)
    ensures Below(c, b, W, ForwardFor(P, s, v, st).0) && (Has(ForwardFor(P, s, v, st).1, b) ==> AfterStmt(F, c, s, i))
  {
    hide AfterExpr;
    hide Across;
    FlowBelow(c, b, W);
    ForwardOptBit(P, b, F, s.start);
    OptGrows(F, s.start);
    ForwardOptBit(P, b, F, s.guard);
    OptGrows(F, s.guard);
    ForwardOptBit(P, b, F, s.next);
    OptGrows(F, s.next);
  }

  lemma ForwardThenBounded(P: Problem, b: Bit, F: Fact, p: Proc, s: Stmt, c: set<Cell>, W: set<Cell>, v: FlowValue, st: State, i: bool)
    requires s.Then? && P.proc == p.id && LikeStmt(P, b, F, s) && CellsWritten(p.id, s) <= W
    requires ForwardBounded(P, b, F, p, s.first, c, W) && ForwardBounded(P, b, F, p, s.rest, c, W)
    ensures ForwardBound(P, b, F, p, s, c, W, v, st, i)
  {
    hide Below;
    var (mid, w) := Forward(P, s.first, v, st);
    assert Forward(P, s, v, st) == Forward(P, s.rest, w, mid);
    ForwardBoundOf(P, b, F, p, s.first, c, W, v, st, i);
    ForwardBoundOf(P, b, F, p, s.rest, c, W, w, mid, AfterStmt(F, c, s.first, i));
  }

  lemma ForwardGroupBounded(P: Problem, b: Bit, F: Fact, p: Proc, s: Stmt, c: set<Cell>, W: set<Cell>, v: FlowValue, st: State, i: bool)
    requires (s.Block? || s.If?) && P.proc == p.id && LikeStmt(P, b, F, s) && CellsWritten(p.id, s) <= W
    requires s.Block? ==> ForwardBounded(P, b, F, p, s.items, c, W)
    requires s.If? ==> ForwardBounded(P, b, F, p, s.yes, c, W) && ForwardBounded(P, b, F, p, s.no, c, W)
    ensures ForwardBound(P, b, F, p, s, c, W, v, st, i)
  {
    hide AfterExpr;
    var a := RecordAt(st, StmtNode(s), EntryPoint, v);
    if s.Block? {
      ForwardBoundOf(P, b, F, p, s.items, c, W, EnterStmt(P, s, v), a, i);
    } else {
      ForwardExprBit(P, b, F, s.test);
      ExprGrows(F, s.test);
      var w := ForwardExpr(P, s.test, EnterStmt(P, s, v));
      var j := AfterExpr(F, s.test, i);
      ForwardBoundOf(P, b, F, p, s.yes, c, W, w, a, j);
      ForwardBoundOf(P, b, F, p, s.no, c, W, w, Forward(P, s.yes, w, a).0, j);
    }
  }

  lemma ForwardSpawnBounded(P: Problem, b: Bit, F: Fact, p: Proc, s: Stmt, c: set<Cell>, W: set<Cell>, v: FlowValue, st: State, i: bool)
    requires P.proc == p.id && LikeStmt(P, b, F, s) && CellsWritten(p.id, s) <= W && s.Spawn?
    ensures ForwardBound(P, b, F, p, s, c, W, v, st, i)
  {
    hide AfterExpr;
    hide AfterExprs;
    hide LikeExpr;
    hide LikeOperands;
    ForwardOperandsBit(P, b, F, s);
    OptGrows(F, s.receiver);
    ExprGrows(F, s.callee);
    ExprsGrow(F, s.args);
  }

  lemma ForwardLeafBounded(P: Problem, b: Bit, F: Fact, p: Proc, s: Stmt, c: set<Cell>, W: set<Cell>, v: FlowValue, st: State, i: bool)
    requires P.proc == p.id && LikeStmt(P, b, F, s) && CellsWritten(p.id, s) <= W
    requires !s.Then? && !s.Block? && !s.If? && !s.Switch? && !IsLoop(s) && !s.Spawn?
    ensures ForwardBound(P, b, F, p, s, c, W, v, st, i)
  {
    hide AfterExpr;
    hide AfterExprs;
    hide LikeExpr;
    hide LikeOperands;
    FlowBelow(c, b, W);
    match s
    case Eval(e) => ForwardExprBit(P, b, F, e); ExprGrows(F, e);
    case Decl(_, init) => ForwardOptBit(P, b, F, init); OptGrows(F, init);
    case Return(_, result) => ForwardOptBit(P, b, F, result); OptGrows(F, result);
    case _ =>
  }

  lemma {:induction false} ForwardBounds(P: Problem, b: Bit, F: Fact, p: Proc, s: Stmt, c: set<Cell>, W: set<Cell>)
    requires P.proc == p.id && LikeStmt(P, b, F, s) && CellsWritten(p.id, s) <= W
    ensures ForwardBounded(P, b, F, p, s, c, W)
  {
    hide ForwardBound;
    if s.Then? {
      ForwardBounds(P, b, F, p, s.first, c, W);
      ForwardBounds(P, b, F, p, s.rest, c, W);
    } else if s.Block? {
      ForwardBounds(P, b, F, p, s.items, c, W);
    } else if s.If? {
      ForwardBounds(P, b, F, p, s.yes, c, W);
      ForwardBounds(P, b, F, p, s.no, c, W);
    } else if s.Switch? || IsLoop(s) {
      ForwardBounds(P, b, F, p, s.body, c, W);
    }
    forall v, st ensures ForwardBound(P, b, F, p, s, c, W, v, st, false) && ForwardBound(P, b, F, p, s, c, W, v, st, true) {
      ForwardBoundsOnce(P, b, F, p, s, c, W, v, st, false);
      ForwardBoundsOnce(P, b, F, p, s, c, W, v, st, true);
    }
  }

  lemma ForwardBoundsOnce(P: Problem, b: Bit, F: Fact, p: Proc, s: Stmt, c: set<Cell>, W: set<Cell>, v: FlowValue, st: State, i: bool)
    requires P.proc == p.id && LikeStmt(P, b, F, s) && CellsWritten(p.id, s) <= W
    requires s.Then? ==> ForwardBounded(P, b, F, p, s.first, c, W) && ForwardBounded(P, b, F, p, s.rest, c, W)
    requires s.Block? ==> ForwardBounded(P, b, F, p, s.items, c, W)
    requires s.If? ==> ForwardBounded(P, b, F, p, s.yes, c, W) && ForwardBounded(P, b, F, p, s.no, c, W)
    requires s.Switch? || IsLoop(s) ==> ForwardBounded(P, b, F, p, s.body, c, W)
    ensures ForwardBound(P, b, F, p, s, c, W, v, st, i)
  {
    hide ForwardBounded;
    hide AfterStmt;
    if s.Then? {
      ForwardThenBounded(P, b, F, p, s, c, W, v, st, i);
    } else if s.Block? || s.If? {
      ForwardGroupBounded(P, b, F, p, s, c, W, v, st, i);
    } else if s.Switch? || IsLoop(s) {
      if Below(c, b, W, st) && (Has(v, b) ==> i) && AfterOk(F, p, c, s, i) {
        var a := RecordAt(st, StmtNode(s), EntryPoint, v);
        if s.Switch? {
          ForwardSwitchBounded(P, b, F, p, s, c, W, v, a, i);
        } else if s.While? {
          ForwardWhileBounded(P, b, F, p, s, c, W, v, a, i);
        } else if s.Do? {
          ForwardDoBounded(P, b, F, p, s, c, W, v, a, i);
        } else {
          ForwardForBounded(P, b, F, p, s, c, W, v, a, i);
        }
      }
    } else if s.Spawn? {
      ForwardSpawnBounded(P, b, F, p, s, c, W, v, st, i);
    } else {
      ForwardLeafBounded(P, b, F, p, s, c, W, v, st, i);
    }
  }

  // A pass over s from below, entered with no more than i, ends below and yields no more than the equations.
  ghost predicate BackwardBound(P: Problem, b: Bit, F: Fact, p: Proc, s: Stmt, c: set<Cell>, W: set<Cell>, v: FlowValue, st: State, i: bool) {
    Below(c, b, W, st) && (Has(v, b) ==> i) && BeforeOk(F, c, s, i) ==>
      Below(c, b, W, Backward(P, s, v, st).0) && (Has(Backward(P, s, v, st).1, b) ==> BeforeStmt(F, c, s, i))
  }

  ghost predicate BackwardBounded(P: Problem, b: Bit, F: Fact, p: Proc, s: Stmt, c: set<Cell>, W: set<Cell>) {
    forall v, st {:trigger Backward(P, s, v, st)} ::
      BackwardBound(P, b, F, p, s, c, W, v, st, false) && BackwardBound(P, b, F, p, s, c, W, v, st, true)
  }

  lemma BackwardBoundOf(P: Problem, b: Bit, F: Fact, p: Proc, s: Stmt, c: set<Cell>, W: set<Cell>, v: FlowValue, st: State, i: bool)
    requires BackwardBounded(P, b, F, p, s, c, W)
    ensures BackwardBound(P, b, F, p, s, c, W, v, st, i)
  {
    var r := Backward(P, s, v, st);
  }

  lemma BackwardSwitchBounded(P: Problem, b: Bit, F: Fact, p: Proc, s: Stmt, c: set<Cell>, W: set<Cell>, v: FlowValue, st: State, i: bool)
    requires s.Switch? && P.proc == p.id && LikeStmt(P, b, F, s) && CellsWritten(p.id, s) <= W && !Has(P.init, b) && BackwardBounded(P, b, F, p, s.body, c, W)
    requires Below(c, b, W, st) && (Has(v, b) ==> i) && BeforeOk(F, c, s, i)
    ensures Below(c, b, W, BackwardSwitch(P, s, v, st).0) && (Has(BackwardSwitch(P, s, v, st).1, b) ==> BeforeStmt(F, c, s, i))
  {
    hide BeforeExpr;
    hide Across;
    FlowBelow(c, b, W);
    BackwardExprBit(P, b, F, s.subject);
    ExprGrows(F, s.subject);
  }

  lemma BackwardWhileBounded(P: Problem, b: Bit, F: Fact, p: Proc, s: Stmt, c: set<Cell>, W: set<Cell>, v: FlowValue, st: State, i: bool)
    requires s.While? && P.proc == p.id && LikeStmt(P, b, F, s) && CellsWritten(p.id, s) <= W && !Has(P.init, b) && BackwardBounded(P, b, F, p, s.body, c, W)
    requires Below(c, b, W, st) && (Has(v, b) ==> i) && BeforeOk(F, c, s, i)
    ensures Below(c, b, W, BackwardWhile(P, s, v, st).0) && (Has(BackwardWhile(P, s, v, st).1, b) ==> BeforeStmt(F, c, s, i))
  {
    hide BeforeExpr;
    hide Across;
    FlowBelow(c, b, W);
    BackwardExprBit(P, b, F, s.test);
    ExprGrows(F, s.test);
  }

  lemma BackwardDoBounded(P: Problem, b: Bit, F: Fact, p: Proc, s: Stmt, c: set<Cell>, W: set<Cell>, v: FlowValue, st: State, i: bool)
    requires s.Do? && P.proc == p.id && LikeStmt(P, b, F, s) && CellsWritten(p.id, s) <= W && !Has(P.init, b) && BackwardBounded(P, b, F, p, s.body, c, W)
    requires Below(c, b, W, st) && (Has(v, b) ==> i) && BeforeOk(F, c, s, i)
    ensures Below(c, b, W, BackwardDo(P, s, v, st).0) && (Has(BackwardDo(P, s, v, st).1, b) ==> BeforeStmt(F, c, s, i))
  {
    hide BeforeExpr;
    hide Across;
    FlowBelow(c, b, W);
    BackwardExprBit(P, b, F, s.test);
    ExprGrows(F, s.test);
  }

  lemma BackwardForBounded(P: Problem, b: Bit, F: Fact, p: Proc, s: Stmt, c: set<Cell>, W: set<Cell>, v: FlowValue, st: State, i: bool)
    requires s.For? && P.proc == p.id && LikeStmt(P, b, F, s) && CellsWritten(p.id, s) <= W && !Has(P.init, b) && BackwardBounded(P, b, F, p, s.body, c, W)
    requires Below(c, b, W, st) && (Has(v, b) ==> i) && BeforeOk(F, c, s, i)
    ensures Below(c, b, W, BackwardFor(P, s, v, st).0) && (Has(BackwardFor(P, s, v, st).1, b) ==> BeforeStmt(F, c, s, i))
  {
    hide BeforeExpr;
    hide Across;
    FlowBelow(c, b, W);
    BackwardOptBit(P, b, F, s.start);
    OptGrows(F, s.start);
    BackwardOptBit(P, b, F, s.guard);
    OptGrows(F, s.guard);
    BackwardOptBit(P, b, F, s.next);
    OptGrows(F, s.next);
  }

  lemma BackwardThenBounded(P: Problem, b: Bit, F: Fact, p: Proc, s: Stmt, c: set<Cell>, W: set<Cell>, v: FlowValue, st: State, i: bool)
    requires s.Then? && P.proc == p.id && LikeStmt(P, b, F, s) && CellsWritten(p.id, s) <= W && !Has(P.init, b)
    requires BackwardBounded(P, b, F, p, s.first, c, W) && BackwardBounded(P, b, F, p, s.rest, c, W)
    ensures BackwardBound(P, b, F, p, s, c, W, v, st, i)
  {
    hide Below;
    var (mid, w) := Backward(P, s.rest, v, st);
    assert Backward(P, s, v, st) == Backward(P, s.first, w, mid);
    BackwardBoundOf(P, b, F, p, s.rest, c, W, v, st, i);
    BackwardBoundOf(P, b, F, p, s.first, c, W, w, mid, BeforeStmt(F, c, s.rest, i));
  }

  lemma BackwardGroupBounded(P: Problem, b: Bit, F: Fact, p: Proc, s: Stmt, c: set<Cell>, W: set<Cell>, v: FlowValue, st: State, i: bool)
    requires (s.Block? || s.If?) && P.proc == p.id && LikeStmt(P, b, F, s) && CellsWritten(p.id, s) <= W && !Has(P.init, b)
    requires s.Block? ==> BackwardBounded(P, b, F, p, s.items, c, W)
    requires s.If? ==> BackwardBounded(P, b, F, p, s.yes, c, W) && BackwardBounded(P, b, F, p, s.no, c, W)
    ensures BackwardBound(P, b, F, p, s, c, W, v, st, i)
  {
    hide BeforeExpr;
    var a := RecordAt(st, StmtNode(s), ExitPoint, v);
    if s.Block? {
      BackwardBoundOf(P, b, F, p, s.items, c, W, LeaveStmt(P, s, v), a, i);
    } else {
      BackwardExprBit(P, b, F, s.test);
      ExprGrows(F, s.test);
      var w := LeaveStmt(P, s, v);
      var j := i;
      BackwardBoundOf(P, b, F, p, s.yes, c, W, w, a, j);
      BackwardBoundOf(P, b, F, p, s.no, c, W, w, Backward(P, s.yes, w, a).0, j);
    }
  }

  lemma BackwardSpawnBounded(P: Problem, b: Bit, F: Fact, p: Proc, s: Stmt, c: set<Cell>, W: set<Cell>, v: FlowValue, st: State, i: bool)
    requires P.proc == p.id && LikeStmt(P, b, F, s) && CellsWritten(p.id, s) <= W && !Has(P.init, b) && s.Spawn?
    ensures BackwardBound(P, b, F, p, s, c, W, v, st, i)
  {
    hide BeforeExpr;
    hide BeforeExprs;
    hide LikeExpr;
    hide LikeOperands;
    BackwardOperandsBit(P, b, F, s);
    OptGrows(F, s.receiver);
    ExprGrows(F, s.callee);
    ExprsGrow(F, s.args);
  }

  lemma BackwardLeafBounded(P: Problem, b: Bit, F: Fact, p: Proc, s: Stmt, c: set<Cell>, W: set<Cell>, v: FlowValue, st: State, i: bool)
    requires P.proc == p.id && LikeStmt(P, b, F, s) && CellsWritten(p.id, s) <= W && !Has(P.init, b)
    requires !s.Then? && !s.Block? && !s.If? && !s.Switch? && !IsLoop(s) && !s.Spawn?
    ensures BackwardBound(P, b, F, p, s, c, W, v, st, i)
  {
    hide BeforeExpr;
    hide BeforeExprs;
    hide LikeExpr;
    hide LikeOperands;
    FlowBelow(c, b, W);
    match s
    case Eval(e) => BackwardExprBit(P, b, F, e); ExprGrows(F, e);
    case Decl(_, init) => BackwardOptBit(P, b, F, init); OptGrows(F, init);
    case Return(_, result) => BackwardOptBit(P, b, F, result); OptGrows(F, result);
    case _ =>
  }

  lemma {:induction false} BackwardBounds(P: Problem, b: Bit, F: Fact, p: Proc, s: Stmt, c: set<Cell>, W: set<Cell>)
    requires P.proc == p.id && LikeStmt(P, b, F, s) && CellsWritten(p.id, s) <= W && !Has(P.init, b)
    ensures BackwardBounded(P, b, F, p, s, c, W)
  {
    hide BackwardBound;
    if s.Then? {
      BackwardBounds(P, b, F, p, s.first, c, W);
      BackwardBounds(P, b, F, p, s.rest, c, W);
    } else if s.Block? {
      BackwardBounds(P, b, F, p, s.items, c, W);
    } else if s.If? {
      BackwardBounds(P, b, F, p, s.yes, c, W);
      BackwardBounds(P, b, F, p, s.no, c, W);
    } else if s.Switch? || IsLoop(s) {
      BackwardBounds(P, b, F, p, s.body, c, W);
    }
    forall v, st ensures BackwardBound(P, b, F, p, s, c, W, v, st, false) && BackwardBound(P, b, F, p, s, c, W, v, st, true) {
      BackwardBoundsOnce(P, b, F, p, s, c, W, v, st, false);
      BackwardBoundsOnce(P, b, F, p, s, c, W, v, st, true);
    }
  }

  lemma BackwardBoundsOnce(P: Problem, b: Bit, F: Fact, p: Proc, s: Stmt, c: set<Cell>, W: set<Cell>, v: FlowValue, st: State, i: bool)
    requires P.proc == p.id && LikeStmt(P, b, F, s) && CellsWritten(p.id, s) <= W && !Has(P.init, b)
    requires s.Then? ==> BackwardBounded(P, b, F, p, s.first, c, W) && BackwardBounded(P, b, F, p, s.rest, c, W)
    requires s.Block? ==> BackwardBounded(P, b, F, p, s.items, c, W)
    requires s.If? ==> BackwardBounded(P, b, F, p, s.yes, c, W) && BackwardBounded(P, b, F, p, s.no, c, W)
    requires s.Switch? || IsLoop(s) ==> BackwardBounded(P, b, F, p, s.body, c, W)
    ensures BackwardBound(P, b, F, p, s, c, W, v, st, i)
  {
    hide BackwardBounded;
    hide BeforeStmt;
    if s.Then? {
      BackwardThenBounded(P, b, F, p, s, c, W, v, st, i);
    } else if s.Block? || s.If? {
      BackwardGroupBounded(P, b, F, p, s, c, W, v, st, i);
    } else if s.Switch? || IsLoop(s) {
      if Below(c, b, W, st) && (Has(v, b) ==> i) && BeforeOk(F, c, s, i) {
        var a := RecordAt(st, StmtNode(s), ExitPoint, v);
        assert BackwardPaths.AtExit(F, c, s, i) == i;
        if s.Switch? {
          BackwardSwitchBounded(P, b, F, p, s, c, W, v, a, i);
        } else if s.While? {
          BackwardWhileBounded(P, b, F, p, s, c, W, v, a, i);
        } else if s.Do? {
          BackwardDoBounded(P, b, F, p, s, c, W, v, a, i);
        } else {
          BackwardForBounded(P, b, F, p, s, c, W, v, a, i);
        }
      }
    } else if s.Spawn? {
      BackwardSpawnBounded(P, b, F, p, s, c, W, v, st, i);
    } else {
      BackwardLeafBounded(P, b, F, p, s, c, W, v, st, i);
    }
  }
}
