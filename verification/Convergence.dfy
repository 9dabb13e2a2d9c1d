/**
 IterateDataFlow as a function: passes are repeated until no confluence cell changes.
 */
module Convergence {
  import opened Ast
  import opened FlowValues
  import opened Flow
  import opened Descent
  import opened TwoRuns
  import opened FinalPass

  datatype Direction = Forwards | Backwards

  // The confluence cells of the nodes of s.
  ghost function OwnCells(s: Stmt): set<Cell> {
    match s
    case Then(first, rest) => OwnCells(first) + OwnCells(rest)
    case Block(_, items) => OwnCells(items)
    case Label(id) => {Cell(id, LabelValues)}
    case If(_, _, yes, no) => OwnCells(yes) + OwnCells(no)
    case Switch(id, _, _, body) => {Cell(id, SwitchValues), Cell(id, BreakValues)} + OwnCells(body)
    case While(id, _, body) => {Cell(id, LoopValues), Cell(id, BreakValues)} + OwnCells(body)
    case Do(id, body, _) => LoopCells(id) + OwnCells(body)
    case For(id, _, _, _, body) => LoopCells(id) + OwnCells(body)
    case _ => {}
  }

  ghost function ProcCells(p: Proc): set<Cell> {
    OwnCells(p.body) + {Cell(p.id, ReturnValues)}
  }

  // Every goto, break, continue, case and default leads to a node of the same procedure.
  ghost predicate JumpsInside(p: Proc) {
    CellsWritten(p.id, p.body) <= ProcCells(p)
  }

  function Reset(cells: Cells, c: Cell): Cells {
    cells[c := Undefine(Get(cells, c))]
  }

  // InitConfluencePoints: the bits stay, only the undefined flag is raised.
  function InitPoints(s: Stmt, cells: Cells): Cells {
    match s
    case Then(first, rest) => InitPoints(rest, InitPoints(first, cells))
    case Block(_, items) => InitPoints(items, cells)
    case Label(id) => Reset(cells, Cell(id, LabelValues))
    case If(_, _, yes, no) => InitPoints(no, InitPoints(yes, cells))
    case Switch(id, _, _, body) =>
      InitPoints(body, Reset(Reset(cells, Cell(id, SwitchValues)), Cell(id, BreakValues)))
    case While(id, _, body) =>
      InitPoints(body, Reset(Reset(cells, Cell(id, LoopValues)), Cell(id, BreakValues)))
    case Do(id, body, _) => InitPoints(body, ResetLoop(cells, id))
    case For(id, _, _, _, body) => InitPoints(body, ResetLoop(cells, id))
    case _ => cells
  }

  function ResetLoop(cells: Cells, id: nat): Cells {
    Reset(Reset(Reset(cells, Cell(id, LoopValues)), Cell(id, ContinueValues)), Cell(id, BreakValues))
  }

  lemma ResetAt(cells: Cells, c: Cell, d: Cell)
    ensures Get(Reset(cells, c), d) == if d == c then Undefine(Get(cells, d)) else Get(cells, d)
  {
  }

  // Several resets, in any order and with repetitions, are one.
  lemma UndefineOnce(v: FlowValue)
    ensures Undefine(Undefine(v)) == Undefine(v)
  {
  }

  lemma {:induction false} InitPointsMeaning(s: Stmt, cells: Cells, c: Cell)
    ensures Get(InitPoints(s, cells), c)
         == if c in OwnCells(s) then Undefine(Get(cells, c)) else Get(cells, c)
  {
    hide Reset;
    hide Get;
    hide Undefine;
    UndefineOnce(Get(cells, c));
    match s
    case Then(first, rest) =>
      InitPointsMeaning(first, cells, c);
      InitPointsMeaning(rest, InitPoints(first, cells), c);
    case Block(_, items) => InitPointsMeaning(items, cells, c);
    case Label(id) => ResetAt(cells, Cell(id, LabelValues), c);
    case If(_, _, yes, no) =>
      InitPointsMeaning(yes, cells, c);
      InitPointsMeaning(no, InitPoints(yes, cells), c);
    case Switch(id, _, _, body) =>
      ResetTwice(cells, Cell(id, SwitchValues), Cell(id, BreakValues), c);
      InitPointsMeaning(body, Reset(Reset(cells, Cell(id, SwitchValues)), Cell(id, BreakValues)), c);
    case While(id, _, body) =>
      ResetTwice(cells, Cell(id, LoopValues), Cell(id, BreakValues), c);
      InitPointsMeaning(body, Reset(Reset(cells, Cell(id, LoopValues)), Cell(id, BreakValues)), c);
    case Do(id, body, _) => ResetLoopAt(cells, id, c); InitPointsMeaning(body, ResetLoop(cells, id), c);
    case For(id, _, _, _, body) => ResetLoopAt(cells, id, c); InitPointsMeaning(body, ResetLoop(cells, id), c);
    case _ =>
  }

  lemma ResetTwice(cells: Cells, a: Cell, b: Cell, d: Cell)
    ensures Get(Reset(Reset(cells, a), b), d) == if d in {a, b} then Undefine(Get(cells, d)) else Get(cells, d)
  {
    ResetAt(cells, a, d);
    ResetAt(Reset(cells, a), b, d);
  }

  lemma ResetLoopAt(cells: Cells, id: nat, d: Cell)
    ensures Get(ResetLoop(cells, id), d) == if d in LoopCells(id) then Undefine(Get(cells, d)) else Get(cells, d)
  {
    ResetTwice(cells, Cell(id, LoopValues), Cell(id, ContinueValues), d);
    ResetAt(Reset(Reset(cells, Cell(id, LoopValues)), Cell(id, ContinueValues)), Cell(id, BreakValues), d);
  }

  // The state in which the first pass starts.
  function Started(p: Proc, cells: Cells): State {
    State(Reset(InitPoints(p.body, cells), Cell(p.id, ReturnValues)), true, false, {})
  }

  function OnePass(P: Problem, dir: Direction, p: Proc, st: State): State {
    if dir == Forwards then ForwardProc(P, p, st) else BackwardProc(P, p, st)
  }

  lemma OnePassKeeps(P: Problem, dir: Direction, p: Proc, st: State, d: Cell)
    requires JumpsInside(p) && P.proc == p.id
    ensures Kept(ProcCells(p), d, st, OnePass(P, dir, p, st))
    ensures st.changed ==> OnePass(P, dir, p, st).changed
    ensures !OnePass(P, dir, p, st).changed ==> OnePass(P, dir, p, st).cells == st.cells
  {
    ForwardKeeps(P, p.body, ProcCells(p), d);
    BackwardKeeps(P, p.body, ProcCells(p), d);
    FlowIntoKeepsAll(ProcCells(p), d);
  }

  ghost function Converge(P: Problem, dir: Direction, p: Proc, st: State): State
    requires JumpsInside(p) && P.proc == p.id
    decreases Total(ProcCells(p), st.cells), if st.changed then 1 else 0
  {
    if !st.changed then st
    else
      var next := OnePass(P, dir, p, st.(changed := false));
      OnePassKeeps(P, dir, p, st.(changed := false), Cell(0, LabelValues));
      Converge(P, dir, p, next)
  }

  // The number of passes made before the final one.
  ghost function PassCount(P: Problem, dir: Direction, p: Proc, st: State): nat
    requires JumpsInside(p) && P.proc == p.id
    decreases Total(ProcCells(p), st.cells), if st.changed then 1 else 0
  {
    if !st.changed then 0
    else
      var next := OnePass(P, dir, p, st.(changed := false));
      OnePassKeeps(P, dir, p, st.(changed := false), Cell(0, LabelValues));
      1 + PassCount(P, dir, p, next)
  }

  lemma {:induction false} PassesAreFew(P: Problem, dir: Direction, p: Proc, st: State)
    requires JumpsInside(p) && P.proc == p.id
    ensures PassCount(P, dir, p, st) <= Total(ProcCells(p), st.cells) + 1
    decreases Total(ProcCells(p), st.cells), if st.changed then 1 else 0
  {
    if st.changed {
      var next := OnePass(P, dir, p, st.(changed := false));
      OnePassKeeps(P, dir, p, st.(changed := false), Cell(0, LabelValues));
      PassesAreFew(P, dir, p, next);
      if !next.changed {
        assert PassCount(P, dir, p, next) == 0;
      }
    }
  }

  /** With K confluence cells and W-bit sets, at most K*(W+1)+1 passes precede the final
      one.  No property of the transfer function is needed: FlowInto itself only moves
      cells down. */
  lemma TerminationBound(P: Problem, dir: Direction, p: Proc, cells: Cells)
    requires JumpsInside(p) && P.proc == p.id
    ensures PassCount(P, dir, p, Started(p, cells)) <= |ProcCells(p)| * (MAX_BITVECTOR_LENGTH + 1) + 1
  {
    PassesAreFew(P, dir, p, Started(p, cells));
  }

  // The flow equations: a pass over these cells leaves every one of them as it is.
  ghost predicate Solution(P: Problem, dir: Direction, p: Proc, cells: Cells) {
    !OnePass(P, dir, p, State(cells, false, false, {})).changed
  }

  lemma {:induction false} ConvergesToSolution(P: Problem, dir: Direction, p: Proc, st: State)
    requires JumpsInside(p) && P.proc == p.id && !st.final && st.visits == {}
    requires !st.changed ==> Solution(P, dir, p, st.cells)
    ensures var r := Converge(P, dir, p, st); Solution(P, dir, p, r.cells) && !r.changed && !r.final && r.visits == {}
    decreases Total(ProcCells(p), st.cells), if st.changed then 1 else 0
  {
    if st.changed {
      var start := st.(changed := false);
      var next := OnePass(P, dir, p, start);
      OnePassKeeps(P, dir, p, start, Cell(0, LabelValues));
      assert start == State(st.cells, false, false, {});
      NotFinalNoVisits(P, dir, p, start);
      ConvergesToSolution(P, dir, p, next);
    }
  }

  lemma {:induction false} ConvergeDown(P: Problem, dir: Direction, p: Proc, st: State, d: Cell)
    requires JumpsInside(p) && P.proc == p.id
    ensures Down(Get(Converge(P, dir, p, st).cells, d), Get(st.cells, d))
    decreases Total(ProcCells(p), st.cells), if st.changed then 1 else 0
  {
    if st.changed {
      OnePassKeeps(P, dir, p, st.(changed := false), Cell(0, LabelValues));
      OnePassKeeps(P, dir, p, st.(changed := false), d);
      ConvergeDown(P, dir, p, OnePass(P, dir, p, st.(changed := false)), d);
    }
  }

  // No more passes are needed once the cells are a solution.
  ghost predicate Settled(P: Problem, dir: Direction, p: Proc, st: State) {
    !st.changed ==> Solution(P, dir, p, st.cells)
  }

  lemma StepSettles(P: Problem, dir: Direction, p: Proc, st: State)
    requires JumpsInside(p) && P.proc == p.id && !st.final && st.visits == {}
    ensures var next := OnePass(P, dir, p, st.(changed := false));
      && Settled(P, dir, p, next) && !next.final && next.visits == {}
      && (Solution(P, dir, p, st.cells) ==> next.cells == st.cells && !next.changed)
  {
    var start := st.(changed := false);
    OnePassKeeps(P, dir, p, start, Cell(0, LabelValues));
    NotFinalNoVisits(P, dir, p, start);
    assert start == State(st.cells, false, false, {});
  }

  /** Two clients that correspond pass by pass end in corresponding cells, whatever the
      number of passes each of them takes. */
  lemma {:induction false} ConvergeRelated(R: Relation, W: Scope, P: Problem, Q: Problem, dir: Direction, p: Proc, a: State, b: State)
    requires JumpsInside(p) && P.proc == p.id && Respected(R, P, Q)
    requires InScope(W, p.id, p.body) && Cell(p.id, ReturnValues) in W
    requires Settled(P, dir, p, a) && !a.final && a.visits == {}
    requires Settled(Q, dir, p, b) && !b.final && b.visits == {}
    requires CellsRelated(R, W, a, b)
    ensures CellsRelated(R, W, Converge(P, dir, p, a), Converge(Q, dir, p, b))
    decreases Total(ProcCells(p), a.cells) + Total(ProcCells(p), b.cells), (if a.changed then 1 else 0) + (if b.changed then 1 else 0)
  {
    if a.changed || b.changed {
      var (a0, b0) := (a.(changed := false), b.(changed := false));
      var (a1, b1) := (OnePass(P, dir, p, a0), OnePass(Q, dir, p, b0));
      StepSettles(P, dir, p, a);
      StepSettles(Q, dir, p, b);
      OnePassKeeps(P, dir, p, a0, Cell(0, LabelValues));
      OnePassKeeps(Q, dir, p, b0, Cell(0, LabelValues));
      assert CellsRelated(R, W, a0, b0);
      if dir == Forwards { ForwardProcRelated(R, W, P, Q, p, a0, b0); } else { BackwardProcRelated(R, W, P, Q, p, a0, b0); }
      ConvergeRelated(R, W, P, Q, dir, p, a1, b1);
      assert Converge(P, dir, p, a1).cells == Converge(P, dir, p, a).cells;
      assert Converge(Q, dir, p, b1).cells == Converge(Q, dir, p, b).cells;
    }
  }

  lemma NotFinalNoVisits(P: Problem, dir: Direction, p: Proc, st: State)
    requires !st.final && st.visits == {}
    ensures OnePass(P, dir, p, st).visits == {} && !OnePass(P, dir, p, st).final
  {
  }

  // The order the framework asks for: x <= y  ==>  f(x) <= f(y).
  ghost predicate Monotone(P: Problem) {
    forall n, p, v, w {:trigger P.trans(n, p, v), P.trans(n, p, w)} ::
      Le(v, w) ==> Le(P.trans(n, p, v), P.trans(n, p, w))
  }

  lemma MeetIsMonotone(v: FlowValue, w: FlowValue, x: FlowValue, y: FlowValue)
    requires Le(v, w) && Le(x, y)
    ensures Le(SetUnion(v, x), SetUnion(w, y))
  {
    LeMeaning(v, w);
    LeMeaning(x, y);
    LeMeaning(SetUnion(v, x), SetUnion(w, y));
  }

  lemma LeUpToEqual(v: FlowValue, w: FlowValue, x: FlowValue, y: FlowValue)
    requires Le(v, w) && SetEqual(v, x) && SetEqual(w, y)
    ensures Le(x, y)
  {
    LeMeaning(v, w);
    LeMeaning(x, y);
  }

  lemma UndefineIsMonotone(v: FlowValue, w: FlowValue)
    requires Le(v, w)
    ensures Le(Undefine(v), Undefine(w))
  {
    LeMeaning(Undefine(v), Undefine(w));
  }

  lemma MonotoneIsRespected(P: Problem)
    requires Monotone(P)
    ensures Respected(Le, P, P)
  {
    hide SetUnion;
    hide SetEqual;
    hide Le;
    hide Undefine;
    LeMeaning(P.init, P.init);
    forall v, w, x, y | Le(v, w) && Le(x, y) ensures Le(SetUnion(v, x), SetUnion(w, y)) {
      MeetIsMonotone(v, w, x, y);
    }
    forall v, w, x, y | Le(v, w) && SetEqual(v, x) && SetEqual(w, y) ensures Le(x, y) {
      LeUpToEqual(v, w, x, y);
    }
    forall v, w | Le(v, w) ensures Le(Undefine(v), Undefine(w)) {
      UndefineIsMonotone(v, w);
    }
  }

  lemma OnePassMonotone(P: Problem, dir: Direction, p: Proc, a: State, b: State)
    requires Monotone(P) && CellsRelated(Le, Everywhere, a, b)
    ensures CellsRelated(Le, Everywhere, OnePass(P, dir, p, a), OnePass(P, dir, p, b))
  {
    MonotoneIsRespected(P);
    if dir == Forwards {
      ForwardProcRelated(Le, Everywhere, P, P, p, a, b);
    } else {
      BackwardProcRelated(Le, Everywhere, P, P, p, a, b);
    }
  }

  lemma {:induction false} SolutionStaysBelow(P: Problem, dir: Direction, p: Proc, st: State, solution: Cells)
    requires JumpsInside(p) && P.proc == p.id && Monotone(P)
    requires Solution(P, dir, p, solution)
    requires forall c :: Le(Get(solution, c), Get(st.cells, c))
    ensures forall c :: Le(Get(solution, c), Get(Converge(P, dir, p, st).cells, c))
    decreases Total(ProcCells(p), st.cells), if st.changed then 1 else 0
  {
    if st.changed {
      var a := State(solution, false, false, {});
      var b := st.(changed := false);
      OnePassKeeps(P, dir, p, a, Cell(0, LabelValues));
      OnePassKeeps(P, dir, p, b, Cell(0, LabelValues));
      OnePassMonotone(P, dir, p, a, b);
      var next := OnePass(P, dir, p, b);
      forall c ensures Le(Get(solution, c), Get(next.cells, c)) {
        assert Le(Get(OnePass(P, dir, p, a).cells, c), Get(next.cells, c));
      }
      SolutionStaysBelow(P, dir, p, next, solution);
    }
  }

  /** For any monotone client the engine ends at the greatest solution of the flow
      equations: what it computes is a solution, and every solution over the same
      surroundings lies below it. */
  lemma GreatestSolution(P: Problem, dir: Direction, p: Proc, cells: Cells, solution: Cells)
    requires JumpsInside(p) && P.proc == p.id && Monotone(P)
    requires Solution(P, dir, p, solution)
    requires forall c :: c !in ProcCells(p) ==> SetEqual(Get(solution, c), Get(cells, c))
    ensures var r := Converge(P, dir, p, Started(p, cells));
      Solution(P, dir, p, r.cells) && forall c :: Le(Get(solution, c), Get(r.cells, c))
  {
    var st := Started(p, cells);
    forall c ensures Le(Get(solution, c), Get(st.cells, c)) {
      InitPointsMeaning(p.body, cells, c);
      LeMeaning(Get(solution, c), Get(st.cells, c));
    }
    ConvergesToSolution(P, dir, p, st);
    SolutionStaysBelow(P, dir, p, st, solution);
  }

  /** The final pass over a solution changes no cell, so what it shows the client are the
      converged values, whether or not the transfer function is monotone. */
  lemma FinalPassChangesNothing(P: Problem, dir: Direction, p: Proc, cells: Cells, visits: set<Visit>)
    requires Solution(P, dir, p, cells)
    ensures var r := OnePass(P, dir, p, State(cells, false, true, visits)); r.cells == cells && !r.changed
  {
    var (a, b) := (State(cells, false, false, {}), State(cells, false, true, visits));
    PassesAlike(P, p, a, b);
    PassUnchanged(P, dir, p, a);
  }

  lemma PassUnchanged(P: Problem, dir: Direction, p: Proc, st: State)
    ensures !OnePass(P, dir, p, st).changed ==> OnePass(P, dir, p, st).cells == st.cells
  {
  }
}
