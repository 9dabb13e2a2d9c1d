/**
 Termination of the engine: confluence cells only move down, and every pass that raises
 `changed` moves one of them strictly.
 */
module Descent {
  import opened Ast
  import opened FlowValues
  import opened Flow

  // x is y itself or a value below it that has been written: writing makes a cell defined.
  predicate Down(x: FlowValue, y: FlowValue) {
    x == y || (!x.undefined && (y.undefined || y.bits <= x.bits))
  }

  lemma DownAlong()
    ensures forall x, y, z {:trigger Down(x, y), Down(y, z)} :: Down(x, y) && Down(y, z) ==> Down(x, z)
    ensures forall x {:trigger Down(x, x)} :: Down(x, x)
  {
  }

  lemma SetOfBitsIsSmall(s: set<Bit>)
    ensures |s| <= MAX_BITVECTOR_LENGTH
  {
    BitsBelow(s, MAX_BITVECTOR_LENGTH);
  }

  lemma {:induction false} BitsBelow(s: set<Bit>, n: nat)
    requires forall b :: b in s ==> b < n
    ensures |s| <= n
  {
    if n == 0 {
      assert s == {};
    } else if n - 1 < MAX_BITVECTOR_LENGTH && n - 1 in s {
      BitsBelow(s - {n - 1}, n - 1);
    } else {
      BitsBelow(s, n - 1);
    }
  }

  // The number of strict steps down that v can still take.
  ghost function Height(v: FlowValue): (h: nat)
    ensures h <= MAX_BITVECTOR_LENGTH + 1
  {
    SetOfBitsIsSmall(v.bits);
    if v.undefined then MAX_BITVECTOR_LENGTH + 1 else MAX_BITVECTOR_LENGTH - |v.bits|
  }

  lemma HeightDrops(x: FlowValue, y: FlowValue)
    requires Down(x, y)
    ensures Height(x) <= Height(y)
    ensures !SetEqual(x, y) ==> Height(x) < Height(y)
  {
    SetOfBitsIsSmall(x.bits);
    if !y.undefined {
      assert x.bits == y.bits + (x.bits - y.bits);
      if x.bits != y.bits {
        assert x.bits - y.bits != {};
      }
    }
  }

  ghost function Total(C: set<Cell>, cells: Cells): (t: nat)
    ensures t <= |C| * (MAX_BITVECTOR_LENGTH + 1)
  {
    if C == {} then 0
    else
      var c :| c in C;
      Height(Get(cells, c)) + Total(C - {c}, cells)
  }

  lemma {:induction false} TotalDrops(C: set<Cell>, a: Cells, b: Cells, d: Cell)
    requires forall c :: c in C ==> Down(Get(a, c), Get(b, c))
    ensures Total(C, a) <= Total(C, b)
    ensures d in C && !SetEqual(Get(a, d), Get(b, d)) ==> Total(C, a) < Total(C, b)
  {
    if C != {} {
      var c :| c in C && Total(C, a) == Height(Get(a, c)) + Total(C - {c}, a)
                      && Total(C, b) == Height(Get(b, c)) + Total(C - {c}, b);
      HeightDrops(Get(a, c), Get(b, c));
      TotalDrops(C - {c}, a, b, d);
    }
  }

  // What a run from a to b keeps, for the cells C it may write and any cell d.
  ghost predicate Kept(C: set<Cell>, d: Cell, a: State, b: State) {
    && Down(Get(b.cells, d), Get(a.cells, d))
    && Total(C, b.cells) <= Total(C, a.cells)
    && (b.changed && !a.changed ==> Total(C, b.cells) < Total(C, a.cells))
  }

  lemma FlowIntoKeeps(C: set<Cell>, d: Cell, st: State, c: Cell, v: FlowValue)
    requires c in C
    ensures Kept(C, d, st, FlowInto(st, c, v).0)
  {
    var r := FlowInto(st, c, v).0;
    TotalDrops(C, r.cells, st.cells, c);
  }

  lemma FlowIntoKeepsAll(C: set<Cell>, d: Cell)
    ensures forall st, c, v {:trigger FlowInto(st, c, v)} :: c in C ==> Kept(C, d, st, FlowInto(st, c, v).0)
  {
    forall st, c, v | c in C ensures Kept(C, d, st, FlowInto(st, c, v).0) {
      FlowIntoKeeps(C, d, st, c, v);
    }
  }

  lemma ForwardSwitchKeeps(P: Problem, s: Stmt, v: FlowValue, st: State, C: set<Cell>, d: Cell)
    requires s.Switch? && CellsWritten(P.proc, s) <= C
    requires forall w, a {:trigger Forward(P, s.body, w, a)} :: Kept(C, d, a, Forward(P, s.body, w, a).0)
    ensures Kept(C, d, st, ForwardSwitch(P, s, v, st).0)
  {
    hide Down;
    FlowIntoKeepsAll(C, d);
    DownAlong();
  }

  lemma ForwardWhileKeeps(P: Problem, s: Stmt, v: FlowValue, st: State, C: set<Cell>, d: Cell)
    requires s.While? && CellsWritten(P.proc, s) <= C
    requires forall w, a {:trigger Forward(P, s.body, w, a)} :: Kept(C, d, a, Forward(P, s.body, w, a).0)
    ensures Kept(C, d, st, ForwardWhile(P, s, v, st).0)
  {
    hide Down;
    FlowIntoKeepsAll(C, d);
    DownAlong();
  }

  lemma ForwardDoKeeps(P: Problem, s: Stmt, v: FlowValue, st: State, C: set<Cell>, d: Cell)
    requires s.Do? && CellsWritten(P.proc, s) <= C
    requires forall w, a {:trigger Forward(P, s.body, w, a)} :: Kept(C, d, a, Forward(P, s.body, w, a).0)
    ensures Kept(C, d, st, ForwardDo(P, s, v, st).0)
  {
    hide Down;
    FlowIntoKeepsAll(C, d);
    DownAlong();
  }

  lemma ForwardForKeeps(P: Problem, s: Stmt, v: FlowValue, st: State, C: set<Cell>, d: Cell)
    requires s.For? && CellsWritten(P.proc, s) <= C
    requires forall w, a {:trigger Forward(P, s.body, w, a)} :: Kept(C, d, a, Forward(P, s.body, w, a).0)
    ensures Kept(C, d, st, ForwardFor(P, s, v, st).0)
  {
    hide Down;
    FlowIntoKeepsAll(C, d);
    DownAlong();
  }

  lemma {:induction false} ForwardKeeps(P: Problem, s: Stmt, C: set<Cell>, d: Cell)
    requires CellsWritten(P.proc, s) <= C
    ensures forall v, st {:trigger Forward(P, s, v, st)} :: Kept(C, d, st, Forward(P, s, v, st).0)
  {
    hide Down;
    DownAlong();
    match s
    case Then(first, rest) => ForwardKeeps(P, first, C, d); ForwardKeeps(P, rest, C, d);
    case Block(_, items) => ForwardKeeps(P, items, C, d);
    case If(_, _, yes, no) => ForwardKeeps(P, yes, C, d); ForwardKeeps(P, no, C, d);
    case Switch(_, _, _, body) =>
      ForwardKeeps(P, body, C, d);
      forall v, st { ForwardSwitchKeeps(P, s, v, st, C, d); }
    case While(_, _, body) =>
      ForwardKeeps(P, body, C, d);
      forall v, st { ForwardWhileKeeps(P, s, v, st, C, d); }
    case Do(_, body, _) =>
      ForwardKeeps(P, body, C, d);
      forall v, st { ForwardDoKeeps(P, s, v, st, C, d); }
    case For(_, _, _, _, body) =>
      ForwardKeeps(P, body, C, d);
      forall v, st { ForwardForKeeps(P, s, v, st, C, d); }
    case _ =>
      FlowIntoKeepsAll(C, d);
  }

  lemma BackwardSwitchKeeps(P: Problem, s: Stmt, v: FlowValue, st: State, C: set<Cell>, d: Cell)
    requires s.Switch? && CellsWritten(P.proc, s) <= C
    requires forall w, a {:trigger Backward(P, s.body, w, a)} :: Kept(C, d, a, Backward(P, s.body, w, a).0)
    ensures Kept(C, d, st, BackwardSwitch(P, s, v, st).0)
  {
    hide Down;
    FlowIntoKeepsAll(C, d);
    DownAlong();
  }

  lemma BackwardWhileKeeps(P: Problem, s: Stmt, v: FlowValue, st: State, C: set<Cell>, d: Cell)
    requires s.While? && CellsWritten(P.proc, s) <= C
    requires forall w, a {:trigger Backward(P, s.body, w, a)} :: Kept(C, d, a, Backward(P, s.body, w, a).0)
    ensures Kept(C, d, st, BackwardWhile(P, s, v, st).0)
  {
    hide Down;
    FlowIntoKeepsAll(C, d);
    DownAlong();
  }

  lemma BackwardDoKeeps(P: Problem, s: Stmt, v: FlowValue, st: State, C: set<Cell>, d: Cell)
    requires s.Do? && CellsWritten(P.proc, s) <= C
    requires forall w, a {:trigger Backward(P, s.body, w, a)} :: Kept(C, d, a, Backward(P, s.body, w, a).0)
    ensures Kept(C, d, st, BackwardDo(P, s, v, st).0)
  {
    hide Down;
    FlowIntoKeepsAll(C, d);
    DownAlong();
  }

  lemma BackwardForKeeps(P: Problem, s: Stmt, v: FlowValue, st: State, C: set<Cell>, d: Cell)
    requires s.For? && CellsWritten(P.proc, s) <= C
    requires forall w, a {:trigger Backward(P, s.body, w, a)} :: Kept(C, d, a, Backward(P, s.body, w, a).0)
    ensures Kept(C, d, st, BackwardFor(P, s, v, st).0)
  {
    hide Down;
    FlowIntoKeepsAll(C, d);
    DownAlong();
  }

  lemma {:induction false} BackwardKeeps(P: Problem, s: Stmt, C: set<Cell>, d: Cell)
    requires CellsWritten(P.proc, s) <= C
    ensures forall v, st {:trigger Backward(P, s, v, st)} :: Kept(C, d, st, Backward(P, s, v, st).0)
  {
    hide Down;
    DownAlong();
    match s
    case Then(first, rest) => BackwardKeeps(P, first, C, d); BackwardKeeps(P, rest, C, d);
    case Block(_, items) => BackwardKeeps(P, items, C, d);
    case If(_, _, yes, no) => BackwardKeeps(P, yes, C, d); BackwardKeeps(P, no, C, d);
    case Switch(_, _, _, body) =>
      BackwardKeeps(P, body, C, d);
      forall v, st { BackwardSwitchKeeps(P, s, v, st, C, d); }
    case While(_, _, body) =>
      BackwardKeeps(P, body, C, d);
      forall v, st { BackwardWhileKeeps(P, s, v, st, C, d); }
    case Do(_, body, _) =>
      BackwardKeeps(P, body, C, d);
      forall v, st { BackwardDoKeeps(P, s, v, st, C, d); }
    case For(_, _, _, _, body) =>
      BackwardKeeps(P, body, C, d);
      forall v, st { BackwardForKeeps(P, s, v, st, C, d); }
    case _ =>
      FlowIntoKeepsAll(C, d);
  }

}
