/**
 The analyses as they run: on the heap lists of variables, a chunk at a time, overwriting
 the gen and kill sets and confluence cells that the previous one left.
 */
module Analyzer {
  import opened Ast
  import opened FlowValues
  import F = Flow
  import opened Convergence
  import opened Clients
  import opened Walks
  import opened Lists
  import opened Engine
  import opened Results
  import opened InnerExact
  import opened InnerLive
  import opened Analyses
  import opened ForwardAnalyses
  import opened Leaving
  import opened StaleBits
  import opened Compiled
  import opened Machine

  // ---------- Recording ----------

  lemma SelectedUnion(vars: seq<nat>, a: set<Bit>, b: set<Bit>)
    ensures Selected(vars, a + b) == Selected(vars, a) + Selected(vars, b)
  {
  }

  lemma RawBitsUnion(V: set<F.Visit>, v: F.Visit, n: nat)
    ensures RawBits(V + {v}, n) == RawBits(V, n) + (if v.node == n && v.point == ExitPoint then v.value.bits else {})
  {
  }

  lemma SelectedOver(vars: seq<nat>, V: set<F.Visit>, v: F.Visit, n: nat)
    ensures Selected(vars, RawBits(V + {v}, n))
         == Selected(vars, RawBits(V, n)) + (if v.node == n && v.point == ExitPoint then Selected(vars, v.value.bits) else {})
  {
    RawBitsUnion(V, v, n);
    SelectedUnion(vars, RawBits(V, n), v.value.bits);
  }

  lemma NothingShown(vars: seq<nat>, n: nat)
    ensures Selected(vars, RawBits({}, n)) == {}
  {
  }

  // The first of the chunks, and the others.
  lemma NextChunk(all: seq<nat>, pos: nat)
    requires pos < |all|
    ensures var next := if pos + MAX_BITVECTOR_LENGTH <= |all| then pos + MAX_BITVECTOR_LENGTH else |all|;
      && Chunks(all[pos..]) != [] && Chunks(all[pos..])[0] == all[pos..next]
      && Chunks(all[pos..])[1..] == Chunks(all[next..])
  {
    var rest := all[pos..];
    if |rest| <= MAX_BITVECTOR_LENGTH {
      assert all[pos..|all|] == rest && all[|all|..] == [];
    } else {
      assert rest[..MAX_BITVECTOR_LENGTH] == all[pos..pos + MAX_BITVECTOR_LENGTH];
      assert rest[MAX_BITVECTOR_LENGTH..] == all[pos + MAX_BITVECTOR_LENGTH..];
    }
  }

  // One chunk of live variables, and the others.
  lemma LiveStep(p: Proc, all: seq<nat>, from: nat, next: nat, m: Marks)
    requires JumpsInside(p) && from < |all|
    requires next == if from + MAX_BITVECTOR_LENGTH <= |all| then from + MAX_BITVECTOR_LENGTH else |all|
    ensures AfterLive(p, Chunks(all[from..]), m) == AfterLive(p, Chunks(all[next..]), AfterLV(p, all[from..next], m))
    ensures forall n :: LiveVars(p, Chunks(all[from..]), m, n)
                     == Selected(all[from..next], RawBits(VisitsLV(p, all[from..next], m), n))
                        + LiveVars(p, Chunks(all[next..]), AfterLV(p, all[from..next], m), n)
  {
    hide VisitsLV;
    hide AfterLV;
    hide Selected;
    hide RawBits;
    NextChunk(all, from);
  }

  lemma ExprLiveStep(p: Proc, all: seq<nat>, from: nat, next: nat, m: Marks)
    requires JumpsInside(p) && from < |all|
    requires next == if from + MAX_BITVECTOR_LENGTH <= |all| then from + MAX_BITVECTOR_LENGTH else |all|
    ensures forall n :: ExprLiveVars(p, Chunks(all[from..]), m, n)
                     == Selected(all[from..next], RawBits(InnerLV(p, all[from..next], m), n))
                        + ExprLiveVars(p, Chunks(all[next..]), AfterLV(p, all[from..next], m), n)
  {
    hide InnerLV;
    hide AfterLV;
    hide Selected;
    hide RawBits;
    NextChunk(all, from);
  }

  lemma LiveLast(p: Proc, m: Marks)
    requires JumpsInside(p)
    ensures AfterLive(p, Chunks([]), m) == m && forall n :: LiveVars(p, Chunks([]), m, n) == {}
    ensures forall n :: ExprLiveVars(p, Chunks([]), m, n) == {}
  {
  }

  lemma DirtyStep(p: Proc, formals: set<nat>, all: seq<nat>, from: nat, next: nat, m: Marks)
    requires JumpsInside(p) && from < |all|
    requires next == if from + MAX_BITVECTOR_LENGTH <= |all| then from + MAX_BITVECTOR_LENGTH else |all|
    ensures AfterDirty(p, Chunks(all[from..]), formals, m) == AfterDirty(p, Chunks(all[next..]), formals, AfterDV(p, all[from..next], formals, m))
    ensures forall n, L :: DirtyVars(p, Chunks(all[from..]), formals, m, n, L)
                        == Selected(all[from..next], RawBits(VisitsDV(p, all[from..next], formals, m), n)) * L
                           + DirtyVars(p, Chunks(all[next..]), formals, AfterDV(p, all[from..next], formals, m), n, L)
  {
    hide VisitsDV;
    hide AfterDV;
    hide Selected;
    hide RawBits;
    NextChunk(all, from);
  }

  lemma DirtyLast(p: Proc, formals: set<nat>, m: Marks)
    requires JumpsInside(p)
    ensures AfterDirty(p, Chunks([]), formals, m) == m && forall n, L :: DirtyVars(p, Chunks([]), formals, m, n, L) == {}
  {
  }

  // The bits of the formal parameters among the first k variables.
  ghost function FormalsAmong(vars: seq<nat>, formals: set<nat>, k: nat): FlowValue
    requires k <= |vars|
  {
    FlowValue(false, set i: Bit | i < |vars| && vars[i] in formals && vars[i] in vars[..k])
  }

  lemma OneMore(vars: seq<nat>, formals: set<nat>, k: nat)
    requires k < |vars|
    ensures FormalsAmong(vars, formals, k + 1)
         == if vars[k] in formals then SetUnion(FormalsAmong(vars, formals, k), FlowValue(false, Find(vars, vars[k])))
            else FormalsAmong(vars, formals, k)
  {
    assert vars[..k + 1] == vars[..k] + [vars[k]];
  }

  lemma AllSeen(vars: seq<nat>, formals: set<nat>)
    ensures FormalsAmong(vars, formals, |vars|) == FormalBits(vars, formals)
    ensures FormalsAmong(vars, formals, 0) == EmptySet
  {
    assert vars[..|vars|] == vars;
  }

  // The set-up for sync flow looks at no variable.
  lemma SyncSetsIgnoreVariables(p: Proc, vars: seq<nat>, m: Store)
    ensures WalkWhole(SyncFlow, vars, p, m) == WalkWhole(SyncFlow, [], p, m)
  {
    StmtIgnores(vars, p.body, m.With(p.id, {}, {}));
  }

  lemma {:induction false} ExprIgnores(vars: seq<nat>, e: Expr, m0: Store)
    ensures WalkExpr(SyncFlow, vars, e, m0) == WalkExpr(SyncFlow, [], e, m0)
  {
    var m := InitExpr(SyncFlow, vars, e, m0);
    match e
    case Binop(_, _, left, right) =>
      ExprIgnores(vars, left, m);
      var a := WalkExpr(SyncFlow, vars, left, m);
      ExprIgnores(vars, right, a);
    case Unary(_, _, operand) => ExprIgnores(vars, operand, m);
    case Ternary(_, cond, yes, no) =>
      ExprIgnores(vars, cond, m);
      var a := WalkExpr(SyncFlow, vars, cond, m);
      ExprIgnores(vars, yes, a);
      var b := WalkExpr(SyncFlow, vars, yes, a);
      ExprIgnores(vars, no, b);
    case Call(_, name, args) =>
      ExprIgnores(vars, name, m);
      var a := WalkExpr(SyncFlow, vars, name, m);
      ExprsIgnore(vars, args, a);
    case _ =>
  }

  lemma {:induction false} ExprsIgnore(vars: seq<nat>, es: Exprs, m: Store)
    ensures WalkExprs(SyncFlow, vars, es, m) == WalkExprs(SyncFlow, [], es, m)
  {
    if es.MoreExprs? {
      ExprIgnores(vars, es.head, m);
      ExprsIgnore(vars, es.tail, WalkExpr(SyncFlow, vars, es.head, m));
    }
  }

  lemma OptIgnores(vars: seq<nat>, o: OptExpr, m: Store)
    ensures WalkOpt(SyncFlow, vars, o, m) == WalkOpt(SyncFlow, [], o, m)
  {
    if o.TheExpr? { ExprIgnores(vars, o.e, m); }
  }

  lemma {:induction false} StmtIgnores(vars: seq<nat>, s: Stmt, m0: Store)
    ensures WalkStmt(SyncFlow, vars, s, m0) == WalkStmt(SyncFlow, [], s, m0)
  {
    hide WalkExpr;
    hide WalkExprs;
    var m := if HasId(s) then InitStmt(SyncFlow, vars, s, m0) else m0;
    match s
    case Then(first, rest) =>
      StmtIgnores(vars, first, m);
      var a := WalkStmt(SyncFlow, vars, first, m);
      StmtIgnores(vars, rest, a);
    case Eval(e) => ExprIgnores(vars, e, m);
    case Decl(_, init) => OptIgnores(vars, init, m);
    case Block(_, items) => StmtIgnores(vars, items, m);
    case If(_, test, yes, no) =>
      ExprIgnores(vars, test, m);
      var a := WalkExpr(SyncFlow, vars, test, m);
      StmtIgnores(vars, yes, a);
      var b := WalkStmt(SyncFlow, vars, yes, a);
      StmtIgnores(vars, no, b);
    case Switch(_, _, e, body) =>
      ExprIgnores(vars, e, m);
      var a := WalkExpr(SyncFlow, vars, e, m);
      StmtIgnores(vars, body, a);
    case While(_, e, body) =>
      ExprIgnores(vars, e, m);
      var a := WalkExpr(SyncFlow, vars, e, m);
      StmtIgnores(vars, body, a);
    case Do(_, body, e) =>
      StmtIgnores(vars, body, m);
      var a := WalkStmt(SyncFlow, vars, body, m);
      ExprIgnores(vars, e, a);
    case For(_, start, guard, next, body) =>
      OptIgnores(vars, start, m);
      var a := WalkOpt(SyncFlow, vars, start, m);
      OptIgnores(vars, guard, a);
      var b := WalkOpt(SyncFlow, vars, guard, a);
      OptIgnores(vars, next, b);
      var d := WalkOpt(SyncFlow, vars, next, b);
      StmtIgnores(vars, body, d);
    case Return(_, result) => OptIgnores(vars, result, m);
    case Spawn(_, receiver, _, callee, args) =>
      OptIgnores(vars, receiver, m);
      var a := WalkOpt(SyncFlow, vars, receiver, m);
      ExprIgnores(vars, callee, a);
      var b := WalkExpr(SyncFlow, vars, callee, a);
      ExprsIgnore(vars, args, b);
    case _ =>
  }

  lemma SliceElements(cells: seq<List>, lo: nat, hi: nat)
    requires lo <= hi <= |cells|
    ensures Elements(cells[lo..hi]) == Elements(cells)[lo..hi]
  {
  }

  class VariableAnalyzer {
    const nodes: NodeSets
    const engine: DataFlowEngine
    var live: map<nat, set<nat>>    // at statements
    var inside: map<nat, set<nat>>  // live at expression nodes
    var dirty: map<nat, set<nat>>
    var needsSync: set<nat>
    var needsReturn: bool

    constructor (p: F.Problem)
      ensures fresh(nodes) && fresh(engine)
      ensures live == inside == dirty == map[] && needsSync == {} && !needsReturn && Marked() == Unmarked
    {
      nodes := new NodeSets();
      engine := new DataFlowEngine(p);
      live, inside, dirty, needsSync, needsReturn := map[], map[], map[], {}, false;
    }

    function Marked(): Marks
      reads this, nodes, engine
    {
      Marks(Store(nodes.gen, nodes.kill), engine.cells)
    }

    // The variables of a list whose bits are set; stops when no bit is left.
    method ListSelect(list: List?, ghost cells: seq<List>, v: FlowValue) returns (r: set<nat>)
      requires IsList(list, cells) && |cells| <= MAX_BITVECTOR_LENGTH
      ensures r == Selected(Elements(cells), v.bits)
    {
      var rest, l := v.bits, list;
      var i: nat := 0;
      r := {};
      while rest != {} && l != null
        invariant i <= |cells| && l == if i < |cells| then cells[i] else null
        invariant rest == set b | b in v.bits && i <= b
        invariant r == set j | 0 <= j < i && j < MAX_BITVECTOR_LENGTH && j in v.bits :: Elements(cells)[j]
        decreases |cells| - i
      {
        ghost var before := r;
        if i in rest {
          r := r + {l.element};
          rest := rest - {i};
        }
        assert r == before + if i in v.bits then {Elements(cells)[i]} else {};
        i, l := i + 1, l.next;
      }
      if rest == {} {
        forall j | i <= j < |cells| && j < MAX_BITVECTOR_LENGTH ensures j !in v.bits {
          assert j in v.bits ==> j in rest;
        }
      }
    }

    method UseChunk(list: List?, ghost cells: seq<List>)
      requires IsList(list, cells) && |cells| <= MAX_BITVECTOR_LENGTH
      modifies nodes`variableSet, nodes`variables, nodes`vars
      ensures nodes.Ready() && nodes.variables == cells && nodes.vars == Elements(cells) && nodes.variableSet == list
    {
      nodes.variableSet, nodes.variables, nodes.vars := list, cells, Elements(cells);
    }

    // What was shown joins the lists on the nodes.
    method JoinLists(shown: set<F.Visit>, lists: map<nat, set<nat>>) returns (r: map<nat, set<nat>>)
      requires nodes.Ready()
      ensures forall n :: At(r, n) == At(lists, n) + Selected(nodes.vars, RawBits(shown, n))
    {
      hide Selected;
      hide RawBits;
      hide IsList;
      var todo := shown;
      r := lists;
      assert shown - todo == {};
      forall n {
        NothingShown(nodes.vars, n);
      }
      while todo != {}
        invariant todo <= shown
        invariant forall n :: At(r, n) == At(lists, n) + Selected(nodes.vars, RawBits(shown - todo, n))
        decreases todo
      {
        var v :| v in todo;
        ghost var done := shown - todo;
        forall n {
          SelectedOver(nodes.vars, done, v, n);
        }
        todo := todo - {v};
        assert shown - todo == done + {v};
        if v.point == ExitPoint {
          var more := ListSelect(nodes.variableSet, nodes.variables, v.value);
          r := r[v.node := At(r, v.node) + more];
        }
      }
      assert shown - {} == shown;
    }

    // Only what is recorded as live joins the dirty list.
    method RecordDirty()
      requires nodes.Ready()
      modifies `dirty
      ensures forall n :: At(dirty, n) == At(old(dirty), n) + Selected(nodes.vars, RawBits(engine.visits, n)) * At(live, n)
    {
      hide Selected;
      hide RawBits;
      hide IsList;
      var todo := engine.visits;
      assert engine.visits - todo == {};
      forall n {
        NothingShown(nodes.vars, n);
      }
      while todo != {}
        invariant todo <= engine.visits
        invariant forall n :: At(dirty, n) == At(old(dirty), n) + Selected(nodes.vars, RawBits(engine.visits - todo, n)) * At(live, n)
        decreases todo
      {
        var v :| v in todo;
        ghost var done := engine.visits - todo;
        forall n {
          SelectedOver(nodes.vars, done, v, n);
        }
        todo := todo - {v};
        assert engine.visits - todo == done + {v};
        if v.point == ExitPoint {
          var r := ListSelect(nodes.variableSet, nodes.variables, v.value);
          dirty := dirty[v.node := At(dirty, v.node) + r * At(live, v.node)];
        }
      }
      assert engine.visits - {} == engine.visits;
    }

    method AnalyzeLV(p: Proc)
      requires JumpsInside(p) && nodes.Ready()
      modifies `live, `inside, nodes`gen, nodes`kill, engine
      ensures Marked() == AfterLV(p, nodes.vars, old(Marked()))
      ensures forall n :: At(live, n) == At(old(live), n) + Selected(nodes.vars, RawBits(VisitsLV(p, nodes.vars, old(Marked())), n))
      ensures forall n :: At(inside, n) == At(old(inside), n) + Selected(nodes.vars, RawBits(InnerLV(p, nodes.vars, old(Marked())), n))
    {
      hide IsList;
      hide Elements;
      hide Selected;
      hide RawBits;
      nodes.WalkProc(LiveVariables, p);
      var passes := engine.IterateDataFlow(p, GenKillProblem(p, EmptySet, nodes.gen, nodes.kill), Backwards);
      live := JoinLists(engine.visits, live);
      inside := JoinLists(engine.inner, inside);
    }

    // The formal parameters among the variables start dirty.
    method AnalyzeDV(p: Proc, formals: set<nat>)
      requires JumpsInside(p) && nodes.Ready()
      modifies `dirty, nodes`gen, nodes`kill, engine
      ensures Marked() == AfterDV(p, nodes.vars, formals, old(Marked()))
      ensures forall n :: At(dirty, n) == At(old(dirty), n)
                + Selected(nodes.vars, RawBits(VisitsDV(p, nodes.vars, formals, old(Marked())), n)) * At(live, n)
    {
      hide IsList;
      hide Elements;
      hide Selected;
      hide RawBits;
      hide AfterDV;
      hide VisitsDV;
      var init := FindFormals(formals);
      FlowDV(p, formals, init);
      RecordDirty();
    }

    method FlowDV(p: Proc, ghost formals: set<nat>, init: FlowValue)
      requires JumpsInside(p) && nodes.Ready() && init == FormalBits(nodes.vars, formals)
      modifies nodes`gen, nodes`kill, engine
      ensures Marked() == AfterDV(p, nodes.vars, formals, old(Marked()))
      ensures engine.visits == VisitsDV(p, nodes.vars, formals, old(Marked()))
    {
      hide IsList;
      hide FormalBits;
      nodes.WalkProc(DirtyVariables, p);
      var passes := engine.IterateDataFlow(p, GenKillProblem(p, init, nodes.gen, nodes.kill), Forwards);
    }

    method FindFormals(formals: set<nat>) returns (v: FlowValue)
      requires nodes.Ready()
      ensures v == FormalBits(nodes.vars, formals)
    {
      hide FormalsAmong;
      v := EmptySet;
      AllSeen(nodes.vars, formals);
      var l := nodes.variableSet;
      ghost var k: nat := 0;
      while l != null
        invariant k <= |nodes.variables| && l == if k < |nodes.variables| then nodes.variables[k] else null
        invariant v == FormalsAmong(nodes.vars, formals, k)
        decreases |nodes.variables| - k
      {
        if l.element in formals {
          var bits := nodes.ListFind(l.element);
          v := SetUnion(v, FlowValue(false, bits));
        }
        OneMore(nodes.vars, formals, k);
        k := k + 1;
        l := l.next;
      }
    }

    // What is recorded and left so far, together with the chunks to come, is what all chunks
    // give from the start.
    ghost predicate LiveSoFar(p: Proc, all: seq<nat>, from: nat, start: Marks)
      requires JumpsInside(p) && from <= |all|
      reads this, nodes, engine
    {
      && AfterLive(p, Chunks(all[from..]), Marked()) == AfterLive(p, Chunks(all), start)
      && (forall n :: At(live, n) + LiveVars(p, Chunks(all[from..]), Marked(), n) == LiveVars(p, Chunks(all), start, n))
      && (forall n :: At(inside, n) + ExprLiveVars(p, Chunks(all[from..]), Marked(), n) == ExprLiveVars(p, Chunks(all), start, n))
    }

    ghost predicate DirtySoFar(p: Proc, formals: set<nat>, all: seq<nat>, from: nat, start: Marks)
      requires JumpsInside(p) && from <= |all|
      reads this, nodes, engine
    {
      && AfterDirty(p, Chunks(all[from..]), formals, Marked()) == AfterDirty(p, Chunks(all), formals, start)
      && forall n :: At(dirty, n) + DirtyVars(p, Chunks(all[from..]), formals, Marked(), n, At(live, n))
                  == DirtyVars(p, Chunks(all), formals, start, n, At(live, n))
    }

    ghost predicate SoFar(dirtily: bool, p: Proc, formals: set<nat>, all: seq<nat>, from: nat, start: Marks)
      requires JumpsInside(p) && from <= |all|
      reads this, nodes, engine
    {
      if dirtily then DirtySoFar(p, formals, all, from, start) else LiveSoFar(p, all, from, start)
    }

    // AnalyzeLV or AnalyzeDV on one chunk.
    method AnalyzeChunk(dirtily: bool, p: Proc, formals: set<nat>, chunk: List?, ghost cells: seq<List>,
                        ghost all: seq<nat>, ghost from: nat, ghost next: nat, ghost start: Marks)
      requires JumpsInside(p) && IsList(chunk, cells) && from < |all| && SoFar(dirtily, p, formals, all, from, start)
      requires next == if from + MAX_BITVECTOR_LENGTH <= |all| then from + MAX_BITVECTOR_LENGTH else |all|
      requires Elements(cells) == all[from..next]
      modifies `live, `inside, `dirty, nodes, engine
      ensures SoFar(dirtily, p, formals, all, next, start)
      ensures if dirtily then live == old(live) && inside == old(inside) else dirty == old(dirty)
    {
      hide AfterLive;
      hide LiveVars;
      hide AfterLV;
      hide VisitsLV;
      hide ExprLiveVars;
      hide InnerLV;
      hide AfterDirty;
      hide DirtyVars;
      hide AfterDV;
      hide VisitsDV;
      hide Selected;
      hide RawBits;
      hide Chunks;
      hide IsList;
      UseChunk(chunk, cells);
      if dirtily {
        DirtyStep(p, formals, all, from, next, Marked());
        AnalyzeDV(p, formals);
      } else {
        LiveStep(p, all, from, next, Marked());
        ExprLiveStep(p, all, from, next, Marked());
        AnalyzeLV(p);
      }
    }

    /** ApplyInChunks: one analysis after the other, on a word of variables each.  The list is
        cut between the chunks and whole again at the end. */
    method ApplyInChunks(dirtily: bool, p: Proc, formals: set<nat>, vars: List?, ghost cells: seq<List>, ghost start: Marks)
      requires JumpsInside(p) && IsList(vars, cells) && SoFar(dirtily, p, formals, Elements(cells), 0, start)
      modifies `live, `inside, `dirty, nodes, engine, cells
      ensures IsList(vars, cells) && Elements(cells) == old(Elements(cells))
      ensures SoFar(dirtily, p, formals, Elements(cells), |cells|, start)
      ensures if dirtily then live == old(live) && inside == old(inside) else dirty == old(dirty)
    {
      hide SoFar;
      hide IsList;
      hide Elements;
      hide ListMarker.Valid;
      hide ListMarker.Cut;
      hide JumpsInside;
      hide Distinct;
      ghost var all := Elements(cells);
      var m := new ListMarker(vars, cells);
      var chunk := m.NextChunkOnList(MAX_BITVECTOR_LENGTH);
      ghost var from: nat := 0;
      while chunk != null
        invariant m.Valid() && m.spine == cells && m.first == vars && fresh(m)
        invariant Elements(cells) == all
        invariant from <= m.pos <= |cells| && IsList(chunk, cells[from..m.pos])
        invariant m.pos == if from + MAX_BITVECTOR_LENGTH <= |cells| then from + MAX_BITVECTOR_LENGTH else |cells|
        invariant m.pos == |cells| || m.Cut()
        invariant chunk == null <==> from == |cells|
        invariant chunk == null ==> m.Whole()
        invariant SoFar(dirtily, p, formals, all, from, start)
        invariant if dirtily then live == old(live) && inside == old(inside) else dirty == old(dirty)
        decreases |cells| - from
      {
        SliceElements(cells, from, m.pos);
        AnalyzeChunk(dirtily, p, formals, chunk, cells[from..m.pos], all, from, m.pos, start);
        from := m.pos;
        chunk := m.NextChunkOnList(MAX_BITVECTOR_LENGTH);
      }
    }

    method AnalyzeLiveVariables(p: Proc, vars: List?, ghost cells: seq<List>)
      requires JumpsInside(p) && IsList(vars, cells)
      modifies `live, `inside, `dirty, nodes, engine, cells
      ensures IsList(vars, cells) && Elements(cells) == old(Elements(cells)) && dirty == old(dirty)
      ensures Marked() == AfterLive(p, Chunks(Elements(cells)), old(Marked()))
      ensures forall n :: At(live, n) == LiveVars(p, Chunks(Elements(cells)), old(Marked()), n)
      ensures forall n :: At(inside, n) == ExprLiveVars(p, Chunks(Elements(cells)), old(Marked()), n)
    {
      hide IsList;
      hide Elements;
      hide Chunks;
      hide AfterLive;
      hide LiveVars;
      hide ExprLiveVars;
      ghost var start := Marked();
      live, inside := map[], map[];
      assert Elements(cells)[0..] == Elements(cells);
      ApplyInChunks(false, p, {}, vars, cells, start);
      assert Elements(cells)[|cells|..] == [];
      LiveLast(p, Marked());
    }

    method AnalyzeDirtyVariables(p: Proc, formals: set<nat>, vars: List?, ghost cells: seq<List>)
      requires JumpsInside(p) && IsList(vars, cells)
      modifies `live, `inside, `dirty, nodes, engine, cells
      ensures IsList(vars, cells) && Elements(cells) == old(Elements(cells)) && live == old(live) && inside == old(inside)
      ensures Marked() == AfterDirty(p, Chunks(Elements(cells)), formals, old(Marked()))
      ensures forall n :: At(dirty, n) == DirtyVars(p, Chunks(Elements(cells)), formals, old(Marked()), n, At(live, n))
    {
      hide IsList;
      hide Elements;
      hide Chunks;
      hide AfterDirty;
      hide DirtyVars;
      ghost var start := Marked();
      dirty := map[];
      assert Elements(cells)[0..] == Elements(cells);
      ApplyInChunks(true, p, formals, vars, cells, start);
      assert Elements(cells)[|cells|..] == [];
      DirtyLast(p, formals, Marked());
    }

    // Whether the bit is set in what the final pass showed at the exit of n.
    method IsShown(n: nat, b: Bit) returns (shown: bool)
      ensures shown <==> b in RawBits(engine.visits, n)
    {
      shown := exists v :: v in engine.visits && v.node == n && v.point == ExitPoint && b in v.value.bits;
    }

    method AnalyzeReturnFlow(p: Proc, ty: ProcType)
      requires Analyzable(p)
      modifies `needsReturn, engine
      ensures Marked() == AfterReturn(p, old(Marked()))
      ensures !IsPlainInt(ty) ==> needsReturn == (old(needsReturn) || ReturnBit(p, old(engine.cells)))
      ensures IsPlainInt(ty) ==> needsReturn == old(needsReturn)
    {
      hide ReturnBit;
      ghost var m := Marked();
      var passes := engine.IterateDataFlow(p, ReturnProblem(p), Forwards);
      var reachable := IsShown(p.id, REACHABLE);
      ShownAtExit(ReturnProblem(p), p, m.cells, REACHABLE);
      NeedsReturnMeans(p, m, ty);
      if reachable && (ty.isVoid || !ty.isInt || ty.isCilk) {
        needsReturn := true;
      }
    }

    method AnalyzeSyncFlow(p: Proc)
      requires JumpsInside(p) && nodes.Ready()
      modifies `needsSync, nodes`gen, nodes`kill, engine
      ensures forall n :: n in needsSync <==>
                (n in old(needsSync) || ((IsReturnIn(p.body, n) || n == p.id) && NeedsSync(p, old(Marked()), n)))
    {
      ghost var m := Marked();
      nodes.WalkProc(SyncFlow, p);
      var passes := engine.IterateDataFlow(p, GenKillProblem(p, EmptySet, nodes.gen, nodes.kill), Forwards);
      SyncSetsIgnoreVariables(p, nodes.vars, m.sets);
      var found := set v | v in engine.visits && v.point == ExitPoint && CHILDREN_OUTSTANDING in v.value.bits
                           && (IsReturnIn(p.body, v.node) || v.node == p.id) :: v.node;
      needsSync := needsSync + found;
    }

    /** All analyses of one procedure, in the order of AnalyzeProgram.  What they record is
        what the compiled procedure needs to be correct. */
    method AnalyzeProgram(p: Proc, ty: ProcType, formals: set<nat>, vars: List?, ghost cells: seq<List>)
      requires Analyzable(p) && IsList(vars, cells) && Marked() == Unmarked && needsSync == {} && !needsReturn
      modifies this, nodes, engine, cells
      ensures IsList(vars, cells) && Elements(cells) == old(Elements(cells))
      ensures RecordedBy(p, Elements(cells), formals, Recorded(live, dirty, needsSync))
      ensures needsReturn == (!IsPlainInt(ty) && ReturnBit(p, MarksForReturn(p, Elements(cells), formals).cells))
      ensures forall n :: At(inside, n) == ExprLiveVars(p, Chunks(Elements(cells)), Unmarked, n)
    {
      hide IsList;
      hide Elements;
      hide LiveVars;
      hide ExprLiveVars;
      hide DirtyVars;
      hide NeedsSync;
      hide ReturnBit;
      hide AfterLive;
      hide AfterDirty;
      hide Tree;
      hide JumpsInside;
      hide Converge;
      hide Chunks;
      AnalyzeLiveVariables(p, vars, cells);
      AnalyzeDirtyVariables(p, formals, vars, cells);
      AnalyzeReturnFlow(p, ty);
      // the variable list is no longer looked at
      UseChunk(null, []);
      AnalyzeSyncFlow(p);
    }
  }
}
