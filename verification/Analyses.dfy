/**
 The variable analyses of a procedure: live and dirty variables, a word of variables at a
 time.  The sets recorded on the nodes are characterized by paths, whatever the number of
 variables.
 */
module Analyses {
  import opened Ast
  import opened FlowValues
  import opened Flow
  import opened Descent
  import opened TwoRuns
  import opened Convergence
  import opened Control
  import opened Facts
  import opened Clients
  import opened Walks
  import opened PassValues
  import opened Results
  import BE = BackwardExact
  import FE = ForwardExact
  import FP = ForwardPaths

  // ---------- Trees ----------

  // A procedure as parsed and resolved: no node is shared, every jump is resolved.
  ghost predicate Tree(p: Proc) {
    Resolved(p.body, Stop) && LabelsDefined(p) && DistinctStmt(p.body) && p.id !in StmtIds(p.body)
  }

  lemma {:induction false} PlaceInside(s: Stmt, k: Cont, q: Place)
    requires q in Places(s, k) && HasId(q.s)
    ensures q.s.id in StmtIds(s)
  {
    hide ExprIds;
    if q != Place(s, k) {
      match s
      case Then(first, rest) =>
        if q in Places(rest, k) { PlaceInside(rest, k, q); } else { PlaceInside(first, Seq(rest, k), q); }
      case Block(_, items) => PlaceInside(items, k, q);
      case If(_, _, yes, no) => if q in Places(yes, k) { PlaceInside(yes, k, q); } else { PlaceInside(no, k, q); }
      case Switch(_, _, _, body) => PlaceInside(body, InSwitch(s, k), q);
      case While(_, _, body) => PlaceInside(body, InLoop(s, k), q);
      case Do(_, body, _) => PlaceInside(body, InLoop(s, k), q);
      case For(_, _, _, _, body) => PlaceInside(body, InLoop(s, k), q);
    }
  }

  lemma {:induction false} PlacesApart(s: Stmt, k: Cont, q: Place, r: Place)
    requires DistinctStmt(s) && q in Places(s, k) && r in Places(s, k)
    requires HasId(q.s) && HasId(r.s) && q.s.id == r.s.id
    ensures q == r
    decreases s, 1
  {
    hide ExprIds;
    hide DistinctExpr;
    if q != Place(s, k) && r != Place(s, k) {
      match s
      case Then(first, rest) => PartsApart(s, first, Seq(rest, k), rest, k, q, r);
      case Block(_, items) => PlacesApart(items, k, q, r);
      case If(_, _, yes, no) => PartsApart(s, yes, k, no, k, q, r);
      case Switch(_, _, _, body) => PlacesApart(body, InSwitch(s, k), q, r);
      case While(_, _, body) => PlacesApart(body, InLoop(s, k), q, r);
      case Do(_, body, _) => PlacesApart(body, InLoop(s, k), q, r);
      case For(_, _, _, _, body) => PlacesApart(body, InLoop(s, k), q, r);
    } else if q != r {
      OwnPlaceApart(s, k, if q == Place(s, k) then r else q);
    }
  }

  lemma {:induction false} PartsApart(whole: Stmt, s: Stmt, k: Cont, t: Stmt, j: Cont, q: Place, r: Place)
    requires DistinctStmt(s) && DistinctStmt(t) && StmtIds(s) !! StmtIds(t)
    requires q in Places(s, k) + Places(t, j) && r in Places(s, k) + Places(t, j)
    requires HasId(q.s) && HasId(r.s) && q.s.id == r.s.id && s < whole && t < whole
    ensures q == r
    decreases whole, 0
  {
    if q in Places(s, k) { PlaceInside(s, k, q); } else { PlaceInside(t, j, q); }
    if r in Places(s, k) { PlaceInside(s, k, r); } else { PlaceInside(t, j, r); }
    if q in Places(s, k) { PlacesApart(s, k, q, r); } else { PlacesApart(t, j, q, r); }
  }

  lemma OwnPlaceApart(s: Stmt, k: Cont, q: Place)
    requires DistinctStmt(s) && HasId(s) && q in Places(s, k) && q != Place(s, k) && HasId(q.s)
    ensures q.s.id != s.id
  {
    hide ExprIds;
    hide DistinctExpr;
    match s
    case Block(_, items) => PlaceInside(items, k, q);
    case If(_, _, yes, no) => if q in Places(yes, k) { PlaceInside(yes, k, q); } else { PlaceInside(no, k, q); }
    case Switch(_, _, _, body) => PlaceInside(body, InSwitch(s, k), q);
    case While(_, _, body) => PlaceInside(body, InLoop(s, k), q);
    case Do(_, body, _) => PlaceInside(body, InLoop(s, k), q);
    case For(_, _, _, _, body) => PlaceInside(body, InLoop(s, k), q);
  }

  lemma TreeIsWellFormed(p: Proc)
    requires Tree(p)
    ensures WellFormed(p) && JumpsInside(p)
  {
    hide StmtIds;
    hide DistinctStmt;
    forall a | a in AllPlaces(p) && HasId(a.s) ensures a.s.id != p.id {
      PlaceInside(p.body, Stop, a);
    }
    forall a, b | a in AllPlaces(p) && b in AllPlaces(p) && HasId(a.s) && HasId(b.s) && a.s.id == b.s.id ensures a == b {
      PlacesApart(p.body, Stop, a, b);
    }
    WellFormedJumpsInside(p);
  }

  // Every tree jumps inside itself; the functions that run the engine ask for it.
  ghost predicate Analyzable(p: Proc) {
    Tree(p) && JumpsInside(p)
  }

  // ---------- Chunks of variables ----------

  // ApplyInChunks: as many words as it takes.
  function Chunks(vars: seq<nat>): seq<seq<nat>> {
    if vars == [] then []
    else if |vars| <= MAX_BITVECTOR_LENGTH then [vars]
    else [vars[..MAX_BITVECTOR_LENGTH]] + Chunks(vars[MAX_BITVECTOR_LENGTH..])
  }

  ghost predicate InWords(chunks: seq<seq<nat>>) {
    forall c :: c in chunks ==> |c| <= MAX_BITVECTOR_LENGTH
  }

  ghost predicate InSome(chunks: seq<seq<nat>>, x: nat) {
    exists i :: 0 <= i < |chunks| && x in chunks[i]
  }

  lemma {:induction false} ChunksCover(vars: seq<nat>, x: nat)
    ensures InWords(Chunks(vars)) && (InSome(Chunks(vars), x) <==> x in vars)
  {
    if vars == [] {
    } else if |vars| <= MAX_BITVECTOR_LENGTH {
      assert Chunks(vars)[0] == vars;
    } else {
      var (first, rest) := (vars[..MAX_BITVECTOR_LENGTH], vars[MAX_BITVECTOR_LENGTH..]);
      ChunksCover(rest, x);
      var c := Chunks(vars);
      assert c[0] == first && c[1..] == Chunks(rest) && vars == first + rest;
      InSomeSplit(c, x);
    }
  }

  lemma InSomeSplit(c: seq<seq<nat>>, x: nat)
    requires c != []
    ensures InSome(c, x) <==> x in c[0] || InSome(c[1..], x)
  {
    if InSome(c[1..], x) {
      var i :| 0 <= i < |c[1..]| && x in c[1..][i];
      assert x in c[i + 1];
    }
    if InSome(c, x) && x !in c[0] {
      var i :| 0 <= i < |c| && x in c[i];
      assert x in c[1..][i - 1];
    }
  }

  // ListSelect: the variables whose bits are set, whether or not the value is defined.
  ghost function Selected(vars: seq<nat>, bits: set<Bit>): set<nat> {
    set i | 0 <= i < |vars| && i < MAX_BITVECTOR_LENGTH && i in bits :: vars[i]
  }

  // The bits shown at the exit of node n.
  ghost function RawBits(visits: set<Visit>, n: nat): set<Bit> {
    set v, b: Bit | v in visits && v.node == n && v.point == ExitPoint && b in v.value.bits :: b
  }

  // What an analysis finds on the nodes and leaves there.
  datatype Marks = Marks(sets: Store, cells: Cells)

  const Unmarked := Marks(Store(map[], map[]), map[])

  // ---------- Live variables ----------

  ghost function LiveSets(p: Proc, chunk: seq<nat>, m: Marks): Store {
    WalkWhole(LiveVariables, chunk, p, m.sets)
  }

  ghost function LiveProblem(p: Proc, chunk: seq<nat>, m: Marks): Problem {
    GenKillProblem(p, EmptySet, LiveSets(p, chunk, m).gen, LiveSets(p, chunk, m).kill)
  }

  // AnalyzeLV.
  ghost function AfterLV(p: Proc, chunk: seq<nat>, m: Marks): Marks
    requires JumpsInside(p)
  {
    Marks(LiveSets(p, chunk, m), Converge(LiveProblem(p, chunk, m), Backwards, p, Started(p, m.cells)).cells)
  }

  ghost function VisitsLV(p: Proc, chunk: seq<nat>, m: Marks): set<Visit>
    requires JumpsInside(p)
  {
    FinalVisits(LiveProblem(p, chunk, m), Backwards, p, m.cells)
  }

  // AnalyzeLiveVariables: the marks it leaves and the variables it records at node n.
  ghost function AfterLive(p: Proc, chunks: seq<seq<nat>>, m: Marks): Marks
    requires JumpsInside(p)
  {
    if chunks == [] then m else AfterLive(p, chunks[1..], AfterLV(p, chunks[0], m))
  }

  ghost function LiveVars(p: Proc, chunks: seq<seq<nat>>, m: Marks, n: nat): set<nat>
    requires JumpsInside(p)
  {
    if chunks == [] then {}
    else Selected(chunks[0], RawBits(VisitsLV(p, chunks[0], m), n)) + LiveVars(p, chunks[1..], AfterLV(p, chunks[0], m), n)
  }

  // The tree is as the parser made it, as far as live variables are concerned: operators
  // that the set-up skips have empty sets.
  ghost predicate ReadyForLive(p: Proc, m: Marks) {
    Fresh(LiveVariables, m.sets, LeftAloneIn(p.body))
  }

  lemma LiveMarked(p: Proc, chunk: seq<nat>, m: Marks)
    requires Tree(p) && ReadyForLive(p, m)
    ensures var r := LiveSets(p, chunk, m);
      && AllMarked(LiveRule(chunk), r.gen, r.kill, StmtDeeds(p.body) + {(p.id, Nothing)})
      && ReadyForLive(p, AfterLVSets(p, chunk, m))
  {
    hide StmtDeeds;
    hide WalkStmt;
    WalkWholeDone(LiveVariables, chunk, p, m.sets);
    StmtInside(p.body);
    var r := LiveSets(p, chunk, m);
    forall n | n in LeftAloneIn(p.body) ensures Look(r.gen, n) == {} && Look(r.kill, n) == {} {
      AloneInStays(chunk, p.body, m.sets, n);
    }
  }

  ghost function AfterLVSets(p: Proc, chunk: seq<nat>, m: Marks): Marks {
    Marks(LiveSets(p, chunk, m), m.cells)
  }

  lemma WalkWholeDone(c: Client, vars: seq<nat>, p: Proc, m: Store)
    requires DistinctStmt(p.body) && p.id !in StmtIds(p.body) && Fresh(c, m, LeftAloneIn(p.body))
    ensures var r := WalkWhole(c, vars, p, m);
      AllMarked(RuleOf(c, vars), r.gen, r.kill, StmtDeeds(p.body) + {(p.id, Nothing)})
  {
    hide StmtDeeds;
    hide WalkStmt;
    hide DistinctStmt;
    hide StmtIds;
    StmtInside(p.body);
    if IsPreorder(c) {
      var a := m.With(p.id, {}, {});
      AnyFresh(c, a, LeftAloneIn(p.body));
      WalkStmtDone(c, vars, p.body, a);
      MarkStays(RuleOf(c, vars), a, WalkStmt(c, vars, p.body, a), StmtIds(p.body), p.id, Nothing);
    } else {
      WalkStmtDone(c, vars, p.body, m);
      var a := WalkStmt(c, vars, p.body, m);
      GoodStays(c, vars, a, a.With(p.id, {}, {}), StmtDeeds(p.body), {p.id});
    }
  }

  // ---------- Values left undefined ----------

  // With empty gen and kill sets: which cells become defined does not depend on the sets.
  ghost function PlainEnd(p: Proc): Cells
    requires JumpsInside(p)
  {
    Converge(GenKillProblem(p, EmptySet, map[], map[]), Backwards, p, Started(p, map[])).cells
  }

  // Cells that no pass ever writes still have the empty bits they were allocated with.
  ghost predicate StaleFree(p: Proc, cells: Cells)
    requires JumpsInside(p)
  {
    && (forall c :: Get(PlainEnd(p), c).undefined ==> Get(cells, c).bits == {})
    && (forall c :: c !in ProcCells(p) ==> !Get(cells, c).undefined)
  }

  lemma SameFlags(p: Proc, g: BitSets, k: BitSets, h: BitSets, l: BitSets)
    ensures Respected((v: FlowValue, w: FlowValue) => v.undefined == w.undefined,
                      GenKillProblem(p, EmptySet, g, k), GenKillProblem(p, EmptySet, h, l))
  {
    forall n, pt, v: FlowValue, w: FlowValue | v.undefined == w.undefined
      ensures GenKillTrans(g, k)(n, pt, v).undefined == GenKillTrans(h, l)(n, pt, w).undefined
    {
      TransMeaning(g, k, n, pt, v);
      TransMeaning(h, l, n, pt, w);
    }
  }

  lemma StartedSettles(P: Problem, dir: Direction, p: Proc, cells: Cells)
    ensures Settled(P, dir, p, Started(p, cells))
  {
  }

  // The converged cells: the same are undefined for all sets, and those are as they were.
  lemma EndFlags(p: Proc, g: BitSets, k: BitSets, cells: Cells, c: Cell)
    requires JumpsInside(p) && StaleFree(p, cells)
    ensures var r := Converge(GenKillProblem(p, EmptySet, g, k), Backwards, p, Started(p, cells)).cells;
      && (Get(r, c).undefined <==> Get(PlainEnd(p), c).undefined)
      && (Get(r, c).undefined ==> Get(r, c).bits == {})
      && (c !in ProcCells(p) ==> !Get(r, c).undefined)
  {
    var R := (v: FlowValue, w: FlowValue) => v.undefined == w.undefined;
    var (P, Q) := (GenKillProblem(p, EmptySet, g, k), GenKillProblem(p, EmptySet, map[], map[]));
    var (a, b) := (Started(p, cells), Started(p, map[]));
    SameFlags(p, g, k, map[], map[]);
    StartedSettles(P, Backwards, p, cells);
    StartedSettles(Q, Backwards, p, map[]);
    forall d ensures R(Get(a.cells, d), Get(b.cells, d)) {
      InitPointsMeaning(p.body, cells, d);
      InitPointsMeaning(p.body, map[], d);
    }
    ConvergeRelated(R, Everywhere, P, Q, Backwards, p, a, b);
    var (x, y) := (Converge(P, Backwards, p, a), Converge(Q, Backwards, p, b));
    assert R(Get(x.cells, c), Get(y.cells, c));
    ConvergeDown(P, Backwards, p, a, c);
    InitPointsMeaning(p.body, cells, c);
  }

  lemma UnmarkedIsStaleFree(p: Proc)
    requires JumpsInside(p)
    ensures StaleFree(p, map[])
  {
  }

  // An undefined value has empty bits, so recording its raw bits records nothing.
  predicate Clean(v: FlowValue) {
    v.undefined ==> v.bits == {}
  }

  lemma CleanIsClosed(p: Proc, g: BitSets, k: BitSets)
    ensures Closed(Clean, GenKillProblem(p, EmptySet, g, k))
  {
    forall n, pt, v | Clean(v) ensures Clean(GenKillTrans(g, k)(n, pt, v)) {
      TransMeaning(g, k, n, pt, v);
    }
  }

  lemma LiveVisitsClean(p: Proc, chunk: seq<nat>, m: Marks, v: Visit)
    requires JumpsInside(p) && StaleFree(p, m.cells) && v in VisitsLV(p, chunk, m)
    ensures Clean(v.value)
  {
    var P := LiveProblem(p, chunk, m);
    var r := LiveSets(p, chunk, m);
    var st := State(AfterLV(p, chunk, m).cells, false, true, {});
    forall c ensures Clean(Get(st.cells, c)) {
      EndFlags(p, r.gen, r.kill, m.cells, c);
    }
    CleanIsClosed(p, r.gen, r.kill);
    BackwardProcStaysIn(Clean, P, p, st);
  }

  lemma StaysReady(p: Proc, chunk: seq<nat>, m: Marks)
    requires Analyzable(p) && ReadyForLive(p, m) && StaleFree(p, m.cells)
    ensures var r := AfterLV(p, chunk, m); ReadyForLive(p, r) && StaleFree(p, r.cells)
  {
    LiveMarked(p, chunk, m);
    var r := LiveSets(p, chunk, m);
    forall c ensures var e := AfterLV(p, chunk, m).cells;
      (Get(PlainEnd(p), c).undefined ==> Get(e, c).bits == {}) && (c !in ProcCells(p) ==> !Get(e, c).undefined)
    {
      EndFlags(p, r.gen, r.kill, m.cells, c);
    }
  }

  // One chunk: the variables recorded are those with a path to a use.
  lemma LiveChunkExact(p: Proc, chunk: seq<nat>, m: Marks, q: Place, x: nat)
    requires Analyzable(p) && ReadyForLive(p, m) && StaleFree(p, m.cells)
    requires |chunk| <= MAX_BITVECTOR_LENGTH && q in AllPlaces(p) && HasId(q.s)
    ensures x in Selected(chunk, RawBits(VisitsLV(p, chunk, m), q.s.id))
       <==> x in chunk && BE.Live(LiveFact(x), p, BE.LiveAt(q, ExitMark))
  {
    var V := VisitsLV(p, chunk, m);
    forall i: Bit | i < |chunk|
      ensures i in RawBits(V, q.s.id) <==> BE.Live(LiveFact(chunk[i]), p, BE.LiveAt(q, ExitMark))
    {
      LiveBitExact(p, chunk, m, q, i);
    }
    if x in chunk && BE.Live(LiveFact(x), p, BE.LiveAt(q, ExitMark)) {
      var i :| 0 <= i < |chunk| && chunk[i] == x;
      assert i in RawBits(V, q.s.id);
    }
  }

  lemma LiveBitExact(p: Proc, chunk: seq<nat>, m: Marks, q: Place, i: Bit)
    requires Analyzable(p) && ReadyForLive(p, m) && StaleFree(p, m.cells)
    requires i < |chunk| && q in AllPlaces(p) && HasId(q.s)
    ensures i in RawBits(VisitsLV(p, chunk, m), q.s.id) <==> BE.Live(LiveFact(chunk[i]), p, BE.LiveAt(q, ExitMark))
  {
    hide BE.Live;
    hide FinalVisits;
    var r := LiveSets(p, chunk, m);
    var P := LiveProblem(p, chunk, m);
    var F := LiveFact(chunk[i]);
    var V := VisitsLV(p, chunk, m);
    TreeIsWellFormed(p);
    LiveMarked(p, chunk, m);
    LiveRuleIs(chunk, i);
    ProcLike(LiveRule(chunk), r.gen, r.kill, i, F, p, EmptySet);
    BackwardAnalysisExact(P, i, F, p, m.cells, q);
    if i in RawBits(V, q.s.id) {
      var v :| v in V && v.node == q.s.id && v.point == ExitPoint && i in v.value.bits;
      LiveVisitsClean(p, chunk, m, v);
      assert Visit(q.s.id, ExitPoint, v.value) in V && Has(v.value, i);
    }
    if Shown(V, q.s.id, i) {
      var v :| Visit(q.s.id, ExitPoint, v) in V && Has(v, i);
      var w := Visit(q.s.id, ExitPoint, v);
      assert w in V && w.node == q.s.id && w.point == ExitPoint && i in w.value.bits;
    }
  }

  /** The live variables recorded at a statement are exactly the variables with a path from
      its exit to a use that no kill precedes, however many words the variables take. */
  lemma {:induction false} LiveVarsExact(p: Proc, chunks: seq<seq<nat>>, m: Marks, q: Place, x: nat)
    requires Analyzable(p) && ReadyForLive(p, m) && StaleFree(p, m.cells)
    requires InWords(chunks) && q in AllPlaces(p) && HasId(q.s)
    ensures x in LiveVars(p, chunks, m, q.s.id)
       <==> InSome(chunks, x) && BE.Live(LiveFact(x), p, BE.LiveAt(q, ExitMark))
  {
    hide BE.Live;
    hide FinalVisits;
    if chunks != [] {
      LiveChunkExact(p, chunks[0], m, q, x);
      StaysReady(p, chunks[0], m);
      LiveVarsExact(p, chunks[1..], AfterLV(p, chunks[0], m), q, x);
      InSomeSplit(chunks, x);
    }
  }

  lemma AnalyzeLiveExact(p: Proc, vars: seq<nat>, q: Place, x: nat)
    requires Analyzable(p) && q in AllPlaces(p) && HasId(q.s)
    ensures x in LiveVars(p, Chunks(vars), Unmarked, q.s.id)
       <==> x in vars && BE.Live(LiveFact(x), p, BE.LiveAt(q, ExitMark))
  {
    hide BE.Live;
    hide FinalVisits;
    ChunksCover(vars, x);
    UnmarkedIsStaleFree(p);
    LiveVarsExact(p, Chunks(vars), Unmarked, q, x);
  }
}
