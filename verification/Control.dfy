/**
 Control flow of a procedure, given independently of the analysis.

 A control state says which statement runs next and what remains to be done after it (the
 continuation).  `Step` relates control states; its label is what the step does to
 variables and children, in execution order.  A path is a sequence of steps.
 */
module Control {
  import opened Ast

  datatype Receipt = NoReceipt | SetBy(x: nat) | UpdatedBy(x: nat)

  // What execution does that some analysis cares about.
  datatype Event =
    | Computed           // a constant or a sizeof is evaluated
    | Use(x: nat)        // x is read
    | Set(x: nat)        // x is overwritten
    | Update(x: nat)     // x is written after having been read (op-assignment, ++, --)
    | Declare(x: nat)    // x comes into being without a value
    | Spawned(r: Receipt)
    | Synced
    | Returned

  type Trace = seq<Event>

  // What evaluating an expression does.
  predicate IsEvaluation(ev: Event) {
    ev == Computed || ev.Use? || ev.Set? || ev.Update?
  }

  // ---------- Paths through expressions ----------

  ghost predicate IsPath(e: Expr, t: Trace) {
    match e
    case Const(_, _) => t == [Computed]
    case Id(_, x) => t == [Use(x)]
    case Binop(_, op, left, right) =>
      if IsPlainTarget(op, left) then
        |t| > 0 && IsPath(right, t[..|t| - 1]) && t[|t| - 1] == Set(left.decl)
      else if op.OpAssign? && left.Id? then
        |t| > 0 && t[|t| - 1] == Update(left.decl) &&
        var u := t[..|t| - 1];
        exists i | 0 <= i <= |u| :: IsPath(left, u[..i]) && IsPath(right, u[i..])
      else if op.AndAnd? || op.OrOr? then
        IsPath(left, t) || exists i | 0 <= i <= |t| :: IsPath(left, t[..i]) && IsPath(right, t[i..])
      else
        exists i | 0 <= i <= |t| :: IsPath(left, t[..i]) && IsPath(right, t[i..])
    case Unary(_, uop, operand) =>
      if uop.SizeOf? then t == [Computed]
      else if uop.IncDec? && operand.Id? then t == [Use(operand.decl), Update(operand.decl)]
      else IsPath(operand, t)
    case Ternary(_, cond, yes, no) =>
      exists i | 0 <= i <= |t| :: IsPath(cond, t[..i]) && (IsPath(yes, t[i..]) || IsPath(no, t[i..]))
    case Call(_, name, args) =>
      exists i | 0 <= i <= |t| :: IsPath(name, t[..i]) && IsPathThroughAll(args, t[i..])
  }

  // A path through one expression and then another.
  ghost predicate IsPathThrough(first: Expr, second: Expr, t: Trace) {
    exists i | 0 <= i <= |t| :: IsPath(first, t[..i]) && IsPath(second, t[i..])
  }

  ghost predicate IsPathThroughAll(es: Exprs, t: Trace) {
    match es
    case NoExprs => t == []
    case MoreExprs(head, tail) =>
      exists i | 0 <= i <= |t| :: IsPath(head, t[..i]) && IsPathThroughAll(tail, t[i..])
  }

  ghost predicate IsPathOpt(o: OptExpr, t: Trace) {
    match o
    case NoExpr => t == []
    case TheExpr(e) => IsPath(e, t)
  }

  // A plain assignment or spawn into a variable does not read the variable.
  ghost predicate IsReceiverPath(s: Stmt, t: Trace)
    requires s.Spawn?
  {
    if s.receiver.TheExpr? && IsPlainTarget(s.op, s.receiver.e) then t == [] else IsPathOpt(s.receiver, t)
  }

  function SpawnEvent(s: Stmt): Event
    requires s.Spawn?
  {
    if s.receiver.NoExpr? || !s.receiver.e.Id? then Spawned(NoReceipt)
    else if s.op == Assign then Spawned(SetBy(s.receiver.e.decl))
    else Spawned(UpdatedBy(s.receiver.e.decl))
  }

  ghost predicate IsSpawnPath(s: Stmt, t: Trace)
    requires s.Spawn?
  {
    exists i, j | 0 <= i <= j <= |t| ::
      IsReceiverPath(s, t[..i]) && IsPath(s.callee, t[i..j]) && IsPathThroughAll(s.args, t[j..])
  }

  lemma ThreeParts(u: Trace, v: Trace, w: Trace)
    ensures var t := u + (v + w); t[..|u|] == u && t[|u|..|u + v|] == v && t[|u + v|..] == w
  {
    var t := u + (v + w);
    assert t[|u|..] == v + w;
    assert t[|u|..|u + v|] == t[|u|..][..|v|];
    assert t[|u + v|..] == t[|u|..][|v|..];
  }

  function DeclEvent(s: Stmt): Event
    requires s.Decl?
  {
    if s.init.TheExpr? then Set(s.id) else Declare(s.id)
  }

  // ---------- Positions of statements ----------

  datatype Cont = Stop | Seq(s: Stmt, k: Cont) | InLoop(loop: Stmt, k: Cont) | InSwitch(sw: Stmt, k: Cont)

  // A statement together with what follows it.
  datatype Place = Place(s: Stmt, k: Cont)

  ghost function Places(s: Stmt, k: Cont): set<Place> {
    {Place(s, k)} +
    match s
    case Then(first, rest) => Places(first, Seq(rest, k)) + Places(rest, k)
    case Block(_, items) => Places(items, k)
    case If(_, _, yes, no) => Places(yes, k) + Places(no, k)
    case Switch(_, _, _, body) => Places(body, InSwitch(s, k))
    case While(_, _, body) => Places(body, InLoop(s, k))
    case Do(_, body, _) => Places(body, InLoop(s, k))
    case For(_, _, _, _, body) => Places(body, InLoop(s, k))
    case _ => {}
  }

  ghost function AllPlaces(p: Proc): set<Place> {
    Places(p.body, Stop)
  }

  predicate IsLoop(s: Stmt) {
    s.While? || s.Do? || s.For?
  }

  // The continuation from the innermost enclosing loop or switch on; Stop if there is none.
  function BreakFrame(k: Cont): (f: Cont)
    ensures !f.Seq?
  {
    if k.Seq? then BreakFrame(k.k) else k
  }

  function LoopFrame(k: Cont): (f: Cont)
    ensures f.Stop? || f.InLoop?
  {
    if k.Seq? || k.InSwitch? then LoopFrame(k.k) else k
  }

  function SwitchFrame(k: Cont): (f: Cont)
    ensures f.Stop? || f.InSwitch?
  {
    if k.Seq? || k.InLoop? then SwitchFrame(k.k) else k
  }

  function KindOfLoop(s: Stmt): Loop {
    if s.While? then WhileLoop else if s.Do? then DoLoop else ForLoop
  }

  function FrameTarget(f: Cont): Target
    requires (f.InLoop? && IsLoop(f.loop)) || (f.InSwitch? && f.sw.Switch?)
  {
    if f.InLoop? then LoopTarget(KindOfLoop(f.loop), f.loop.id) else SwitchTarget(f.sw.id)
  }

  predicate WellFramed(k: Cont) {
    match k
    case Stop => true
    case Seq(_, k) => WellFramed(k)
    case InLoop(l, k) => IsLoop(l) && WellFramed(k)
    case InSwitch(sw, k) => sw.Switch? && WellFramed(k)
  }

  predicate IsCaseOf(s: Stmt, sw: nat) {
    (s.Case? || s.Default?) && s.container == sw
  }

  // The jumps of s lead where the language says: break to the innermost loop or switch,
  // continue to the innermost loop, case and default to the innermost switch.
  ghost predicate Resolved(s: Stmt, k: Cont)
    requires WellFramed(k)
  {
    match s
    case Then(first, rest) => Resolved(first, Seq(rest, k)) && Resolved(rest, k)
    case Block(_, items) => Resolved(items, k)
    case If(_, _, yes, no) => Resolved(yes, k) && Resolved(no, k)
    case Switch(id, hasDefault, _, body) =>
      Resolved(body, InSwitch(s, k)) && (hasDefault <==> HasDefault(body, id))
    case While(_, _, body) => Resolved(body, InLoop(s, k))
    case Do(_, body, _) => Resolved(body, InLoop(s, k))
    case For(_, _, _, _, body) => Resolved(body, InLoop(s, k))
    case Break(_, t) => WellFramed(BreakFrame(k)) && !BreakFrame(k).Stop? && t == FrameTarget(BreakFrame(k))
    case Continue(_, t) => WellFramed(LoopFrame(k)) && LoopFrame(k).InLoop? && t == FrameTarget(LoopFrame(k))
    case Case(_, _, c) => WellFramed(SwitchFrame(k)) && SwitchFrame(k).InSwitch? && c == SwitchFrame(k).sw.id
    case Default(_, c) => WellFramed(SwitchFrame(k)) && SwitchFrame(k).InSwitch? && c == SwitchFrame(k).sw.id
    case _ => true
  }

  function HasDefault(s: Stmt, sw: nat): bool {
    match s
    case Then(first, rest) => HasDefault(first, sw) || HasDefault(rest, sw)
    case Block(_, items) => HasDefault(items, sw)
    case If(_, _, yes, no) => HasDefault(yes, sw) || HasDefault(no, sw)
    case Switch(_, _, _, body) => HasDefault(body, sw)
    case While(_, _, body) => HasDefault(body, sw)
    case Do(_, body, _) => HasDefault(body, sw)
    case For(_, _, _, _, body) => HasDefault(body, sw)
    case Default(_, c) => c == sw
    case _ => false
  }

  // A node occurs in the tree once.
  ghost predicate DistinctNodes(p: Proc) {
    (forall a :: a in AllPlaces(p) && HasId(a.s) ==> a.s.id != p.id) &&
    forall a, b :: a in AllPlaces(p) && b in AllPlaces(p) && HasId(a.s) && HasId(b.s) && a.s.id == b.s.id ==> a == b
  }

  ghost predicate LabelsDefined(p: Proc) {
    forall a :: a in AllPlaces(p) && a.s.Goto? ==> exists k :: Place(Label(a.s.destination), k) in AllPlaces(p)
  }

  // What the parser and the container stack hand to the analyses.
  ghost predicate WellFormed(p: Proc) {
    Resolved(p.body, Stop) && DistinctNodes(p) && LabelsDefined(p)
  }

  // ---------- Steps and paths ----------

  datatype Control =
    | Run(s: Stmt, k: Cont)       // about to run s
    | Skip(k: Cont)               // a statement is done
    | Test(loop: Stmt, k: Cont)   // about to test the loop
    | Dispatch(sw: Stmt, k: Cont) // about to choose a case
    | Halt                        // the procedure is left

  ghost predicate Step(p: Proc, a: Control, t: Trace, b: Control) {
    match a
    case Run(s, k) => RunStep(p, s, k, t, b)
    case Skip(k) => SkipStep(k, t, b)
    case Test(l, k) => TestStep(l, k, t, b)
    case Dispatch(sw, k) => DispatchStep(sw, k, t, b)
    case Halt => false
  }

  ghost predicate RunStep(p: Proc, s: Stmt, k: Cont, t: Trace, b: Control) {
    match s
    case Null => t == [] && b == Skip(k)
    case Then(first, rest) => t == [] && b == Run(first, Seq(rest, k))
    case Eval(e) => IsPath(e, t) && b == Skip(k)
    case Decl(_, init) => |t| > 0 && IsPathOpt(init, t[..|t| - 1]) && t[|t| - 1] == DeclEvent(s) && b == Skip(k)
    case Block(_, items) => t == [] && b == Run(items, k)
    case Label(_) => t == [] && b == Skip(k)
    case Goto(_, d) => t == [] && b.Run? && b.s == Label(d) && Place(b.s, b.k) in AllPlaces(p)
    case Switch(_, _, subject, _) => IsPath(subject, t) && b == Dispatch(s, k)
    case Case(_, _, _) => t == [] && b == Skip(k)
    case Default(_, _) => t == [] && b == Skip(k)
    case If(_, test, yes, no) => IsPath(test, t) && (b == Run(yes, k) || b == Run(no, k))
    case While(_, _, _) => t == [] && b == Test(s, k)
    case Do(_, body, _) => t == [] && b == Run(body, InLoop(s, k))
    case For(_, start, _, _, _) => IsPathOpt(start, t) && b == Test(s, k)
    case Break(_, _) => t == [] && !BreakFrame(k).Stop? && b == Skip(BreakFrame(k).k)
    case Continue(_, _) => t == [] && !LoopFrame(k).Stop? && b == Skip(LoopFrame(k))
    case Return(_, result) => |t| > 0 && IsPathOpt(result, t[..|t| - 1]) && t[|t| - 1] == Returned && b == Halt
    case Spawn(_, _, _, _, _) =>
      |t| > 0 && IsSpawnPath(s, t[..|t| - 1]) && t[|t| - 1] == SpawnEvent(s) && b == Skip(k)
    case Sync(_) => t == [Synced] && b == Skip(k)
  }

  ghost predicate SkipStep(k: Cont, t: Trace, b: Control) {
    match k
    case Stop => t == [] && b == Halt
    case Seq(s, k) => t == [] && b == Run(s, k)
    case InLoop(l, k) => (if l.For? then IsPathOpt(l.next, t) else t == []) && b == Test(l, k)
    case InSwitch(_, k) => t == [] && b == Skip(k)
  }

  ghost predicate TestStep(l: Stmt, k: Cont, t: Trace, b: Control) {
    if l.While? || l.Do? then
      IsPath(l.test, t) && (b == Run(l.body, InLoop(l, k)) || b == Skip(k))
    else
      l.For? && IsPathOpt(l.guard, t) && (b == Run(l.body, InLoop(l, k)) || (l.guard.TheExpr? && b == Skip(k)))
  }

  ghost predicate DispatchStep(sw: Stmt, k: Cont, t: Trace, b: Control) {
    sw.Switch? && t == [] &&
    ( || (b.Run? && IsCaseOf(b.s, sw.id) && Place(b.s, b.k) in Places(sw.body, InSwitch(sw, k)))
      || (!sw.hasDefault && b == Skip(k)))
  }

  datatype Move = Move(t: Trace, to: Control)

  type Path = seq<Move>

  ghost predicate IsRun(p: Proc, a: Control, path: Path)
    decreases |path|
  {
    path == [] || (Step(p, a, path[0].t, path[0].to) && IsRun(p, path[0].to, path[1..]))
  }

  function End(a: Control, path: Path): Control {
    if path == [] then a else path[|path| - 1].to
  }

  function TraceOf(path: Path): Trace {
    if path == [] then [] else path[0].t + TraceOf(path[1..])
  }
}
