/**
 Resolution of jumps while the syntax tree is built: the stack of open loops and switches.

 A `break`, `continue`, `case` or `default` is entered in an open container when it is
 parsed, and is bound to the container's node when the container is closed.
 */
module Containers {
  import opened Ast
  import opened Control
  import opened ControlFacts
  import opened Walks

  const MAX_SCOPE_DEPTH: nat := 100

  datatype Kind = SwitchKind | LoopKind(loop: Loop)

  datatype Containee = BreakIn(id: nat) | ContinueIn(id: nat) | CaseIn(id: nat) | DefaultIn(id: nat)

  datatype Container = Container(kind: Kind, cases: seq<Containee>, exits: seq<Containee>)

  // The open containers, and the fields of the nodes written so far.
  datatype Parsing = Parsing(
    open: seq<Container>, container: map<nat, Target>, hasDefault: set<nat>, cases: map<nat, seq<nat>>, errors: seq<nat>)

  function KindOf(t: Target): Kind {
    match t
    case LoopTarget(loop, _) => LoopKind(loop)
    case SwitchTarget(_) => SwitchKind
  }

  // The innermost open switch, or loop; -1 if there is none.
  function InnermostSwitch(open: seq<Container>): (i: int)
    ensures -1 <= i < |open|
    ensures i >= 0 ==> open[i].kind.SwitchKind?
    ensures forall j :: i < j < |open| ==> !open[j].kind.SwitchKind?
  {
    if open == [] then -1
    else if open[|open| - 1].kind.SwitchKind? then |open| - 1 else InnermostSwitch(open[..|open| - 1])
  }

  function InnermostLoop(open: seq<Container>): (i: int)
    ensures -1 <= i < |open|
    ensures i >= 0 ==> open[i].kind.LoopKind?
    ensures forall j :: i < j < |open| ==> !open[j].kind.LoopKind?
  {
    if open == [] then -1
    else if open[|open| - 1].kind.LoopKind? then |open| - 1 else InnermostLoop(open[..|open| - 1])
  }

  // Where a containee belongs.
  function Home(open: seq<Container>, c: Containee): (i: int)
    ensures -1 <= i < |open|
  {
    match c
    case BreakIn(_) => |open| - 1
    case ContinueIn(_) => InnermostLoop(open)
    case _ => InnermostSwitch(open)
  }

  function Enter(f: Container, c: Containee): Container {
    if c.CaseIn? || c.DefaultIn? then f.(cases := f.cases + [c]) else f.(exits := f.exits + [c])
  }

  function Added(st: Parsing, c: Containee): Parsing {
    var i := Home(st.open, c);
    if i < 0 then st.(errors := st.errors + [c.id])
    else st.(open := st.open[i := Enter(st.open[i], c)])
  }

  function BindAll(m: map<nat, Target>, cs: seq<Containee>, t: Target): map<nat, Target>
    decreases |cs|
  {
    if cs == [] then m else BindAll(m[cs[0].id := t], cs[1..], t)
  }

  function HasDefaultIn(cs: seq<Containee>): bool {
    exists i :: 0 <= i < |cs| && cs[i].DefaultIn?
  }

  function Popped(st: Parsing, t: Target): Parsing
    requires st.open != []
  {
    var f := st.open[|st.open| - 1];
    Parsing(
      st.open[..|st.open| - 1],
      BindAll(BindAll(st.container, f.exits, t), f.cases, t),
      if HasDefaultIn(f.cases) then st.hasDefault + {t.id} else st.hasDefault,
      if t.SwitchTarget? then st.cases[t.id := Ids(f.cases)] else st.cases,
      st.errors)
  }

  function Ids(cs: seq<Containee>): seq<nat> {
    seq(|cs|, i requires 0 <= i < |cs| => cs[i].id)
  }

  // The node that closes s, for a loop or switch.
  function TargetOf(s: Stmt): Target
    requires IsLoop(s) || s.Switch?
  {
    if s.Switch? then SwitchTarget(s.id) else LoopTarget(KindOfLoop(s), s.id)
  }

  // What parsing s does.
  function Parsed(s: Stmt, st: Parsing): (r: Parsing)
    ensures |r.open| == |st.open| && forall i :: 0 <= i < |st.open| ==> r.open[i].kind == st.open[i].kind
  {
    match s
    case Then(first, rest) => Parsed(rest, Parsed(first, st))
    case Block(_, items) => Parsed(items, st)
    case If(_, _, yes, no) => Parsed(no, Parsed(yes, st))
    case Switch(_, _, _, body) => Popped(Parsed(body, Pushed(st, SwitchKind)), TargetOf(s))
    case While(_, _, body) => Popped(Parsed(body, Pushed(st, LoopKind(WhileLoop))), TargetOf(s))
    case Do(_, body, _) => Popped(Parsed(body, Pushed(st, LoopKind(DoLoop))), TargetOf(s))
    case For(_, _, _, _, body) => Popped(Parsed(body, Pushed(st, LoopKind(ForLoop))), TargetOf(s))
    case Break(id, _) => Added(st, BreakIn(id))
    case Continue(id, _) => Added(st, ContinueIn(id))
    case Case(id, _, _) => Added(st, CaseIn(id))
    case Default(id, _) => Added(st, DefaultIn(id))
    case _ => st
  }

  function Pushed(st: Parsing, kind: Kind): Parsing {
    st.(open := st.open + [Container(kind, [], [])])
  }

  // The nesting depth of containers in s.
  function Depth(s: Stmt): nat {
    match s
    case Then(first, rest) => if Depth(first) < Depth(rest) then Depth(rest) else Depth(first)
    case Block(_, items) => Depth(items)
    case If(_, _, yes, no) => if Depth(yes) < Depth(no) then Depth(no) else Depth(yes)
    case Switch(_, _, _, body) => 1 + Depth(body)
    case While(_, _, body) => 1 + Depth(body)
    case Do(_, body, _) => 1 + Depth(body)
    case For(_, _, _, _, body) => 1 + Depth(body)
    case _ => 0
  }

  // What PopContainer asserts: cases belong to switches, and no switch holds a continue.
  predicate IsProper(f: Container) {
    if f.kind.SwitchKind? then forall i :: 0 <= i < |f.exits| ==> !f.exits[i].ContinueIn? else f.cases == []
  }

  predicate AllProper(open: seq<Container>) {
    forall i :: 0 <= i < |open| ==> IsProper(open[i])
  }

  // What a loop or switch does.
  lemma ParsedContainer(s: Stmt, body: Stmt, st: Parsing)
    requires (IsLoop(s) || s.Switch?) && body == s.body
    ensures Parsed(s, st) == Popped(Parsed(body, Pushed(st, KindOf(TargetOf(s)))), TargetOf(s))
    ensures |Parsed(body, Pushed(st, KindOf(TargetOf(s)))).open| == |st.open| + 1
  {
    hide Popped;
  }

  lemma AddedProper(st: Parsing, c: Containee)
    requires AllProper(st.open)
    ensures AllProper(Added(st, c).open)
  {
  }

  lemma PushedProper(st: Parsing, kind: Kind)
    requires AllProper(st.open)
    ensures AllProper(Pushed(st, kind).open)
  {
  }

  lemma PoppedProper(st: Parsing, t: Target)
    requires st.open != [] && AllProper(st.open)
    ensures AllProper(Popped(st, t).open)
  {
  }

  lemma {:induction false} ParsedProper(s: Stmt, st: Parsing)
    requires AllProper(st.open)
    ensures AllProper(Parsed(s, st).open)
    decreases s, 1
  {
    hide AllProper;
    hide Added;
    hide Popped;
    match s
    case Then(first, rest) => ParsedProper(first, st); ParsedProper(rest, Parsed(first, st));
    case Block(_, items) => ParsedProper(items, st);
    case If(_, _, yes, no) => ParsedProper(yes, st); ParsedProper(no, Parsed(yes, st));
    case Switch(_, _, _, body) => ContainerProper(s, body, st);
    case While(_, _, body) => ContainerProper(s, body, st);
    case Do(_, body, _) => ContainerProper(s, body, st);
    case For(_, _, _, _, body) => ContainerProper(s, body, st);
    case Break(id, _) => AddedProper(st, BreakIn(id));
    case Continue(id, _) => AddedProper(st, ContinueIn(id));
    case Case(id, _, _) => AddedProper(st, CaseIn(id));
    case Default(id, _) => AddedProper(st, DefaultIn(id));
    case _ =>
  }

  lemma {:induction false} ContainerProper(s: Stmt, body: Stmt, st: Parsing)
    requires (IsLoop(s) || s.Switch?) && body == s.body && AllProper(st.open)
    ensures AllProper(Parsed(s, st).open)
    decreases s, 0
  {
    hide AllProper;
    hide Popped;
    hide Pushed;
    hide Parsed;
    ParsedContainer(s, body, st);
    var pushed := Pushed(st, KindOf(TargetOf(s)));
    PushedProper(st, KindOf(TargetOf(s)));
    ParsedProper(body, pushed);
    PoppedProper(Parsed(body, pushed), TargetOf(s));
  }

  // ---------- What parsing resolves ----------

  // The innermost enclosing targets of a jump: for break, for continue, and the switch of a case.
  datatype Enclosing = Enclosing(brk: seq<Target>, cont: seq<Target>, sw: seq<Target>)

  function Inside(e: Enclosing, t: Target): Enclosing {
    if t.SwitchTarget? then Enclosing([t], e.cont, [t]) else Enclosing([t], [t], e.sw)
  }

  function EnclosingOf(targets: seq<Target>): Enclosing {
    if targets == [] then Enclosing([], [], [])
    else Inside(EnclosingOf(targets[..|targets| - 1]), targets[|targets| - 1])
  }

  function TargetFor(e: Enclosing, c: Containee): seq<Target> {
    match c
    case BreakIn(_) => e.brk
    case ContinueIn(_) => e.cont
    case _ => e.sw
  }

  // The reference: the innermost targets that enclose the jumps x of s.
  function TargetsOf(s: Stmt, e: Enclosing, x: nat): seq<Target> {
    match s
    case Then(first, rest) => TargetsOf(first, e, x) + TargetsOf(rest, e, x)
    case Block(_, items) => TargetsOf(items, e, x)
    case If(_, _, yes, no) => TargetsOf(yes, e, x) + TargetsOf(no, e, x)
    case Switch(_, _, _, body) => TargetsOf(body, Inside(e, TargetOf(s)), x)
    case While(_, _, body) => TargetsOf(body, Inside(e, TargetOf(s)), x)
    case Do(_, body, _) => TargetsOf(body, Inside(e, TargetOf(s)), x)
    case For(_, _, _, _, body) => TargetsOf(body, Inside(e, TargetOf(s)), x)
    case Break(id, _) => if id == x then e.brk else []
    case Continue(id, _) => if id == x then e.cont else []
    case Case(id, _, _) => if id == x then e.sw else []
    case Default(id, _) => if id == x then e.sw else []
    case _ => []
  }

  // The jumps that nothing encloses, in order.
  function Stray(s: Stmt, e: Enclosing): seq<nat> {
    match s
    case Then(first, rest) => Stray(first, e) + Stray(rest, e)
    case Block(_, items) => Stray(items, e)
    case If(_, _, yes, no) => Stray(yes, e) + Stray(no, e)
    case Switch(_, _, _, body) => Stray(body, Inside(e, TargetOf(s)))
    case While(_, _, body) => Stray(body, Inside(e, TargetOf(s)))
    case Do(_, body, _) => Stray(body, Inside(e, TargetOf(s)))
    case For(_, _, _, _, body) => Stray(body, Inside(e, TargetOf(s)))
    case Break(id, _) => if e.brk == [] then [id] else []
    case Continue(id, _) => if e.cont == [] then [id] else []
    case Case(id, _, _) => if e.sw == [] then [id] else []
    case Default(id, _) => if e.sw == [] then [id] else []
    case _ => []
  }

  // The nodes that the open containers will become.
  predicate Become(open: seq<Container>, targets: seq<Target>) {
    |open| == |targets| && forall i :: 0 <= i < |open| ==> open[i].kind == KindOf(targets[i])
  }

  // One t for every containee x of the list.
  function Copies(cs: seq<Containee>, x: nat, t: Target): seq<Target> {
    if cs == [] then [] else (if cs[0].id == x then [t] else []) + Copies(cs[1..], x, t)
  }

  // What the containees x entered so far will be bound to when their containers are closed.
  function Pending(open: seq<Container>, targets: seq<Target>, x: nat): seq<Target>
    requires |open| == |targets|
  {
    if open == [] then []
    else
      var n := |open| - 1;
      Pending(open[..n], targets[..n], x) + (Copies(open[n].exits, x, targets[n]) + Copies(open[n].cases, x, targets[n]))
  }

  // ... and what x is bound to already.
  function Eventually(st: Parsing, targets: seq<Target>, x: nat): seq<Target>
    requires |st.open| == |targets|
  {
    (if x in st.container then [st.container[x]] else []) + Pending(st.open, targets, x)
  }

  lemma {:induction false} InnermostIs(open: seq<Container>, targets: seq<Target>)
    requires Become(open, targets)
    ensures var (i, e) := (InnermostSwitch(open), EnclosingOf(targets)); e.sw == if i < 0 then [] else [targets[i]]
    ensures var (i, e) := (InnermostLoop(open), EnclosingOf(targets)); e.cont == if i < 0 then [] else [targets[i]]
    ensures EnclosingOf(targets).brk == if open == [] then [] else [targets[|open| - 1]]
  {
    if open != [] { InnermostIs(open[..|open| - 1], targets[..|open| - 1]); }
  }

  lemma {:induction false} CopiesLast(cs: seq<Containee>, c: Containee, x: nat, t: Target)
    ensures Copies(cs + [c], x, t) == Copies(cs, x, t) + (if c.id == x then [t] else [])
  {
    if cs == [] {
      assert (cs + [c])[1..] == [];
    } else {
      var (first, last) := (if cs[0].id == x then [t] else [], if c.id == x then [t] else []);
      assert (cs + [c])[1..] == cs[1..] + [c];
      CopiesLast(cs[1..], c, x, t);
      assert Copies(cs + [c], x, t) == first + (Copies(cs[1..], x, t) + last);
    }
  }

  lemma {:induction false} BoundAt(m: map<nat, Target>, cs: seq<Containee>, x: nat, t: Target)
    ensures x in BindAll(m, cs, t) <==> Copies(cs, x, t) != [] || x in m
    ensures x in BindAll(m, cs, t) ==> BindAll(m, cs, t)[x] == if Copies(cs, x, t) != [] then t else m[x]
    ensures |Copies(cs, x, t)| <= 1 ==> Copies(cs, x, t) == [] || Copies(cs, x, t) == [t]
    decreases |cs|
  {
    if cs != [] { BoundAt(m[cs[0].id := t], cs[1..], x, t); }
  }

  lemma EnterCopies(f: Container, c: Containee, x: nat, t: Target)
    requires c.id == x ==> Copies(f.exits, x, t) == [] && Copies(f.cases, x, t) == []
    ensures var g := Enter(f, c);
      Copies(g.exits, x, t) + Copies(g.cases, x, t) == Copies(f.exits, x, t) + Copies(f.cases, x, t) + (if c.id == x then [t] else [])
  {
    if c.CaseIn? || c.DefaultIn? { CopiesLast(f.cases, c, x, t); } else { CopiesLast(f.exits, c, x, t); }
  }

  lemma {:induction false} PendingEnter(open: seq<Container>, targets: seq<Target>, i: nat, c: Containee, x: nat)
    requires |open| == |targets| && i < |open| && (c.id == x ==> Pending(open, targets, x) == [])
    ensures var o := open[i := Enter(open[i], c)];
      Pending(o, targets, x) == Pending(open, targets, x) + (if c.id == x then [targets[i]] else [])
    decreases |open|
  {
    hide Enter;
    hide Copies;
    var n := |open| - 1;
    var o := open[i := Enter(open[i], c)];
    if i == n {
      assert o[..n] == open[..n];
      EnterCopies(open[n], c, x, targets[n]);
    } else {
      assert o[..n] == open[..n][i := Enter(open[..n][i], c)];
      PendingEnter(open[..n], targets[..n], i, c, x);
    }
  }

  lemma AddedEventually(st: Parsing, targets: seq<Target>, c: Containee, x: nat)
    requires Become(st.open, targets)
    requires |Eventually(st, targets, x)| + (if c.id == x then |TargetFor(EnclosingOf(targets), c)| else 0) <= 1
    ensures Eventually(Added(st, c), targets, x)
         == Eventually(st, targets, x) + (if c.id == x then TargetFor(EnclosingOf(targets), c) else [])
  {
    hide Pending;
    hide EnclosingOf;
    hide InnermostSwitch;
    hide InnermostLoop;
    hide Enter;
    HomeIs(st.open, targets, c);
    var i := Home(st.open, c);
    if i >= 0 { PendingEnter(st.open, targets, i, c, x); }
  }

  lemma HomeIs(open: seq<Container>, targets: seq<Target>, c: Containee)
    requires Become(open, targets)
    ensures TargetFor(EnclosingOf(targets), c) == if Home(open, c) < 0 then [] else [targets[Home(open, c)]]
  {
    InnermostIs(open, targets);
  }

  lemma PushedEventually(st: Parsing, targets: seq<Target>, t: Target, x: nat)
    requires Become(st.open, targets)
    ensures var (r, ts) := (Pushed(st, KindOf(t)), targets + [t]);
      && Become(r.open, ts) && Eventually(r, ts, x) == Eventually(st, targets, x)
      && EnclosingOf(ts) == Inside(EnclosingOf(targets), t)
  {
    var (r, ts) := (Pushed(st, KindOf(t)), targets + [t]);
    assert r.open[..|st.open|] == st.open && ts[..|targets|] == targets;
  }

  lemma PoppedEventually(st: Parsing, targets: seq<Target>, t: Target, x: nat)
    requires |st.open| == |targets| + 1 && |Eventually(st, targets + [t], x)| <= 1
    ensures Eventually(Popped(st, t), targets, x) == Eventually(st, targets + [t], x)
  {
    var n := |targets|;
    var ts := targets + [t];
    assert ts[..n] == targets;
    var f := st.open[n];
    BoundAt(st.container, f.exits, x, t);
    BoundAt(BindAll(st.container, f.exits, t), f.cases, x, t);
  }

  /** However statements are nested, a jump that is parsed is bound, now or when its
      container is closed, to the innermost loop or switch that encloses it. */
  lemma {:induction false} ParsedResolves(s: Stmt, st: Parsing, targets: seq<Target>, x: nat)
    requires Become(st.open, targets)
    requires |Eventually(st, targets, x)| + |TargetsOf(s, EnclosingOf(targets), x)| <= 1
    ensures Eventually(Parsed(s, st), targets, x) == Eventually(st, targets, x) + TargetsOf(s, EnclosingOf(targets), x)
    decreases s, 1
  {
    hide Eventually;
    hide EnclosingOf;
    hide Added;
    hide Popped;
    hide Pushed;
    hide Inside;
    match s
    case Then(first, rest) =>
      ParsedResolves(first, st, targets, x);
      ParsedResolves(rest, Parsed(first, st), targets, x);
    case Block(_, items) => ParsedResolves(items, st, targets, x);
    case If(_, _, yes, no) =>
      ParsedResolves(yes, st, targets, x);
      ParsedResolves(no, Parsed(yes, st), targets, x);
    case Switch(_, _, _, body) => ContainerResolves(s, body, st, targets, x);
    case While(_, _, body) => ContainerResolves(s, body, st, targets, x);
    case Do(_, body, _) => ContainerResolves(s, body, st, targets, x);
    case For(_, _, _, _, body) => ContainerResolves(s, body, st, targets, x);
    case Break(id, _) => AddedEventually(st, targets, BreakIn(id), x);
    case Continue(id, _) => AddedEventually(st, targets, ContinueIn(id), x);
    case Case(id, _, _) => AddedEventually(st, targets, CaseIn(id), x);
    case Default(id, _) => AddedEventually(st, targets, DefaultIn(id), x);
    case _ =>
  }

  lemma {:induction false} ContainerResolves(s: Stmt, body: Stmt, st: Parsing, targets: seq<Target>, x: nat)
    requires (IsLoop(s) || s.Switch?) && body == s.body && Become(st.open, targets)
    requires |Eventually(st, targets, x)| + |TargetsOf(s, EnclosingOf(targets), x)| <= 1
    ensures Eventually(Parsed(s, st), targets, x) == Eventually(st, targets, x) + TargetsOf(s, EnclosingOf(targets), x)
    decreases s, 0
  {
    hide Eventually;
    hide EnclosingOf;
    hide Popped;
    hide Parsed;
    var t := TargetOf(s);
    ParsedContainer(s, body, st);
    PushedEventually(st, targets, t, x);
    ParsedResolves(body, Pushed(st, KindOf(t)), targets + [t], x);
    PoppedEventually(Parsed(body, Pushed(st, KindOf(t))), targets, t, x);
  }

  /** The jumps that nothing encloses are reported as errors, in order, and no others. */
  lemma {:induction false} ParsedErrors(s: Stmt, st: Parsing, targets: seq<Target>)
    requires Become(st.open, targets)
    ensures Parsed(s, st).errors == st.errors + Stray(s, EnclosingOf(targets))
    decreases s, 1
  {
    hide EnclosingOf;
    hide Added;
    match s
    case Then(first, rest) =>
      ParsedErrors(first, st, targets);
      ParsedErrors(rest, Parsed(first, st), targets);
    case Block(_, items) => ParsedErrors(items, st, targets);
    case If(_, _, yes, no) =>
      ParsedErrors(yes, st, targets);
      ParsedErrors(no, Parsed(yes, st), targets);
    case Switch(_, _, _, body) => ContainerErrors(s, body, st, targets);
    case While(_, _, body) => ContainerErrors(s, body, st, targets);
    case Do(_, body, _) => ContainerErrors(s, body, st, targets);
    case For(_, _, _, _, body) => ContainerErrors(s, body, st, targets);
    case Break(id, _) => AddedErrors(st, targets, BreakIn(id));
    case Continue(id, _) => AddedErrors(st, targets, ContinueIn(id));
    case Case(id, _, _) => AddedErrors(st, targets, CaseIn(id));
    case Default(id, _) => AddedErrors(st, targets, DefaultIn(id));
    case _ =>
  }

  lemma AddedErrors(st: Parsing, targets: seq<Target>, c: Containee)
    requires Become(st.open, targets)
    ensures Added(st, c).errors == st.errors + (if TargetFor(EnclosingOf(targets), c) == [] then [c.id] else [])
  {
    hide Home;
    hide EnclosingOf;
    HomeIs(st.open, targets, c);
  }

  lemma {:induction false} ContainerErrors(s: Stmt, body: Stmt, st: Parsing, targets: seq<Target>)
    requires (IsLoop(s) || s.Switch?) && body == s.body && Become(st.open, targets)
    ensures Parsed(s, st).errors == st.errors + Stray(s, EnclosingOf(targets))
    decreases s, 0
  {
    hide EnclosingOf;
    hide BindAll;
    hide Inside;
    hide Eventually;
    hide Parsed;
    var t := TargetOf(s);
    ParsedContainer(s, body, st);
    PushedEventually(st, targets, t, 0);
    ParsedErrors(body, Pushed(st, KindOf(t)), targets + [t]);
  }

  // ---------- Defaults and the list of cases ----------

  // Will the switch y have a default, from what has been entered so far?
  predicate PendingDefault(open: seq<Container>, targets: seq<Target>, y: nat)
    requires |open| == |targets|
  {
    open != [] &&
    var n := |open| - 1;
    PendingDefault(open[..n], targets[..n], y) || (targets[n].id == y && HasDefaultIn(open[n].cases))
  }

  predicate EventualDefault(st: Parsing, targets: seq<Target>, y: nat)
    requires |st.open| == |targets|
  {
    y in st.hasDefault || PendingDefault(st.open, targets, y)
  }

  // The reference: does s have a default whose innermost switch is y?
  predicate DefaultFor(s: Stmt, e: Enclosing, y: nat) {
    match s
    case Then(first, rest) => DefaultFor(first, e, y) || DefaultFor(rest, e, y)
    case Block(_, items) => DefaultFor(items, e, y)
    case If(_, _, yes, no) => DefaultFor(yes, e, y) || DefaultFor(no, e, y)
    case Switch(_, _, _, body) => DefaultFor(body, Inside(e, TargetOf(s)), y)
    case While(_, _, body) => DefaultFor(body, Inside(e, TargetOf(s)), y)
    case Do(_, body, _) => DefaultFor(body, Inside(e, TargetOf(s)), y)
    case For(_, _, _, _, body) => DefaultFor(body, Inside(e, TargetOf(s)), y)
    case Default(_, _) => e.sw != [] && e.sw[0].id == y
    case _ => false
  }

  lemma DefaultEnters(f: Container, c: Containee)
    ensures HasDefaultIn(Enter(f, c).cases) <==> HasDefaultIn(f.cases) || c.DefaultIn?
  {
    var g := Enter(f, c);
    if c.DefaultIn? { assert g.cases[|f.cases|].DefaultIn?; }
    if HasDefaultIn(f.cases) {
      var i :| 0 <= i < |f.cases| && f.cases[i].DefaultIn?;
      assert g.cases[i].DefaultIn?;
    }
  }

  lemma {:induction false} DefaultPending(open: seq<Container>, targets: seq<Target>, i: nat, c: Containee, y: nat)
    requires |open| == |targets| && i < |open|
    ensures PendingDefault(open[i := Enter(open[i], c)], targets, y)
       <==> PendingDefault(open, targets, y) || (c.DefaultIn? && targets[i].id == y)
    decreases |open|
  {
    hide HasDefaultIn;
    hide Enter;
    var n := |open| - 1;
    var o := open[i := Enter(open[i], c)];
    DefaultEnters(open[i], c);
    if i == n {
      assert o[..n] == open[..n];
    } else {
      assert o[..n] == open[..n][i := Enter(open[..n][i], c)];
      DefaultPending(open[..n], targets[..n], i, c, y);
    }
  }

  lemma AddedDefault(st: Parsing, targets: seq<Target>, c: Containee, y: nat)
    requires Become(st.open, targets)
    ensures EventualDefault(Added(st, c), targets, y) <==>
              EventualDefault(st, targets, y) || (c.DefaultIn? && EnclosingOf(targets).sw != [] && EnclosingOf(targets).sw[0].id == y)
  {
    hide PendingDefault;
    InnermostIs(st.open, targets);
    var i := Home(st.open, c);
    if i >= 0 { DefaultPending(st.open, targets, i, c, y); }
  }

  lemma PushedDefault(st: Parsing, targets: seq<Target>, t: Target, y: nat)
    requires |st.open| == |targets|
    ensures EventualDefault(Pushed(st, KindOf(t)), targets + [t], y) <==> EventualDefault(st, targets, y)
  {
    var (r, ts) := (Pushed(st, KindOf(t)), targets + [t]);
    assert r.open[..|st.open|] == st.open && ts[..|targets|] == targets;
  }

  lemma PoppedDefault(st: Parsing, targets: seq<Target>, t: Target, y: nat)
    requires |st.open| == |targets| + 1
    ensures EventualDefault(Popped(st, t), targets, y) <==> EventualDefault(st, targets + [t], y)
  {
    assert (targets + [t])[..|targets|] == targets;
  }

  /** has_default is set, now or when the switch is closed, if and only if the switch is the
      innermost one around some default. */
  lemma {:induction false} ParsedDefault(s: Stmt, st: Parsing, targets: seq<Target>, y: nat)
    requires Become(st.open, targets)
    ensures EventualDefault(Parsed(s, st), targets, y) <==> EventualDefault(st, targets, y) || DefaultFor(s, EnclosingOf(targets), y)
    decreases s, 1
  {
    hide EventualDefault;
    hide EnclosingOf;
    hide Added;
    match s
    case Then(first, rest) =>
      ParsedDefault(first, st, targets, y);
      ParsedDefault(rest, Parsed(first, st), targets, y);
    case Block(_, items) => ParsedDefault(items, st, targets, y);
    case If(_, _, yes, no) =>
      ParsedDefault(yes, st, targets, y);
      ParsedDefault(no, Parsed(yes, st), targets, y);
    case Switch(_, _, _, body) => ContainerDefault(s, body, st, targets, y);
    case While(_, _, body) => ContainerDefault(s, body, st, targets, y);
    case Do(_, body, _) => ContainerDefault(s, body, st, targets, y);
    case For(_, _, _, _, body) => ContainerDefault(s, body, st, targets, y);
    case Break(id, _) => AddedDefault(st, targets, BreakIn(id), y);
    case Continue(id, _) => AddedDefault(st, targets, ContinueIn(id), y);
    case Case(id, _, _) => AddedDefault(st, targets, CaseIn(id), y);
    case Default(id, _) => AddedDefault(st, targets, DefaultIn(id), y);
    case _ =>
  }

  lemma {:induction false} ContainerDefault(s: Stmt, body: Stmt, st: Parsing, targets: seq<Target>, y: nat)
    requires (IsLoop(s) || s.Switch?) && body == s.body && Become(st.open, targets)
    ensures EventualDefault(Parsed(s, st), targets, y) <==> EventualDefault(st, targets, y) || DefaultFor(s, EnclosingOf(targets), y)
    decreases s, 0
  {
    hide EventualDefault;
    hide EnclosingOf;
    hide Inside;
    hide Popped;
    hide Pushed;
    hide Parsed;
    var t := TargetOf(s);
    ParsedContainer(s, body, st);
    PushedEventually(st, targets, t, 0);
    PushedDefault(st, targets, t, y);
    ParsedDefault(body, Pushed(st, KindOf(t)), targets + [t], y);
    PoppedDefault(Parsed(body, Pushed(st, KindOf(t))), targets, t, y);
  }

  // The cases and defaults of s that belong to the switch around it, in order.
  function OwnCases(s: Stmt): seq<Containee> {
    match s
    case Then(first, rest) => OwnCases(first) + OwnCases(rest)
    case Block(_, items) => OwnCases(items)
    case If(_, _, yes, no) => OwnCases(yes) + OwnCases(no)
    case While(_, _, body) => OwnCases(body)
    case Do(_, body, _) => OwnCases(body)
    case For(_, _, _, _, body) => OwnCases(body)
    case Case(id, _, _) => [CaseIn(id)]
    case Default(id, _) => [DefaultIn(id)]
    case _ => []
  }

  lemma AddedCases(st: Parsing, c: Containee, i: nat)
    requires i < |st.open|
    ensures Added(st, c).open[i].cases
         == st.open[i].cases + (if i == InnermostSwitch(st.open) && (c.CaseIn? || c.DefaultIn?) then [c] else [])
  {
  }

  // The cases of the open container i, and which container is the innermost switch.
  ghost predicate Gains(st: Parsing, r: Parsing, i: nat, cs: seq<Containee>)
    requires i < |st.open| == |r.open|
  {
    && r.open[i].cases == st.open[i].cases + (if i == InnermostSwitch(st.open) then cs else [])
    && InnermostSwitch(r.open) == InnermostSwitch(st.open)
  }

  lemma TwoGains(st: Parsing, a: Parsing, r: Parsing, i: nat, cs: seq<Containee>, ds: seq<Containee>)
    requires i < |st.open| == |a.open| == |r.open| && Gains(st, a, i, cs) && Gains(a, r, i, ds)
    ensures Gains(st, r, i, cs + ds)
  {
  }

  /** Parsing a statement appends its own cases, in source order, to the innermost open
      switch, and to no other container. */
  lemma {:induction false} CasesInOrder(s: Stmt, st: Parsing, i: nat)
    requires i < |st.open|
    ensures Gains(st, Parsed(s, st), i, OwnCases(s))
    decreases s, 1
  {
    hide Added;
    hide Gains;
    match s
    case Then(first, rest) => CasesOfTwo(s, first, rest, st, i);
    case Block(_, items) => CasesInOrder(items, st, i);
    case If(_, _, yes, no) => CasesOfTwo(s, yes, no, st, i);
    case Switch(_, _, _, body) => ContainerCases(s, body, st, i);
    case While(_, _, body) => ContainerCases(s, body, st, i);
    case Do(_, body, _) => ContainerCases(s, body, st, i);
    case For(_, _, _, _, body) => ContainerCases(s, body, st, i);
    case _ => LeafCases(s, st, i);
  }

  lemma LeafCases(s: Stmt, st: Parsing, i: nat)
    requires i < |st.open| && !s.Then? && !s.Block? && !s.If? && !s.Switch? && !IsLoop(s)
    ensures Gains(st, Parsed(s, st), i, OwnCases(s))
  {
    hide Added;
    SameInnermost(st.open, Parsed(s, st).open);
    if s.Break? { AddedCases(st, BreakIn(s.id), i); }
    if s.Continue? { AddedCases(st, ContinueIn(s.id), i); }
    if s.Case? { AddedCases(st, CaseIn(s.id), i); }
    if s.Default? { AddedCases(st, DefaultIn(s.id), i); }
  }

  lemma {:induction false} CasesOfTwo(whole: Stmt, first: Stmt, second: Stmt, st: Parsing, i: nat)
    requires i < |st.open| && first < whole && second < whole
    ensures Gains(st, Parsed(second, Parsed(first, st)), i, OwnCases(first) + OwnCases(second))
    decreases whole, 0
  {
    hide Gains;
    hide Parsed;
    CasesInOrder(first, st, i);
    CasesInOrder(second, Parsed(first, st), i);
    TwoGains(st, Parsed(first, st), Parsed(second, Parsed(first, st)), i, OwnCases(first), OwnCases(second));
  }

  lemma {:induction false} SameInnermost(a: seq<Container>, b: seq<Container>)
    requires |a| == |b| && forall i :: 0 <= i < |a| ==> a[i].kind == b[i].kind
    ensures InnermostSwitch(a) == InnermostSwitch(b)
    decreases |a|
  {
    if a != [] { SameInnermost(a[..|a| - 1], b[..|b| - 1]); }
  }

  lemma {:induction false} ContainerCases(s: Stmt, body: Stmt, st: Parsing, i: nat)
    requires (IsLoop(s) || s.Switch?) && body == s.body && i < |st.open|
    ensures Gains(st, Parsed(s, st), i, OwnCases(s))
    decreases s, 0
  {
    hide Popped;
    hide Pushed;
    hide InnermostSwitch;
    var kind := KindOf(TargetOf(s));
    var pushed := Pushed(st, kind);
    PushedInnermost(st, kind, i);
    CasesInOrder(body, pushed, i);
    SameInnermost(st.open, Parsed(s, st).open);
    PoppedKeeps(Parsed(body, pushed), TargetOf(s), i);
  }

  lemma PushedInnermost(st: Parsing, kind: Kind, i: nat)
    requires i < |st.open|
    ensures var r := Pushed(st, kind);
      && |r.open| == |st.open| + 1 && r.open[i] == st.open[i]
      && InnermostSwitch(r.open) == if kind.SwitchKind? then |st.open| else InnermostSwitch(st.open)
  {
    assert Pushed(st, kind).open[..|st.open|] == st.open;
  }

  lemma PoppedKeeps(st: Parsing, t: Target, i: nat)
    requires i + 1 < |st.open|
    ensures |Popped(st, t).open| == |st.open| - 1 && Popped(st, t).open[i] == st.open[i]
  {
  }

  /** A switch gets the list of its own cases, in source order. */
  lemma SwitchGetsItsCases(s: Stmt, st: Parsing)
    requires s.Switch?
    ensures var r := Parsed(s, st); s.id in r.cases && r.cases[s.id] == Ids(OwnCases(s.body))
  {
    var pushed := Pushed(st, SwitchKind);
    CasesInOrder(s.body, pushed, |st.open|);
    assert Parsed(s.body, pushed).open[|st.open|].cases == [] + OwnCases(s.body);
  }

  // ---------- The resolved tree ----------

  function BoundTarget(container: map<nat, Target>, id: nat, t: Target): Target {
    if id in container then container[id] else t
  }

  // The tree with the fields that parsing has written.
  function Bind(s: Stmt, r: Parsing): Stmt {
    match s
    case Then(first, rest) => Then(Bind(first, r), Bind(rest, r))
    case Block(id, items) => Block(id, Bind(items, r))
    case If(id, test, yes, no) => If(id, test, Bind(yes, r), Bind(no, r))
    case Switch(id, _, subject, body) => Switch(id, id in r.hasDefault, subject, Bind(body, r))
    case While(id, test, body) => While(id, test, Bind(body, r))
    case Do(id, body, test) => Do(id, Bind(body, r), test)
    case For(id, start, guard, next, body) => For(id, start, guard, next, Bind(body, r))
    case Break(id, t) => Break(id, BoundTarget(r.container, id, t))
    case Continue(id, t) => Continue(id, BoundTarget(r.container, id, t))
    case Case(id, v, c) => Case(id, v, BoundTarget(r.container, id, SwitchTarget(c)).id)
    case Default(id, c) => Default(id, BoundTarget(r.container, id, SwitchTarget(c)).id)
    case _ => s
  }

  // e names the frames of k.
  ghost predicate Encloses(e: Enclosing, k: Cont) {
    && WellFramed(k) && WellFramed(BreakFrame(k)) && WellFramed(LoopFrame(k)) && WellFramed(SwitchFrame(k))
    && e.brk == (if BreakFrame(k).Stop? then [] else [FrameTarget(BreakFrame(k))])
    && e.cont == (if LoopFrame(k).Stop? then [] else [FrameTarget(LoopFrame(k))])
    && e.sw == (if SwitchFrame(k).Stop? then [] else [FrameTarget(SwitchFrame(k))])
  }

  // The container fields of the jumps of s are the reference's.
  ghost predicate TargetsAgree(s: Stmt, e: Enclosing, r: Parsing) {
    forall x, t :: t in TargetsOf(s, e, x) ==> x in r.container && r.container[x] == t
  }

  ghost predicate DefaultsAgree(s: Stmt, e: Enclosing, r: Parsing) {
    forall y :: IsSwitchIn(s, y) ==> (y in r.hasDefault <==> DefaultFor(s, e, y))
  }

  predicate IsSwitchIn(s: Stmt, y: nat) {
    match s
    case Then(first, rest) => IsSwitchIn(first, y) || IsSwitchIn(rest, y)
    case Block(_, items) => IsSwitchIn(items, y)
    case If(_, _, yes, no) => IsSwitchIn(yes, y) || IsSwitchIn(no, y)
    case Switch(id, _, _, body) => id == y || IsSwitchIn(body, y)
    case While(_, _, body) => IsSwitchIn(body, y)
    case Do(_, body, _) => IsSwitchIn(body, y)
    case For(_, _, _, _, body) => IsSwitchIn(body, y)
    case _ => false
  }

  lemma {:induction false} SwitchInside(s: Stmt, y: nat)
    requires IsSwitchIn(s, y)
    ensures y in StmtIds(s)
  {
    hide ExprIds;
    match s
    case Then(first, rest) => if IsSwitchIn(first, y) { SwitchInside(first, y); } else { SwitchInside(rest, y); }
    case Block(_, items) => SwitchInside(items, y);
    case If(_, _, yes, no) => if IsSwitchIn(yes, y) { SwitchInside(yes, y); } else { SwitchInside(no, y); }
    case Switch(id, _, _, body) => if id != y { SwitchInside(body, y); }
    case While(_, _, body) => SwitchInside(body, y);
    case Do(_, body, _) => SwitchInside(body, y);
    case For(_, _, _, _, body) => SwitchInside(body, y);
  }

  // A default of s belongs to a switch of s or to the one around s.
  lemma {:induction false} DefaultsNear(s: Stmt, e: Enclosing, y: nat)
    requires DefaultFor(s, e, y)
    ensures IsSwitchIn(s, y) || (e.sw != [] && e.sw[0].id == y)
  {
    match s
    case Then(first, rest) => if DefaultFor(first, e, y) { DefaultsNear(first, e, y); } else { DefaultsNear(rest, e, y); }
    case Block(_, items) => DefaultsNear(items, e, y);
    case If(_, _, yes, no) => if DefaultFor(yes, e, y) { DefaultsNear(yes, e, y); } else { DefaultsNear(no, e, y); }
    case Switch(_, _, _, body) => DefaultsNear(body, Inside(e, TargetOf(s)), y);
    case While(_, _, body) => DefaultsNear(body, Inside(e, TargetOf(s)), y);
    case Do(_, body, _) => DefaultsNear(body, Inside(e, TargetOf(s)), y);
    case For(_, _, _, _, body) => DefaultsNear(body, Inside(e, TargetOf(s)), y);
    case _ =>
  }

  // part is a child of s, and f is what encloses it.
  ghost predicate IsPart(part: Stmt, f: Enclosing, s: Stmt, e: Enclosing) {
    match s
    case Then(first, rest) => (part == first || part == rest) && f == e
    case Block(_, items) => part == items && f == e
    case If(_, _, yes, no) => (part == yes || part == no) && f == e
    case _ => (IsLoop(s) || s.Switch?) && part == s.body && f == Inside(e, TargetOf(s))
  }

  lemma PartAgrees(part: Stmt, f: Enclosing, s: Stmt, e: Enclosing, r: Parsing)
    requires IsPart(part, f, s, e) && TargetsAgree(s, e, r)
    ensures TargetsAgree(part, f, r)
    ensures !s.Then? && !s.If? && DefaultsAgree(s, e, r) ==> DefaultsAgree(part, f, r)
  {
    hide TargetsOf;
    forall x, t | t in TargetsOf(part, f, x) ensures x in r.container && r.container[x] == t {
      PartTargets(part, f, s, e, x, t);
    }
    if !s.Then? && !s.If? && DefaultsAgree(s, e, r) { PartDefaults(part, f, s, e, r); }
  }

  lemma PartTargets(part: Stmt, f: Enclosing, s: Stmt, e: Enclosing, x: nat, t: Target)
    requires IsPart(part, f, s, e) && t in TargetsOf(part, f, x)
    ensures t in TargetsOf(s, e, x)
  {
  }

  lemma PartDefaults(part: Stmt, f: Enclosing, s: Stmt, e: Enclosing, r: Parsing)
    requires IsPart(part, f, s, e) && !s.Then? && !s.If? && DefaultsAgree(s, e, r)
    ensures DefaultsAgree(part, f, r)
  {
    hide TargetsOf;
    forall y | IsSwitchIn(part, y) ensures y in r.hasDefault <==> DefaultFor(part, f, y) {
      assert IsSwitchIn(s, y);
    }
  }

  // The fields written make HasDefault of the bound tree the reference.
  lemma {:induction false} BoundDefault(s: Stmt, e: Enclosing, r: Parsing, y: nat)
    requires TargetsAgree(s, e, r) && Stray(s, e) == []
    ensures HasDefault(Bind(s, r), y) <==> DefaultFor(s, e, y)
    decreases s, 1
  {
    hide TargetsAgree;
    match s
    case Then(first, rest) => PartDefault(first, e, s, e, r, y); PartDefault(rest, e, s, e, r, y);
    case Block(_, items) => PartDefault(items, e, s, e, r, y);
    case If(_, _, yes, no) => PartDefault(yes, e, s, e, r, y); PartDefault(no, e, s, e, r, y);
    case Switch(_, _, _, body) => PartDefault(body, Inside(e, TargetOf(s)), s, e, r, y);
    case While(_, _, body) => PartDefault(body, Inside(e, TargetOf(s)), s, e, r, y);
    case Do(_, body, _) => PartDefault(body, Inside(e, TargetOf(s)), s, e, r, y);
    case For(_, _, _, _, body) => PartDefault(body, Inside(e, TargetOf(s)), s, e, r, y);
    case Default(_, _) => OwnDefault(s, e, r);
    case _ =>
  }

  lemma OwnDefault(s: Stmt, e: Enclosing, r: Parsing)
    requires s.Default? && e.sw != [] && TargetsAgree(s, e, r)
    ensures s.id in r.container && r.container[s.id] == e.sw[0]
  {
    assert e.sw[0] in TargetsOf(s, e, s.id);
  }

  lemma {:induction false} PartDefault(part: Stmt, f: Enclosing, s: Stmt, e: Enclosing, r: Parsing, y: nat)
    requires part < s && IsPart(part, f, s, e) && TargetsAgree(s, e, r) && Stray(part, f) == []
    ensures HasDefault(Bind(part, r), y) <==> DefaultFor(part, f, y)
    decreases s, 0
  {
    PartAgrees(part, f, s, e, r);
    BoundDefault(part, f, r, y);
  }

  lemma InsideEncloses(e: Enclosing, s: Stmt, r: Parsing, k: Cont)
    requires Encloses(e, k) && (IsLoop(s) || s.Switch?)
    ensures Encloses(Inside(e, TargetOf(s)), if s.Switch? then InSwitch(Bind(s, r), k) else InLoop(Bind(s, r), k))
  {
  }

  lemma SeqEncloses(e: Enclosing, s: Stmt, k: Cont)
    requires Encloses(e, k)
    ensures Encloses(e, Seq(s, k))
  {
  }

  // The switches around s are not nodes of s.
  ghost predicate Outside(e: Enclosing, s: Stmt) {
    forall t :: t in e.sw ==> t.id !in StmtIds(s)
  }

  lemma DefaultsOfParts(whole: Stmt, a: Stmt, b: Stmt, e: Enclosing, r: Parsing)
    requires StmtIds(a) !! StmtIds(b) && Outside(e, a) && Outside(e, b)
    requires forall y :: IsSwitchIn(a, y) || IsSwitchIn(b, y) ==> (y in r.hasDefault <==> DefaultFor(a, e, y) || DefaultFor(b, e, y))
    ensures DefaultsAgree(a, e, r) && DefaultsAgree(b, e, r)
  {
    forall y | IsSwitchIn(a, y) ensures !DefaultFor(b, e, y) {
      SwitchInside(a, y);
      if DefaultFor(b, e, y) {
        DefaultsNear(b, e, y);
        if IsSwitchIn(b, y) { SwitchInside(b, y); }
        assert false;
      }
    }
    forall y | IsSwitchIn(b, y) ensures !DefaultFor(a, e, y) {
      SwitchInside(b, y);
      if DefaultFor(a, e, y) {
        DefaultsNear(a, e, y);
        if IsSwitchIn(a, y) { SwitchInside(a, y); }
        assert false;
      }
    }
  }

  lemma {:induction false} BoundResolved(s: Stmt, e: Enclosing, r: Parsing, k: Cont)
    requires DistinctStmt(s) && Encloses(e, k) && Outside(e, s)
    requires TargetsAgree(s, e, r) && DefaultsAgree(s, e, r) && Stray(s, e) == []
    ensures Resolved(Bind(s, r), k)
    decreases s, 1
  {
    hide ExprIds;
    hide DistinctExpr;
    hide Encloses;
    match s
    case Then(first, rest) =>
      SeqEncloses(e, Bind(rest, r), k);
      DefaultsOfParts(s, first, rest, e, r);
      PartAgrees(first, e, s, e, r);
      PartAgrees(rest, e, s, e, r);
      BoundResolved(first, e, r, Seq(Bind(rest, r), k));
      BoundResolved(rest, e, r, k);
    case Block(_, items) => PartAgrees(items, e, s, e, r); BoundResolved(items, e, r, k);
    case If(_, _, yes, no) =>
      DefaultsOfParts(s, yes, no, e, r);
      PartAgrees(yes, e, s, e, r);
      PartAgrees(no, e, s, e, r);
      BoundResolved(yes, e, r, k);
      BoundResolved(no, e, r, k);
    case Switch(_, _, _, body) => ContainerBound(s, body, e, r, k);
    case While(_, _, body) => ContainerBound(s, body, e, r, k);
    case Do(_, body, _) => ContainerBound(s, body, e, r, k);
    case For(_, _, _, _, body) => ContainerBound(s, body, e, r, k);
    case _ => JumpBound(s, e, r, k);
  }

  lemma JumpBound(s: Stmt, e: Enclosing, r: Parsing, k: Cont)
    requires !s.Then? && !s.Block? && !s.If? && !s.Switch? && !IsLoop(s)
    requires Encloses(e, k) && TargetsAgree(s, e, r) && Stray(s, e) == []
    ensures Resolved(Bind(s, r), k)
  {
    match s
    case Break(id, _) => assert e.brk[0] in TargetsOf(s, e, id);
    case Continue(id, _) => assert e.cont[0] in TargetsOf(s, e, id);
    case Case(id, _, _) => assert e.sw[0] in TargetsOf(s, e, id);
    case Default(id, _) => assert e.sw[0] in TargetsOf(s, e, id);
    case _ =>
  }

  lemma {:induction false} ContainerBound(s: Stmt, body: Stmt, e: Enclosing, r: Parsing, k: Cont)
    requires (IsLoop(s) || s.Switch?) && body == s.body
    requires DistinctStmt(s) && Encloses(e, k) && Outside(e, s)
    requires TargetsAgree(s, e, r) && DefaultsAgree(s, e, r) && Stray(s, e) == []
    ensures Resolved(Bind(s, r), k)
    decreases s, 0
  {
    hide ExprIds;
    hide DistinctExpr;
    hide Encloses;
    var inner := Inside(e, TargetOf(s));
    InsideEncloses(e, s, r, k);
    PartAgrees(body, inner, s, e, r);
    BoundResolved(body, inner, r, if s.Switch? then InSwitch(Bind(s, r), k) else InLoop(Bind(s, r), k));
    if s.Switch? {
      BoundDefault(body, inner, r, s.id);
      assert IsSwitchIn(s, s.id);
    }
  }

  // A jump has one place in the tree.
  lemma {:induction false} TargetsOnce(s: Stmt, e: Enclosing, x: nat)
    requires DistinctStmt(s)
    ensures |TargetsOf(s, e, x)| <= 1 || |e.brk| > 1 || |e.cont| > 1 || |e.sw| > 1
    ensures TargetsOf(s, e, x) != [] ==> x in StmtIds(s)
  {
    hide ExprIds;
    hide DistinctExpr;
    match s
    case Then(first, rest) => TargetsOnce(first, e, x); TargetsOnce(rest, e, x);
    case Block(_, items) => TargetsOnce(items, e, x);
    case If(_, _, yes, no) => TargetsOnce(yes, e, x); TargetsOnce(no, e, x);
    case Switch(_, _, _, body) => TargetsOnce(body, Inside(e, TargetOf(s)), x);
    case While(_, _, body) => TargetsOnce(body, Inside(e, TargetOf(s)), x);
    case Do(_, body, _) => TargetsOnce(body, Inside(e, TargetOf(s)), x);
    case For(_, _, _, _, body) => TargetsOnce(body, Inside(e, TargetOf(s)), x);
    case _ =>
  }

  const Unparsed := Parsing([], map[], {}, map[], [])

  // ---------- The tree is left as it was, but for those fields ----------

  // The tree without the fields that parsing writes.
  function Blanked(s: Stmt): Stmt {
    match s
    case Then(first, rest) => Then(Blanked(first), Blanked(rest))
    case Block(id, items) => Block(id, Blanked(items))
    case If(id, test, yes, no) => If(id, test, Blanked(yes), Blanked(no))
    case Switch(id, _, subject, body) => Switch(id, false, subject, Blanked(body))
    case While(id, test, body) => While(id, test, Blanked(body))
    case Do(id, body, test) => Do(id, Blanked(body), test)
    case For(id, start, guard, next, body) => For(id, start, guard, next, Blanked(body))
    case Break(id, _) => Break(id, SwitchTarget(0))
    case Continue(id, _) => Continue(id, SwitchTarget(0))
    case Case(id, v, _) => Case(id, v, 0)
    case Default(id, _) => Default(id, 0)
    case _ => s
  }

  lemma {:induction false} BindBlanked(s: Stmt, r: Parsing)
    ensures Blanked(Bind(s, r)) == Blanked(s)
  {
    match s
    case Then(first, rest) => BindBlanked(first, r); BindBlanked(rest, r);
    case Block(_, items) => BindBlanked(items, r);
    case If(_, _, yes, no) => BindBlanked(yes, r); BindBlanked(no, r);
    case Switch(_, _, _, body) => BindBlanked(body, r);
    case While(_, _, body) => BindBlanked(body, r);
    case Do(_, body, _) => BindBlanked(body, r);
    case For(_, _, _, _, body) => BindBlanked(body, r);
    case _ =>
  }

  // The container fields of the jumps x of s.
  function FieldsOf(s: Stmt, x: nat): seq<Target> {
    match s
    case Then(first, rest) => FieldsOf(first, x) + FieldsOf(rest, x)
    case Block(_, items) => FieldsOf(items, x)
    case If(_, _, yes, no) => FieldsOf(yes, x) + FieldsOf(no, x)
    case Switch(_, _, _, body) => FieldsOf(body, x)
    case While(_, _, body) => FieldsOf(body, x)
    case Do(_, body, _) => FieldsOf(body, x)
    case For(_, _, _, _, body) => FieldsOf(body, x)
    case Break(id, t) => if id == x then [t] else []
    case Continue(id, t) => if id == x then [t] else []
    case Case(id, _, c) => if id == x then [SwitchTarget(c)] else []
    case Default(id, c) => if id == x then [SwitchTarget(c)] else []
    case _ => []
  }

  // The has_default fields of the switches y of s.
  function FlagsOf(s: Stmt, y: nat): seq<bool> {
    match s
    case Then(first, rest) => FlagsOf(first, y) + FlagsOf(rest, y)
    case Block(_, items) => FlagsOf(items, y)
    case If(_, _, yes, no) => FlagsOf(yes, y) + FlagsOf(no, y)
    case Switch(id, hasDefault, _, body) => (if id == y then [hasDefault] else []) + FlagsOf(body, y)
    case While(_, _, body) => FlagsOf(body, y)
    case Do(_, body, _) => FlagsOf(body, y)
    case For(_, _, _, _, body) => FlagsOf(body, y)
    case _ => []
  }

  // Cases are bound to switches only.
  ghost predicate CasesToSwitches(s: Stmt, r: Parsing) {
    forall x :: IsCaseIn(s, x) && x in r.container ==> r.container[x].SwitchTarget?
  }

  predicate IsCaseIn(s: Stmt, x: nat) {
    match s
    case Then(first, rest) => IsCaseIn(first, x) || IsCaseIn(rest, x)
    case Block(_, items) => IsCaseIn(items, x)
    case If(_, _, yes, no) => IsCaseIn(yes, x) || IsCaseIn(no, x)
    case Switch(_, _, _, body) => IsCaseIn(body, x)
    case While(_, _, body) => IsCaseIn(body, x)
    case Do(_, body, _) => IsCaseIn(body, x)
    case For(_, _, _, _, body) => IsCaseIn(body, x)
    case Case(id, _, _) => id == x
    case Default(id, _) => id == x
    case _ => false
  }

  lemma {:induction false} BoundFields(s: Stmt, r: Parsing, x: nat)
    requires CasesToSwitches(s, r)
    ensures |FieldsOf(Bind(s, r), x)| == |FieldsOf(s, x)|
    ensures forall i :: 0 <= i < |FieldsOf(s, x)| ==> FieldsOf(Bind(s, r), x)[i] == BoundTarget(r.container, x, FieldsOf(s, x)[i])
  {
    match s
    case Then(first, rest) => PartFields(first, s, r); PartFields(rest, s, r); BoundFields(first, r, x); BoundFields(rest, r, x);
    case Block(_, items) => PartFields(items, s, r); BoundFields(items, r, x);
    case If(_, _, yes, no) => PartFields(yes, s, r); PartFields(no, s, r); BoundFields(yes, r, x); BoundFields(no, r, x);
    case Switch(_, _, _, body) => PartFields(body, s, r); BoundFields(body, r, x);
    case While(_, _, body) => PartFields(body, s, r); BoundFields(body, r, x);
    case Do(_, body, _) => PartFields(body, s, r); BoundFields(body, r, x);
    case For(_, _, _, _, body) => PartFields(body, s, r); BoundFields(body, r, x);
    case Case(id, _, _) => assert IsCaseIn(s, id);
    case Default(id, _) => assert IsCaseIn(s, id);
    case _ =>
  }

  lemma PartFields(part: Stmt, s: Stmt, r: Parsing)
    requires CasesToSwitches(s, r)
    requires match s
      case Then(first, rest) => part == first || part == rest
      case Block(_, items) => part == items
      case If(_, _, yes, no) => part == yes || part == no
      case _ => (IsLoop(s) || s.Switch?) && part == s.body
    ensures CasesToSwitches(part, r)
  {
    forall x | IsCaseIn(part, x) && x in r.container ensures r.container[x].SwitchTarget? { assert IsCaseIn(s, x); }
  }

  lemma {:induction false} BoundFlags(s: Stmt, r: Parsing, y: nat)
    ensures |FlagsOf(Bind(s, r), y)| == |FlagsOf(s, y)|
    ensures forall i :: 0 <= i < |FlagsOf(s, y)| ==> FlagsOf(Bind(s, r), y)[i] == (y in r.hasDefault)
    ensures FlagsOf(s, y) != [] <==> IsSwitchIn(s, y)
  {
    match s
    case Then(first, rest) => BoundFlags(first, r, y); BoundFlags(rest, r, y);
    case Block(_, items) => BoundFlags(items, r, y);
    case If(_, _, yes, no) => BoundFlags(yes, r, y); BoundFlags(no, r, y);
    case Switch(_, _, _, body) => BoundFlags(body, r, y);
    case While(_, _, body) => BoundFlags(body, r, y);
    case Do(_, body, _) => BoundFlags(body, r, y);
    case For(_, _, _, _, body) => BoundFlags(body, r, y);
    case _ =>
  }

  // A node has one field, and a jump at most one target.
  lemma {:induction false} FieldsOnce(s: Stmt, e: Enclosing, x: nat)
    requires DistinctStmt(s) && |e.brk| <= 1 && |e.cont| <= 1 && |e.sw| <= 1
    ensures |FieldsOf(s, x)| <= 1 && |TargetsOf(s, e, x)| <= |FieldsOf(s, x)|
    ensures FieldsOf(s, x) != [] ==> x in StmtIds(s)
    ensures IsCaseIn(s, x) ==> x in StmtIds(s) && |FieldsOf(s, x)| == 1
    ensures (forall t :: t in e.sw ==> t.SwitchTarget?) && IsCaseIn(s, x) ==> forall t :: t in TargetsOf(s, e, x) ==> t.SwitchTarget?
  {
    hide ExprIds;
    hide DistinctExpr;
    match s
    case Then(first, rest) => FieldsOnce(first, e, x); FieldsOnce(rest, e, x);
    case Block(_, items) => FieldsOnce(items, e, x);
    case If(_, _, yes, no) => FieldsOnce(yes, e, x); FieldsOnce(no, e, x);
    case Switch(_, _, _, body) => FieldsOnce(body, Inside(e, TargetOf(s)), x);
    case While(_, _, body) => FieldsOnce(body, Inside(e, TargetOf(s)), x);
    case Do(_, body, _) => FieldsOnce(body, Inside(e, TargetOf(s)), x);
    case For(_, _, _, _, body) => FieldsOnce(body, Inside(e, TargetOf(s)), x);
    case _ =>
  }

  const Nowhere := Enclosing([], [], [])

  // What parsing a whole body binds.
  lemma WholeBound(s: Stmt, x: nat)
    requires DistinctStmt(s)
    ensures var r := Parsed(s, Unparsed);
      && (x in r.container <==> TargetsOf(s, Nowhere, x) != [])
      && (x in r.container ==> TargetsOf(s, Nowhere, x) == [r.container[x]])
  {
    hide Parsed;
    hide TargetsOf;
    TargetsOnce(s, Nowhere, x);
    ParsedResolves(s, Unparsed, [], x);
    assert Eventually(Parsed(s, Unparsed), [], x) == TargetsOf(s, Nowhere, x);
  }

  /** Whether or not errors are reported, the tree that parsing leaves is the tree that it was
      given, with the innermost target that encloses it in every jump that has one, and with
      has_default set in the switches that are the innermost ones around some default. */
  lemma ParsingWritesFields(s: Stmt, x: nat, y: nat)
    requires DistinctStmt(s)
    ensures var t := Bind(s, Parsed(s, Unparsed));
      && Blanked(t) == Blanked(s)
      && FieldsOf(t, x) == (if TargetsOf(s, Nowhere, x) == [] then FieldsOf(s, x) else TargetsOf(s, Nowhere, x))
      && |FlagsOf(t, y)| == |FlagsOf(s, y)| && forall flag :: flag in FlagsOf(t, y) ==> flag == DefaultFor(s, Nowhere, y)
  {
    hide Parsed;
    hide Bind;
    hide Blanked;
    hide TargetsOf;
    hide FieldsOf;
    hide FlagsOf;
    hide DefaultFor;
    hide DistinctStmt;
    var r := Parsed(s, Unparsed);
    BindBlanked(s, r);
    forall z | IsCaseIn(s, z) && z in r.container ensures r.container[z].SwitchTarget? {
      WholeBound(s, z);
      FieldsOnce(s, Nowhere, z);
      assert r.container[z] in TargetsOf(s, Nowhere, z);
    }
    BoundFields(s, r, x);
    WholeBound(s, x);
    FieldsOnce(s, Nowhere, x);
    BoundFlags(s, r, y);
    ParsedDefault(s, Unparsed, [], y);
    assert EventualDefault(r, [], y) == (y in r.hasDefault);
  }

  /** Parsing a procedure body reports no error if and only if every jump is enclosed by what
      it needs, and then the tree it leaves is resolved, and otherwise as it was. */
  lemma ParsingResolves(s: Stmt)
    requires DistinctStmt(s)
    ensures var r := Parsed(s, Unparsed);
      && r.errors == Stray(s, Nowhere)
      && Blanked(Bind(s, r)) == Blanked(s)
      && (r.errors == [] ==> Resolved(Bind(s, r), Stop))
  {
    hide Parsed;
    hide Bind;
    hide Resolved;
    hide Stray;
    hide TargetsOf;
    hide DefaultFor;
    var (r, e) := (Parsed(s, Unparsed), Nowhere);
    ParsedErrors(s, Unparsed, []);
    BindBlanked(s, r);
    if r.errors == [] {
      forall x, t | t in TargetsOf(s, e, x) ensures x in r.container && r.container[x] == t { WholeBound(s, x); }
      forall y | IsSwitchIn(s, y) ensures y in r.hasDefault <==> DefaultFor(s, e, y) {
        ParsedDefault(s, Unparsed, [], y);
      }
      BoundResolved(s, e, r, Stop);
    }
  }

  // ---------- The cases of every switch ----------

  // Parsing writes the case lists of its own switches only.
  lemma {:induction false} CasesElsewhere(s: Stmt, st: Parsing, y: nat)
    requires !IsSwitchIn(s, y)
    ensures var r := Parsed(s, st); (y in r.cases <==> y in st.cases) && (y in r.cases ==> r.cases[y] == st.cases[y])
    decreases s
  {
    hide Added;
    match s
    case Then(first, rest) => CasesElsewhere(first, st, y); CasesElsewhere(rest, Parsed(first, st), y);
    case Block(_, items) => CasesElsewhere(items, st, y);
    case If(_, _, yes, no) => CasesElsewhere(yes, st, y); CasesElsewhere(no, Parsed(yes, st), y);
    case Switch(_, _, _, body) => CasesElsewhere(body, Pushed(st, SwitchKind), y);
    case While(_, _, body) => CasesElsewhere(body, Pushed(st, LoopKind(WhileLoop)), y);
    case Do(_, body, _) => CasesElsewhere(body, Pushed(st, LoopKind(DoLoop)), y);
    case For(_, _, _, _, body) => CasesElsewhere(body, Pushed(st, LoopKind(ForLoop)), y);
    case Break(id, _) => AddedLists(st, BreakIn(id));
    case Continue(id, _) => AddedLists(st, ContinueIn(id));
    case Case(id, _, _) => AddedLists(st, CaseIn(id));
    case Default(id, _) => AddedLists(st, DefaultIn(id));
    case _ =>
  }

  lemma AddedLists(st: Parsing, c: Containee)
    ensures Added(st, c).cases == st.cases
  {
  }

  // The cases of switch y of s, in source order.
  function CasesOf(s: Stmt, y: nat): seq<Containee> {
    match s
    case Then(first, rest) => CasesOf(first, y) + CasesOf(rest, y)
    case Block(_, items) => CasesOf(items, y)
    case If(_, _, yes, no) => CasesOf(yes, y) + CasesOf(no, y)
    case Switch(id, _, _, body) => if id == y then OwnCases(body) else CasesOf(body, y)
    case While(_, _, body) => CasesOf(body, y)
    case Do(_, body, _) => CasesOf(body, y)
    case For(_, _, _, _, body) => CasesOf(body, y)
    case _ => []
  }

  lemma {:induction false} NoCasesElsewhere(s: Stmt, y: nat)
    requires !IsSwitchIn(s, y)
    ensures CasesOf(s, y) == []
  {
    match s
    case Then(first, rest) => NoCasesElsewhere(first, y); NoCasesElsewhere(rest, y);
    case Block(_, items) => NoCasesElsewhere(items, y);
    case If(_, _, yes, no) => NoCasesElsewhere(yes, y); NoCasesElsewhere(no, y);
    case Switch(_, _, _, body) => NoCasesElsewhere(body, y);
    case While(_, _, body) => NoCasesElsewhere(body, y);
    case Do(_, body, _) => NoCasesElsewhere(body, y);
    case For(_, _, _, _, body) => NoCasesElsewhere(body, y);
    case _ =>
  }

  /** When a body has been parsed, every switch in it has its own cases, in source order. */
  lemma {:induction false} EverySwitchGetsItsCases(s: Stmt, st: Parsing, y: nat)
    requires DistinctStmt(s) && IsSwitchIn(s, y)
    ensures var r := Parsed(s, st); y in r.cases && r.cases[y] == Ids(CasesOf(s, y))
    decreases s, 1
  {
    hide ExprIds;
    hide DistinctExpr;
    hide Popped;
    match s
    case Then(first, rest) => TwoGetCases(s, first, rest, st, y);
    case Block(_, items) => EverySwitchGetsItsCases(items, st, y);
    case If(_, _, yes, no) => TwoGetCases(s, yes, no, st, y);
    case Switch(id, _, _, body) =>
      if id == y { SwitchGetsItsCases(s, st); } else { InnerGetsCases(s, body, st, y); }
    case While(_, _, body) => InnerGetsCases(s, body, st, y);
    case Do(_, body, _) => InnerGetsCases(s, body, st, y);
    case For(_, _, _, _, body) => InnerGetsCases(s, body, st, y);
  }

  lemma {:induction false} TwoGetCases(whole: Stmt, first: Stmt, second: Stmt, st: Parsing, y: nat)
    requires first < whole && second < whole && DistinctStmt(first) && DistinctStmt(second) && StmtIds(first) !! StmtIds(second)
    requires IsSwitchIn(first, y) || IsSwitchIn(second, y)
    ensures var r := Parsed(second, Parsed(first, st)); y in r.cases && r.cases[y] == Ids(CasesOf(first, y) + CasesOf(second, y))
    decreases whole, 0
  {
    hide Parsed;
    if IsSwitchIn(first, y) { SwitchInside(first, y); }
    if IsSwitchIn(second, y) {
      SwitchInside(second, y);
      NoCasesElsewhere(first, y);
      EverySwitchGetsItsCases(second, Parsed(first, st), y);
      assert [] + CasesOf(second, y) == CasesOf(second, y);
    } else {
      NoCasesElsewhere(second, y);
      EverySwitchGetsItsCases(first, st, y);
      CasesElsewhere(second, Parsed(first, st), y);
      assert CasesOf(first, y) + [] == CasesOf(first, y);
    }
  }

  lemma {:induction false} InnerGetsCases(s: Stmt, body: Stmt, st: Parsing, y: nat)
    requires (IsLoop(s) || s.Switch?) && body == s.body && DistinctStmt(s) && IsSwitchIn(body, y) && (s.Switch? ==> s.id != y)
    ensures var r := Parsed(s, st); y in r.cases && r.cases[y] == Ids(CasesOf(body, y))
    decreases s, 0
  {
    hide Parsed;
    ParsedContainer(s, body, st);
    EverySwitchGetsItsCases(body, Pushed(st, KindOf(TargetOf(s))), y);
  }

  class ContainerStack {
    const stack: array<Container>
    var top: int                     // -1 when no container is open
    var container: map<nat, Target>
    var hasDefault: set<nat>
    var cases: map<nat, seq<nat>>
    var errors: seq<nat>

    ghost predicate Valid()
      reads this
    {
      -1 <= top < stack.Length
    }

    ghost function Now(): Parsing
      reads this, stack
      requires Valid()
    {
      Parsing(stack[..top + 1], container, hasDefault, cases, errors)
    }

    constructor ()
      ensures Valid() && fresh(stack) && stack.Length == MAX_SCOPE_DEPTH && Now() == Unparsed
    {
      stack := new Container[MAX_SCOPE_DEPTH](_ => Container(SwitchKind, [], []));
      top := -1;
      container, hasDefault, cases, errors := map[], {}, map[], [];
    }

    // The original does not check for room.
    method PushContainer(kind: Kind)
      requires Valid() && top + 1 < stack.Length
      modifies this`top, stack
      ensures Valid() && top == old(top) + 1 && Now() == Pushed(old(Now()), kind)
    {
      top := top + 1;
      stack[top] := Container(kind, [], []);
    }

    method AddContainee(c: Containee)
      requires Valid()
      modifies this`errors, stack
      ensures Valid() && Now() == Added(old(Now()), c)
    {
      ghost var open := stack[..top + 1];
      var i := top;
      match c {
        case CaseIn(_) =>
          i := FindSwitch();
        case DefaultIn(_) =>
          i := FindSwitch();
        case ContinueIn(_) =>
          i := FindLoop();
        case BreakIn(_) =>
      }
      if i < 0 {
        errors := errors + [c.id];
      } else {
        stack[i] := Enter(stack[i], c);
        assert stack[..top + 1] == open[i := Enter(open[i], c)];
      }
    }

    method FindSwitch() returns (i: int)
      requires Valid()
      ensures i == InnermostSwitch(stack[..top + 1])
    {
      i := top;
      while i >= 0 && !stack[i].kind.SwitchKind?
        invariant -1 <= i <= top
        invariant InnermostSwitch(stack[..i + 1]) == InnermostSwitch(stack[..top + 1])
      {
        assert stack[..i + 1][..i] == stack[..i];
        i := i - 1;
      }
    }

    method FindLoop() returns (i: int)
      requires Valid()
      ensures i == InnermostLoop(stack[..top + 1])
    {
      i := top;
      while i >= 0 && stack[i].kind.SwitchKind?
        invariant -1 <= i <= top
        invariant InnermostLoop(stack[..i + 1]) == InnermostLoop(stack[..top + 1])
      {
        assert stack[..i + 1][..i] == stack[..i];
        i := i - 1;
      }
    }

    method PopContainer(t: Target)
      requires Valid() && top >= 0 && stack[top].kind == KindOf(t) && IsProper(stack[top])
      modifies this
      ensures Valid() && top == old(top) - 1 && Now() == Popped(old(Now()), t)
    {
      var f := stack[top];
      container := BindExits(f.exits, t);
      container := BindExits(f.cases, t);
      if HasDefaultIn(f.cases) {
        hasDefault := hasDefault + {t.id};
      }
      if t.SwitchTarget? {
        cases := cases[t.id := Ids(f.cases)];
      }
      top := top - 1;
      assert old(stack[..top + 1])[..old(top)] == stack[..top + 1];
    }

    // Every node of the list gets t as its container.
    method BindExits(cs: seq<Containee>, t: Target) returns (m: map<nat, Target>)
      ensures m == BindAll(container, cs, t)
    {
      m := container;
      var i := 0;
      while i < |cs|
        invariant i <= |cs| && BindAll(m, cs[i..], t) == BindAll(container, cs, t)
      {
        m := m[cs[i].id := t];
        assert cs[i..][1..] == cs[i + 1..];
        i := i + 1;
      }
    }

    // The grammar's actions for a statement.
    method Parse(s: Stmt)
      requires Valid() && top + Depth(s) < stack.Length && AllProper(Now().open)
      modifies this, stack
      ensures Valid() && top == old(top) && Now() == Parsed(s, old(Now())) && AllProper(Now().open)
      decreases s, 1
    {
      ghost var before := Now();
      ParsedProper(s, before);
      match s {
        case Then(first, rest) => Parse(first); Parse(rest);
        case Block(_, items) => Parse(items);
        case If(_, _, yes, no) => Parse(yes); Parse(no);
        case Switch(_, _, _, body) => ParseContainer(s, body);
        case While(_, _, body) => ParseContainer(s, body);
        case Do(_, body, _) => ParseContainer(s, body);
        case For(_, _, _, _, body) => ParseContainer(s, body);
        case Break(id, _) => AddContainee(BreakIn(id));
        case Continue(id, _) => AddContainee(ContinueIn(id));
        case Case(id, _, _) => AddContainee(CaseIn(id));
        case Default(id, _) => AddContainee(DefaultIn(id));
        case _ =>
      }
    }

    method ParseContainer(s: Stmt, body: Stmt)
      requires (IsLoop(s) || s.Switch?) && body == s.body
      requires Valid() && top + Depth(s) < stack.Length && AllProper(Now().open)
      modifies this, stack
      ensures Valid() && top == old(top) && Now() == Parsed(s, old(Now()))
      decreases s, 0
    {
      hide Popped;
      PushedProper(Now(), KindOf(TargetOf(s)));
      PushContainer(KindOf(TargetOf(s)));
      Parse(body);
      PopContainer(TargetOf(s));
    }
  }
}
