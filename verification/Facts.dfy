/**
 One fact (one bit) of a gen/kill framework, followed along traces and through expressions.
 */
module Facts {
  import opened Ast
  import opened Control

  // Which events generate the fact and which kill it; an event that does both generates it.
  datatype Fact = Fact(gen: Event -> bool, kill: Event -> bool)

  function Across(F: Fact, ev: Event, b: bool): bool {
    F.gen(ev) || (b && !F.kill(ev))
  }

  // Backwards: does the fact hold before t, when `after` says whether it holds after t?
  function Before(F: Fact, t: Trace, after: bool): bool {
    if t == [] then after else Across(F, t[0], Before(F, t[1..], after))
  }

  // Forwards: does the fact hold after t, when `before` says whether it holds before t?
  function After(F: Fact, t: Trace, before: bool): bool {
    if t == [] then before else After(F, t[1..], Across(F, t[0], before))
  }

  lemma {:induction false} BeforeSplit(F: Fact, t: Trace, u: Trace, b: bool)
    ensures Before(F, t + u, b) == Before(F, t, Before(F, u, b))
  {
    if t == [] {
      assert t + u == u;
    } else {
      assert (t + u)[1..] == t[1..] + u;
      BeforeSplit(F, t[1..], u, b);
    }
  }

  lemma {:induction false} AfterSplit(F: Fact, t: Trace, u: Trace, b: bool)
    ensures After(F, t + u, b) == After(F, u, After(F, t, b))
  {
    if t == [] {
      assert t + u == u;
    } else {
      assert (t + u)[1..] == t[1..] + u;
      AfterSplit(F, t[1..], u, Across(F, t[0], b));
    }
  }

  lemma SplitAt(F: Fact, t: Trace, i: nat, b: bool)
    requires i <= |t|
    ensures Before(F, t, b) == Before(F, t[..i], Before(F, t[i..], b))
    ensures After(F, t, b) == After(F, t[i..], After(F, t[..i], b))
  {
    assert t == t[..i] + t[i..];
    BeforeSplit(F, t[..i], t[i..], b);
    AfterSplit(F, t[..i], t[i..], b);
  }

  lemma SplitLast(F: Fact, t: Trace, b: bool)
    requires |t| > 0
    ensures var (u, ev) := (t[..|t| - 1], t[|t| - 1]);
            Before(F, t, b) == Before(F, u, Across(F, ev, b)) && After(F, t, b) == Across(F, ev, After(F, u, b))
  {
    var (u, ev) := (t[..|t| - 1], t[|t| - 1]);
    assert t == u + [ev];
    BeforeSplit(F, u, [ev], b);
    AfterSplit(F, u, [ev], b);
  }

  lemma One(F: Fact, x: Event, b: bool)
    ensures Before(F, [x], b) == After(F, [x], b) == Across(F, x, b)
  {
    assert [x][1..] == [];
  }

  lemma Two(F: Fact, x: Event, y: Event, b: bool)
    ensures Before(F, [x, y], b) == Across(F, x, Across(F, y, b))
    ensures After(F, [x, y], b) == Across(F, y, Across(F, x, b))
  {
    assert [x, y] == [x] + [y];
    BeforeSplit(F, [x], [y], b);
    AfterSplit(F, [x], [y], b);
  }

  // ---------- Expressions ----------

  function BeforeExpr(F: Fact, e: Expr, b: bool): bool {
    match e
    case Const(_, _) => Across(F, Computed, b)
    case Id(_, x) => Across(F, Use(x), b)
    case Binop(_, op, left, right) =>
      if IsPlainTarget(op, left) then BeforeExpr(F, right, Across(F, Set(left.decl), b))
      else if op.OpAssign? && left.Id? then
        BeforeExpr(F, left, BeforeExpr(F, right, Across(F, Update(left.decl), b)))
      else if op.AndAnd? || op.OrOr? then BeforeExpr(F, left, BeforeExpr(F, right, b) || b)
      else BeforeExpr(F, left, BeforeExpr(F, right, b))
    case Unary(_, uop, operand) =>
      if uop.SizeOf? then Across(F, Computed, b)
      else if uop.IncDec? && operand.Id? then BeforeExpr(F, operand, Across(F, Update(operand.decl), b))
      else BeforeExpr(F, operand, b)
    case Ternary(_, cond, yes, no) => BeforeExpr(F, cond, BeforeExpr(F, yes, b) || BeforeExpr(F, no, b))
    case Call(_, name, args) => BeforeExpr(F, name, BeforeExprs(F, args, b))
  }

  function BeforeExprs(F: Fact, es: Exprs, b: bool): bool {
    match es
    case NoExprs => b
    case MoreExprs(head, tail) => BeforeExpr(F, head, BeforeExprs(F, tail, b))
  }

  function BeforeOpt(F: Fact, o: OptExpr, b: bool): bool {
    if o.NoExpr? then b else BeforeExpr(F, o.e, b)
  }

  function BeforeReceiver(F: Fact, s: Stmt, b: bool): bool
    requires s.Spawn?
  {
    if s.receiver.TheExpr? && IsPlainTarget(s.op, s.receiver.e) then b else BeforeOpt(F, s.receiver, b)
  }

  function AfterExpr(F: Fact, e: Expr, b: bool): bool {
    match e
    case Const(_, _) => Across(F, Computed, b)
    case Id(_, x) => Across(F, Use(x), b)
    case Binop(_, op, left, right) =>
      if IsPlainTarget(op, left) then Across(F, Set(left.decl), AfterExpr(F, right, b))
      else if op.OpAssign? && left.Id? then
        Across(F, Update(left.decl), AfterExpr(F, right, AfterExpr(F, left, b)))
      else if op.AndAnd? || op.OrOr? then
        var l := AfterExpr(F, left, b); AfterExpr(F, right, l) || l
      else AfterExpr(F, right, AfterExpr(F, left, b))
    case Unary(_, uop, operand) =>
      if uop.SizeOf? then Across(F, Computed, b)
      else if uop.IncDec? && operand.Id? then Across(F, Update(operand.decl), AfterExpr(F, operand, b))
      else AfterExpr(F, operand, b)
    case Ternary(_, cond, yes, no) =>
      var c := AfterExpr(F, cond, b); AfterExpr(F, yes, c) || AfterExpr(F, no, c)
    case Call(_, name, args) => AfterExprs(F, args, AfterExpr(F, name, b))
  }

  function AfterExprs(F: Fact, es: Exprs, b: bool): bool {
    match es
    case NoExprs => b
    case MoreExprs(head, tail) => AfterExprs(F, tail, AfterExpr(F, head, b))
  }

  function AfterOpt(F: Fact, o: OptExpr, b: bool): bool {
    if o.NoExpr? then b else AfterExpr(F, o.e, b)
  }

  function AfterReceiver(F: Fact, s: Stmt, b: bool): bool
    requires s.Spawn?
  {
    if s.receiver.TheExpr? && IsPlainTarget(s.op, s.receiver.e) then b else AfterOpt(F, s.receiver, b)
  }

  // What the tree computes for e covers every path through e.
  ghost predicate Covered(F: Fact, e: Expr) {
    forall t, b :: IsPath(e, t) ==> (Before(F, t, b) ==> BeforeExpr(F, e, b)) && (After(F, t, b) ==> AfterExpr(F, e, b))
  }

  ghost predicate CoveredAll(F: Fact, es: Exprs) {
    forall t, b :: IsPathThroughAll(es, t) ==>
      (Before(F, t, b) ==> BeforeExprs(F, es, b)) && (After(F, t, b) ==> AfterExprs(F, es, b))
  }

  lemma ThroughCovered(F: Fact, first: Expr, second: Expr, t: Trace, b: bool)
    requires Covered(F, first) && Covered(F, second) && IsPathThrough(first, second, t)
    ensures Before(F, t, b) ==> BeforeExpr(F, first, BeforeExpr(F, second, b))
    ensures After(F, t, b) ==> AfterExpr(F, second, AfterExpr(F, first, b))
  {
    var i :| 0 <= i <= |t| && IsPath(first, t[..i]) && IsPath(second, t[i..]);
    var (u, w) := (t[..i], t[i..]);
    SplitAt(F, t, i, b);
    CoveredBy(F, first, u, Before(F, w, b));
    CoveredBy(F, first, u, b);
    CoveredBy(F, second, w, b);
    CoveredBy(F, second, w, After(F, u, b));
    ExprGrows(F, first);
    ExprGrows(F, second);
  }

  lemma CoveredBy(F: Fact, e: Expr, t: Trace, b: bool)
    requires Covered(F, e) && IsPath(e, t)
    ensures Before(F, t, b) ==> BeforeExpr(F, e, b)
    ensures After(F, t, b) ==> AfterExpr(F, e, b)
  {
  }

  lemma {:induction false} ExprCovered(F: Fact, e: Expr)
    ensures Covered(F, e)
  {
    match e {
      case Const(_, _) | Id(_, _) =>
      case Binop(_, _, left, right) => ExprCovered(F, left); ExprCovered(F, right);
      case Unary(_, _, operand) => ExprCovered(F, operand);
      case Ternary(_, cond, yes, no) => ExprCovered(F, cond); ExprCovered(F, yes); ExprCovered(F, no);
      case Call(_, name, args) => ExprCovered(F, name); ExprsCovered(F, args);
    }
    forall t, b | IsPath(e, t)
      ensures (Before(F, t, b) ==> BeforeExpr(F, e, b)) && (After(F, t, b) ==> AfterExpr(F, e, b))
    {
      PathCovered(F, e, t, b);
    }
  }

  lemma PathCovered(F: Fact, e: Expr, t: Trace, b: bool)
    requires IsPath(e, t)
    requires match e
      case Const(_, _) => true
      case Id(_, _) => true
      case Binop(_, _, left, right) => Covered(F, left) && Covered(F, right)
      case Unary(_, _, operand) => Covered(F, operand)
      case Ternary(_, cond, yes, no) => Covered(F, cond) && Covered(F, yes) && Covered(F, no)
      case Call(_, name, args) => Covered(F, name) && CoveredAll(F, args)
    ensures Before(F, t, b) ==> BeforeExpr(F, e, b)
    ensures After(F, t, b) ==> AfterExpr(F, e, b)
  {
    match e
    case Const(_, _) => One(F, Computed, b);
    case Id(_, x) => One(F, Use(x), b);
    case Binop(_, op, left, right) =>
      ExprGrows(F, left);
      if IsPlainTarget(op, left) {
        SplitLast(F, t, b);
      } else if op.OpAssign? && left.Id? {
        SplitLast(F, t, b);
        ThroughCovered(F, left, right, t[..|t| - 1], Across(F, Update(left.decl), b));
        ThroughCovered(F, left, right, t[..|t| - 1], b);
      } else if !((op.AndAnd? || op.OrOr?) && IsPath(left, t)) {
        ThroughCovered(F, left, right, t, b);
      }
    case Unary(_, uop, operand) =>
      if uop.SizeOf? {
        One(F, Computed, b);
      } else if uop.IncDec? && operand.Id? {
        Two(F, Use(operand.decl), Update(operand.decl), b);
      }
    case Ternary(_, cond, yes, no) =>
      ExprGrows(F, cond);
      if IsPathThrough(cond, yes, t) {
        ThroughCovered(F, cond, yes, t, b);
      } else {
        ThroughCovered(F, cond, no, t, b);
      }
    case Call(_, name, args) =>
      var i :| 0 <= i <= |t| && IsPath(name, t[..i]) && IsPathThroughAll(args, t[i..]);
      SplitAt(F, t, i, b);
      ExprGrows(F, name);
      ExprsGrow(F, args);
  }

  lemma {:induction false} ExprsCovered(F: Fact, es: Exprs)
    ensures CoveredAll(F, es)
  {
    match es
    case NoExprs =>
    case MoreExprs(head, tail) =>
      ExprCovered(F, head);
      ExprsCovered(F, tail);
      forall t, b | IsPathThroughAll(es, t)
        ensures (Before(F, t, b) ==> BeforeExprs(F, es, b)) && (After(F, t, b) ==> AfterExprs(F, es, b))
      {
        var i :| 0 <= i <= |t| && IsPath(head, t[..i]) && IsPathThroughAll(tail, t[i..]);
        SplitAt(F, t, i, b);
        ExprGrows(F, head);
        ExprsGrow(F, tail);
      }
  }

  // The transfer functions of expressions are monotone in the fact.
  lemma {:induction false} ExprGrows(F: Fact, e: Expr)
    ensures BeforeExpr(F, e, false) ==> BeforeExpr(F, e, true)
    ensures AfterExpr(F, e, false) ==> AfterExpr(F, e, true)
  {
    match e
    case Const(_, _) | Id(_, _) =>
    case Binop(_, _, left, right) => ExprGrows(F, left); ExprGrows(F, right);
    case Unary(_, _, operand) => ExprGrows(F, operand);
    case Ternary(_, cond, yes, no) => ExprGrows(F, cond); ExprGrows(F, yes); ExprGrows(F, no);
    case Call(_, name, args) => ExprGrows(F, name); ExprsGrow(F, args);
  }

  lemma {:induction false} ExprsGrow(F: Fact, es: Exprs)
    ensures BeforeExprs(F, es, false) ==> BeforeExprs(F, es, true)
    ensures AfterExprs(F, es, false) ==> AfterExprs(F, es, true)
  {
    match es
    case NoExprs =>
    case MoreExprs(head, tail) => ExprGrows(F, head); ExprsGrow(F, tail);
  }

  /** And it is not larger than the paths: some path through e gives exactly the value that
      the tree computes. */
  lemma {:induction false} BeforeWitness(F: Fact, e: Expr, b: bool) returns (t: Trace)
    ensures IsPath(e, t) && Before(F, t, b) == BeforeExpr(F, e, b)
  {
    match e
    case Const(_, _) => t := [Computed];
    case Id(_, x) => t := [Use(x)];
    case Binop(_, op, left, right) =>
      if IsPlainTarget(op, left) {
        var u := BeforeWitness(F, right, Across(F, Set(left.decl), b));
        t := u + [Set(left.decl)];
        assert t[..|t| - 1] == u;
        SplitLast(F, t, b);
      } else if op.OpAssign? && left.Id? {
        var c := Across(F, Update(left.decl), b);
        var w := BeforeWitness(F, right, c);
        var u := BeforeWitness(F, left, BeforeExpr(F, right, c));
        Through(F, left, right, u, w, c);
        t := (u + w) + [Update(left.decl)];
        assert t[..|t| - 1] == u + w;
        SplitLast(F, t, b);
      } else {
        var short := (op.AndAnd? || op.OrOr?) && !BeforeExpr(F, right, b);
        if short {
          t := BeforeWitness(F, left, b);
        } else {
          var w := BeforeWitness(F, right, b);
          var u := BeforeWitness(F, left, BeforeExpr(F, right, b));
          Through(F, left, right, u, w, b);
          t := u + w;
        }
      }
    case Unary(_, uop, operand) =>
      if uop.SizeOf? {
        t := [Computed];
      } else if uop.IncDec? && operand.Id? {
        t := [Use(operand.decl)] + [Update(operand.decl)];
        Two(F, Use(operand.decl), Update(operand.decl), b);
      } else {
        t := BeforeWitness(F, operand, b);
      }
    case Ternary(_, cond, yes, no) =>
      var branch := if BeforeExpr(F, yes, b) then yes else no;
      var w := BeforeWitness(F, branch, b);
      var u := BeforeWitness(F, cond, BeforeExpr(F, branch, b));
      Through(F, cond, branch, u, w, b);
      t := u + w;
    case Call(_, name, args) =>
      var w := BeforeWitnesses(F, args, b);
      var u := BeforeWitness(F, name, BeforeExprs(F, args, b));
      t := u + w;
      assert t[..|u|] == u && t[|u|..] == w;
      BeforeSplit(F, u, w, b);
  }

  lemma {:induction false} BeforeWitnesses(F: Fact, es: Exprs, b: bool) returns (t: Trace)
    ensures IsPathThroughAll(es, t) && Before(F, t, b) == BeforeExprs(F, es, b)
  {
    match es
    case NoExprs => t := [];
    case MoreExprs(head, tail) =>
      var w := BeforeWitnesses(F, tail, b);
      var u := BeforeWitness(F, head, BeforeExprs(F, tail, b));
      t := u + w;
      assert t[..|u|] == u && t[|u|..] == w;
      BeforeSplit(F, u, w, b);
  }

  lemma Through(F: Fact, first: Expr, second: Expr, u: Trace, w: Trace, b: bool)
    requires IsPath(first, u) && IsPath(second, w)
    ensures IsPathThrough(first, second, u + w)
    ensures Before(F, u + w, b) == Before(F, u, Before(F, w, b))
    ensures After(F, u + w, b) == After(F, w, After(F, u, b))
  {
    assert (u + w)[..|u|] == u && (u + w)[|u|..] == w;
    BeforeSplit(F, u, w, b);
    AfterSplit(F, u, w, b);
  }

  lemma {:induction false} AfterWitness(F: Fact, e: Expr, b: bool) returns (t: Trace)
    ensures IsPath(e, t) && After(F, t, b) == AfterExpr(F, e, b)
  {
    match e
    case Const(_, _) => t := [Computed];
    case Id(_, x) => t := [Use(x)];
    case Binop(_, op, left, right) =>
      if IsPlainTarget(op, left) {
        var u := AfterWitness(F, right, b);
        t := u + [Set(left.decl)];
        assert t[..|t| - 1] == u;
        SplitLast(F, t, b);
      } else {
        var u := AfterWitness(F, left, b);
        var l := AfterExpr(F, left, b);
        if (op.AndAnd? || op.OrOr?) && !AfterExpr(F, right, l) {
          t := u;
        } else {
          var w := AfterWitness(F, right, l);
          Through(F, left, right, u, w, b);
          t := u + w;
          if op.OpAssign? && left.Id? {
            t := t + [Update(left.decl)];
            assert t[..|t| - 1] == u + w;
            SplitLast(F, t, b);
          }
        }
      }
    case Unary(_, uop, operand) =>
      if uop.SizeOf? {
        t := [Computed];
      } else if uop.IncDec? && operand.Id? {
        t := [Use(operand.decl)] + [Update(operand.decl)];
        Two(F, Use(operand.decl), Update(operand.decl), b);
      } else {
        t := AfterWitness(F, operand, b);
      }
    case Ternary(_, cond, yes, no) =>
      var u := AfterWitness(F, cond, b);
      var c := AfterExpr(F, cond, b);
      var branch := if AfterExpr(F, yes, c) then yes else no;
      var w := AfterWitness(F, branch, c);
      Through(F, cond, branch, u, w, b);
      t := u + w;
    case Call(_, name, args) =>
      var u := AfterWitness(F, name, b);
      var w := AfterWitnesses(F, args, AfterExpr(F, name, b));
      t := u + w;
      assert t[..|u|] == u && t[|u|..] == w;
      AfterSplit(F, u, w, b);
  }

  lemma {:induction false} AfterWitnesses(F: Fact, es: Exprs, b: bool) returns (t: Trace)
    ensures IsPathThroughAll(es, t) && After(F, t, b) == AfterExprs(F, es, b)
  {
    match es
    case NoExprs => t := [];
    case MoreExprs(head, tail) =>
      var u := AfterWitness(F, head, b);
      var w := AfterWitnesses(F, tail, AfterExpr(F, head, b));
      t := u + w;
      assert t[..|u|] == u && t[|u|..] == w;
      AfterSplit(F, u, w, b);
  }
}
