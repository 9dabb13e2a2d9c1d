/**
 One fact at the exits of expression nodes: the equations inside an expression, and their
 meaning in terms of what is left of a path once the node has been evaluated.
 */
module InnerPaths {
  import opened Ast
  import opened Control
  import opened Facts

  // ---------- What is left to evaluate ----------

  // u is the rest of a path through e after the exit of node n of e.  The variable that a
  // plain assignment overwrites is passed, but not read, before the right operand.
  ghost predicate IsRest(e: Expr, n: nat, u: Trace)
    decreases e, 0
  {
    || (e.id == n && u == [])
    || match e
       case Const(_, _) => false
       case Id(_, _) => false
       case Binop(_, op, left, right) =>
         if IsPlainTarget(op, left) then
           |u| > 0 && u[|u| - 1] == Set(left.decl) &&
           (IsRest(right, n, u[..|u| - 1]) || (left.id == n && IsPath(right, u[..|u| - 1])))
         else if op.OpAssign? && left.Id? then
           |u| > 0 && u[|u| - 1] == Update(left.decl) &&
           (IsRest(right, n, u[..|u| - 1]) || IsRestThrough(left, right, n, u[..|u| - 1]))
         else
           || IsRest(right, n, u)
           || IsRestThrough(left, right, n, u)
           || ((op.AndAnd? || op.OrOr?) && IsRest(left, n, u))
       case Unary(_, uop, operand) =>
         if uop.SizeOf? then false
         else if uop.IncDec? && operand.Id? then
           |u| > 0 && u[|u| - 1] == Update(operand.decl) && IsRest(operand, n, u[..|u| - 1])
         else IsRest(operand, n, u)
       case Ternary(_, cond, yes, no) =>
         IsRest(yes, n, u) || IsRest(no, n, u) || IsRestThrough(cond, yes, n, u) || IsRestThrough(cond, no, n, u)
       case Call(_, name, args) =>
         || IsRestOfAll(args, n, u)
         || exists i | 0 <= i <= |u| :: IsRest(name, n, u[..i]) && IsPathThroughAll(args, u[i..])
  }

  // The rest of a path through one expression, and then a path through another.
  ghost predicate IsRestThrough(first: Expr, second: Expr, n: nat, u: Trace)
    decreases first, 1
  {
    exists i | 0 <= i <= |u| :: IsRest(first, n, u[..i]) && IsPath(second, u[i..])
  }

  ghost predicate IsRestOfAll(es: Exprs, n: nat, u: Trace)
    decreases es, 0
  {
    match es
    case NoExprs => false
    case MoreExprs(head, tail) =>
      || IsRestOfAll(tail, n, u)
      || exists i | 0 <= i <= |u| :: IsRest(head, n, u[..i]) && IsPathThroughAll(tail, u[i..])
  }

  ghost predicate IsRestOpt(o: OptExpr, n: nat, u: Trace) {
    o.TheExpr? && IsRest(o.e, n, u)
  }

  // ---------- The equations ----------

  // The nodes of e at whose exit the fact holds, when b says whether it holds after e.
  ghost function ExprMarks(F: Fact, e: Expr, b: bool): set<nat> {
    (if b then {e.id} else {}) +
    match e
    case Const(_, _) => {}
    case Id(_, _) => {}
    case Binop(_, op, left, right) =>
      if IsPlainTarget(op, left) then
        var a := Across(F, Set(left.decl), b);
        ExprMarks(F, right, a) + (if BeforeExpr(F, right, a) then {left.id} else {})
      else if op.OpAssign? && left.Id? then
        var a := Across(F, Update(left.decl), b);
        ExprMarks(F, right, a) + ExprMarks(F, left, BeforeExpr(F, right, a))
      else if op.AndAnd? || op.OrOr? then ExprMarks(F, right, b) + ExprMarks(F, left, BeforeExpr(F, right, b) || b)
      else ExprMarks(F, right, b) + ExprMarks(F, left, BeforeExpr(F, right, b))
    case Unary(_, uop, operand) =>
      if uop.SizeOf? then {}
      else if uop.IncDec? && operand.Id? then ExprMarks(F, operand, Across(F, Update(operand.decl), b))
      else ExprMarks(F, operand, b)
    case Ternary(_, cond, yes, no) =>
      ExprMarks(F, yes, b) + ExprMarks(F, no, b) + ExprMarks(F, cond, BeforeExpr(F, yes, b) || BeforeExpr(F, no, b))
    case Call(_, name, args) => ExprsMarks(F, args, b) + ExprMarks(F, name, BeforeExprs(F, args, b))
  }

  ghost function ExprsMarks(F: Fact, es: Exprs, b: bool): set<nat> {
    match es
    case NoExprs => {}
    case MoreExprs(head, tail) => ExprsMarks(F, tail, b) + ExprMarks(F, head, BeforeExprs(F, tail, b))
  }

  ghost function OptMarks(F: Fact, o: OptExpr, b: bool): set<nat> {
    if o.NoExpr? then {} else ExprMarks(F, o.e, b)
  }

  // ---------- They cover every rest ----------

  lemma {:induction false} MarksGrow(F: Fact, e: Expr)
    ensures ExprMarks(F, e, false) <= ExprMarks(F, e, true)
  {
    ExprGrows(F, e);
    match e
    case Const(_, _) | Id(_, _) =>
    case Binop(_, _, left, right) => MarksGrow(F, left); MarksGrow(F, right); ExprGrows(F, right);
    case Unary(_, _, operand) => MarksGrow(F, operand);
    case Ternary(_, cond, yes, no) =>
      MarksGrow(F, cond); MarksGrow(F, yes); MarksGrow(F, no);
      ExprGrows(F, yes);
      ExprGrows(F, no);
    case Call(_, name, args) => MarksGrow(F, name); AllMarksGrow(F, args); ExprsGrow(F, args);
  }

  lemma {:induction false} AllMarksGrow(F: Fact, es: Exprs)
    ensures ExprsMarks(F, es, false) <= ExprsMarks(F, es, true)
  {
    if es.MoreExprs? {
      MarksGrow(F, es.head);
      AllMarksGrow(F, es.tail);
      ExprsGrow(F, es.tail);
    }
  }

  // A rest of `first`, a path through `second`, and then b.
  lemma ThroughCut(F: Fact, first: Expr, second: Expr, n: nat, u: Trace, b: bool) returns (r: Trace)
    requires IsRestThrough(first, second, n, u)
    ensures IsRest(first, n, r) && (Before(F, u, b) ==> Before(F, r, BeforeExpr(F, second, b)))
  {
    var i :| 0 <= i <= |u| && IsRest(first, n, u[..i]) && IsPath(second, u[i..]);
    r := u[..i];
    SplitAt(F, u, i, b);
    ExprCovered(F, second);
    CoveredBy(F, second, u[i..], b);
    TraceGrows(F, r);
  }

  lemma {:induction false} TraceGrows(F: Fact, t: Trace)
    ensures Before(F, t, false) ==> Before(F, t, true)
  {
    if t != [] { TraceGrows(F, t[1..]); }
  }

  lemma {:induction false} RestCovered(F: Fact, e: Expr, n: nat, u: Trace, b: bool)
    requires IsRest(e, n, u) && Before(F, u, b)
    ensures n in ExprMarks(F, e, b)
    decreases e
  {
    if e.id == n && u == [] {
    } else {
      match e
      case Binop(_, op, left, right) => BinopRestCovered(F, e, n, u, b);
      case Unary(_, uop, operand) =>
        if uop.IncDec? && operand.Id? {
          SplitLast(F, u, b);
          RestCovered(F, operand, n, u[..|u| - 1], Across(F, Update(operand.decl), b));
        } else {
          RestCovered(F, operand, n, u, b);
        }
      case Ternary(_, cond, yes, no) =>
        if IsRest(yes, n, u) {
          RestCovered(F, yes, n, u, b);
        } else if IsRest(no, n, u) {
          RestCovered(F, no, n, u, b);
        } else {
          var branch := if IsRestThrough(cond, yes, n, u) then yes else no;
          var r := ThroughCut(F, cond, branch, n, u, b);
          RestCovered(F, cond, n, r, BeforeExpr(F, branch, b));
          MarksGrow(F, cond);
        }
      case Call(_, name, args) =>
        if IsRestOfAll(args, n, u) {
          RestOfAllCovered(F, args, n, u, b);
        } else {
          var i :| 0 <= i <= |u| && IsRest(name, n, u[..i]) && IsPathThroughAll(args, u[i..]);
          SplitAt(F, u, i, b);
          ExprsCovered(F, args);
          TraceGrows(F, u[..i]);
          RestCovered(F, name, n, u[..i], BeforeExprs(F, args, b));
        }
    }
  }

  lemma {:induction false} BinopRestCovered(F: Fact, e: Expr, n: nat, u: Trace, b: bool)
    requires e.Binop? && IsRest(e, n, u) && !(e.id == n && u == []) && Before(F, u, b)
    ensures n in ExprMarks(F, e, b)
    decreases e, 0
  {
    var (op, left, right) := (e.op, e.left, e.right);
    if IsPlainTarget(op, left) {
      var a := Across(F, Set(left.decl), b);
      SplitLast(F, u, b);
      if IsRest(right, n, u[..|u| - 1]) {
        RestCovered(F, right, n, u[..|u| - 1], a);
      } else {
        ExprCovered(F, right);
        CoveredBy(F, right, u[..|u| - 1], a);
      }
    } else if op.OpAssign? && left.Id? {
      var a := Across(F, Update(left.decl), b);
      SplitLast(F, u, b);
      if IsRest(right, n, u[..|u| - 1]) {
        RestCovered(F, right, n, u[..|u| - 1], a);
      } else {
        var r := ThroughCut(F, left, right, n, u[..|u| - 1], a);
        RestCovered(F, left, n, r, BeforeExpr(F, right, a));
      }
    } else if IsRest(right, n, u) {
      RestCovered(F, right, n, u, b);
    } else if IsRestThrough(left, right, n, u) {
      var r := ThroughCut(F, left, right, n, u, b);
      RestCovered(F, left, n, r, BeforeExpr(F, right, b));
      MarksGrow(F, left);
    } else {
      RestCovered(F, left, n, u, b);
      MarksGrow(F, left);
    }
  }

  lemma {:induction false} RestOfAllCovered(F: Fact, es: Exprs, n: nat, u: Trace, b: bool)
    requires IsRestOfAll(es, n, u) && Before(F, u, b)
    ensures n in ExprsMarks(F, es, b)
    decreases es
  {
    var (head, tail) := (es.head, es.tail);
    if IsRestOfAll(tail, n, u) {
      RestOfAllCovered(F, tail, n, u, b);
    } else {
      var i :| 0 <= i <= |u| && IsRest(head, n, u[..i]) && IsPathThroughAll(tail, u[i..]);
      SplitAt(F, u, i, b);
      ExprsCovered(F, tail);
      TraceGrows(F, u[..i]);
      RestCovered(F, head, n, u[..i], BeforeExprs(F, tail, b));
    }
  }

  // ---------- And no more ----------

  lemma JoinsThrough(F: Fact, first: Expr, second: Expr, n: nat, r: Trace, w: Trace, b: bool)
    requires IsRest(first, n, r) && IsPath(second, w) && Before(F, r, Before(F, w, b))
    ensures IsRestThrough(first, second, n, r + w) && Before(F, r + w, b)
  {
    assert (r + w)[..|r|] == r && (r + w)[|r|..] == w;
    BeforeSplit(F, r, w, b);
  }

  lemma {:induction false} RestWitness(F: Fact, e: Expr, n: nat, b: bool) returns (u: Trace)
    requires n in ExprMarks(F, e, b)
    ensures IsRest(e, n, u) && Before(F, u, b)
    decreases e, 1
  {
    if b && n == e.id {
      u := [];
    } else {
      match e
      case Binop(_, _, _, _) => u := BinopRestWitness(F, e, n, b);
      case Unary(_, uop, operand) =>
        if uop.IncDec? && operand.Id? {
          var r := RestWitness(F, operand, n, Across(F, Update(operand.decl), b));
          u := r + [Update(operand.decl)];
          assert u[..|u| - 1] == r;
          SplitLast(F, u, b);
        } else {
          u := RestWitness(F, operand, n, b);
        }
      case Ternary(_, cond, yes, no) =>
        if n in ExprMarks(F, yes, b) {
          u := RestWitness(F, yes, n, b);
        } else if n in ExprMarks(F, no, b) {
          u := RestWitness(F, no, n, b);
        } else {
          var branch := if BeforeExpr(F, yes, b) then yes else no;
          var r := RestWitness(F, cond, n, BeforeExpr(F, branch, b));
          var w := BeforeWitness(F, branch, b);
          JoinsThrough(F, cond, branch, n, r, w, b);
          u := r + w;
        }
      case Call(_, name, args) =>
        if n in ExprsMarks(F, args, b) {
          u := RestOfAllWitness(F, args, n, b);
        } else {
          var r := RestWitness(F, name, n, BeforeExprs(F, args, b));
          var w := BeforeWitnesses(F, args, b);
          u := r + w;
          assert u[..|r|] == r && u[|r|..] == w;
          BeforeSplit(F, r, w, b);
        }
    }
  }

  lemma {:induction false} BinopRestWitness(F: Fact, e: Expr, n: nat, b: bool) returns (u: Trace)
    requires e.Binop? && n in ExprMarks(F, e, b) && !(b && n == e.id)
    ensures IsRest(e, n, u) && Before(F, u, b)
    decreases e, 0
  {
    var (op, left, right) := (e.op, e.left, e.right);
    if IsPlainTarget(op, left) {
      var a := Across(F, Set(left.decl), b);
      var r: Trace;
      if n in ExprMarks(F, right, a) { r := RestWitness(F, right, n, a); } else { r := BeforeWitness(F, right, a); }
      u := r + [Set(left.decl)];
      assert u[..|u| - 1] == r;
      SplitLast(F, u, b);
    } else if op.OpAssign? && left.Id? {
      var a := Across(F, Update(left.decl), b);
      var r: Trace;
      if n in ExprMarks(F, right, a) {
        r := RestWitness(F, right, n, a);
      } else {
        var x := RestWitness(F, left, n, BeforeExpr(F, right, a));
        var w := BeforeWitness(F, right, a);
        JoinsThrough(F, left, right, n, x, w, a);
        r := x + w;
      }
      u := r + [Update(left.decl)];
      assert u[..|u| - 1] == r;
      SplitLast(F, u, b);
    } else if n in ExprMarks(F, right, b) {
      u := RestWitness(F, right, n, b);
    } else if (op.AndAnd? || op.OrOr?) && !BeforeExpr(F, right, b) {
      u := RestWitness(F, left, n, b);
    } else {
      var x := RestWitness(F, left, n, BeforeExpr(F, right, b));
      var w := BeforeWitness(F, right, b);
      JoinsThrough(F, left, right, n, x, w, b);
      u := x + w;
    }
  }

  lemma {:induction false} RestOfAllWitness(F: Fact, es: Exprs, n: nat, b: bool) returns (u: Trace)
    requires n in ExprsMarks(F, es, b)
    ensures IsRestOfAll(es, n, u) && Before(F, u, b)
    decreases es, 1
  {
    var (head, tail) := (es.head, es.tail);
    if n in ExprsMarks(F, tail, b) {
      u := RestOfAllWitness(F, tail, n, b);
    } else {
      var r := RestWitness(F, head, n, BeforeExprs(F, tail, b));
      var w := BeforeWitnesses(F, tail, b);
      u := r + w;
      assert u[..|r|] == r && u[|r|..] == w;
      BeforeSplit(F, r, w, b);
    }
  }

  // u is left after node n, and meets the fact.
  ghost predicate Meets(F: Fact, e: Expr, n: nat, u: Trace, b: bool) {
    IsRest(e, n, u) && Before(F, u, b)
  }

  /** The fact holds at the exit of a node inside e if and only if some rest of a path through
      e, and then what follows e, meets it before it is killed. */
  lemma MarksExact(F: Fact, e: Expr, n: nat, b: bool)
    ensures n in ExprMarks(F, e, b) <==> exists u :: Meets(F, e, n, u, b)
  {
    if n in ExprMarks(F, e, b) {
      var u := RestWitness(F, e, n, b);
      assert Meets(F, e, n, u, b);
    }
    forall u | Meets(F, e, n, u, b) ensures n in ExprMarks(F, e, b) {
      RestCovered(F, e, n, u, b);
    }
  }
}
