/**
 The range of indices that a counting `for` loop with an unmodified index passes over, as
 the analyzer computes it to widen the accesses of the loop body.
 */
module LoopRanges {
  import opened Ast

  // Operator codes of the parser.
  const LESS: nat := 60
  const GREATER: nat := 62
  const POSTINC: nat := 294
  const POSTDEC: nat := 295
  const PREINC: nat := 296
  const PREDEC: nat := 297
  const LE: nat := 316
  const GE: nat := 317
  const EQ: nat := 318
  const PLUSassign: nat := 326

  datatype Option<T> = None | Some(value: T)

  datatype Step = Up | Added(amount: int) | Down

  // `for (i = from; i op to; step)`.
  datatype Counted = Counted(index: nat, from: int, op: nat, to: int, step: Step)

  // ---------- Which loops count ----------

  function StartOf(o: OptExpr): Option<(nat, int)> {
    match o
    case TheExpr(Binop(_, Assign, Id(_, x), Const(_, v))) => Some((x, v))
    case _ => None
  }

  function GuardOf(o: OptExpr, x: nat): Option<(nat, int)> {
    match o
    case TheExpr(Binop(_, Arith(op), Id(_, y), Const(_, v))) =>
      if y == x && op in {LESS, GREATER, LE, GE, EQ} then Some((op, v)) else None
    case _ => None
  }

  function StepOf(o: OptExpr, x: nat): Option<Step> {
    match o
    case TheExpr(Unary(_, IncDec(op), Id(_, y))) =>
      if y != x then None
      else if op in {PREINC, POSTINC} then Some(Up)
      else if op in {PREDEC, POSTDEC} then Some(Down)
      else None
    case TheExpr(Binop(_, OpAssign(op), Id(_, y), Const(_, v))) =>
      if y == x && op == PLUSassign then Some(Added(v)) else None
    case _ => None
  }

  function CountedLoop(s: Stmt): Option<Counted>
    requires s.For?
  {
    var start := StartOf(s.start);
    if start.None? then None
    else
      var guard, step := GuardOf(s.guard, start.value.0), StepOf(s.next, start.value.0);
      if guard.None? || step.None? then None
      else Some(Counted(start.value.0, start.value.1, guard.value.0, guard.value.1, step.value))
  }

  // ---------- What the loop passes over ----------

  predicate Continues(l: Counted, i: int) {
    if l.op == LESS then i < l.to
    else if l.op == LE then i <= l.to
    else if l.op == GREATER then i > l.to
    else if l.op == GE then i >= l.to
    else i == l.to
  }

  // loop_var_offset: what is added, or 1 for an increment or a decrement.
  function Width(l: Counted): int {
    if l.step.Added? then l.step.amount else 1
  }

  function Next(l: Counted, i: int): int {
    if l.step.Down? then i - 1 else i + Width(l)
  }

  // The iteration with index i accounts for the indices from i on that come before the next.
  predicate Accounts(l: Counted, i: int, x: int) {
    i <= x < Next(l, i) || Next(l, i) < x <= i
  }

  // Does one of the next n + 1 iterations, the first with index i, account for x?
  ghost predicate TouchedFrom(l: Counted, i: int, x: int, n: nat)
    decreases n
  {
    Continues(l, i) && (Accounts(l, i, x) || (n > 0 && TouchedFrom(l, Next(l, i), x, n - 1)))
  }

  ghost predicate TouchedAfter(l: Counted, i: int, x: int) {
    exists n: nat :: TouchedFrom(l, i, x, n)
  }

  ghost predicate Touched(l: Counted, x: int) {
    TouchedAfter(l, l.from, x)
  }

  // [start, start + region) is what the iterations account for.
  ghost predicate IsRange(l: Counted, start: int, region: int) {
    forall x :: Touched(l, x) <==> start <= x < start + region
  }

  // The loops whose range the analyzer gets right.
  predicate RangeIsRight(l: Counted) {
    if Width(l) < 0 then
      if l.op == EQ then l.from != l.to && l.to - l.from < -2 * Width(l) else !Continues(l, l.from)
    else if l.step.Down? then
      if l.op == GE then true
      else if l.op == LESS then l.from >= l.to
      else if l.op == LE then l.from > l.to
      else l.from <= l.to
    else
      if l.op == LESS || l.op == LE then true
      else if l.op == GREATER then l.from <= l.to
      else if l.op == GE then l.from < l.to
      else l.from >= l.to
  }

  // ---------- What the analyzer computes ----------

  // Division of C, which truncates towards zero.
  function Quotient(a: int, b: int): int
    requires b != 0
  {
    if a >= 0 then a / b else -(-a / b)
  }

  function Rounded(l: Counted, region: int): int
    requires l.step.Added? ==> l.step.amount != 0
  {
    if l.step.Added? then Quotient(region + l.step.amount - 1, l.step.amount) * l.step.amount else region
  }

  // Does the analyzer take the bound of the guard as the start of the range?
  predicate FromBound(l: Counted) {
    l.op == GREATER || l.op == GE || (l.op == EQ && l.step.Down?)
  }

  function StartOfRange(l: Counted): int {
    if FromBound(l) then l.to else l.from
  }

  function Region(l: Counted): int
    requires l.step.Added? ==> l.step.amount != 0
  {
    var distance := if FromBound(l) then l.from - l.to else l.to - l.from;
    Rounded(l, if l.op == LESS || l.op == GREATER then distance else distance + 1)
  }

  // ---------- Rounding ----------

  // The least multiple of k that is not below a, and not negative.
  function Blocks(a: int, k: int): (b: int)
    requires k > 0
    ensures b >= 0 && b >= a && (a > 0 ==> b > 0)
    decreases if a > 0 then a else 0
  {
    if a <= 0 then 0 else k + Blocks(a - k, k)
  }

  // A multiple of k strictly between -k and k is 0.
  lemma {:induction false} SmallMultiple(d: int, k: int)
    requires k > 0 && -k < d * k < k
    ensures d == 0
  {
    if d > 0 {
      assert d * k == (d - 1) * k + k;
      NotNegative(d - 1, k);
    } else if d < 0 {
      assert d * k == -((-d - 1) * k) - k;
      NotNegative(-d - 1, k);
    }
  }

  lemma NotNegative(x: nat, y: nat)
    ensures x * y >= 0
  {
  }

  lemma QuotientIs(a: int, k: int, q: int)
    requires k > 0 && q * k <= a < q * k + k
    ensures a / k == q
  {
    var (p, r) := (a / k, a % k);
    assert a == p * k + r;
    assert (p - q) * k == p * k - q * k;
    SmallMultiple(p - q, k);
  }

  // a / k rounded up, for positive a.
  function RoundedQuotient(a: int, k: int): int
    requires k > 0
  {
    Quotient(a + k - 1, k)
  }

  lemma MoreThanOneBlock(a: int, k: int)
    requires 0 < k < a
    ensures RoundedQuotient(a, k) == RoundedQuotient(a - k, k) + 1
  {
    var q := (a - 1) / k;
    OneMoreTimes(q, k);
    QuotientIs(a + k - 1, k, q + 1);
  }

  lemma OneBlock(a: int, k: int)
    requires 0 < a <= k
    ensures RoundedQuotient(a, k) == 1
  {
    QuotientIs(a + k - 1, k, 1);
  }

  lemma NoBlock(a: int, k: int)
    requires a <= 0 < k
    ensures RoundedQuotient(a, k) * k <= 0
  {
    if a + k - 1 >= 0 {
      QuotientIs(a + k - 1, k, 0);
    } else {
      var q := -(a + k - 1) / k;
      NotNegative(q, k);
      assert -q * k == -(q * k);
    }
  }

  lemma OneMoreTimes(q: int, k: int)
    ensures (q + 1) * k == q * k + k
  {
  }

  lemma {:induction false} RoundsUp(a: int, k: int)
    requires k > 0
    ensures a > 0 ==> RoundedQuotient(a, k) * k == Blocks(a, k)
    ensures a <= 0 ==> RoundedQuotient(a, k) * k <= 0
    decreases if a > 0 then a else 0
  {
    hide RoundedQuotient;
    if a > k {
      MoreThanOneBlock(a, k);
      OneMoreTimes(RoundedQuotient(a - k, k), k);
      RoundsUp(a - k, k);
    } else if a > 0 {
      OneBlock(a, k);
      assert Blocks(a - k, k) == 0;
    } else {
      NoBlock(a, k);
    }
  }

  // ---------- Loops that count up to a bound, or down to one ----------

  // The first index at which the loop ends.
  function Limit(l: Counted): int {
    if l.op == LESS || l.op == GREATER then l.to else if l.op == LE then l.to + 1 else l.to - 1
  }

  lemma {:induction false} CountsUp(l: Counted, i: int, x: int)
    requires (l.op == LESS || l.op == LE) && !l.step.Down? && Width(l) > 0
    ensures TouchedAfter(l, i, x) <==> i <= x < i + Blocks(Limit(l) - i, Width(l))
    decreases if Limit(l) > i then Limit(l) - i else 0
  {
    if i < Limit(l) {
      var next := Next(l, i);
      CountsUp(l, next, x);
      OneStep(l, i, x);
    }
  }

  // The iterations from i on: the one with index i, and those from the next index on.
  lemma OneStep(l: Counted, i: int, x: int)
    requires Continues(l, i)
    ensures TouchedAfter(l, i, x) <==> Accounts(l, i, x) || TouchedAfter(l, Next(l, i), x)
  {
    if Accounts(l, i, x) {
      assert TouchedFrom(l, i, x, 0);
    }
    if n: nat :| TouchedFrom(l, i, x, n) {
      assert Accounts(l, i, x) || TouchedFrom(l, Next(l, i), x, n - 1);
    }
    if n: nat :| TouchedFrom(l, Next(l, i), x, n) {
      assert TouchedFrom(l, i, x, n + 1);
    }
  }

  lemma {:induction false} CountsDown(l: Counted, i: int, x: int)
    requires (l.op == GREATER || l.op == GE) && l.step.Down?
    ensures TouchedAfter(l, i, x) <==> Limit(l) < x <= i
    decreases if i > Limit(l) then i - Limit(l) else 0
  {
    if i > Limit(l) {
      CountsDown(l, Next(l, i), x);
      OneStep(l, i, x);
    }
  }

  lemma CountsOnce(l: Counted, x: int)
    requires l.op == EQ && Width(l) > 0
    ensures Touched(l, x) <==> l.from == l.to && l.from <= x < l.from + Width(l)
  {
    if l.from == l.to {
      OneStep(l, l.from, x);
    }
  }

  // ---------- Loops that never reach their bound ----------

  lemma {:induction false} CountsUpForever(l: Counted, i: int, x: int, n: nat)
    requires (l.op == GREATER || l.op == GE) && !l.step.Down? && Width(l) > 0
    requires Continues(l, i) && i <= x <= i + n
    ensures TouchedFrom(l, i, x, n)
    decreases n
  {
    if x >= i + Width(l) { CountsUpForever(l, Next(l, i), x, n - 1); }
  }

  lemma {:induction false} CountsDownForever(l: Counted, i: int, x: int, n: nat)
    requires (l.op == LESS || l.op == LE) && Next(l, i) < i
    requires Continues(l, i) && i - n <= x <= i
    ensures TouchedFrom(l, i, x, n)
    decreases n
  {
    if x <= Next(l, i) { CountsDownForever(l, Next(l, i), x, n - 1); }
  }

  lemma NotEntered(l: Counted, x: int)
    requires !Continues(l, l.from)
    ensures !Touched(l, x)
  {
  }

  // ---------- When the range is right ----------

  predicate IsCounted(l: Counted) {
    l.op in {LESS, GREATER, LE, GE, EQ} && Width(l) != 0
  }

  /** The range the analyzer computes is what the iterations account for if and only if
      RangeIsRight: always for ascending `<` and `<=` loops, rounding included, and for
      descending `>=` loops; never for a descending `>` loop that is entered, whose range
      starts one index too early; and for a negative step that is added never for a loop that
      is entered, since the range is rounded at the wrong end. */
  lemma RangeExact(l: Counted)
    requires IsCounted(l)
    ensures IsRange(l, StartOfRange(l), Region(l)) <==> RangeIsRight(l)
  {
    if Width(l) < 0 {
      RangeNegative(l);
    } else if l.step.Down? {
      RangeDown(l);
    } else {
      RangeUp(l);
    }
  }

  lemma RangeUp(l: Counted)
    requires IsCounted(l) && !l.step.Down? && Width(l) > 0
    ensures IsRange(l, StartOfRange(l), Region(l)) <==> RangeIsRight(l)
  {
    var (start, k) := (StartOfRange(l), Width(l));
    if l.op == EQ {
      RangeOnce(l);
    } else {
      var distance := if FromBound(l) then l.from - l.to else l.to - l.from;
      var a := if l.op == LE || l.op == GE then distance + 1 else distance;
      RoundsUp(a, k);
      UnitBlocks(a);
      if l.op == LESS || l.op == LE {
        forall x ensures Touched(l, x) <==> start <= x < start + Region(l) { CountsUp(l, l.from, x); }
      } else if Continues(l, l.from) {
        var end := start + Region(l);
        var x := if l.from < end then end else l.from;
        CountsUpForever(l, l.from, x, x - l.from);
        assert Touched(l, x);
      } else {
        forall x ensures !Touched(l, x) { NotEntered(l, x); }
      }
    }
  }

  lemma RangeOnce(l: Counted)
    requires l.op == EQ && !l.step.Down? && Width(l) > 0
    ensures IsRange(l, StartOfRange(l), Region(l)) <==> RangeIsRight(l)
  {
    var (start, k) := (StartOfRange(l), Width(l));
    var a := l.to - l.from + 1;
    RoundsUp(a, k);
    UnitBlocks(a);
    forall x ensures Touched(l, x) <==> l.from == l.to && l.from <= x < l.from + k { CountsOnce(l, x); }
    assert Blocks(1, k) == k + Blocks(1 - k, k) == k;
    if l.from < l.to {
      assert !Touched(l, start) && Region(l) > 0;
    } else if l.from == l.to {
      assert a == 1 && Region(l) == k;
    } else {
      assert Region(l) <= 0;
    }
  }

  lemma {:induction false} UnitBlocks(a: int)
    ensures Blocks(a, 1) == if a > 0 then a else 0
    decreases if a > 0 then a else 0
  {
    if a > 0 { UnitBlocks(a - 1); }
  }

  lemma RangeDown(l: Counted)
    requires IsCounted(l) && l.step.Down?
    ensures IsRange(l, StartOfRange(l), Region(l)) <==> RangeIsRight(l)
  {
    var start := StartOfRange(l);
    if l.op == GREATER || l.op == GE {
      forall x ensures Touched(l, x) <==> Limit(l) < x <= l.from { CountsDown(l, l.from, x); }
      if l.op == GREATER && l.from > l.to { assert start <= start < start + Region(l) && !Touched(l, start); }
    } else if l.op == EQ {
      forall x ensures Touched(l, x) <==> l.from == l.to && l.from <= x < l.from + 1 { CountsOnce(l, x); }
      if l.from > l.to { assert !Touched(l, start) && Region(l) > 0; }
    } else if Continues(l, l.from) {
      CountsDownForever(l, l.from, start - 1, 1);
      assert Touched(l, start - 1);
    } else {
      forall x ensures !Touched(l, x) { NotEntered(l, x); }
    }
  }

  // Rounding to a negative step drops what is below the last whole step.
  lemma NegativeRounding(a: int, k: int)
    requires k < 0
    ensures a + k - 1 < 0 ==> Quotient(a + k - 1, k) * k <= 0
    ensures a + k - 1 >= 0 ==> 0 <= Quotient(a + k - 1, k) * k <= a + k - 1
    ensures a + k - 1 >= -k ==> Quotient(a + k - 1, k) * k > 0
    ensures a + k - 1 < -k ==> Quotient(a + k - 1, k) * k <= 0
  {
    var (b, q) := (a + k - 1, Quotient(a + k - 1, k));
    if b >= 0 {
      var r := b % k;
      assert b == k * q + r && 0 <= r < -k;
      if b < -k { SmallMultiple(-q, -k); assert q * k == 0; }
    } else {
      var (c, d) := (-b, -b / k);
      var r := c % k;
      assert c == k * d + r && 0 <= r < -k;
      NotNegative(-d, -k);
      assert q == -d && q * k == -(-d * -k);
    }
  }

  lemma RangeNegative(l: Counted)
    requires IsCounted(l) && Width(l) < 0
    ensures IsRange(l, StartOfRange(l), Region(l)) <==> RangeIsRight(l)
  {
    var (start, k) := (StartOfRange(l), Width(l));
    var distance := if FromBound(l) then l.from - l.to else l.to - l.from;
    var a := if l.op == LESS || l.op == GREATER then distance else distance + 1;
    NegativeRounding(a, k);
    if !Continues(l, l.from) {
      forall x ensures !Touched(l, x) { NotEntered(l, x); }
      if Region(l) > 0 { assert !Touched(l, start); }
    } else {
      assert TouchedFrom(l, l.from, l.from, 0);
      assert Touched(l, l.from);
      if l.op == LESS || l.op == LE {
        CountsDownForever(l, l.from, start - 1, 1);
        assert Touched(l, start - 1);
      }
    }
  }

  /** `for (i = 10; i >= 0; i += -1)` gets the range [0, 9), which misses index 10. */
  lemma AddingMinusOne(index: nat)
    ensures var l := Counted(index, 10, GE, 0, Added(-1));
      StartOfRange(l) == 0 && Region(l) == 9 && Touched(l, 10) && !IsRange(l, 0, 9)
  {
    var l := Counted(index, 10, GE, 0, Added(-1));
    assert TouchedFrom(l, 10, 10, 0);
  }

  // ---------- What a for statement does, by the C meaning of its expressions ----------

  // The value of a comparison of integers.
  function Compares(op: nat, a: int, b: int): Option<bool> {
    if op == LESS then Some(a < b)
    else if op == GREATER then Some(a > b)
    else if op == LE then Some(a <= b)
    else if op == GE then Some(a >= b)
    else if op == EQ then Some(a == b)
    else None
  }

  // The value of e where variable x has the value i; None for what is not modelled here.
  function ValueAt(e: Expr, x: nat, i: int): Option<int> {
    match e
    case Const(_, v) => Some(v)
    case Id(_, y) => if y == x then Some(i) else None
    case Binop(_, Arith(op), left, right) =>
      var l, r := ValueAt(left, x, i), ValueAt(right, x, i);
      if l.None? || r.None? || Compares(op, l.value, r.value).None? then None
      else Some(if Compares(op, l.value, r.value).value then 1 else 0)
    case _ => None
  }

  // The value that x has after e, where it had i.
  function After(e: Expr, x: nat, i: int): Option<int> {
    match e
    case Unary(_, IncDec(op), Id(_, y)) =>
      if y != x then None
      else if op == PREINC || op == POSTINC then Some(i + 1)
      else if op == PREDEC || op == POSTDEC then Some(i - 1)
      else None
    case Binop(_, Assign, Id(_, y), right) => if y == x then ValueAt(right, x, i) else None
    case Binop(_, OpAssign(op), Id(_, y), right) =>
      var r := ValueAt(right, x, i);
      if y == x && op == PLUSassign && r.Some? then Some(i + r.value) else None
    case _ => None
  }

  // The body runs with x == i.
  predicate Enters(n: Stmt, x: nat, i: int)
    requires n.For?
  {
    n.guard.TheExpr? && ValueAt(n.guard.e, x, i).Some? && ValueAt(n.guard.e, x, i).value != 0
  }

  // After the body with x == i, the next test finds x == j.
  predicate Goes(n: Stmt, x: nat, i: int, j: int)
    requires n.For?
  {
    n.next.TheExpr? && After(n.next.e, x, i) == Some(j)
  }

  // The loop starts with x == i.
  ghost predicate Begins(n: Stmt, x: nat, i: int)
    requires n.For?
  {
    n.start.TheExpr? && forall j :: After(n.start.e, x, j) == Some(i)
  }

  // Starting with the index i, one of the next k + 1 iterations accounts for y: it has an index
  // from which the step leads to y or past it.
  ghost predicate RunsOver(n: Stmt, x: nat, i: int, y: int, k: nat)
    requires n.For?
    decreases k
  {
    Enters(n, x, i) && exists j :: Goes(n, x, i, j) && (i <= y < j || j < y <= i || (k > 0 && RunsOver(n, x, j, y, k - 1)))
  }

  ghost predicate PassesOver(n: Stmt, x: nat, y: int)
    requires n.For?
  {
    exists i, k: nat :: Begins(n, x, i) && RunsOver(n, x, i, y, k)
  }

  // [start, start + region) is what the loop passes over.
  ghost predicate IsLoopRange(n: Stmt, x: nat, start: int, region: int)
    requires n.For?
  {
    forall y :: PassesOver(n, x, y) <==> start <= y < start + region
  }

  // The shapes that count: `x = constant`, `x op constant` with a comparison, and `x++`, `x--`
  // in their four forms or `x += constant`.
  predicate Counts(n: Stmt)
    requires n.For?
  {
    && n.start.TheExpr? && n.guard.TheExpr? && n.next.TheExpr?
    && var (s, g, t) := (n.start.e, n.guard.e, n.next.e);
    && s.Binop? && s.op == Assign && s.left.Id? && s.right.Const?
    && var x := s.left.decl;
    && g.Binop? && g.op.Arith? && g.left.Id? && g.left.decl == x && g.right.Const?
    && (g.op.op == LESS || g.op.op == GREATER || g.op.op == LE || g.op.op == GE || g.op.op == EQ)
    && ( || (t.Unary? && t.uop.IncDec? && t.operand.Id? && t.operand.decl == x
             && (t.uop.op == PREINC || t.uop.op == POSTINC || t.uop.op == PREDEC || t.uop.op == POSTDEC))
         || (t.Binop? && t.op == OpAssign(PLUSassign) && t.left.Id? && t.left.decl == x && t.right.Const?))
  }

  lemma CountedIsShape(n: Stmt)
    requires n.For?
    ensures CountedLoop(n).Some? <==> Counts(n)
  {
  }

  // What has been read off the three expressions is what they do.
  lemma CountedMeans(n: Stmt)
    requires n.For? && CountedLoop(n).Some?
    ensures var l := CountedLoop(n).value;
      && l.index == n.start.e.left.decl
      && (forall i :: Begins(n, l.index, i) <==> i == l.from)
      && (forall i :: Enters(n, l.index, i) <==> Continues(l, i))
      && (forall i, j :: Goes(n, l.index, i, j) <==> j == Next(l, i))
      && l.op in {LESS, GREATER, LE, GE, EQ}
  {
    var l := CountedLoop(n).value;
    var g := n.guard.e;
    forall i ensures Enters(n, l.index, i) <==> Continues(l, i) {
      assert ValueAt(g.left, l.index, i) == Some(i) && ValueAt(g.right, l.index, i) == Some(l.to);
    }
    forall i, j ensures Goes(n, l.index, i, j) <==> j == Next(l, i) {
    }
    forall j ensures After(n.start.e, l.index, j) == Some(l.from) {
    }
    forall i ensures Begins(n, l.index, i) <==> i == l.from {
      assert After(n.start.e, l.index, 0) == Some(l.from);
    }
  }

  lemma {:induction false} RunsAreTouches(n: Stmt, i: int, y: int, k: nat)
    requires n.For? && CountedLoop(n).Some?
    ensures var l := CountedLoop(n).value; RunsOver(n, l.index, i, y, k) <==> TouchedFrom(l, i, y, k)
    decreases k
  {
    hide CountedLoop;
    hide Begins;
    var l := CountedLoop(n).value;
    CountedMeans(n);
    hide Enters;
    hide Goes;
    assert Goes(n, l.index, i, Next(l, i));
    if k > 0 { RunsAreTouches(n, Next(l, i), y, k - 1); }
  }

  lemma PassesAreTouches(n: Stmt, y: int)
    requires n.For? && CountedLoop(n).Some?
    ensures var l := CountedLoop(n).value; PassesOver(n, l.index, y) <==> Touched(l, y)
  {
    hide CountedLoop;
    hide RunsOver;
    hide TouchedFrom;
    var l := CountedLoop(n).value;
    CountedMeans(n);
    hide Begins;
    if i, k: nat :| Begins(n, l.index, i) && RunsOver(n, l.index, i, y, k) {
      RunsAreTouches(n, i, y, k);
    }
    if k: nat :| TouchedFrom(l, l.from, y, k) {
      RunsAreTouches(n, l.from, y, k);
      assert Begins(n, l.index, l.from);
    }
  }

  /** The computed range is what the for statement passes over if and only if RangeIsRight. */
  lemma LoopRangeExact(n: Stmt)
    requires n.For? && CountedLoop(n).Some? && Width(CountedLoop(n).value) != 0
    ensures var l := CountedLoop(n).value;
      IsLoopRange(n, l.index, StartOfRange(l), Region(l)) <==> RangeIsRight(l)
  {
    hide CountedLoop;
    hide PassesOver;
    hide Touched;
    var l := CountedLoop(n).value;
    CountedMeans(n);
    forall y ensures PassesOver(n, l.index, y) <==> Touched(l, y) { PassesAreTouches(n, y); }
    RangeExact(l);
  }

  // ---------- The analyzer ----------

  class LoopAnalyzer {
    var loopVarDecl: nat
    var loopVarStart: int
    var loopVarOffset: int

    constructor ()
    {
      loopVarDecl, loopVarStart, loopVarOffset := 0, 0, 0;
    }

    /** 0, for a statement that does not count; else the size of the range that starts at
        loopVarStart.  The range is what the statement passes over if and only if it is of the
        listed kinds. */
    method IsSimpleFor(n: Stmt) returns (region: int)
      requires n.For?
      requires Counts(n) && n.next.e.Binop? ==> n.next.e.right.value != 0
      modifies this
      ensures !Counts(n) ==> region == 0
      ensures Counts(n) ==>
        && loopVarDecl == n.start.e.left.decl
        && loopVarOffset == (if n.next.e.Binop? then n.next.e.right.value else 1)
        && CountedLoop(n).Some?
        && var l := CountedLoop(n).value;
           && region == Region(l) && loopVarStart == StartOfRange(l)
           && (IsLoopRange(n, loopVarDecl, loopVarStart, region) <==> RangeIsRight(l))
    {
      CountedIsShape(n);
      var start := StartOf(n.start);
      if start.None? { return 0; }
      loopVarDecl := start.value.0;
      var from := start.value.1;
      var guard := GuardOf(n.guard, loopVarDecl);
      if guard.None? { return 0; }
      var (op, to) := guard.value;
      var step := StepOf(n.next, loopVarDecl);
      if step.None? { return 0; }
      loopVarOffset := if step.value.Added? then step.value.amount else 1;
      if op == EQ {
        if step.value.Down? {
          loopVarStart, region := to, from - to + 1;
        } else {
          loopVarStart, region := from, to - from + 1;
        }
      } else if op == LESS {
        loopVarStart, region := from, to - from;
      } else if op == LE {
        loopVarStart, region := from, to - from + 1;
      } else if op == GREATER {
        loopVarStart, region := to, from - to;
      } else {
        loopVarStart, region := to, from - to + 1;
      }
      if step.value.Added? {
        region := Quotient(region + loopVarOffset - 1, loopVarOffset) * loopVarOffset;
      }
      ghost var l := Counted(loopVarDecl, from, op, to, step.value);
      assert CountedLoop(n) == Some(l);
      CountedMeans(n);
      LoopRangeExact(n);
    }
  }
}
