/**
 Matching a brace-elided initializer against a type, as section 6.5.7 of ISO/IEC 9899:1990
 asks: inner braces may be left out, and a subaggregate then takes as many items as it
 needs from the list it shares with its siblings.
 */
module Initializers {

  datatype Dim = Unsized | Sized(n: nat)

  datatype Type = Scalar | Array(dim: Dim, elem: Type) | Struct(fields: Types)

  datatype Types = NoTypes | MoreTypes(head: Type, tail: Types)

  // An initializer as written: an expression or a list in braces.
  datatype Init = Item(v: int) | Braces(items: seq<Init>)

  // An initializer with all its braces, as the matching leaves it.
  datatype Value = Leaf(v: int) | Node(vals: seq<Value>) | Nothing

  datatype Error = TooManyForScalar | BracesForScalar | TooManyForArray | TooManyForStruct | NoItem

  // The result, what the cursor still holds, and the errors reported.
  datatype Match<T> = Match(val: T, rest: seq<Init>, errors: seq<Error>)

  // C gives every array at least one element and every struct at least one member; only the
  // outermost dimension may be left open.
  predicate Complete(ty: Type) {
    match ty
    case Scalar => true
    case Array(dim, elem) => dim.Sized? && dim.n >= 1 && Complete(elem)
    case Struct(fields) => fields.MoreTypes? && AllComplete(fields)
  }

  predicate AllComplete(fields: Types) {
    match fields
    case NoTypes => true
    case MoreTypes(head, tail) => Complete(head) && AllComplete(tail)
  }

  predicate Declarable(ty: Type) {
    if ty.Array? && ty.dim.Unsized? then Complete(ty.elem) else Complete(ty)
  }

  function Size(list: seq<Init>): (n: nat)
    ensures list != [] ==> n > 0
  {
    if list == [] then 0 else SizeOf(list[0]) + Size(list[1..])
  }

  function SizeOf(i: Init): (n: nat)
    ensures n > 0
  {
    match i
    case Item(_) => 1
    case Braces(items) => 1 + Size(items)
  }

  lemma {:induction false} SizeOfRest(list: seq<Init>, k: nat)
    requires k <= |list|
    ensures Size(list[k..]) <= Size(list) && (0 < k ==> Size(list[k..]) < Size(list))
  {
    if k > 0 {
      SizeOfRest(list[1..], k - 1);
      assert list[1..][k - 1..] == list[k..];
    }
  }

  // What is left is the end of what there was, and something has been taken.
  predicate Consumes(list: seq<Init>, rest: seq<Init>) {
    |rest| < |list| && rest == list[|list| - |rest|..]
  }

  lemma ConsumesLess(list: seq<Init>, rest: seq<Init>)
    requires Consumes(list, rest)
    ensures Size(rest) < Size(list)
  {
    SizeOfRest(list, |list| - |rest|);
  }

  // SemCheckInitList on a list; `top` says that the list is the initializer's own.
  function Fit(ty: Type, list: seq<Init>, top: bool): (r: Match<Value>)
    requires Declarable(ty)
    ensures list != [] ==> Consumes(list, r.rest)
    ensures list == [] ==> r.rest == []
    decreases Size(list), ty, 2
  {
    match ty
    case Scalar =>
      if list == [] then Match(Nothing, [], [NoItem])
      else
        Match(if list[0].Item? then Leaf(list[0].v) else Nothing, list[1..],
              (if top && |list| > 1 then [TooManyForScalar] else []) + (if list[0].Item? then [] else [BracesForScalar]))
    case Array(dim, elem) =>
      var m := FitElements(elem, dim, list);
      Match(Node(m.val), m.rest, m.errors + (if dim.Sized? && top && m.rest != [] then [TooManyForArray] else []))
    case Struct(fields) =>
      if list == [] then Match(Node([]), [], [])
      else
        assert AllComplete(fields);
        var m := FitOne(fields.head, list);
        ConsumesLess(list, m.rest);
        var r := FitFields(fields.tail, fields.head, m.rest, top);
        Match(Node([m.val] + r.val), r.rest, m.errors + r.errors)
  }

  // One element or member: a list in braces is its own, otherwise it takes from the cursor.
  function FitOne(ty: Type, list: seq<Init>): (r: Match<Value>)
    requires Complete(ty) && list != []
    ensures Consumes(list, r.rest)
    decreases Size(list), ty, 3
  {
    if list[0].Braces? then
      assert Size(list[0].items) < SizeOf(list[0]);
      var m := Fit(ty, list[0].items, true);
      Match(m.val, list[1..], m.errors)
    else Fit(ty, list, false)
  }

  function FitElements(elem: Type, dim: Dim, list: seq<Init>): (r: Match<seq<Value>>)
    requires Complete(elem)
    ensures list == [] ==> r.rest == []
    ensures list != [] && (dim.Unsized? || dim.n > 0) ==> Consumes(list, r.rest)
    ensures dim == Sized(0) ==> r == Match([], list, [])
    ensures dim.Unsized? ==> r.rest == []
    decreases Size(list), elem, 4
  {
    if list == [] || dim == Sized(0) then Match([], list, [])
    else
      var m := FitOne(elem, list);
      ConsumesLess(list, m.rest);
      var r := FitElements(elem, if dim.Unsized? then dim else Sized(dim.n - 1), m.rest);
      Match([m.val] + r.val, r.rest, m.errors + r.errors)
  }

  // The members after `last`.  Out of members at the top, an error is reported and the last
  // member is matched again.
  function FitFields(fields: Types, last: Type, list: seq<Init>, top: bool): (r: Match<seq<Value>>)
    requires AllComplete(fields) && Complete(last)
    ensures r.rest == list || (list != [] && Consumes(list, r.rest))
    ensures top ==> r.rest == []
    decreases Size(list), Struct(MoreTypes(last, fields)), 1
  {
    if list == [] || (fields.NoTypes? && !top) then Match([], list, [])
    else
      var ty := if fields.NoTypes? then last else fields.head;
      var m := FitOne(ty, list);
      ConsumesLess(list, m.rest);
      var r := FitFields(if fields.NoTypes? then fields else fields.tail, ty, m.rest, top);
      Match([m.val] + r.val, r.rest, (if fields.NoTypes? then [TooManyForStruct] else []) + m.errors + r.errors)
  }

  // ---------- Leaves ----------

  // The expressions of an initializer in order, whatever its braces.
  function Flat(list: seq<Init>): seq<int> {
    if list == [] then [] else FlatInit(list[0]) + Flat(list[1..])
  }

  function FlatInit(i: Init): seq<int> {
    match i
    case Item(v) => [v]
    case Braces(items) => Flat(items)
  }

  function Leaves(val: Value): seq<int> {
    match val
    case Leaf(v) => [v]
    case Node(vals) => AllLeaves(vals)
    case Nothing => []
  }

  function AllLeaves(vals: seq<Value>): seq<int> {
    if vals == [] then [] else Leaves(vals[0]) + AllLeaves(vals[1..])
  }

  lemma AllLeavesCons(v: Value, vals: seq<Value>)
    ensures AllLeaves([v] + vals) == Leaves(v) + AllLeaves(vals)
  {
    assert ([v] + vals)[1..] == vals;
  }

  // What a first part and then a second part conserve.
  lemma Regroup(v: Value, vals: seq<Value>, list: seq<Init>, mid: seq<Init>, rest: seq<Init>)
    requires Leaves(v) + Flat(mid) == Flat(list) && AllLeaves(vals) + Flat(rest) == Flat(mid)
    ensures AllLeaves([v] + vals) + Flat(rest) == Flat(list)
  {
    hide Leaves;
    hide Flat;
    AllLeavesCons(v, vals);
    var (a, b, c) := (Leaves(v), AllLeaves(vals), Flat(rest));
    assert a + (b + c) == (a + b) + c;
  }

  // A list of its own is used up unless an error is reported.
  lemma TopUsesUp(ty: Type, list: seq<Init>)
    requires Declarable(ty) && Fit(ty, list, true).errors == []
    ensures Fit(ty, list, true).rest == []
  {
  }

  /** Nothing is lost, repeated or reordered: if no error is reported, the leaves of the
      result followed by those the cursor still holds are the leaves of the input, for any
      mixture of braces. */
  lemma {:induction false} FitConserves(ty: Type, list: seq<Init>, top: bool)
    requires Declarable(ty) && Fit(ty, list, top).errors == []
    ensures var r := Fit(ty, list, top); Leaves(r.val) + Flat(r.rest) == Flat(list)
    decreases Size(list), ty, 2
  {
    hide Size;
    match ty
    case Scalar =>
    case Array(dim, elem) => FitElementsConserve(elem, dim, list);
    case Struct(fields) =>
      if list != [] {
        assert AllComplete(fields);
        var m := FitOne(fields.head, list);
        ConsumesLess(list, m.rest);
        FitOneConserves(fields.head, list);
        FitFieldsConserve(fields.tail, fields.head, m.rest, top);
        var r := FitFields(fields.tail, fields.head, m.rest, top);
        Regroup(m.val, r.val, list, m.rest, r.rest);
      }
  }

  lemma {:induction false} FitOneConserves(ty: Type, list: seq<Init>)
    requires Complete(ty) && list != [] && FitOne(ty, list).errors == []
    ensures var r := FitOne(ty, list); Leaves(r.val) + Flat(r.rest) == Flat(list)
    decreases Size(list), ty, 3
  {
    if list[0].Braces? {
      assert Size(list[0].items) < SizeOf(list[0]);
      FitConserves(ty, list[0].items, true);
      TopUsesUp(ty, list[0].items);
    } else {
      FitConserves(ty, list, false);
    }
  }

  lemma {:induction false} FitElementsConserve(elem: Type, dim: Dim, list: seq<Init>)
    requires Complete(elem) && FitElements(elem, dim, list).errors == []
    ensures var r := FitElements(elem, dim, list); AllLeaves(r.val) + Flat(r.rest) == Flat(list)
    decreases Size(list), elem, 4
  {
    hide Flat;
    hide Size;
    if list != [] && dim != Sized(0) {
      var m := FitOne(elem, list);
      ConsumesLess(list, m.rest);
      var next := if dim.Unsized? then dim else Sized(dim.n - 1);
      FitOneConserves(elem, list);
      FitElementsConserve(elem, next, m.rest);
      var r := FitElements(elem, next, m.rest);
      Regroup(m.val, r.val, list, m.rest, r.rest);
    }
  }

  lemma {:induction false} FitFieldsConserve(fields: Types, last: Type, list: seq<Init>, top: bool)
    requires AllComplete(fields) && Complete(last) && FitFields(fields, last, list, top).errors == []
    ensures var r := FitFields(fields, last, list, top); AllLeaves(r.val) + Flat(r.rest) == Flat(list)
    decreases Size(list), Struct(MoreTypes(last, fields)), 1
  {
    if list != [] && fields.MoreTypes? {
      var m := FitOne(fields.head, list);
      ConsumesLess(list, m.rest);
      FitOneConserves(fields.head, list);
      FitFieldsConserve(fields.tail, fields.head, m.rest, top);
      var r := FitFields(fields.tail, fields.head, m.rest, top);
      Regroup(m.val, r.val, list, m.rest, r.rest);
    }
  }

  // ---------- Round trip ----------

  // val is a fully braced value of the type.
  predicate Conforms(val: Value, ty: Type) {
    match ty
    case Scalar => val.Leaf?
    case Array(dim, elem) => val.Node? && dim == Sized(|val.vals|) && AllConform(val.vals, elem)
    case Struct(fields) => val.Node? && FieldsConform(val.vals, fields)
  }

  predicate AllConform(vals: seq<Value>, elem: Type)
    decreases vals
  {
    forall i :: 0 <= i < |vals| ==> Conforms(vals[i], elem)
  }

  predicate FieldsConform(vals: seq<Value>, fields: Types)
    decreases vals, fields
  {
    match fields
    case NoTypes => vals == []
    case MoreTypes(head, tail) => vals != [] && Conforms(vals[0], head) && FieldsConform(vals[1..], tail)
  }

  function Listed(xs: seq<int>): seq<Init> {
    seq(|xs|, i requires 0 <= i < |xs| => Item(xs[i]))
  }

  lemma ListedSum(xs: seq<int>, ys: seq<int>)
    ensures Listed(xs + ys) == Listed(xs) + Listed(ys)
  {
  }

  // A value of a complete type has a leaf, so every match of a part takes an item.
  lemma {:induction false} HasLeaf(ty: Type, val: Value)
    requires Complete(ty) && Conforms(val, ty)
    ensures Leaves(val) != []
  {
    match ty
    case Scalar =>
    case Array(_, elem) => HasLeaf(elem, val.vals[0]);
    case Struct(fields) =>
      assert AllComplete(fields);
      HasLeaf(fields.head, val.vals[0]);
  }

  // One part of a flat list: what follows it stays.
  lemma {:induction false} OneRoundTrip(ty: Type, val: Value, more: seq<Init>)
    requires Complete(ty) && Conforms(val, ty)
    ensures var list := Listed(Leaves(val)) + more; list != [] && FitOne(ty, list) == Match(val, more, [])
    decreases val, 3
  {
    HasLeaf(ty, val);
    RoundTrip(ty, val, more, false);
    assert (Listed(Leaves(val)) + more)[0] == Item(Leaves(val)[0]);
  }

  /** Matching the flat list of a value's leaves rebuilds exactly that value, and leaves what
      follows to others. */
  lemma {:induction false} RoundTrip(ty: Type, val: Value, more: seq<Init>, top: bool)
    requires Complete(ty) && Conforms(val, ty) && (top ==> more == [])
    ensures Fit(ty, Listed(Leaves(val)) + more, top) == Match(val, more, [])
    decreases val, 2
  {
    match ty
    case Scalar =>
    case Array(dim, elem) => ElementsRoundTrip(elem, dim, val.vals, more);
    case Struct(fields) =>
      assert AllComplete(fields);
      var (first, others) := (val.vals[0], val.vals[1..]);
      var rest := Listed(AllLeaves(others)) + more;
      SplitList(first, others, more);
      OneRoundTrip(fields.head, first, rest);
      FieldsRoundTrip(fields.tail, fields.head, others, more, top);
      assert val.vals == [first] + others;
  }

  lemma SplitList(first: Value, others: seq<Value>, more: seq<Init>)
    ensures Listed(AllLeaves([first] + others)) + more == Listed(Leaves(first)) + (Listed(AllLeaves(others)) + more)
  {
    AllLeavesCons(first, others);
    ListedSum(Leaves(first), AllLeaves(others));
  }

  lemma {:induction false} ElementsRoundTrip(elem: Type, dim: Dim, vals: seq<Value>, more: seq<Init>)
    requires Complete(elem) && AllConform(vals, elem) && (dim == Sized(|vals|) || (dim.Unsized? && more == []))
    ensures FitElements(elem, dim, Listed(AllLeaves(vals)) + more) == Match(vals, more, [])
    decreases vals, 1
  {
    if vals == [] {
      assert Listed(AllLeaves(vals)) + more == more;
    } else {
      var (first, others) := (vals[0], vals[1..]);
      assert vals == [first] + others;
      SplitList(first, others, more);
      OneRoundTrip(elem, first, Listed(AllLeaves(others)) + more);
      ElementsRoundTrip(elem, if dim.Unsized? then dim else Sized(|others|), others, more);
    }
  }

  lemma {:induction false} FieldsRoundTrip(fields: Types, last: Type, vals: seq<Value>, more: seq<Init>, top: bool)
    requires AllComplete(fields) && Complete(last) && FieldsConform(vals, fields) && (top ==> more == [])
    ensures FitFields(fields, last, Listed(AllLeaves(vals)) + more, top) == Match(vals, more, [])
    decreases vals, 1
  {
    if vals == [] {
      assert fields.NoTypes?;
      assert Listed(AllLeaves(vals)) + more == more;
    } else {
      var (first, others) := (vals[0], vals[1..]);
      assert vals == [first] + others;
      SplitList(first, others, more);
      OneRoundTrip(fields.head, first, Listed(AllLeaves(others)) + more);
      FieldsRoundTrip(fields.tail, fields.head, others, more, top);
    }
  }

  /** ... and of an array of unknown size too: the dimension inferred is its length. */
  lemma UnsizedRoundTrip(elem: Type, vals: seq<Value>)
    requires Complete(elem) && AllConform(vals, elem)
    ensures Fit(Array(Unsized, elem), Listed(AllLeaves(vals)), true) == Match(Node(vals), [], [])
  {
    ElementsRoundTrip(elem, Unsized, vals, []);
    assert Listed(AllLeaves(vals)) + [] == Listed(AllLeaves(vals));
  }

  // ---------- Flat lists and inferred dimensions ----------

  // The number of leaves of a complete type.
  function Count(ty: Type): (k: nat)
    requires Complete(ty)
    ensures k > 0
    decreases ty, 0
  {
    match ty
    case Scalar => 1
    case Array(dim, elem) => CountTimes(elem, dim.n)
    case Struct(fields) => assert AllComplete(fields); Count(fields.head) + CountFields(fields.tail)
  }

  function CountTimes(elem: Type, n: nat): (k: nat)
    requires Complete(elem)
    ensures n > 0 ==> k > 0
    decreases elem, n + 1
  {
    if n == 0 then 0 else Count(elem) + CountTimes(elem, n - 1)
  }

  function CountFields(fields: Types): nat
    requires AllComplete(fields)
    decreases fields, 0
  {
    match fields
    case NoTypes => 0
    case MoreTypes(head, tail) => Count(head) + CountFields(tail)
  }

  function Min(a: nat, b: nat): nat {
    if a < b then a else b
  }

  lemma ListedFrom(xs: seq<int>, k: nat)
    requires k <= |xs|
    ensures Listed(xs)[k..] == Listed(xs[k..])
  {
  }

  lemma ListedEmpty(xs: seq<int>)
    ensures Listed(xs) == [] <==> xs == []
  {
  }

  // Taking a and then b items is taking a + b.
  lemma DropTwice(xs: seq<int>, a: nat, b: nat)
    ensures var k := Min(a, |xs|); xs[k..][Min(b, |xs| - k)..] == xs[Min(a + b, |xs|)..]
  {
  }

  // A part of a flat list takes as many items as it has leaves, or all there are.
  lemma {:induction false} OneTakes(ty: Type, xs: seq<int>)
    requires Complete(ty) && xs != []
    ensures var r := FitOne(ty, Listed(xs)); r.errors == [] && r.rest == Listed(xs[Min(Count(ty), |xs|)..])
    decreases ty, 3
  {
    FlatTakes(ty, xs);
  }

  lemma {:induction false} FlatTakes(ty: Type, xs: seq<int>)
    requires Complete(ty) && (ty.Scalar? ==> xs != [])
    ensures var r := Fit(ty, Listed(xs), false); r.errors == [] && r.rest == Listed(xs[Min(Count(ty), |xs|)..])
    decreases ty, 2
  {
    match ty
    case Scalar => ListedFrom(xs, 1);
    case Array(dim, elem) => ElementsTake(elem, dim.n, xs);
    case Struct(fields) =>
      if xs != [] {
        assert AllComplete(fields);
        OneTakes(fields.head, xs);
        var k := Min(Count(fields.head), |xs|);
        FieldsTake(fields.tail, fields.head, xs[k..]);
        DropTwice(xs, Count(fields.head), CountFields(fields.tail));
      }
  }

  lemma {:induction false} ElementsTake(elem: Type, n: nat, xs: seq<int>)
    requires Complete(elem)
    ensures var r := FitElements(elem, Sized(n), Listed(xs)); r.errors == [] && r.rest == Listed(xs[Min(CountTimes(elem, n), |xs|)..])
    decreases elem, 4, n
  {
    hide Count;
    hide FitOne;
    hide Listed;
    ListedEmpty(xs);
    if xs != [] && n > 0 {
      OneTakes(elem, xs);
      var k := Min(Count(elem), |xs|);
      ElementsTake(elem, n - 1, xs[k..]);
      DropTwice(xs, Count(elem), CountTimes(elem, n - 1));
    }
  }

  lemma {:induction false} FieldsTake(fields: Types, last: Type, xs: seq<int>)
    requires AllComplete(fields) && Complete(last)
    ensures var r := FitFields(fields, last, Listed(xs), false);
      r.errors == [] && r.rest == Listed(xs[Min(CountFields(fields), |xs|)..])
    decreases fields, 4
  {
    if xs != [] && fields.MoreTypes? {
      OneTakes(fields.head, xs);
      var k := Min(Count(fields.head), |xs|);
      FieldsTake(fields.tail, fields.head, xs[k..]);
      DropTwice(xs, Count(fields.head), CountFields(fields.tail));
    }
  }

  /** A flat list of its own is rejected if and only if it has more items than the type has
      leaves. */
  lemma FlatErrors(ty: Type, xs: seq<int>)
    requires Complete(ty) && xs != []
    ensures Fit(ty, Listed(xs), true).errors == [] <==> |xs| <= Count(ty)
  {
    match ty
    case Scalar =>
    case Array(dim, elem) => ElementsTake(elem, dim.n, xs);
    case Struct(fields) =>
      assert AllComplete(fields);
      OneTakes(fields.head, xs);
      FieldsErrors(fields.tail, fields.head, xs[Min(Count(fields.head), |xs|)..]);
  }

  lemma {:induction false} FieldsErrors(fields: Types, last: Type, xs: seq<int>)
    requires AllComplete(fields) && Complete(last)
    ensures FitFields(fields, last, Listed(xs), true).errors == [] <==> |xs| <= CountFields(fields)
    decreases fields
  {
    if xs != [] && fields.MoreTypes? {
      OneTakes(fields.head, xs);
      FieldsErrors(fields.tail, fields.head, xs[Min(Count(fields.head), |xs|)..]);
    }
  }

  // m items, k at a time.
  function Groups(m: nat, k: nat): (n: nat)
    requires k > 0
  {
    if m == 0 then 0 else 1 + Groups(m - Min(k, m), k)
  }

  lemma OneMoreTimes(n: nat, k: nat)
    ensures (n + 1) * k == n * k + k
  {
  }

  lemma {:induction false} GroupsBound(m: nat, k: nat)
    requires k > 0
    ensures m <= Groups(m, k) * k < m + k
    decreases m
  {
    if m > 0 {
      var n := Groups(m - Min(k, m), k);
      GroupsBound(m - Min(k, m), k);
      OneMoreTimes(n, k);
      if m <= k { assert n == 0; }
    }
  }

  lemma {:induction false} ElementsOf(elem: Type, xs: seq<int>)
    requires Complete(elem)
    ensures var r := FitElements(elem, Unsized, Listed(xs)); |r.val| == Groups(|xs|, Count(elem)) && r.errors == []
    decreases |xs|
  {
    if xs != [] {
      OneTakes(elem, xs);
      ElementsOf(elem, xs[Min(Count(elem), |xs|)..]);
    }
  }

  /** The dimension inferred for an array of unknown size from a flat list of m expressions,
      where an element has k leaves, is m / k rounded up: the least n with m <= n * k.  No
      error is reported. */
  lemma InferredDimension(elem: Type, xs: seq<int>)
    requires Complete(elem)
    ensures var r := Fit(Array(Unsized, elem), Listed(xs), true);
      && r.val.Node? && |xs| <= |r.val.vals| * Count(elem) < |xs| + Count(elem)
      && r.errors == [] && r.rest == []
  {
    ElementsOf(elem, xs);
    GroupsBound(|xs|, Count(elem));
  }

  // ---------- The matching itself ----------

  // The cursor: an initializer node whose list is advanced as items are taken.
  class Initializer {
    var exprs: seq<Init>

    constructor (exprs: seq<Init>)
      ensures this.exprs == exprs
    {
      this.exprs := exprs;
    }

    method Next()
      requires exprs != []
      modifies this
      ensures exprs == old(exprs)[1..]
    {
      exprs := exprs[1..];
    }
  }

  method SemCheckInitList(ty: Type, init: Initializer, top: bool) returns (val: Value, errors: seq<Error>)
    requires Declarable(ty)
    modifies init
    ensures Match(val, init.exprs, errors) == Fit(ty, old(init.exprs), top)
    decreases Size(init.exprs), ty, 2
  {
    match ty
    case Scalar =>
      if init.exprs == [] { return Nothing, [NoItem]; }
      var item := init.exprs[0];
      init.Next();
      errors := if top && init.exprs != [] then [TooManyForScalar] else [];
      if item.Braces? {
        return Nothing, errors + [BracesForScalar];
      }
      val := Leaf(item.v);
    case Array(dim, elem) =>
      var vals;
      vals, errors := MatchElements(dim, elem, init);
      if dim.Sized? && top && init.exprs != [] {
        errors := errors + [TooManyForArray];
      }
      val := Node(vals);
    case Struct(fields) =>
      var vals;
      vals, errors := SUE_MatchInitList(fields, init, top);
      val := Node(vals);
  }

  // The initializer of one element or member.
  method MatchItem(ty: Type, init: Initializer) returns (val: Value, errors: seq<Error>)
    requires Complete(ty) && init.exprs != []
    modifies init
    ensures Match(val, init.exprs, errors) == FitOne(ty, old(init.exprs))
    decreases Size(init.exprs), ty, 3
  {
    var item := init.exprs[0];
    if item.Braces? {
      assert Size(item.items) < SizeOf(item);
      var copy := new Initializer(item.items);
      val, errors := SemCheckInitList(ty, copy, true);
      init.Next();
    } else {
      val, errors := SemCheckInitList(ty, init, false);
    }
  }

  method MatchElements(dim: Dim, elem: Type, init: Initializer) returns (vals: seq<Value>, errors: seq<Error>)
    requires Complete(elem)
    modifies init
    ensures Match(vals, init.exprs, errors) == FitElements(elem, dim, old(init.exprs))
    decreases Size(init.exprs), elem, 4
  {
    hide Prefixed;
    hide FitOne;
    hide Consumes;
    vals, errors := [], [];
    var count := 0;
    PrefixedEnds([], [], [], FitElements(elem, dim, init.exprs));
    while (dim.Unsized? || count < dim.n) && init.exprs != []
      invariant dim.Sized? ==> count <= dim.n
      invariant Prefixed(vals, errors, FitElements(elem, Left(dim, count), init.exprs)) == FitElements(elem, dim, old(init.exprs))
      invariant Size(init.exprs) <= old(Size(init.exprs))
      decreases Size(init.exprs)
    {
      ghost var (before, done, found) := (init.exprs, vals, errors);
      var val, more := MatchItem(elem, init);
      ConsumesLess(before, init.exprs);
      vals, errors, count := vals + [val], errors + more, count + 1;
      PrefixedMore(done, found, val, more, FitElements(elem, Left(dim, count), init.exprs));
    }
    PrefixedEnds(vals, init.exprs, errors, Match([], [], []));
  }

  function Left(dim: Dim, count: nat): Dim
    requires dim.Sized? ==> count <= dim.n
  {
    if dim.Unsized? then dim else Sized(dim.n - count)
  }

  // The matching of a list, after vals and errors from what came before it.
  function Prefixed(vals: seq<Value>, errors: seq<Error>, m: Match<seq<Value>>): Match<seq<Value>> {
    Match(vals + m.val, m.rest, errors + m.errors)
  }

  lemma PrefixedEnds(vals: seq<Value>, list: seq<Init>, errors: seq<Error>, m: Match<seq<Value>>)
    ensures Prefixed([], [], m) == m
    ensures Prefixed(vals, errors, Match([], list, [])) == Match(vals, list, errors)
  {
    assert [] + m.val == m.val && [] + m.errors == m.errors;
    assert vals + [] == vals && errors + [] == errors;
  }

  lemma PrefixedMore(vals: seq<Value>, errors: seq<Error>, val: Value, more: seq<Error>, m: Match<seq<Value>>)
    ensures Prefixed(vals + [val], errors + more, m) == Prefixed(vals, errors, Match([val] + m.val, m.rest, more + m.errors))
  {
    assert (vals + [val]) + m.val == vals + ([val] + m.val);
    assert (errors + more) + m.errors == errors + (more + m.errors);
  }

  // The members of a struct.  Out of members, an inner list is left to the enclosing
  // aggregate; at the top the error is reported and matching goes on with the last member.
  method SUE_MatchInitList(fields: Types, init: Initializer, top: bool) returns (vals: seq<Value>, errors: seq<Error>)
    requires fields.MoreTypes? && AllComplete(fields)
    modifies init
    ensures Match(Node(vals), init.exprs, errors) == Fit(Struct(fields), old(init.exprs), top)
    decreases Size(init.exprs), Struct(fields), 1
  {
    vals, errors := [], [];
    if init.exprs == [] { return; }
    hide Size;
    hide Consumes;
    ghost var all := init.exprs;
    var field, marker := fields.head, fields.tail;
    ghost var m := FitOne(field, all);
    ghost var goal := Prefixed([m.val], m.errors, FitFields(marker, field, m.rest, top));
    FirstMember(fields, all, top);
    hide Fit;
    hide FitOne;
    var val, more := MatchItem(field, init);
    ConsumesLess(all, init.exprs);
    vals, errors := [val], more;
    hide Prefixed;
    while init.exprs != []
      invariant AllComplete(marker) && Complete(field) && Size(init.exprs) < Size(all)
      invariant Prefixed(vals, errors, FitFields(marker, field, init.exprs, top)) == goal
      decreases Size(init.exprs)
    {
      ghost var (before, done, found) := (init.exprs, vals, errors);
      var said := [];
      if marker.NoTypes? {
        if !top { break; }
        said := [TooManyForStruct];
      } else {
        field, marker := marker.head, marker.tail;
      }
      val, more := MatchItem(field, init);
      ConsumesLess(before, init.exprs);
      vals, errors := vals + [val], errors + (said + more);
      PrefixedMore(done, found, val, said + more, FitFields(marker, field, init.exprs, top));
    }
    PrefixedEnds(vals, init.exprs, errors, Match([], [], []));
  }

  lemma FirstMember(fields: Types, list: seq<Init>, top: bool)
    requires fields.MoreTypes? && AllComplete(fields) && list != []
    ensures var m := FitOne(fields.head, list);
      var goal := Prefixed([m.val], m.errors, FitFields(fields.tail, fields.head, m.rest, top));
      Fit(Struct(fields), list, top) == Match(Node(goal.val), goal.rest, goal.errors)
  {
  }
}
