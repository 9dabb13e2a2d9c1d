/**
 What initializers mean, whatever braces they have.

 A writing says how a value is written down: which of its parts have braces of their own,
 which trailing parts are missing, and what is at fault.  Matching reads every writing back,
 and every list is a writing.
 */
module Writings {
  import opened Initializers

  // An expression, a group of parts in order, or what stands in the braces of a scalar that
  // has no expression.
  datatype Content = Expr(v: int) | Group(parts: seq<Part>) | Misfit(items: seq<Init>)

  // Behind the content, braces may hold items that are too many.
  datatype Part = Part(braced: bool, content: Content, extra: seq<Init>)

  // ---------- The list, and the value ----------

  function Written(c: Content): seq<Init>
    decreases c, 0
  {
    match c
    case Expr(v) => [Item(v)]
    case Group(parts) => WrittenAll(parts)
    case Misfit(items) => items
  }

  function WrittenPart(p: Part): seq<Init>
    decreases p, 1
  {
    if p.braced then [Braces(Written(p.content) + p.extra)] else Written(p.content)
  }

  function WrittenAll(parts: seq<Part>): seq<Init>
    decreases parts, 2
  {
    if parts == [] then [] else WrittenPart(parts[0]) + WrittenAll(parts[1..])
  }

  function ValueOf(c: Content): Value
    decreases c, 0
  {
    match c
    case Expr(v) => Leaf(v)
    case Group(parts) => Node(ValuesOf(parts))
    case Misfit(_) => Nothing
  }

  function ValuesOf(parts: seq<Part>): (r: seq<Value>)
    ensures |r| == |parts|
    decreases parts, 1
  {
    if parts == [] then [] else [ValueOf(parts[0].content)] + ValuesOf(parts[1..])
  }

  // ---------- Which writings are of a type ----------

  // c is the content of a list of its own, or its items stand in the list of an enclosing
  // aggregate; `more` says whether items follow.  Trailing parts are missing only if none do.
  predicate Shaped(ty: Type, c: Content, own: bool, more: bool)
    decreases c, 0
  {
    match ty
    case Scalar => c.Expr? || (own && c.Misfit? && if c.items == [] then !more else |c.items| == 1 && c.items[0].Braces?)
    case Array(dim, elem) => c.Group? && (dim.Unsized? ==> !more) && ElementsShaped(elem, dim, c.parts, more)
    case Struct(fields) =>
      && c.Group? && (own ==> !more)
      && if c.parts == [] then !more
         else fields.MoreTypes? && PartShaped(fields.head, c.parts[0], more || |c.parts| > 1)
              && MembersShaped(fields.tail, fields.head, c.parts[1..], own, more)
  }

  // A part without braces begins with an expression.
  predicate PartShaped(ty: Type, p: Part, more: bool)
    decreases p, 1
  {
    if p.braced then Shaped(ty, p.content, true, p.extra != [])
    else p.extra == [] && Shaped(ty, p.content, false, more) && Written(p.content) != [] && Written(p.content)[0].Item?
  }

  predicate ElementsShaped(elem: Type, dim: Dim, parts: seq<Part>, more: bool)
    decreases parts, 2
  {
    if parts == [] then dim == Sized(0) || !more
    else dim != Sized(0) && PartShaped(elem, parts[0], more || |parts| > 1) && ElementsShaped(elem, OneLess(dim), parts[1..], more)
  }

  function OneLess(dim: Dim): Dim
    requires dim != Sized(0)
  {
    if dim.Unsized? then dim else Sized(dim.n - 1)
  }

  // In braces of its own, a struct may be given too many parts: they are read as the last member.
  predicate MembersShaped(fields: Types, last: Type, parts: seq<Part>, own: bool, more: bool)
    decreases parts, 2
  {
    if parts == [] then (fields.NoTypes? && !own) || !more
    else (fields.NoTypes? ==> own) && PartShaped(NextMember(fields, last), parts[0], more || |parts| > 1)
         && MembersShaped(OthersOf(fields), NextMember(fields, last), parts[1..], own, more)
  }

  function NextMember(fields: Types, last: Type): Type {
    if fields.NoTypes? then last else fields.head
  }

  function OthersOf(fields: Types): Types {
    if fields.NoTypes? then fields else fields.tail
  }

  // ---------- What is at fault ----------

  function Faults(ty: Type, c: Content, own: bool, more: bool): seq<Error>
    decreases c, 0
  {
    match ty
    case Scalar =>
      if c.Misfit? && c.items == [] then [NoItem]
      else (if own && more then [TooManyForScalar] else []) + (if c.Misfit? then [BracesForScalar] else [])
    case Array(dim, elem) =>
      if !c.Group? then []
      else ElementFaults(elem, c.parts) + (if dim.Sized? && own && more then [TooManyForArray] else [])
    case Struct(fields) =>
      if !c.Group? || c.parts == [] || fields.NoTypes? then []
      else PartFaults(fields.head, c.parts[0]) + MemberFaults(fields.tail, fields.head, c.parts[1..])
  }

  function PartFaults(ty: Type, p: Part): seq<Error>
    decreases p, 1
  {
    Faults(ty, p.content, p.braced, p.extra != [])
  }

  function ElementFaults(elem: Type, parts: seq<Part>): seq<Error>
    decreases parts, 2
  {
    if parts == [] then [] else PartFaults(elem, parts[0]) + ElementFaults(elem, parts[1..])
  }

  function MemberFaults(fields: Types, last: Type, parts: seq<Part>): seq<Error>
    decreases parts, 2
  {
    if parts == [] then []
    else (if fields.NoTypes? then [TooManyForStruct] else []) + PartFaults(NextMember(fields, last), parts[0])
         + MemberFaults(OthersOf(fields), NextMember(fields, last), parts[1..])
  }

  // ---------- Matching reads writings back ----------

  lemma WrittenMore(parts: seq<Part>, follow: seq<Init>)
    requires parts != []
    ensures WrittenAll(parts) + follow == WrittenPart(parts[0]) + (WrittenAll(parts[1..]) + follow)
  {
  }

  // A part that is shaped has at least one item, so something follows if parts do.
  lemma PartsFollow(ty: Type, p: Part, more: bool)
    requires PartShaped(ty, p, more)
    ensures WrittenPart(p) != []
  {
  }

  lemma ElementsFollow(elem: Type, dim: Dim, parts: seq<Part>, more: bool)
    requires ElementsShaped(elem, dim, parts, more)
    ensures parts != [] ==> WrittenAll(parts) != []
  {
    if parts != [] { PartsFollow(elem, parts[0], more || |parts| > 1); }
  }

  lemma MembersFollow(fields: Types, last: Type, parts: seq<Part>, own: bool, more: bool)
    requires MembersShaped(fields, last, parts, own, more)
    ensures parts != [] ==> WrittenAll(parts) != []
  {
    if parts != [] { PartsFollow(NextMember(fields, last), parts[0], more || |parts| > 1); }
  }

  /** Matching a list gives exactly the value that is written there, leaves what follows, and
      reports what is at fault, for any mixture of braces. */
  lemma {:induction false} WrittenFits(ty: Type, c: Content, follow: seq<Init>, own: bool)
    requires Declarable(ty) && Shaped(ty, c, own, follow != [])
    ensures Fit(ty, Written(c) + follow, own) == Match(ValueOf(c), follow, Faults(ty, c, own, follow != []))
    decreases c, 0
  {
    match ty
    case Scalar =>
    case Array(dim, elem) => ElementsFit(elem, dim, c.parts, follow);
    case Struct(fields) =>
      if c.parts != [] {
        var (first, others) := (c.parts[0], c.parts[1..]);
        var rest := WrittenAll(others) + follow;
        assert AllComplete(fields);
        WrittenMore(c.parts, follow);
        MembersFollow(fields.tail, fields.head, others, own, follow != []);
        PartFits(fields.head, first, rest);
        MembersFit(fields.tail, fields.head, others, follow, own);
      }
  }

  lemma {:induction false} PartFits(ty: Type, p: Part, follow: seq<Init>)
    requires Complete(ty) && PartShaped(ty, p, follow != [])
    ensures var list := WrittenPart(p) + follow;
      list != [] && FitOne(ty, list) == Match(ValueOf(p.content), follow, PartFaults(ty, p))
    decreases p, 1
  {
    if p.braced { WrittenFits(ty, p.content, p.extra, true); } else { WrittenFits(ty, p.content, follow, false); }
  }

  lemma {:induction false} ElementsFit(elem: Type, dim: Dim, parts: seq<Part>, follow: seq<Init>)
    requires Complete(elem) && ElementsShaped(elem, dim, parts, follow != [])
    ensures FitElements(elem, dim, WrittenAll(parts) + follow) == Match(ValuesOf(parts), follow, ElementFaults(elem, parts))
    decreases parts, 2
  {
    hide Fit;
    hide FitOne;
    hide Faults;
    hide Shaped;
    if parts == [] {
      assert [] + follow == follow;
    } else {
      var rest := WrittenAll(parts[1..]) + follow;
      WrittenMore(parts, follow);
      ElementsFollow(elem, OneLess(dim), parts[1..], follow != []);
      PartFits(elem, parts[0], rest);
      ElementsFit(elem, OneLess(dim), parts[1..], follow);
    }
  }

  lemma {:induction false} MembersFit(fields: Types, last: Type, parts: seq<Part>, follow: seq<Init>, own: bool)
    requires AllComplete(fields) && Complete(last) && MembersShaped(fields, last, parts, own, follow != [])
    ensures FitFields(fields, last, WrittenAll(parts) + follow, own) == Match(ValuesOf(parts), follow, MemberFaults(fields, last, parts))
    decreases parts, 2
  {
    hide Fit;
    hide FitOne;
    hide Faults;
    hide Shaped;
    if parts == [] {
      assert [] + follow == follow;
    } else {
      var rest := WrittenAll(parts[1..]) + follow;
      WrittenMore(parts, follow);
      MembersFollow(OthersOf(fields), NextMember(fields, last), parts[1..], own, follow != []);
      PartFits(NextMember(fields, last), parts[0], rest);
      MembersFit(OthersOf(fields), NextMember(fields, last), parts[1..], follow, own);
    }
  }

  // ---------- Every list is a writing ----------

  /** Every list is written in some way: what matching takes of it is the writing of a content
      of the type, followed by what it leaves. */
  lemma {:induction false} EveryListIsWritten(ty: Type, list: seq<Init>, own: bool) returns (c: Content)
    requires Declarable(ty) && (own || (list != [] && list[0].Item?))
    ensures var rest := Fit(ty, list, own).rest; Shaped(ty, c, own, rest != []) && list == Written(c) + rest
    decreases Size(list), ty, 2
  {
    match ty
    case Scalar =>
      if list == [] {
        c := Misfit([]);
      } else {
        c := if list[0].Item? then Expr(list[0].v) else Misfit([list[0]]);
        assert list == [list[0]] + list[1..];
      }
    case Array(dim, elem) =>
      var parts := ElementsAreWritten(elem, dim, list);
      c := Group(parts);
    case Struct(fields) =>
      if list == [] {
        c := Group([]);
      } else {
        assert AllComplete(fields);
        var m := FitOne(fields.head, list);
        ConsumesLess(list, m.rest);
        var first := PartIsWritten(fields.head, list);
        var others := MembersAreWritten(fields.tail, fields.head, m.rest, own);
        StructJoins(fields, first, others, own, list, m.rest, Fit(ty, list, own).rest);
        c := Group([first] + others);
      }
  }

  lemma StructJoins(fields: Types, first: Part, others: seq<Part>, own: bool, list: seq<Init>, mid: seq<Init>, rest: seq<Init>)
    requires fields.MoreTypes? && (own ==> rest == []) && PartShaped(fields.head, first, mid != [])
    requires MembersShaped(fields.tail, fields.head, others, own, rest != [])
    requires list == WrittenPart(first) + mid && mid == WrittenAll(others) + rest
    ensures Shaped(Struct(fields), Group([first] + others), own, rest != []) && list == Written(Group([first] + others)) + rest
  {
    hide PartShaped;
    hide WrittenPart;
    var parts := [first] + others;
    assert parts[1..] == others;
    WrittenMore(parts, rest);
    MembersFollow(fields.tail, fields.head, others, own, rest != []);
    NothingFollows(others, mid, rest);
  }

  lemma NothingFollows(parts: seq<Part>, list: seq<Init>, rest: seq<Init>)
    requires list == WrittenAll(parts) + rest && (parts != [] ==> WrittenAll(parts) != [])
    ensures list != [] <==> rest != [] || parts != []
  {
  }

  lemma {:induction false} PartIsWritten(ty: Type, list: seq<Init>) returns (p: Part)
    requires Complete(ty) && list != []
    ensures var rest := FitOne(ty, list).rest; PartShaped(ty, p, rest != []) && list == WrittenPart(p) + rest
    decreases Size(list), ty, 3
  {
    if list[0].Braces? {
      assert Size(list[0].items) < SizeOf(list[0]);
      var c := EveryListIsWritten(ty, list[0].items, true);
      p := Part(true, c, Fit(ty, list[0].items, true).rest);
      assert list == [list[0]] + list[1..];
    } else {
      var c := EveryListIsWritten(ty, list, false);
      p := Part(false, c, []);
      var rest := Fit(ty, list, false).rest;
      assert Consumes(list, rest);
    }
  }

  // A first part and others, written one after the other.
  lemma ElementsJoin(elem: Type, dim: Dim, first: Part, others: seq<Part>, list: seq<Init>, mid: seq<Init>, rest: seq<Init>)
    requires dim != Sized(0) && PartShaped(elem, first, mid != []) && ElementsShaped(elem, OneLess(dim), others, rest != [])
    requires list == WrittenPart(first) + mid && mid == WrittenAll(others) + rest
    ensures ElementsShaped(elem, dim, [first] + others, rest != []) && list == WrittenAll([first] + others) + rest
  {
    hide PartShaped;
    hide WrittenPart;
    var parts := [first] + others;
    assert parts[1..] == others;
    WrittenMore(parts, rest);
    ElementsFollow(elem, OneLess(dim), others, rest != []);
    NothingFollows(others, mid, rest);
  }

  lemma MembersJoin(fields: Types, last: Type, first: Part, others: seq<Part>, own: bool, list: seq<Init>, mid: seq<Init>, rest: seq<Init>)
    requires (fields.NoTypes? ==> own) && PartShaped(NextMember(fields, last), first, mid != [])
    requires MembersShaped(OthersOf(fields), NextMember(fields, last), others, own, rest != [])
    requires list == WrittenPart(first) + mid && mid == WrittenAll(others) + rest
    ensures MembersShaped(fields, last, [first] + others, own, rest != []) && list == WrittenAll([first] + others) + rest
  {
    hide PartShaped;
    hide WrittenPart;
    var parts := [first] + others;
    assert parts[1..] == others;
    WrittenMore(parts, rest);
    MembersFollow(OthersOf(fields), NextMember(fields, last), others, own, rest != []);
    NothingFollows(others, mid, rest);
  }

  lemma {:induction false} ElementsAreWritten(elem: Type, dim: Dim, list: seq<Init>) returns (parts: seq<Part>)
    requires Complete(elem)
    ensures var rest := FitElements(elem, dim, list).rest;
      ElementsShaped(elem, dim, parts, rest != []) && list == WrittenAll(parts) + rest
    decreases Size(list), elem, 4
  {
    hide Fit;
    hide Shaped;
    hide WrittenPart;
    hide PartShaped;
    hide FitOne;
    hide SizeOf;
    hide Size;
    hide Consumes;
    if list == [] || dim == Sized(0) {
      parts := [];
      assert list == [] + list;
    } else {
      var m := FitOne(elem, list);
      ConsumesLess(list, m.rest);
      var first := PartIsWritten(elem, list);
      var others := ElementsAreWritten(elem, OneLess(dim), m.rest);
      parts := [first] + others;
      ElementsJoin(elem, dim, first, others, list, m.rest, FitElements(elem, dim, list).rest);
    }
  }

  lemma {:induction false} MembersAreWritten(fields: Types, last: Type, list: seq<Init>, own: bool) returns (parts: seq<Part>)
    requires AllComplete(fields) && Complete(last)
    ensures var rest := FitFields(fields, last, list, own).rest;
      MembersShaped(fields, last, parts, own, rest != []) && list == WrittenAll(parts) + rest
    decreases Size(list), Struct(MoreTypes(last, fields)), 1
  {
    hide Fit;
    hide Shaped;
    hide WrittenPart;
    hide PartShaped;
    hide FitOne;
    hide SizeOf;
    hide Size;
    hide Consumes;
    if list == [] || (fields.NoTypes? && !own) {
      parts := [];
      assert list == [] + list;
    } else {
      var ty := NextMember(fields, last);
      var m := FitOne(ty, list);
      ConsumesLess(list, m.rest);
      var first := PartIsWritten(ty, list);
      var others := MembersAreWritten(OthersOf(fields), ty, m.rest, own);
      parts := [first] + others;
      MembersJoin(fields, last, first, others, own, list, m.rest, FitFields(fields, last, list, own).rest);
    }
  }

  // The list of an initializer writes c, and has `extra` items too many.
  predicate Writes(ty: Type, list: seq<Init>, c: Content, extra: seq<Init>) {
    Shaped(ty, c, true, extra != []) && list == Written(c) + extra
  }

  /** So matching an initializer is reading what is written there: its value, its faults in
      order and what is left over are v, faults and extra if and only if the list writes a
      content with this value and these faults. */
  lemma FitExact(ty: Type, list: seq<Init>, v: Value, extra: seq<Init>, faults: seq<Error>)
    requires Declarable(ty)
    ensures Fit(ty, list, true) == Match(v, extra, faults)
       <==> exists c :: Writes(ty, list, c, extra) && v == ValueOf(c) && faults == Faults(ty, c, true, extra != [])
  {
    hide Fit;
    hide Shaped;
    hide Faults;
    if Fit(ty, list, true) == Match(v, extra, faults) {
      var c := EveryListIsWritten(ty, list, true);
      WrittenFits(ty, c, extra, true);
      assert Writes(ty, list, c, extra);
    }
    forall c | Writes(ty, list, c, extra) ensures Fit(ty, list, true) == Match(ValueOf(c), extra, Faults(ty, c, true, extra != [])) {
      WrittenFits(ty, c, extra, true);
    }
  }

  // ---------- Fully braced initializers ----------

  function FullyBraced(val: Value): Init {
    match val
    case Leaf(v) => Item(v)
    case Node(vals) => Braces(AllBraced(vals))
    case Nothing => Braces([])
  }

  function AllBraced(vals: seq<Value>): seq<Init> {
    if vals == [] then [] else [FullyBraced(vals[0])] + AllBraced(vals[1..])
  }

  lemma {:induction false} OneBraced(ty: Type, val: Value, follow: seq<Init>)
    requires Complete(ty) && Conforms(val, ty)
    ensures FitOne(ty, [FullyBraced(val)] + follow) == Match(val, follow, [])
    decreases val, 3
  {
    if val.Node? { BracedRoundTrip(ty, val); }
  }

  /** An initializer with all its braces is matched to exactly the value that it spells. */
  lemma {:induction false} BracedRoundTrip(ty: Type, val: Value)
    requires Complete(ty) && Conforms(val, ty) && val.Node?
    ensures Fit(ty, AllBraced(val.vals), true) == Match(val, [], [])
    decreases val, 2
  {
    match ty
    case Array(dim, elem) => ElementsBraced(elem, dim, val.vals);
    case Struct(fields) =>
      assert AllComplete(fields);
      var (first, others) := (val.vals[0], val.vals[1..]);
      OneBraced(fields.head, first, AllBraced(others));
      MembersBraced(fields.tail, fields.head, others);
      assert val.vals == [first] + others;
  }

  lemma {:induction false} ElementsBraced(elem: Type, dim: Dim, vals: seq<Value>)
    requires Complete(elem) && AllConform(vals, elem) && (dim == Sized(|vals|) || dim.Unsized?)
    ensures FitElements(elem, dim, AllBraced(vals)) == Match(vals, [], [])
    decreases vals, 1
  {
    hide Fit;
    hide FitOne;
    hide Conforms;
    hide FullyBraced;
    hide Size;
    hide SizeOf;
    if vals != [] {
      var (first, others) := (vals[0], vals[1..]);
      OneBraced(elem, first, AllBraced(others));
      ElementsBraced(elem, OneLess(dim), others);
      assert vals == [first] + others;
    }
  }

  lemma {:induction false} MembersBraced(fields: Types, last: Type, vals: seq<Value>)
    requires AllComplete(fields) && Complete(last) && FieldsConform(vals, fields)
    ensures FitFields(fields, last, AllBraced(vals), true) == Match(vals, [], [])
    decreases vals, 1
  {
    hide Fit;
    hide FitOne;
    hide Conforms;
    hide FullyBraced;
    hide Size;
    hide SizeOf;
    if vals != [] {
      var (first, others) := (vals[0], vals[1..]);
      OneBraced(fields.head, first, AllBraced(others));
      MembersBraced(fields.tail, fields.head, others);
      assert vals == [first] + others;
    }
  }
}
