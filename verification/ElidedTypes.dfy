/**
 Elision of types, in place.  A struct type is shared by everything that names it, and its
 members may refer back to it, so a flag on the type stops the walk the second time.
 */
module ElidedTypes {

  class SUE {
    var fields: seq<Type>
    var transformed: bool

    constructor (fields: seq<Type>)
      ensures this.fields == fields && !transformed
    {
      this.fields, transformed := fields, false;
    }
  }

  // `Sized` covers pointers and arrays, `Aggregate` the struct, union and enum types.
  datatype Type =
    | Prim(id: nat)
    | Sized(elem: Type)
    | Function(isCilk: bool, args: Types, result: Type)
    | Aggregate(sue: SUE)

  datatype Types = NoTypes | MoreTypes(head: Type, tail: Types)

  // t without the cilk qualifiers of its functions.
  function Plain(t: Type): Type {
    match t
    case Prim(_) => t
    case Sized(elem) => Sized(Plain(elem))
    case Function(_, args, result) => Function(false, PlainAll(args), Plain(result))
    case Aggregate(_) => t
  }

  function PlainAll(ts: Types): Types {
    match ts
    case NoTypes => NoTypes
    case MoreTypes(head, tail) => MoreTypes(Plain(head), PlainAll(tail))
  }

  predicate IsPlain(t: Type) {
    match t
    case Prim(_) => true
    case Sized(elem) => IsPlain(elem)
    case Function(isCilk, args, result) => !isCilk && AllPlain(args) && IsPlain(result)
    case Aggregate(_) => true
  }

  predicate AllPlain(ts: Types) {
    ts.MoreTypes? ==> IsPlain(ts.head) && AllPlain(ts.tail)
  }

  // r is t, but for the cilk qualifiers of functions: the same types in the same places.
  predicate SameButCilk(t: Type, r: Type) {
    match t
    case Prim(id) => r.Prim? && r.id == id
    case Sized(elem) => r.Sized? && SameButCilk(elem, r.elem)
    case Function(_, args, result) => r.Function? && SameList(args, r.args) && SameButCilk(result, r.result)
    case Aggregate(sue) => r.Aggregate? && r.sue == sue
  }

  predicate SameList(ts: Types, rs: Types) {
    match ts
    case NoTypes => rs.NoTypes?
    case MoreTypes(head, tail) => rs.MoreTypes? && SameButCilk(head, rs.head) && SameList(tail, rs.tail)
  }

  // The struct types that t names.
  ghost function Names(t: Type): set<SUE> {
    match t
    case Prim(_) => {}
    case Sized(elem) => Names(elem)
    case Function(_, args, result) => NamesAll(args) + Names(result)
    case Aggregate(sue) => {sue}
  }

  ghost function NamesAll(ts: Types): set<SUE> {
    if ts.NoTypes? then {} else Names(ts.head) + NamesAll(ts.tail)
  }

  lemma {:induction false} PlainIsPlain(t: Type)
    ensures IsPlain(Plain(t)) && Names(Plain(t)) == Names(t) && (IsPlain(t) <==> Plain(t) == t)
    decreases t
  {
    match t
    case Sized(elem) => PlainIsPlain(elem);
    case Function(_, args, result) => PlainAllIsPlain(args); PlainIsPlain(result);
    case _ =>
  }

  lemma {:induction false} PlainAllIsPlain(ts: Types)
    ensures AllPlain(PlainAll(ts)) && NamesAll(PlainAll(ts)) == NamesAll(ts) && (AllPlain(ts) <==> PlainAll(ts) == ts)
    decreases ts
  {
    if ts.MoreTypes? { PlainIsPlain(ts.head); PlainAllIsPlain(ts.tail); }
  }

  /** Plain(t) is the one type without cilk qualifiers that is otherwise t. */
  lemma {:induction false} PlainIsSame(t: Type, r: Type)
    ensures r == Plain(t) <==> IsPlain(r) && SameButCilk(t, r)
    decreases t
  {
    match t
    case Sized(elem) => if r.Sized? { PlainIsSame(elem, r.elem); }
    case Function(_, args, result) => if r.Function? { PlainListIsSame(args, r.args); PlainIsSame(result, r.result); }
    case _ =>
  }

  lemma {:induction false} PlainListIsSame(ts: Types, rs: Types)
    ensures rs == PlainAll(ts) <==> AllPlain(rs) && SameList(ts, rs)
    decreases ts
  {
    if ts.MoreTypes? && rs.MoreTypes? { PlainIsSame(ts.head, rs.head); PlainListIsSame(ts.tail, rs.tail); }
  }

  // The members of u name types of the program only.
  ghost predicate Within(u: SUE, all: set<SUE>)
    reads u
  {
    forall f :: f in u.fields ==> Names(f) <= all
  }

  ghost predicate Complete(all: set<SUE>)
    reads all
  {
    forall u :: u in all ==> Within(u, all)
  }

  ghost function Untransformed(all: set<SUE>): set<SUE>
    reads all
  {
    set u | u in all && !u.transformed
  }

  ghost predicate AllTransformed(us: set<SUE>)
    reads us
  {
    forall u :: u in us ==> u.transformed
  }

  // u's members are plain, and the types they name have been reached.
  ghost predicate Finished(u: SUE, all: set<SUE>)
    reads all, u
  {
    forall f :: f in u.fields ==> IsPlain(f) && forall v :: v in Names(f) && v in all ==> v.transformed
  }

  // Whatever has been reached is finished.
  ghost predicate Settled(all: set<SUE>)
    reads all
  {
    forall u :: u in all && u.transformed ==> Finished(u, all)
  }

  // What a walk does to u: members of a type that is entered become plain, others stay.
  twostate predicate Walked(u: SUE, all: set<SUE>)
    reads all, u
  {
    && (old(u.transformed) ==> u.transformed && u.fields == old(u.fields))
    && (!u.transformed ==> u.fields == old(u.fields))
    && (u.transformed && !old(u.transformed) ==>
          && |u.fields| == |old(u.fields)|
          && (forall i :: 0 <= i < |u.fields| ==> u.fields[i] == Plain(old(u.fields)[i]) && SameButCilk(old(u.fields)[i], u.fields[i]))
          && Finished(u, all))
  }

  /** Elides one type.  Struct types reached for the first time are entered, each once, and
      what they name is reached too; cycles end at types that are being walked already. */
  method ElideNode(t: Type, ghost all: set<SUE>) returns (r: Type, ghost entered: nat)
    requires Complete(all) && Names(t) <= all
    modifies all
    ensures r == Plain(t) && SameButCilk(t, r) && IsPlain(r) && AllTransformed(Names(t)) && Complete(all)
    ensures forall u :: u in all ==> Walked(u, all)
    ensures entered + |Untransformed(all)| == old(|Untransformed(all)|)
    decreases |Untransformed(all)|, 1, t
  {
    PlainIsSame(t, Plain(t));
    entered := 0;
    match t
    case Prim(_) => r := t;
    case Sized(elem) =>
      r, entered := ElideNode(elem, all);
      r := Sized(r);
    case Function(_, args, result) =>
      var plain;
      ghost var n;
      plain, entered := ElideList(args, all);
      r, n := ElideNode(result, all);
      entered := entered + n;
      r := Function(false, plain, r);
    case Aggregate(sue) =>
      entered := ElideSUE(sue, all);
      r := t;
  }

  method ElideList(ts: Types, ghost all: set<SUE>) returns (r: Types, ghost entered: nat)
    requires Complete(all) && NamesAll(ts) <= all
    modifies all
    ensures r == PlainAll(ts) && AllTransformed(NamesAll(ts)) && Complete(all)
    ensures forall u :: u in all ==> Walked(u, all)
    ensures entered + |Untransformed(all)| == old(|Untransformed(all)|)
    decreases |Untransformed(all)|, 1, ts
  {
    if ts.NoTypes? { return NoTypes, 0; }
    var head;
    ghost var n;
    head, entered := ElideNode(ts.head, all);
    r, n := ElideList(ts.tail, all);
    entered := entered + n;
    r := MoreTypes(head, r);
  }

  method ElideSUE(sue: SUE, ghost all: set<SUE>) returns (ghost entered: nat)
    requires Complete(all) && sue in all
    modifies all
    ensures sue.transformed && Complete(all)
    ensures forall u :: u in all ==> Walked(u, all)
    ensures entered + |Untransformed(all)| == old(|Untransformed(all)|)
    decreases |Untransformed(all)|, 0
  {
    if sue.transformed { return 0; }
    sue.transformed := true;
    assert Untransformed(all) == old(Untransformed(all)) - {sue};
    entered := 1;
    var i := 0;
    while i < |sue.fields|
      invariant i <= |sue.fields| == |old(sue.fields)| && sue.transformed && Complete(all)
      invariant forall j :: 0 <= j < i ==> sue.fields[j] == Plain(old(sue.fields)[j]) && AllTransformed(Names(old(sue.fields)[j]))
      invariant forall j :: i <= j < |sue.fields| ==> sue.fields[j] == old(sue.fields)[j]
      invariant forall u :: u in all && u != sue ==> Walked(u, all)
      invariant 1 <= entered && entered + |Untransformed(all)| == old(|Untransformed(all)|)
    {
      ghost var n := ElideField(sue, i, all);
      entered, i := entered + n, i + 1;
    }
    forall f | f in sue.fields ensures IsPlain(f) && forall v :: v in Names(f) && v in all ==> v.transformed {
      var j :| 0 <= j < |sue.fields| && sue.fields[j] == f;
      PlainIsPlain(old(sue.fields)[j]);
    }
    hide Plain;
    hide SameButCilk;
    forall j | 0 <= j < |sue.fields| ensures SameButCilk(old(sue.fields)[j], sue.fields[j]) {
      PlainIsSame(old(sue.fields)[j], sue.fields[j]);
    }
  }

  // One member of a type that is being walked.
  method ElideField(sue: SUE, i: nat, ghost all: set<SUE>) returns (ghost entered: nat)
    requires Complete(all) && sue in all && sue.transformed && i < |sue.fields|
    modifies all
    ensures sue.transformed && Complete(all)
    ensures sue.fields == old(sue.fields)[i := Plain(old(sue.fields)[i])] && SameButCilk(old(sue.fields)[i], sue.fields[i])
    ensures AllTransformed(Names(old(sue.fields)[i]))
    ensures forall u :: u in all && u != sue ==> Walked(u, all)
    ensures entered + |Untransformed(all)| == old(|Untransformed(all)|)
    decreases |Untransformed(all)|, 2
  {
    var f := sue.fields[i];
    var r;
    assert Within(sue, all);
    r, entered := ElideNode(f, all);
    PlainIsPlain(f);
    ghost var left := Untransformed(all);
    sue.fields := sue.fields[i := r];
    assert Untransformed(all) == left;
  }

  /** Elision of a type ends, and leaves no cilk function anywhere in what the type reaches. */
  method ElideType(t: Type, ghost all: set<SUE>) returns (r: Type, ghost entered: nat)
    requires Complete(all) && Names(t) <= all && Settled(all)
    modifies all
    ensures r == Plain(t) && SameButCilk(t, r) && IsPlain(r) && AllTransformed(Names(r))
    ensures Complete(all) && Settled(all) && forall u :: u in all ==> Walked(u, all)
    ensures entered == old(|Untransformed(all)|) - |Untransformed(all)|
  {
    r, entered := ElideNode(t, all);
    PlainIsPlain(t);
  }

  // A chain of struct types from t on, each named by a member of the one before.
  ghost predicate IsChain(t: Type, chain: seq<SUE>)
    reads chain
    decreases |chain|
  {
    chain != [] ==> chain[0] in Names(t) && exists f :: f in chain[0].fields && IsChain(f, chain[1..])
  }

  lemma {:induction false} ReachedIsPlain(t: Type, all: set<SUE>, chain: seq<SUE>)
    requires Complete(all) && Settled(all) && Names(t) <= all && AllTransformed(Names(t))
    requires IsChain(t, chain)
    ensures forall u, f :: u in chain && f in u.fields ==> IsPlain(f)
    decreases |chain|
  {
    if chain != [] {
      var f :| f in chain[0].fields && IsChain(f, chain[1..]);
      assert Within(chain[0], all) && Finished(chain[0], all);
      ReachedIsPlain(f, all, chain[1..]);
    }
  }
}
