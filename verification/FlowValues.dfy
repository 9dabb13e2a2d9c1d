/**
 Flow values of the bit-vector frameworks and the lattice they form.
 */
module FlowValues {

  // A BitVector is an unsigned long; on the platforms Cilk 5 targets with 64-bit longs
  // it holds 64 members.
  const MAX_BITVECTOR_LENGTH: nat := 64

  type Bit = b: nat | b < MAX_BITVECTOR_LENGTH

  // An undefined value still has a bit vector: the bits it had before it became undefined.
  datatype FlowValue = FlowValue(undefined: bool, bits: set<Bit>)

  const EmptySet := FlowValue(false, {})

  function SetUnion(v: FlowValue, w: FlowValue): FlowValue {
    if v.undefined then w
    else if w.undefined then v
    else FlowValue(false, v.bits + w.bits)
  }

  predicate SetEqual(v: FlowValue, w: FlowValue) {
    if v.undefined then w.undefined else !w.undefined && v.bits == w.bits
  }

  function GenKill(gen: set<Bit>, kill: set<Bit>, v: FlowValue): FlowValue {
    var w := if v.undefined then EmptySet else v;
    w.(bits := (w.bits - kill) + gen)
  }

  function Undefine(v: FlowValue): FlowValue {
    v.(undefined := true)
  }

  // The partial order the framework derives from its meet: x <= y iff x ^ y = x.
  predicate Le(x: FlowValue, y: FlowValue) {
    SetEqual(SetUnion(x, y), x)
  }

  // Does an execution fact hold in v?  An undefined value carries no fact.
  predicate Has(v: FlowValue, b: Bit) {
    !v.undefined && b in v.bits
  }

  // The obligations dataflow.c places on the meet, up to the framework's own equality.
  lemma MeetLaws(x: FlowValue, y: FlowValue, z: FlowValue, top: FlowValue)
    requires top.undefined
    ensures SetEqual(SetUnion(x, y), SetUnion(y, x))
    ensures SetEqual(SetUnion(SetUnion(x, y), z), SetUnion(x, SetUnion(y, z)))
    ensures SetEqual(SetUnion(SetUnion(x, y), y), SetUnion(x, y))
    ensures SetUnion(x, top) == x || (x.undefined && SetUnion(x, top) == top)
    ensures Le(x, top)
  {
    if !x.undefined && !y.undefined && !z.undefined {
      assert (x.bits + y.bits) + z.bits == x.bits + (y.bits + z.bits);
      assert (x.bits + y.bits) + y.bits == x.bits + y.bits;
    }
    if !x.undefined && !y.undefined {
      assert (x.bits + y.bits) + y.bits == x.bits + y.bits;
    }
  }

  lemma LeMeaning(x: FlowValue, y: FlowValue)
    ensures Le(x, y) <==> y.undefined || (!x.undefined && y.bits <= x.bits)
  {
    if !x.undefined && !y.undefined {
      assert x.bits + y.bits == x.bits <==> y.bits <= x.bits;
    }
  }
}
