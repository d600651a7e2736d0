/**
 * src/wasm/section/function.rs: the function section (section 5.5.6 of the
 * WebAssembly Core Specification 1.0), the list of type indices of the
 * module's functions, and its append-only builder.
 */
module FunctionSections {
  import opened Wasm
  import Sections

  const ID: byte := 3

  /** A type index (`u32`) is encodable below 128. */
  predicate Encodable(types: seq<nat>)
  {
    |types| < 0x7f && forall t | t in types :: t < 0x80
  }

  /** The whole section: ID 3 and the vector of type indices. */
  function EncodeFunctionSection(types: seq<nat>): (r: seq<byte>)
    requires Encodable(types)
    ensures |r| == 3 + |types|
    ensures r[..3] == [ID, 1 + |types|, |types|]
    ensures forall i | 0 <= i < |types| :: r[3 + i] == types[i]
  {
    ConcatIndices(types);
    Sections.EncodeSection(ID, EncodeVec(types, EncodeUnsigned))
  }

  /** Type indices below 128 encode as themselves, one byte each. */
  lemma {:induction false} ConcatIndices(types: seq<nat>)
    requires forall t | t in types :: t < 0x80
    ensures Concat(types, EncodeUnsigned) == types
  {
    if types != [] {
      assert forall t | t in types[1..] :: t in types;
      ConcatIndices(types[1..]);
    }
  }

  /** The builder: the type index of each function, in order. */
  class FunctionSection {
    var types: seq<nat>

    /** `FunctionSection::default()`. */
    constructor ()
      ensures types == []
    {
      types := [];
    }

    /** Appends a function's type index and returns the function's index. */
    method AddFunction(typeIndex: nat) returns (index: nat)
      modifies this
      ensures types == old(types) + [typeIndex]
      ensures index == |old(types)|
      ensures index < |types| && types[index] == typeIndex
    {
      types := types + [typeIndex];
      index := |types| - 1;
    }
  }

  /** Three successive additions return 0, 1 and 2 and keep their order. */
  method SuccessiveIndices(a: nat, b: nat, c: nat) returns (i: nat, j: nat, k: nat, types: seq<nat>)
    ensures i == 0 && j == 1 && k == 2
    ensures types == [a, b, c]
  {
    var section := new FunctionSection();
    i := section.AddFunction(a);
    j := section.AddFunction(b);
    k := section.AddFunction(c);
    types := section.types;
  }

  /** The test in function.rs: one entry of type 0 gives `[3, 2, 1, 0]`. */
  method SingleTypeIndex() returns (wasm: seq<byte>)
    ensures wasm == [3, 2, 1, 0]
  {
    var section := new FunctionSection();
    var _ := section.AddFunction(0);
    wasm := EncodeFunctionSection(section.types);
  }
}
