/**
 * src/wasm/section/type.rs: function types (section 5.3.3 of the WebAssembly
 * Core Specification 1.0) and the type section (section 5.5.4), whose builder
 * reuses an equal type rather than adding it twice.
 *
 * type.rs declares its own parameter type as an enum without variants, whose
 * encoder is `todo!()`; the model takes value.rs's `ValueType` for the
 * element type and encodes only empty parameter and return lists, which are
 * the only ones the source can build.
 */
module TypeSections {
  import opened Optional
  import opened Wasm
  import opened Values
  import Sections

  const ID: byte := 1

  datatype FunctionType = FunctionType(parameters: seq<ValueType>, results: seq<ValueType>)

  /** `FunctionType::new()`: no parameters, no results. */
  function NewFunctionType(): (t: FunctionType)
    ensures t.parameters == [] && t.results == []
  {
    FunctionType([], [])
  }

  /** The function types the encoder can handle: those with empty lists. */
  predicate Encodable(t: FunctionType)
  {
    t.parameters == [] && t.results == []
  }

  /** The tag 0x60, then the vector of parameters, then the vector of results. */
  function EncodeFunctionType(t: FunctionType): (r: seq<byte>)
    requires Encodable(t)
    ensures r == [0x60, 0, 0]
  {
    [0x60] + EncodeVec(t.parameters, Values.Encode) + EncodeVec(t.results, Values.Encode)
  }

  /** The whole section: ID 1 and the vector of function types. */
  function EncodeTypeSection(functions: seq<FunctionType>): (r: seq<byte>)
    requires |functions| <= 42
    requires forall t | t in functions :: Encodable(t)
    ensures r == [ID, 1 + 3 * |functions|, |functions|] + Concat(functions, EncodeFunctionType)
    ensures |r| == 3 + 3 * |functions|
  {
    ConcatTypes(functions);
    Sections.EncodeSection(ID, EncodeVec(functions, EncodeFunctionType))
  }

  /** Every encodable function type takes three bytes. */
  lemma {:induction false} ConcatTypes(functions: seq<FunctionType>)
    requires forall t | t in functions :: Encodable(t)
    ensures |Concat(functions, EncodeFunctionType)| == 3 * |functions|
  {
    if functions != [] {
      ConcatTypes(functions[1..]);
    }
  }

  /**
   * The index of the first element of `xs` equal to `x` (`Iterator::position`),
   * or None when there is none.
   */
  function Position<T(==)>(xs: seq<T>, x: T): (r: Option<nat>)
    ensures r.None? <==> x !in xs
    ensures r.Some? ==> r.value < |xs| && xs[r.value] == x
    ensures r.Some? ==> forall j | 0 <= j < r.value :: xs[j] != x
  {
    if xs == [] then None
    else if xs[0] == x then Some(0)
    else match Position(xs[1..], x)
      case None => None
      case Some(k) => Some(k + 1)
  }

  /** The builder: a list of function types. */
  class TypeSection {
    var functions: seq<FunctionType>

    /** `TypeSection::default()`. */
    constructor ()
      ensures functions == []
    {
      functions := [];
    }

    /**
     * Adds the void function type unless an equal type is already present,
     * and returns its index either way.
     */
    method AddFunction() returns (index: nat)
      modifies this
      ensures Position(old(functions), NewFunctionType()).Some? ==>
        functions == old(functions) && index == Position(old(functions), NewFunctionType()).value
      ensures Position(old(functions), NewFunctionType()).None? ==>
        functions == old(functions) + [NewFunctionType()] && index == |old(functions)|
      ensures index < |functions| && functions[index] == NewFunctionType()
    {
      var voidType := NewFunctionType();
      var i := 0;
      while i < |functions| && functions[i] != voidType
        invariant 0 <= i <= |functions|
        invariant forall j | 0 <= j < i :: functions[j] != voidType
      {
        i := i + 1;
      }
      if i < |functions| {
        index := i;
      } else {
        functions := functions + [voidType];
        index := |functions| - 1;
      }
    }
  }

  /**
   * Adding the void type twice: both calls return the same index and the
   * second leaves the list as the first left it.
   */
  method AddFunctionTwice(section: TypeSection) returns (first: nat, second: nat)
    modifies section
    ensures first == second
    ensures |section.functions| == |old(section.functions)| + (if NewFunctionType() in old(section.functions) then 0 else 1)
  {
    first := section.AddFunction();
    var afterFirst := section.functions;
    second := section.AddFunction();
    assert section.functions == afterFirst;
  }

  /** The test in type.rs: one void type gives `[1, 4, 1, 0x60, 0, 0]`. */
  method VoidTypeSection() returns (wasm: seq<byte>)
    ensures wasm == [1, 4, 1, 0x60, 0, 0]
  {
    var section := new TypeSection();
    var _ := section.AddFunction();
    wasm := EncodeTypeSection(section.functions);
  }
}
