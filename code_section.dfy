/**
 * src/wasm/section/code.rs: function bodies and the code section (section
 * 5.5.13 of the WebAssembly Core Specification 1.0).  A body is its size,
 * then the vector of locals, then the instruction bytes; code.rs has its own
 * one-variant instruction type for those.
 */
module CodeSections {
  import opened Optional
  import opened Wasm
  import Sections

  const ID: byte := 10

  /** code.rs's own `Instruction`, whose only variant is `End`. */
  datatype BodyInstruction = End

  /** `End` is the byte 0x0b. */
  function EncodeBodyInstruction(i: BodyInstruction): (r: seq<byte>)
    ensures r == [0x0b]
  {
    match i
    case End => [0x0b]
  }

  datatype FunctionCode = FunctionCode(locals: seq<nat>, instructions: seq<BodyInstruction>)

  /** `FunctionCode::new`: the given instructions and no locals. */
  function NewFunctionCode(instructions: seq<BodyInstruction>): (f: FunctionCode)
    ensures f.locals == [] && f.instructions == instructions
  {
    FunctionCode([], instructions)
  }

  /** The bodies the one-byte size and count encoders can handle. */
  predicate Encodable(f: FunctionCode)
  {
    && (forall l | l in f.locals :: l < 0x80)
    && 1 + |f.locals| + |f.instructions| < 0x80
  }

  /**
   * The size of what follows, the vector of locals, then the instructions'
   * encodings one after another with no count in front.
   */
  function EncodeFunctionCode(f: FunctionCode): (r: seq<byte>)
    requires Encodable(f)
    ensures DecodeUnsigned(r) == Some(|r| - 1)
    ensures |r| == 2 + |f.locals| + |f.instructions|
    ensures r[1..2 + |f.locals|] == EncodeVec(f.locals, EncodeUnsigned)
    ensures r[2 + |f.locals|..] == seq(|f.instructions|, _ => 0x0b)
  {
    ConcatLocals(f.locals);
    ConcatBody(f.instructions);
    var locals := EncodeVec(f.locals, EncodeUnsigned);
    var instructions := Concat(f.instructions, EncodeBodyInstruction);
    EncodeUnsigned(|locals| + |instructions|) + locals + instructions
  }

  /** Locals below 128 take one byte each. */
  lemma {:induction false} ConcatLocals(locals: seq<nat>)
    requires forall l | l in locals :: l < 0x80
    ensures |Concat(locals, EncodeUnsigned)| == |locals|
  {
    if locals != [] {
      assert forall l | l in locals[1..] :: l in locals;
      ConcatLocals(locals[1..]);
    }
  }

  /** The instruction bytes are one 0x0b per instruction. */
  lemma {:induction false} ConcatBody(instructions: seq<BodyInstruction>)
    ensures Concat(instructions, EncodeBodyInstruction) == seq(|instructions|, _ => 0x0b)
  {
    if instructions != [] {
      ConcatBody(instructions[1..]);
    }
  }

  /** Code sections whose encoded contents fit the one-byte size field. */
  predicate EncodableSection(functions: seq<FunctionCode>)
  {
    && |functions| < 0x80
    && (forall f | f in functions :: Encodable(f))
    && |EncodeVec(functions, EncodeFunctionCode)| < 0x80
  }

  /** The whole section: ID 10 and the vector of bodies. */
  function EncodeCodeSection(functions: seq<FunctionCode>): (r: seq<byte>)
    requires EncodableSection(functions)
    ensures Sections.ParseSection(r) == Some((ID, EncodeVec(functions, EncodeFunctionCode)))
  {
    Sections.ParseEncodeSection(ID, EncodeVec(functions, EncodeFunctionCode));
    Sections.EncodeSection(ID, EncodeVec(functions, EncodeFunctionCode))
  }

  /** The test in code.rs: one body holding only `End` gives `[10, 4, 1, 2, 0, 11]`. */
  lemma NopFunction()
    ensures EncodableSection([NewFunctionCode([End])])
    ensures EncodeCodeSection([NewFunctionCode([End])]) == [10, 4, 1, 2, 0, 11]
  {
    var f := NewFunctionCode([End]);
    assert EncodeFunctionCode(f) == [2, 0, 0x0b];
    assert Concat([f], EncodeFunctionCode) == EncodeFunctionCode(f) + Concat([], EncodeFunctionCode);
  }
}
