/**
 * `Instruction` of src/wasm/instruction.rs and its opcode encoding (section
 * 5.4 of the WebAssembly Core Specification 1.0).
 *
 * The enum shown in instruction.rs has seven variants; src/wafer.rs also
 * builds blocks, branches, calls, locals, memory accesses and comparisons.
 * Those variants are part of the datatype below, but instruction.rs gives no
 * encoding for them, so `Encode` is defined only for the seven it has.
 */
module Instructions {
  import opened Optional
  import opened Wasm
  import opened Values

  datatype Instruction =
    // Encoded by instruction.rs.
    | End
    | ConstI32(value: int32)
    | AddI32
    | SubtractI32
    | MultiplyI32
    | DivideSignedI32
    | LocalSetI32(index: nat)
    // Used by wafer.rs; instruction.rs does not define them.
    | If(blockType: Option<ValueType>)
    | Else
    | Loop(blockType: Option<ValueType>)
    | Break(depth: nat)
    | Drop
    | Call(callee: nat)
    | LocalGetI32(index: nat)
    | LocalTeeI32(index: nat)
    | StoreI32(align: nat, offset: nat)
    | LoadI32(align: nat, offset: nat)
    | Unreachable
    | EqualI32
    | NotEqualI32
    | LessThanOrEqualSignedI32
    | LessThanSignedI32
    | GreaterThanOrEqualSignedI32
    | GreaterThanSignedI32
    | AndI32
    | OrI32

  /**
   * The instructions `wasm_encode` handles, with immediates inside the range
   * the one-byte integer encoders implement.
   */
  predicate HasEncoding(i: Instruction)
  {
    match i
    case End | AddI32 | SubtractI32 | MultiplyI32 | DivideSignedI32 => true
    case ConstI32(v) => 0 <= v < 0x40
    case LocalSetI32(index) => index < 0x80
    case _ => false
  }

  /** One opcode byte, then the immediate, if there is one. */
  function Encode(i: Instruction): (r: seq<byte>)
    requires HasEncoding(i)
    ensures |r| == (if i.ConstI32? || i.LocalSetI32? then 2 else 1)
    ensures Decode(r) == Some((i, |r|))
  {
    match i
    case End => [0x0b]
    case ConstI32(v) => [0x41] + EncodeInt32(v)
    case AddI32 => [0x6a]
    case SubtractI32 => [0x6b]
    case MultiplyI32 => [0x6c]
    case DivideSignedI32 => [0x6d]
    case LocalSetI32(index) => [0x21] + EncodeUnsigned(index)
  }

  /**
   * Reads one instruction from the front of `bytes`: the instruction and how
   * many bytes it took, or None when the bytes start with no opcode the
   * encoder produces.
   */
  function Decode(bytes: seq<byte>): Option<(Instruction, nat)>
  {
    if |bytes| == 0 then None
    else if bytes[0] == 0x0b then Some((End, 1))
    else if bytes[0] == 0x6a then Some((AddI32, 1))
    else if bytes[0] == 0x6b then Some((SubtractI32, 1))
    else if bytes[0] == 0x6c then Some((MultiplyI32, 1))
    else if bytes[0] == 0x6d then Some((DivideSignedI32, 1))
    else if bytes[0] == 0x41 then
      match DecodeSigned(bytes[1..])
      case Some(v) => Some((ConstI32(v), 2))
      case None => None
    else if bytes[0] == 0x21 then
      match DecodeUnsigned(bytes[1..])
      case Some(index) => Some((LocalSetI32(index), 2))
      case None => None
    else None
  }

  /** Decoding reads an encoded instruction back whatever bytes follow it. */
  lemma DecodeEncode(i: Instruction, rest: seq<byte>)
    requires HasEncoding(i)
    ensures Decode(Encode(i) + rest) == Some((i, |Encode(i)|))
  {
    var r := Encode(i);
    assert (r + rest)[1..] == r[1..] + rest;
  }

  /** Two instructions built with the same constructor. */
  predicate SameVariant(i: Instruction, j: Instruction)
  {
    match (i, j)
    case (ConstI32(_), ConstI32(_)) => true
    case (LocalSetI32(_), LocalSetI32(_)) => true
    case _ => i == j
  }

  /** The first byte of an encoding is an opcode that names the variant. */
  lemma OpcodeIdentifiesVariant(i: Instruction, j: Instruction)
    requires HasEncoding(i) && HasEncoding(j)
    requires Encode(i)[0] == Encode(j)[0]
    ensures SameVariant(i, j)
  {
  }

  /** Distinct instructions have distinct encodings. */
  lemma EncodeInjective(i: Instruction, j: Instruction)
    requires HasEncoding(i) && HasEncoding(j)
    requires Encode(i) == Encode(j)
    ensures i == j
  {
    assert Decode(Encode(i)) == Decode(Encode(j));
  }

  /** The test in instruction.rs: `ConstI32(42)` is `[65, 42]`. */
  lemma EncodeConst42()
    ensures Encode(ConstI32(42)) == [65, 42]
  {
  }
}
