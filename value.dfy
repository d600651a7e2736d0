/**
 * `ValueType` of src/wasm/value.rs and its encoding (section 5.3.1 of the
 * WebAssembly Core Specification 1.0).
 */
module Values {
  import opened Wasm

  /** The one value type the compiler uses. */
  datatype ValueType = I32

  /** `i32` is the byte 0x7f. */
  function Encode(t: ValueType): (r: seq<byte>)
    ensures |r| == 1 && r[0] == 0x7f
  {
    match t
    case I32 => [0x7f]
  }

  /** With a single variant, any two value types are equal and encode alike. */
  lemma AllValueTypesEqual(s: ValueType, t: ValueType)
    ensures s == t && Encode(s) == Encode(t)
  {
  }

  /** A list of `n` value types encodes as the count `n` followed by `n` bytes 0x7f. */
  lemma {:induction false} EncodeValueTypes(ts: seq<ValueType>)
    requires |ts| < 0x80
    ensures EncodeVec(ts, Encode) == [|ts|] + seq(|ts|, _ => 0x7f)
  {
    AllI32(ts);
  }

  /** The element bytes of a list of value types are all 0x7f. */
  lemma {:induction false} AllI32(ts: seq<ValueType>)
    ensures Concat(ts, Encode) == seq(|ts|, _ => 0x7f)
  {
    if ts != [] {
      AllI32(ts[1..]);
      assert Concat(ts, Encode) == [0x7f] + Concat(ts[1..], Encode);
    }
  }
}
