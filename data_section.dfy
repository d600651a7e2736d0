/**
 * src/wasm/section/data.rs: active data segments (section 5.5.14 of the
 * WebAssembly Core Specification 1.0) and the data section with its
 * append-only builder.
 */
module DataSections {
  import opened Optional
  import opened Wasm
  import Instructions
  import Sections

  const ID: byte := 11

  /** A segment: the bytes `bytes` placed in memory `memory` at address `offset`. */
  datatype Data = Data(memory: nat, offset: nat, bytes: seq<byte>)

  /**
   * The segments the one-byte encoders can handle.  The offset is converted
   * with `as i32`, so it is its wrapped 32-bit value that must lie in [0, 64).
   */
  predicate Encodable(d: Data)
  {
    d.memory < 0x80 && 0 <= AsInt32(d.offset) < 0x40 && |d.bytes| < 0x80
  }

  /** The memory index, the offset expression `i32.const offset; end`, then the bytes as a vector. */
  function EncodeData(d: Data): (r: seq<byte>)
    requires Encodable(d)
    ensures r == [d.memory, 0x41, AsInt32(d.offset), 0x0b, |d.bytes|] + d.bytes
  {
    ConcatBytes(d.bytes);
    EncodeUnsigned(d.memory) + Instructions.Encode(Instructions.ConstI32(AsInt32(d.offset)))
      + Instructions.Encode(Instructions.End) + EncodeVec(d.bytes, EncodeByte)
  }

  /** Parsing an encoded segment gives back its memory, its offset as a signed 32-bit value, and its bytes. */
  lemma ParseEncodeData(d: Data)
    requires Encodable(d)
    ensures ParseData(EncodeData(d)) == Some(Data(d.memory, AsInt32(d.offset), d.bytes))
  {
    var r := EncodeData(d);
    var offset := Instructions.ConstI32(AsInt32(d.offset));
    assert r[1..] == Instructions.Encode(offset) + r[3..];
    Instructions.DecodeEncode(offset, r[3..]);
    assert r[..1] == [d.memory] && r[4..5] == [|d.bytes|] && r[5..] == d.bytes;
  }

  /**
   * Reads a segment back when nothing is left over: a one-byte memory index,
   * an `i32.const` offset, `end`, and a counted run of bytes.
   */
  function ParseData(bytes: seq<byte>): Option<Data>
  {
    if |bytes| >= 5 && DecodeUnsigned(bytes[..1]).Some? then
      var offset := Instructions.Decode(bytes[1..]);
      if && offset.Some? && offset.value.0.ConstI32? && offset.value.1 == 2
         && offset.value.0.value >= 0
         && bytes[3] == 0x0b && DecodeUnsigned(bytes[4..5]) == Some(|bytes| - 5)
      then
        Some(Data(bytes[0], offset.value.0.value, bytes[5..]))
      else
        None
    else
      None
  }

  /** Data sections whose encoded contents fit the one-byte size field. */
  predicate EncodableSection(data: seq<Data>)
  {
    && |data| < 0x80
    && (forall d | d in data :: Encodable(d))
    && |EncodeVec(data, EncodeData)| < 0x80
  }

  /** The whole section: ID 11 and the vector of segments. */
  function EncodeDataSection(data: seq<Data>): (r: seq<byte>)
    requires EncodableSection(data)
    ensures Sections.ParseSection(r) == Some((ID, EncodeVec(data, EncodeData)))
  {
    Sections.ParseEncodeSection(ID, EncodeVec(data, EncodeData));
    Sections.EncodeSection(ID, EncodeVec(data, EncodeData))
  }

  /** The builder: the segments in the order they were added. */
  class DataSection {
    var data: seq<Data>

    /** `DataSection::default()`. */
    constructor ()
      ensures data == []
    {
      data := [];
    }

    /** Appends a segment. */
    method AddSegment(memory: nat, offset: nat, bytes: seq<byte>)
      modifies this
      ensures data == old(data) + [Data(memory, offset, bytes)]
    {
      data := data + [Data(memory, offset, bytes)];
    }
  }

  /** A section of one segment: the count 1, then its encoding. */
  lemma OneSegment(d: Data)
    requires Encodable(d)
    requires |EncodeData(d)| < 0x7f
    ensures EncodableSection([d])
    ensures EncodeDataSection([d]) == [ID, 1 + |EncodeData(d)|, 1] + EncodeData(d)
  {
    assert forall x | x in [d] :: x == d;
    Sections.SectionOfOne(ID, d, EncodeData);
  }

  /** Four bytes at offset 12 of memory 0. */
  lemma SegmentAtTwelveBytes()
    ensures Encodable(Data(0, 12, [0xde, 0xad, 0xbe, 0xef]))
    ensures EncodeData(Data(0, 12, [0xde, 0xad, 0xbe, 0xef])) == [0, 65, 12, 11, 4, 0xde, 0xad, 0xbe, 0xef]
  {
    ConcatBytes([0xde, 0xad, 0xbe, 0xef]);
  }

  /** The test in data.rs: four bytes at offset 12 of memory 0. */
  method SegmentAtTwelve() returns (wasm: seq<byte>)
    ensures wasm == [11, 10, 1, 0, 65, 12, 11, 4, 0xde, 0xad, 0xbe, 0xef]
  {
    var section := new DataSection();
    section.AddSegment(0, 12, [0xde, 0xad, 0xbe, 0xef]);
    var d := Data(0, 12, [0xde, 0xad, 0xbe, 0xef]);
    assert section.data == [d];
    SegmentAtTwelveBytes();
    OneSegment(d);
    wasm := EncodeDataSection(section.data);
  }
}
