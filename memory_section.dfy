/**
 * src/wasm/section/memory.rs: memory limits (section 5.3.4 of the WebAssembly
 * Core Specification 1.0) and the memory section with its append-only builder.
 */
module MemorySections {
  import opened Optional
  import opened Wasm
  import Sections

  const ID: byte := 5

  /** The limits of a memory, in pages. */
  datatype Memory = Minimum(min: nat) | MinimumAndMaximum(min: nat, max: nat)

  /** The limits the one-byte encoder can handle. */
  predicate Encodable(m: Memory)
  {
    m.min < 0x80 && (m.MinimumAndMaximum? ==> m.max < 0x80)
  }

  /** Flag 0x00 and the minimum, or flag 0x01, the minimum and the maximum. */
  function EncodeMemory(m: Memory): (r: seq<byte>)
    requires Encodable(m)
    ensures |r| == (if m.MinimumAndMaximum? then 3 else 2)
    ensures r[0] == 0x01 <==> m.MinimumAndMaximum?
    ensures ParseMemory(r) == Some(m)
  {
    match m
    case Minimum(min) => [0x00] + EncodeUnsigned(min)
    case MinimumAndMaximum(min, max) => [0x01] + EncodeUnsigned(min) + EncodeUnsigned(max)
  }

  /** Reads limits back, when nothing is left over. */
  function ParseMemory(bytes: seq<byte>): Option<Memory>
  {
    if |bytes| == 2 && bytes[0] == 0x00 && bytes[1] < 0x80 then
      Some(Minimum(bytes[1]))
    else if |bytes| == 3 && bytes[0] == 0x01 && bytes[1] < 0x80 && bytes[2] < 0x80 then
      Some(MinimumAndMaximum(bytes[1], bytes[2]))
    else
      None
  }

  /** Memory sections whose encoded contents fit the one-byte size field. */
  predicate EncodableSection(memories: seq<Memory>)
  {
    && |memories| < 0x80
    && (forall m | m in memories :: Encodable(m))
    && |EncodeVec(memories, EncodeMemory)| < 0x80
  }

  /** The whole section: ID 5 and the vector of limits. */
  function EncodeMemorySection(memories: seq<Memory>): (r: seq<byte>)
    requires EncodableSection(memories)
    ensures Sections.ParseSection(r) == Some((ID, EncodeVec(memories, EncodeMemory)))
  {
    Sections.ParseEncodeSection(ID, EncodeVec(memories, EncodeMemory));
    Sections.EncodeSection(ID, EncodeVec(memories, EncodeMemory))
  }

  /** The limits `add` builds: a maximum exactly when one is given. */
  function Limits(min: nat, max: Option<nat>): (m: Memory)
    ensures m.min == min
    ensures m.MinimumAndMaximum? <==> max.Some?
    ensures m.MinimumAndMaximum? ==> m.max == max.value
  {
    match max
    case Some(max) => MinimumAndMaximum(min, max)
    case None => Minimum(min)
  }

  /** The builder: the memories in the order they were added. */
  class MemorySection {
    var memories: seq<Memory>

    /** `MemorySection::default()`. */
    constructor ()
      ensures memories == []
    {
      memories := [];
    }

    /** Appends a memory with the given minimum and optional maximum. */
    method Add(min: nat, max: Option<nat>)
      modifies this
      ensures memories == old(memories) + [Limits(min, max)]
    {
      var memory := if max.Some? then MinimumAndMaximum(min, max.value) else Minimum(min);
      memories := memories + [memory];
    }
  }

  /** The tests in memory.rs: minimum 32 gives `[5, 3, 1, 0, 32]`; with maximum 64, `[5, 4, 1, 1, 32, 64]`. */
  method MemoryWithLimits() returns (minimumOnly: seq<byte>, withMaximum: seq<byte>)
    ensures minimumOnly == [5, 3, 1, 0, 32]
    ensures withMaximum == [5, 4, 1, 1, 32, 64]
  {
    var first := new MemorySection();
    first.Add(32, None);
    assert first.memories == [Minimum(32)];
    assert Encodable(Minimum(32));
    ConcatOne(Minimum(32), EncodeMemory);
    minimumOnly := EncodeMemorySection(first.memories);
    var second := new MemorySection();
    second.Add(32, Some(64));
    var m := MinimumAndMaximum(32, 64);
    assert second.memories == [m];
    assert Encodable(m);
    ConcatOne(m, EncodeMemory);
    withMaximum := EncodeMemorySection(second.memories);
  }
}
