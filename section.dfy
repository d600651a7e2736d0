/**
 * The blanket `wasm_encode` of src/wasm/section.rs: a section is its one-byte
 * ID, the size of its encoded contents, then those contents (section 5.5.2 of
 * the WebAssembly Core Specification 1.0).  A section's encoding depends on
 * nothing but its ID and its encoded contents, which is why it is a function
 * of exactly those two.
 */
module Sections {
  import opened Optional
  import opened Wasm

  /**
   * `[ID] ++ size ++ contents`.  The size goes through the `usize` encoder, so
   * only contents shorter than 128 bytes can be encoded.
   */
  function EncodeSection(id: byte, contents: seq<byte>): (r: seq<byte>)
    requires |contents| < 0x80
    ensures |r| == 2 + |contents|
    ensures r[0] == id
    ensures DecodeUnsigned(r[1..]) == Some(|r| - 2)
    ensures r[2..] == contents
  {
    [id] + EncodeUnsigned(|contents|) + contents
  }

  /** A section whose vector holds one item: the size, the count 1, then the item's bytes. */
  lemma SectionOfOne<T>(id: byte, x: T, encode: T --> seq<byte>)
    requires encode.requires(x) && |encode(x)| < 0x7f
    ensures |EncodeVec([x], encode)| < 0x80
    ensures EncodeSection(id, EncodeVec([x], encode)) == [id, 1 + |encode(x)|, 1] + encode(x)
  {
    assert forall y | y in [x] :: y == x;
    ConcatOne(x, encode);
    assert EncodeVec([x], encode) == [1] + encode(x);
  }

  /** A section whose vector holds two items: the size, the count 2, then the items' bytes. */
  lemma SectionOfTwo<T>(id: byte, x: T, y: T, encode: T --> seq<byte>)
    requires encode.requires(x) && encode.requires(y) && |encode(x)| + |encode(y)| < 0x7f
    ensures |EncodeVec([x, y], encode)| < 0x80
    ensures EncodeSection(id, EncodeVec([x, y], encode)) == [id, 1 + |encode(x)| + |encode(y)|, 2] + encode(x) + encode(y)
  {
    assert forall z | z in [x, y] :: z == x || z == y;
    var ex, ey := encode(x), encode(y);
    ConcatTwo(x, y, encode);
    assert EncodeVec([x, y], encode) == [2] + (ex + ey);
    assert [id] + [1 + |ex| + |ey|] + ([2] + (ex + ey)) == [id, 1 + |ex| + |ey|, 2] + ex + ey;
  }

  /**
   * Reads a section back: its ID and contents, provided the size field is a
   * one-byte count of exactly the bytes that follow it.
   */
  function ParseSection(bytes: seq<byte>): Option<(byte, seq<byte>)>
  {
    if |bytes| >= 2 && DecodeUnsigned(bytes[1..]) == Some(|bytes| - 2) then
      Some((bytes[0], bytes[2..]))
    else
      None
  }

  /** Parsing an encoded section gives back its ID and contents. */
  lemma ParseEncodeSection(id: byte, contents: seq<byte>)
    requires |contents| < 0x80
    ensures ParseSection(EncodeSection(id, contents)) == Some((id, contents))
  {
  }

  /** Whatever parses as a section is the encoding of what it parses to. */
  lemma EncodeParseSection(bytes: seq<byte>)
    requires ParseSection(bytes).Some?
    ensures |ParseSection(bytes).value.1| < 0x80
    ensures EncodeSection(ParseSection(bytes).value.0, ParseSection(bytes).value.1) == bytes
  {
    var contents := bytes[2..];
    assert bytes == [bytes[0]] + [bytes[1]] + contents;
  }

  /** Two sections encode alike exactly when their IDs and contents agree. */
  lemma EncodeSectionInjective(id1: byte, c1: seq<byte>, id2: byte, c2: seq<byte>)
    requires |c1| < 0x80 && |c2| < 0x80
    ensures EncodeSection(id1, c1) == EncodeSection(id2, c2) <==> id1 == id2 && c1 == c2
  {
    if EncodeSection(id1, c1) == EncodeSection(id2, c2) {
      ParseEncodeSection(id1, c1);
      ParseEncodeSection(id2, c2);
    }
  }

  /**
   * Splits a run of sections, each read by its size field, into their IDs and
   * contents; None when a size field overruns the bytes or is not one byte.
   */
  function ParseSections(bytes: seq<byte>): Option<seq<(byte, seq<byte>)>>
    decreases |bytes|
  {
    if bytes == [] then Some([])
    else if |bytes| >= 2 && bytes[1] < 0x80 && |bytes| >= 2 + bytes[1] then
      match ParseSections(bytes[2 + bytes[1]..])
      case None => None
      case Some(sections) => Some([(bytes[0], bytes[2..2 + bytes[1]])] + sections)
    else
      None
  }

  /** A section in front of a run of sections is split off as the first of them. */
  lemma ParseSectionsCons(id: byte, contents: seq<byte>, rest: seq<byte>)
    requires |contents| < 0x80
    ensures ParseSections(EncodeSection(id, contents) + rest) ==
      match ParseSections(rest)
      case None => None
      case Some(sections) => Some([(id, contents)] + sections)
  {
    var bytes := EncodeSection(id, contents) + rest;
    assert bytes[2 + |contents|..] == rest;
    assert bytes[2..2 + |contents|] == contents;
  }

  /** Three sections one after the other split back into the three. */
  lemma ParseThreeSections(id1: byte, c1: seq<byte>, id2: byte, c2: seq<byte>, id3: byte, c3: seq<byte>)
    requires |c1| < 0x80 && |c2| < 0x80 && |c3| < 0x80
    ensures ParseSections(EncodeSection(id1, c1) + EncodeSection(id2, c2) + EncodeSection(id3, c3))
      == Some([(id1, c1), (id2, c2), (id3, c3)])
  {
    var s1, s2, s3 := EncodeSection(id1, c1), EncodeSection(id2, c2), EncodeSection(id3, c3);
    assert ParseSections([]) == Some([]);
    ParseSectionsCons(id3, c3, []);
    assert s3 + [] == s3;
    assert [(id3, c3)] + [] == [(id3, c3)];
    assert ParseSections(s3) == Some([(id3, c3)]);
    ParseSectionsCons(id2, c2, s3);
    assert [(id2, c2)] + [(id3, c3)] == [(id2, c2), (id3, c3)];
    assert ParseSections(s2 + s3) == Some([(id2, c2), (id3, c3)]);
    assert [(id1, c1)] + [(id2, c2), (id3, c3)] == [(id1, c1), (id2, c2), (id3, c3)];
    ParseSectionsCons(id1, c1, s2 + s3);
    assert s1 + s2 + s3 == s1 + (s2 + s3);
  }
}
