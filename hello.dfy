/**
 * `toJsString` of examples/hello-world/hello.js: the host side of a Wafer
 * string.  Given the offset of a literal's entry in the module's linear
 * memory, it reads the length word and then that many code-point words, each
 * a little-endian `i32` (`DataView.getInt32(p, true)`).
 *
 * The memory is an array the decoder only reads.  The characters are returned
 * as the integers the loop collects; `String.fromCharCode` is not part of this
 * model.
 */
module HelloHost {
  import opened Wasm
  import StringTable

  /** `view.getInt32(p, true)`: the little-endian `i32` at byte `p`. */
  function GetInt32(buffer: seq<byte>, p: nat): int32
    requires p + 4 <= |buffer|
  {
    Int32FromLe(buffer[p .. p + 4])
  }

  /** `getInt32` reads `v` exactly when the four bytes at `p` are the little-endian bytes of `v`. */
  lemma GetInt32Reads(buffer: seq<byte>, p: nat, v: int32)
    requires p + 4 <= |buffer|
    ensures GetInt32(buffer, p) == v <==> Int32LeBytes(v) == buffer[p .. p + 4]
  {
    Int32LeRoundTrip(v);
  }

  /** How many times the loop runs: the length word, or none when it is not positive. */
  function Count(buffer: seq<byte>, offset: nat): nat
    requires offset + 4 <= |buffer|
  {
    var len := GetInt32(buffer, offset);
    if len > 0 then len else 0
  }

  /** Every word the decoder reads lies inside the buffer, so no `getInt32` throws. */
  predicate Readable(buffer: seq<byte>, offset: nat)
  {
    offset + 4 <= |buffer| && offset + 4 + 4 * Count(buffer, offset) <= |buffer|
  }

  /** The first `n` characters the loop pushes: the words after the length word, in order. */
  function Chars(buffer: seq<byte>, offset: nat, n: nat): seq<int>
    requires offset + 4 + 4 * n <= |buffer|
  {
    if n == 0 then [] else Chars(buffer, offset, n - 1) + [GetInt32(buffer, offset + 4 * n)]
  }

  /** What `toJsString(offset)` collects before handing it to `String.fromCharCode`. */
  function DecodeString(buffer: seq<byte>, offset: nat): seq<int>
    requires Readable(buffer, offset)
  {
    Chars(buffer, offset, Count(buffer, offset))
  }

  /** Character `i` is the word at `offset + 4 * (i + 1)`, and there are exactly `n` of them. */
  lemma {:induction false} CharsAt(buffer: seq<byte>, offset: nat, n: nat)
    requires offset + 4 + 4 * n <= |buffer|
    ensures |Chars(buffer, offset, n)| == n
    ensures forall i | 0 <= i < n :: Chars(buffer, offset, n)[i] == GetInt32(buffer, offset + 4 * (i + 1))
  {
    if n > 0 {
      CharsAt(buffer, offset, n - 1);
    }
  }

  /**
   * The decoded string has as many characters as the length word says (none
   * when it is not positive), and character `i` is the word at
   * `offset + 4 * (i + 1)`.
   */
  lemma DecodeStringWords(buffer: seq<byte>, offset: nat)
    requires Readable(buffer, offset)
    ensures GetInt32(buffer, offset) <= 0 ==> DecodeString(buffer, offset) == []
    ensures GetInt32(buffer, offset) > 0 ==> |DecodeString(buffer, offset)| == GetInt32(buffer, offset)
    ensures forall i | 0 <= i < |DecodeString(buffer, offset)| ::
      DecodeString(buffer, offset)[i] == GetInt32(buffer, offset + 4 * (i + 1))
  {
    CharsAt(buffer, offset, Count(buffer, offset));
  }

  /** `toJsString`: reads the length word, then pushes one word per character. */
  method ToJsString(mem: array<byte>, offset: nat) returns (chars: seq<int>)
    requires Readable(mem[..], offset)
    ensures chars == DecodeString(mem[..], offset)
  {
    ghost var buffer := mem[..];
    var len := Int32FromLe(mem[offset .. offset + 4]);
    assert len == GetInt32(buffer, offset);
    chars := [];
    var i: int := 0;
    while i < len
      invariant 0 <= i <= Count(buffer, offset)
      invariant chars == Chars(buffer, offset, i)
    {
      var p: nat := offset + (i + 1) * 4;
      assert mem[p .. p + 4] == buffer[p .. p + 4];
      chars := chars + [Int32FromLe(mem[p .. p + 4])];
      i := i + 1;
    }
  }

  /** The code points of a string, as the decoder returns them. */
  function CodePoints(s: string): (r: seq<int>)
    ensures |r| == |s|
    ensures forall i | 0 <= i < |s| :: r[i] == s[i] as int
  {
    if s == [] then [] else CodePoints(s[..|s| - 1]) + [s[|s| - 1] as int]
  }

  /**
   * Round trip on the table strings.rs writes: decoding it at the offset it
   * records for an ASCII literal `s` gives back the code points of `s`,
   * whatever the other literals are.
   */
  lemma DecodeLiteral(literals: seq<string>, s: string)
    requires s in literals && IsAscii(s) && |s| < 0x8000_0000
    ensures Readable(StringTable.Layout(literals), StringTable.Offsets(literals)[s])
    ensures DecodeString(StringTable.Layout(literals), StringTable.Offsets(literals)[s]) == CodePoints(s)
  {
    StringTable.AsciiEntryPlaced(literals, s);
    DecodeEntryWords(StringTable.Layout(literals), StringTable.Offsets(literals)[s], s);
  }

  /**
   * Round trip on the corrected table: decoding it at the offset recorded
   * for any literal `s` gives back the code points of `s`.
   */
  lemma DecodeLiteralCorrected(literals: seq<string>, s: string)
    requires s in literals && |s| < 0x8000_0000
    ensures Readable(StringTable.LayoutCorrected(literals), StringTable.Offsets(literals)[s])
    ensures DecodeString(StringTable.LayoutCorrected(literals), StringTable.Offsets(literals)[s]) == CodePoints(s)
  {
    StringTable.CorrectedEntryPlaced(literals, s);
    DecodeEntryWords(StringTable.LayoutCorrected(literals), StringTable.Offsets(literals)[s], s);
  }

  /** A word read inside a copy of `entry` placed at `offset` is the word of `entry` there. */
  lemma WordAt(buffer: seq<byte>, offset: nat, entry: seq<byte>, j: nat)
    requires offset + |entry| <= |buffer| && buffer[offset .. offset + |entry|] == entry
    requires j + 4 <= |entry|
    ensures GetInt32(buffer, offset + j) == Int32FromLe(entry[j .. j + 4])
  {
    var w := buffer[offset + j .. offset + j + 4];
    forall k | 0 <= k < 4
      ensures w[k] == entry[j + k]
    {
      assert buffer[offset .. offset + |entry|][j + k] == entry[j + k];
    }
    assert w == entry[j .. j + 4];
  }

  /** The words of an entry placed at `offset` decode to the literal's code points. */
  lemma DecodeEntryWords(buffer: seq<byte>, offset: nat, s: string)
    requires |s| < 0x8000_0000
    requires offset + |StringTable.Entry(s)| <= |buffer|
    requires buffer[offset .. offset + |StringTable.Entry(s)|] == StringTable.Entry(s)
    ensures Readable(buffer, offset)
    ensures DecodeString(buffer, offset) == CodePoints(s)
  {
    EntryWords(buffer, offset, s);
    CharsAt(buffer, offset, |s|);
  }

  /** The length word of an entry placed at `offset` is `|s|`, and word `i + 1` is the code point of `s[i]`. */
  lemma EntryWords(buffer: seq<byte>, offset: nat, s: string)
    requires |s| < 0x8000_0000
    requires offset + |StringTable.Entry(s)| <= |buffer|
    requires buffer[offset .. offset + |StringTable.Entry(s)|] == StringTable.Entry(s)
    ensures offset + 4 + 4 * |s| <= |buffer|
    ensures GetInt32(buffer, offset) == |s|
    ensures forall i | 0 <= i < |s| :: GetInt32(buffer, offset + 4 * (i + 1)) == s[i] as int
  {
    var entry := StringTable.Entry(s);
    StringTable.EntryDecodes(s);
    WordAt(buffer, offset, entry, 0);
    forall i | 0 <= i < |s|
      ensures GetInt32(buffer, offset + 4 * (i + 1)) == s[i] as int
    {
      WordAt(buffer, offset, entry, 4 + 4 * i);
    }
  }

  /**
   * The table strings.rs writes for `["é", "a"]`: the length word of `"é"` is
   * its two UTF-8 bytes, so the decoder reads a second word, which is the
   * length word of `"a"`.
   */
  lemma NonAsciiLiteralMisread()
    ensures StringTable.Offsets(["\U{E9}", "a"])["\U{E9}"] == 0
    ensures Readable(StringTable.Layout(["\U{E9}", "a"]), 0)
    ensures DecodeString(StringTable.Layout(["\U{E9}", "a"]), 0) == [0xE9, 1]
    ensures CodePoints("\U{E9}") == [0xE9]
  {
    assert Utf8("\U{E9}") == [0xC3, 0xA9] by { NonAsciiName(); }
    assert Utf8("a") == [0x61] by { Utf8Length("a"); }
    NonAsciiTable();
    var buffer: seq<byte> := [2, 0, 0, 0, 0xE9, 0, 0, 0, 1, 0, 0, 0, 0x61, 0, 0, 0];
    assert GetInt32(buffer, 0) == 2 by {
      Int32LeRoundTrip(2);
      assert buffer[0..4] == Int32LeBytes(2);
    }
    assert GetInt32(buffer, 4) == 0xE9 by {
      Int32LeRoundTrip(0xE9);
      assert buffer[4..8] == Int32LeBytes(0xE9);
    }
    assert GetInt32(buffer, 8) == 1 by {
      Int32LeRoundTrip(1);
      assert buffer[8..12] == Int32LeBytes(1);
    }
    CharsAt(buffer, 0, 2);
  }

  /** The bytes and offsets strings.rs writes for `["é", "a"]`. */
  lemma NonAsciiTable()
    ensures StringTable.Offsets(["\U{E9}", "a"])["\U{E9}"] == 0
    ensures StringTable.Layout(["\U{E9}", "a"]) == [2, 0, 0, 0, 0xE9, 0, 0, 0, 1, 0, 0, 0, 0x61, 0, 0, 0]
  {
    StringTable.LayoutOfTwo("\U{E9}", "a");
    OneCharEntry('\U{E9}', [0xC3, 0xA9]);
    OneCharEntry('a', [0x61]);
  }

  /** The entry strings.rs writes for a one-character literal below U+0100 whose UTF-8 form is `bytes`. */
  lemma OneCharEntry(c: char, bytes: seq<byte>)
    requires Utf8([c]) == bytes && |bytes| <= 4 && c as int < 0x100
    ensures StringTable.EntryAsWritten([c]) == [|bytes| as byte, 0, 0, 0, c as int as byte, 0, 0, 0]
  {
    assert StringTable.CodePointWords([c]) == StringTable.CodePointWord(c) by {
      assert [c][1..] == [];
    }
  }

  /** With the corrected table, `["é", "a"]` decodes to `"é"` at its offset 0. */
  lemma NonAsciiLiteralRead()
    ensures StringTable.Offsets(["\U{E9}", "a"])["\U{E9}"] == 0
    ensures Readable(StringTable.LayoutCorrected(["\U{E9}", "a"]), 0)
    ensures DecodeString(StringTable.LayoutCorrected(["\U{E9}", "a"]), 0) == [0xE9]
  {
    var literals := ["\U{E9}", "a"];
    StringTable.LayoutOfTwo("\U{E9}", "a");
    DecodeLiteralCorrected(literals, "\U{E9}");
  }
}
