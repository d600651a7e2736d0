/**
 * src/wafer/strings.rs: the table of string literals a Wafer program places in
 * linear memory.  Each literal becomes an entry of four-byte little-endian
 * `i32` words: a length word, then one word per character holding its code
 * point.  The table records where each literal's entry starts.
 *
 * The literals arrive in the order the syntax tree lists them (the preorder
 * walk of `into_inner().flatten()`); the walk itself is `Wafer.Literals`.
 */
module StringTable {
  import opened Wasm

  /** The offsets of the literals and the bytes of the table. */
  datatype Strings = Strings(offsets: map<string, nat>, data: seq<byte>)
  {
    /** `offset`: where the entry of `s` starts, converted with `as i32`; the index panics on an unknown literal. */
    function Offset(s: string): (r: int32)
      requires s in offsets
      ensures offsets[s] < 0x8000_0000 ==> r == offsets[s]
    {
      AsInt32(offsets[s])
    }

    /** `len`: the size of the table in bytes, converted with `as i32`. */
    function Len(): (r: int32)
      ensures |data| < 0x8000_0000 ==> r == |data|
    {
      AsInt32(|data|)
    }

    /** `into_bytes`: the table itself. */
    function IntoBytes(): seq<byte>
    {
      data
    }
  }

  /** The word holding one character's code point. */
  function CodePointWord(c: char): (r: seq<byte>)
    ensures |r| == 4 && Int32FromLe(r) == c as int
  {
    Int32LeRoundTrip(c as int);
    Int32LeBytes(c as int)
  }

  /** One word per character, in order. */
  function CodePointWords(value: string): (r: seq<byte>)
    ensures |r| == 4 * |value|
  {
    ConcatWords(value, CodePointWord);
    Concat(value, CodePointWord)
  }

  /** Word `i` of `CodePointWords(value)` holds the code point of `value[i]`. */
  lemma CodePointWordsDecode(value: string)
    ensures forall i | 0 <= i < |value| :: Int32FromLe(CodePointWords(value)[4 * i .. 4 * i + 4]) == value[i] as int
  {
    ConcatWords(value, CodePointWord);
  }

  /**
   * The entry strings.rs writes: its length word is `value.len()`, the number
   * of UTF-8 bytes, while one word follows per character.
   */
  function EntryAsWritten(value: string): (r: seq<byte>)
    ensures |r| == 4 + 4 * |value|
  {
    Int32LeBytes(AsInt32(|Utf8(value)|)) + CodePointWords(value)
  }

  /** The entry with the length word counting the words that follow it: one per character. */
  function Entry(value: string): (r: seq<byte>)
    ensures |r| == 4 + 4 * |value|
  {
    Int32LeBytes(AsInt32(|value|)) + CodePointWords(value)
  }

  /** The as-written entry's length word is the UTF-8 byte count; then come the code points. */
  lemma EntryAsWrittenDecodes(value: string)
    ensures Int32FromLe(EntryAsWritten(value)[..4]) == AsInt32(|Utf8(value)|)
    ensures forall i | 0 <= i < |value| ::
      Int32FromLe(EntryAsWritten(value)[4 + 4 * i .. 8 + 4 * i]) == value[i] as int
  {
    Int32LeRoundTrip(AsInt32(|Utf8(value)|));
    var words := CodePointWords(value);
    CodePointWordsDecode(value);
    var r := EntryAsWritten(value);
    assert r[..4] == Int32LeBytes(AsInt32(|Utf8(value)|));
    assert forall i | 0 <= i < |value| :: r[4 + 4 * i .. 8 + 4 * i] == words[4 * i .. 4 * i + 4];
  }

  /** The entry's length word is the character count; then come the code points. */
  lemma EntryDecodes(value: string)
    ensures Int32FromLe(Entry(value)[..4]) == AsInt32(|value|)
    ensures forall i | 0 <= i < |value| :: Int32FromLe(Entry(value)[4 + 4 * i .. 8 + 4 * i]) == value[i] as int
  {
    Int32LeRoundTrip(AsInt32(|value|));
    var words := CodePointWords(value);
    CodePointWordsDecode(value);
    var r := Entry(value);
    assert r[..4] == Int32LeBytes(AsInt32(|value|));
    assert forall i | 0 <= i < |value| :: r[4 + 4 * i .. 8 + 4 * i] == words[4 * i .. 4 * i + 4];
  }

  /** On ASCII literals the byte count is the character count, so both entries agree. */
  lemma EntryAgreesOnAscii(value: string)
    requires IsAscii(value)
    ensures EntryAsWritten(value) == Entry(value)
  {
    Utf8Length(value);
  }

  /** `entry` writes, for every literal, one word for the length and one per character. */
  ghost predicate WritesWords(entry: string -> seq<byte>)
  {
    forall value: string :: |entry(value)| == 4 + 4 * |value|
  }

  /** Both the entry as written and the corrected entry are a length word and one word per character. */
  lemma EntriesWriteWords()
    ensures WritesWords(EntryAsWritten) && WritesWords(Entry)
  {
    forall value: string
      ensures |EntryAsWritten(value)| == 4 + 4 * |value| && |Entry(value)| == 4 + 4 * |value|
    {
    }
  }

  /** The entries `entry` writes for `literals`, one after another. */
  function Table(entry: string -> seq<byte>, literals: seq<string>): seq<byte>
  {
    if literals == [] then []
    else Table(entry, literals[..|literals| - 1]) + entry(literals[|literals| - 1])
  }

  /** The table strings.rs builds from `literals`: each length word is the UTF-8 byte count. */
  function Layout(literals: seq<string>): (r: seq<byte>)
    ensures |r| % 4 == 0
  {
    EntriesWriteWords();
    LayoutLength(EntryAsWritten, literals);
    MultipleOfFour(|literals| + TotalChars(literals));
    Table(EntryAsWritten, literals)
  }

  lemma MultipleOfFour(k: nat)
    ensures (4 * k) % 4 == 0
  {
  }

  /** The table with corrected length words: each is the character count. */
  function LayoutCorrected(literals: seq<string>): (r: seq<byte>)
    ensures |r| == |Layout(literals)|
  {
    EntriesWriteWords();
    LayoutLength(EntryAsWritten, literals);
    LayoutLength(Entry, literals);
    Table(Entry, literals)
  }

  /** Where the entry of `literals[i]` starts: the size of the table before it. */
  function Start(literals: seq<string>, i: nat): nat
    requires i <= |literals|
  {
    |Layout(literals[..i])|
  }

  /** The offsets recorded for `literals`: a later occurrence overwrites an earlier one. */
  function Offsets(literals: seq<string>): (r: map<string, nat>)
    ensures r.Keys == set s | s in literals
  {
    if literals == [] then map[]
    else
      var init := literals[..|literals| - 1];
      assert literals == init + [literals[|literals| - 1]];
      Offsets(init)[literals[|literals| - 1] := |Layout(init)|]
  }

  /** The position of the last occurrence of `s` in `literals`. */
  function LastIndex(literals: seq<string>, s: string): (k: nat)
    requires s in literals
    ensures k < |literals| && literals[k] == s
    ensures forall j | k < j < |literals| :: literals[j] != s
  {
    if literals[|literals| - 1] == s then |literals| - 1
    else
      assert s in literals[..|literals| - 1] by {
        var j :| 0 <= j < |literals| && literals[j] == s;
        assert literals[..|literals| - 1][j] == s;
      }
      LastIndex(literals[..|literals| - 1], s)
  }

  /**
   * `Strings::from`: walks the literals, records for each the size the table
   * has before its entry, and appends the entry: the length word
   * `value.len()`, which is the UTF-8 byte count, then one word per character.
   */
  method From(literals: seq<string>) returns (strings: Strings)
    ensures strings == Strings(Offsets(literals), Layout(literals))
  {
    var offsets: map<string, nat> := map[];
    var data: seq<byte> := [];
    for i := 0 to |literals|
      invariant offsets == Offsets(literals[..i])
      invariant data == Layout(literals[..i])
    {
      var value := literals[i];
      assert literals[..i + 1][..i] == literals[..i];
      offsets := offsets[value := |data|];
      data := data + Int32LeBytes(AsInt32(|Utf8(value)|));
      data := data + CodePointWords(value);
    }
    assert literals[..|literals|] == literals;
    strings := Strings(offsets, data);
  }

  // ---------------------------------------------------------------------
  // Properties of the layout
  // ---------------------------------------------------------------------

  /**
   * Each entry adds four bytes for the length word and four per character,
   * whatever the length word counts.
   */
  lemma {:induction false} LayoutLength(entry: string -> seq<byte>, literals: seq<string>)
    requires WritesWords(entry)
    ensures |Table(entry, literals)| == 4 * (|literals| + TotalChars(literals))
  {
    if literals != [] {
      var init := literals[..|literals| - 1];
      LayoutLength(entry, init);
      TotalCharsSnoc(init, literals[|literals| - 1]);
      assert init + [literals[|literals| - 1]] == literals;
    }
  }

  /** The number of characters of all the literals. */
  function TotalChars(literals: seq<string>): nat
  {
    if literals == [] then 0 else |literals[0]| + TotalChars(literals[1..])
  }

  lemma {:induction false} TotalCharsSnoc(literals: seq<string>, s: string)
    ensures TotalChars(literals + [s]) == TotalChars(literals) + |s|
  {
    if literals != [] {
      assert (literals + [s])[1..] == literals[1..] + [s];
      TotalCharsSnoc(literals[1..], s);
    }
  }

  /** The table of a prefix of the literals is a prefix of the table, and entry `i` follows it. */
  lemma {:induction false} LayoutPrefix(entry: string -> seq<byte>, literals: seq<string>, i: nat)
    requires i < |literals|
    ensures Table(entry, literals[..i + 1]) == Table(entry, literals[..i]) + entry(literals[i])
    ensures Table(entry, literals[..i + 1]) <= Table(entry, literals)
  {
    assert literals[..i + 1][..i] == literals[..i];
    if i + 1 < |literals| {
      var init := literals[..|literals| - 1];
      LayoutPrefix(entry, init, i);
      assert init[..i + 1] == literals[..i + 1] && init[..i] == literals[..i];
    } else {
      assert literals[..i + 1] == literals;
    }
  }

  /** Entry `i` sits in the table at `Start(literals, i)`, whatever the length word counts. */
  lemma EntryAt(entry: string -> seq<byte>, literals: seq<string>, i: nat)
    requires WritesWords(entry) && i < |literals|
    ensures Start(literals, i) + |entry(literals[i])| <= |Table(entry, literals)|
    ensures Table(entry, literals)[Start(literals, i) .. Start(literals, i) + |entry(literals[i])|] == entry(literals[i])
  {
    var before := Table(entry, literals[..i]);
    assert |before| == Start(literals, i) by {
      EntriesWriteWords();
      LayoutLength(entry, literals[..i]);
      LayoutLength(EntryAsWritten, literals[..i]);
    }
    assert before + entry(literals[i]) <= Table(entry, literals) by {
      LayoutPrefix(entry, literals, i);
    }
    SliceOfPrefix(before, entry(literals[i]), Table(entry, literals));
  }

  /** A piece that follows `before` in a prefix of `all` is found in `all` right after `before`. */
  lemma SliceOfPrefix(before: seq<byte>, piece: seq<byte>, all: seq<byte>)
    requires before + piece <= all
    ensures |before| + |piece| <= |all|
    ensures all[|before| .. |before| + |piece|] == piece
  {
    assert all[..|before| + |piece|] == before + piece;
  }

  /** Entries start at multiples of four, and later literals start strictly later. */
  lemma StartsIncrease(literals: seq<string>, i: nat, j: nat)
    requires i < j <= |literals|
    ensures Start(literals, i) % 4 == 0
    ensures Start(literals, i) < Start(literals, j)
  {
    LayoutPrefix(EntryAsWritten, literals[..j], i);
    assert literals[..j][..i] == literals[..i];
    assert literals[..j][..i + 1] == literals[..i + 1];
    assert literals[..j][..j] == literals[..j];
  }

  /** The offset recorded for a literal is where its last occurrence's entry starts. */
  lemma {:induction false} OffsetOfLastOccurrence(literals: seq<string>, s: string)
    requires s in literals
    ensures Offsets(literals)[s] == Start(literals, LastIndex(literals, s))
  {
    var n := |literals| - 1;
    var init := literals[..n];
    if literals[n] != s {
      assert s in init by {
        var j :| 0 <= j < |literals| && literals[j] == s;
        assert init[j] == s;
      }
      OffsetOfLastOccurrence(init, s);
      var k := LastIndex(init, s);
      assert init[..k] == literals[..k];
    }
  }

  /**
   * Every recorded offset is a multiple of four, and the table holds the
   * literal's entry there, whatever the length word counts: the offsets are
   * the same for both tables.
   */
  lemma OffsetHoldsEntry(entry: string -> seq<byte>, literals: seq<string>, s: string)
    requires WritesWords(entry) && s in literals
    ensures Offsets(literals)[s] % 4 == 0
    ensures Offsets(literals)[s] + |entry(s)| <= |Table(entry, literals)|
    ensures Table(entry, literals)[Offsets(literals)[s] .. Offsets(literals)[s] + |entry(s)|] == entry(s)
  {
    var k := LastIndex(literals, s);
    assert Offsets(literals)[s] == Start(literals, k) by {
      OffsetOfLastOccurrence(literals, s);
    }
    EntryAt(entry, literals, k);
  }

  /** In the table strings.rs writes, an ASCII literal's offset holds its corrected entry. */
  lemma AsciiEntryPlaced(literals: seq<string>, s: string)
    requires s in literals && IsAscii(s)
    ensures Offsets(literals)[s] + |Entry(s)| <= |Layout(literals)|
    ensures Layout(literals)[Offsets(literals)[s] .. Offsets(literals)[s] + |Entry(s)|] == Entry(s)
  {
    EntriesWriteWords();
    OffsetHoldsEntry(EntryAsWritten, literals, s);
    EntryAgreesOnAscii(s);
  }

  /** In the corrected table, every literal's offset holds its corrected entry. */
  lemma CorrectedEntryPlaced(literals: seq<string>, s: string)
    requires s in literals
    ensures Offsets(literals)[s] + |Entry(s)| <= |LayoutCorrected(literals)|
    ensures LayoutCorrected(literals)[Offsets(literals)[s] .. Offsets(literals)[s] + |Entry(s)|] == Entry(s)
  {
    EntriesWriteWords();
    OffsetHoldsEntry(Entry, literals, s);
  }

  /**
   * A literal seen before is appended again: the table grows by its entry as
   * written and its offset moves to the new entry, past the old one.
   */
  lemma RepeatedLiteral(literals: seq<string>, s: string)
    requires s in literals
    ensures Layout(literals + [s]) == Layout(literals) + EntryAsWritten(s)
    ensures Offsets(literals + [s])[s] == |Layout(literals)|
    ensures Offsets(literals)[s] < Offsets(literals + [s])[s]
  {
    var all := literals + [s];
    assert all[..|all| - 1] == literals;
    EntriesWriteWords();
    OffsetHoldsEntry(EntryAsWritten, literals, s);
  }

  /**
   * When every literal is ASCII the table strings.rs writes is the corrected
   * table: the byte counts are the character counts.
   */
  lemma {:induction false} LayoutsAgreeOnAscii(literals: seq<string>)
    requires forall s | s in literals :: IsAscii(s)
    ensures Layout(literals) == LayoutCorrected(literals)
  {
    if literals != [] {
      var init := literals[..|literals| - 1];
      LayoutsAgreeOnAscii(init);
      EntryAgreesOnAscii(literals[|literals| - 1]);
    }
  }

  /** For any table that fits in an `i32`, `len` is the number of bytes `into_bytes` returns. */
  lemma LenIsSizeOfBytes(strings: Strings)
    requires |strings.data| < 0x8000_0000
    ensures strings.Len() == |strings.IntoBytes()|
  {
  }

  /** A character below 128 is a word holding its code in the lowest byte. */
  lemma AsciiWord(c: char)
    requires c as int < 0x80
    ensures CodePointWord(c) == [c as int, 0, 0, 0]
  {
  }

  /** The entry strings.rs writes for a three-character ASCII literal. */
  lemma ThreeCharEntry(value: string)
    requires |value| == 3 && value[0] as int < 0x80 && value[1] as int < 0x80 && value[2] as int < 0x80
    ensures EntryAsWritten(value) == [3, 0, 0, 0, value[0] as int, 0, 0, 0, value[1] as int, 0, 0, 0, value[2] as int, 0, 0, 0]
  {
    assert IsAscii(value);
    EntryAgreesOnAscii(value);
    ThreeCodePointWords(value);
  }

  /** The words of three ASCII characters. */
  lemma ThreeCodePointWords(value: string)
    requires |value| == 3 && value[0] as int < 0x80 && value[1] as int < 0x80 && value[2] as int < 0x80
    ensures CodePointWords(value) == [value[0] as int, 0, 0, 0, value[1] as int, 0, 0, 0, value[2] as int, 0, 0, 0]
  {
    AsciiWord(value[0]);
    AsciiWord(value[1]);
    AsciiWord(value[2]);
    var tail := value[1..];
    assert tail[1..][1..] == [];
    assert Concat(tail[1..], CodePointWord) == CodePointWord(value[2]) + Concat(tail[1..][1..], CodePointWord);
    assert Concat(tail, CodePointWord) == CodePointWord(value[1]) + Concat(tail[1..], CodePointWord);
    assert CodePointWords(value) == CodePointWord(value[0]) + Concat(tail, CodePointWord);
  }

  /** The table and offsets of the literals `"foo"` and `"bar"`. */
  lemma FooBarLayout()
    ensures Layout(["foo", "bar"]) ==
      [3, 0, 0, 0, 0x66, 0, 0, 0, 0x6f, 0, 0, 0, 0x6f, 0, 0, 0,
       3, 0, 0, 0, 0x62, 0, 0, 0, 0x61, 0, 0, 0, 0x72, 0, 0, 0]
    ensures Offsets(["foo", "bar"]) == map["foo" := 0, "bar" := 16]
  {
    ThreeCharEntry("foo");
    ThreeCharEntry("bar");
    LayoutOfTwo("foo", "bar");
  }

  /** The table of two literals: their entries as written, and the second one's offset after the first. */
  lemma LayoutOfTwo(a: string, b: string)
    requires a != b
    ensures Layout([a, b]) == EntryAsWritten(a) + EntryAsWritten(b)
    ensures Offsets([a, b]) == map[a := 0, b := |EntryAsWritten(a)|]
  {
    var literals := [a, b];
    assert literals[..1] == [a];
    assert [a][..0] == [];
    assert Table(EntryAsWritten, [a]) == EntryAsWritten(a);
  }

  /** The test in strings.rs: `"foo"` and `"bar"`. */
  method FooBar() returns (strings: Strings)
    ensures strings.offsets.Keys == {"foo", "bar"}
    ensures strings.Offset("foo") == 0 && strings.Offset("bar") == 16
    ensures strings.Len() == 32
    ensures strings.IntoBytes() ==
      [3, 0, 0, 0, 0x66, 0, 0, 0, 0x6f, 0, 0, 0, 0x6f, 0, 0, 0,
       3, 0, 0, 0, 0x62, 0, 0, 0, 0x61, 0, 0, 0, 0x72, 0, 0, 0]
  {
    strings := From(["foo", "bar"]);
    FooBarLayout();
    assert strings == Strings(map["foo" := 0, "bar" := 16],
      [3, 0, 0, 0, 0x66, 0, 0, 0, 0x6f, 0, 0, 0, 0x6f, 0, 0, 0,
       3, 0, 0, 0, 0x62, 0, 0, 0, 0x61, 0, 0, 0, 0x72, 0, 0, 0]);
  }
}
