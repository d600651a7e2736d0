/**
 * The `WasmEncodable` implementations of src/wasm.rs: integers (only the
 * one-byte case of LEB128), bytes, vectors and strings, following chapter 5
 * (Binary Format) of the WebAssembly Core Specification 1.0.  The module also
 * holds the byte-level helpers the rest of the model shares: UTF-8 (what
 * Rust's `str::bytes` yields) and four-byte little-endian words (what
 * `to_le_bytes` yields).
 */
module Wasm {
  import opened Optional

  /** Rust's `u8`. */
  type byte = x: int | 0 <= x < 0x100

  /** Rust's `i32`. */
  type int32 = x: int | -0x8000_0000 <= x < 0x8000_0000

  /**
   * Rust's `as i32` applied to an unsigned integer: the low 32 bits, read as
   * a two's complement number.
   */
  function AsInt32(n: nat): (r: int32)
    ensures n < 0x8000_0000 ==> r == n
    ensures (n - r) % 0x1_0000_0000 == 0
  {
    var low := n % 0x1_0000_0000;
    if low < 0x8000_0000 then low else low - 0x1_0000_0000
  }

  // ---------------------------------------------------------------------
  // Integers (section 5.2.2)
  // ---------------------------------------------------------------------

  /**
   * The encoding of a `u32` or a `usize`.  Only values below 128 are
   * implemented; they are their own one-byte unsigned LEB128 encoding.
   */
  function EncodeUnsigned(n: nat): (r: seq<byte>)
    requires n < 0x80
    ensures r == [n]
    ensures DecodeUnsigned(r) == Some(n)
  {
    [n]
  }

  /**
   * The encoding of an `i32`.  Only 0 to 63 are implemented: those are the
   * values whose one-byte signed LEB128 encoding has the sign bit 0x40 clear.
   */
  function EncodeInt32(v: int32): (r: seq<byte>)
    requires 0 <= v < 0x40
    ensures r == [v]
    ensures DecodeSigned(r) == Some(v)
  {
    [v]
  }

  /** The encoding of a `u8`: the byte itself. */
  function EncodeByte(b: byte): (r: seq<byte>)
    ensures r == [b]
    ensures DecodeUnsigned(r) == None <==> b >= 0x80
  {
    [b]
  }

  /**
   * The value of an unsigned LEB128 number that fits in one byte: a first
   * byte without the continuation bit 0x80 stands for itself.  Longer numbers
   * are never produced by the encoders and read as None.
   */
  function DecodeUnsigned(bytes: seq<byte>): Option<nat>
  {
    if |bytes| > 0 && bytes[0] < 0x80 then Some(bytes[0]) else None
  }

  /**
   * The value of a signed LEB128 number that fits in one byte: bit 0x40 is the
   * sign bit, so 0x40 to 0x7f stand for -64 to -1.
   */
  function DecodeSigned(bytes: seq<byte>): Option<int>
  {
    if |bytes| > 0 && bytes[0] < 0x80 then
      var b: int := bytes[0];
      Some(if b < 0x40 then b else b - 0x80)
    else
      None
  }

  /** Distinct `u32`/`usize` values below 128 have distinct encodings. */
  lemma EncodeUnsignedInjective(m: nat, n: nat)
    requires m < 0x80 && n < 0x80
    ensures EncodeUnsigned(m) == EncodeUnsigned(n) <==> m == n
  {
    if EncodeUnsigned(m) == EncodeUnsigned(n) {
      assert DecodeUnsigned(EncodeUnsigned(m)) == DecodeUnsigned(EncodeUnsigned(n));
    }
  }

  /**
   * Why the `i32` encoder stops at 63: the single byte of any value from 64 to
   * 127 reads back, as signed LEB128, as that value minus 128.
   */
  lemma SingleByteSignedLimit(v: int)
    requires 0x40 <= v < 0x80
    ensures DecodeSigned([v]) == Some(v - 0x80)
  {
  }

  // ---------------------------------------------------------------------
  // Vectors (section 5.1.3) and names (section 5.2.4)
  // ---------------------------------------------------------------------

  /** The element encodings of `xs`, one after another, in order (`flat_map`). */
  function Concat<T>(xs: seq<T>, encode: T --> seq<byte>): seq<byte>
    requires forall x | x in xs :: encode.requires(x)
  {
    if xs == [] then [] else encode(xs[0]) + Concat(xs[1..], encode)
  }

  /** Encoding a concatenation of lists concatenates their encodings. */
  lemma {:induction false} ConcatAppend<T>(xs: seq<T>, ys: seq<T>, encode: T --> seq<byte>)
    requires forall x | x in xs + ys :: encode.requires(x)
    ensures Concat(xs + ys, encode) == Concat(xs, encode) + Concat(ys, encode)
  {
    if xs == [] {
      assert xs + ys == ys;
    } else {
      assert (xs + ys)[1..] == xs[1..] + ys;
      ConcatAppend(xs[1..], ys, encode);
    }
  }

  /** A list of one element encodes as that element. */
  lemma ConcatOne<T>(x: T, encode: T --> seq<byte>)
    requires encode.requires(x)
    ensures Concat([x], encode) == encode(x)
  {
    assert [x][1..] == [];
    assert encode(x) + [] == encode(x);
  }

  /** A list of two elements encodes as the first, then the second. */
  lemma ConcatTwo<T>(x: T, y: T, encode: T --> seq<byte>)
    requires encode.requires(x) && encode.requires(y)
    ensures Concat([x, y], encode) == encode(x) + encode(y)
  {
    assert [x, y][1..] == [y];
    ConcatOne(y, encode);
  }

  /**
   * When every element encodes to a four-byte word, the concatenation has four
   * bytes per element and element `i` occupies bytes `4 * i` to `4 * i + 4`.
   */
  lemma {:induction false} ConcatWords<T>(xs: seq<T>, encode: T --> seq<byte>)
    requires forall x | x in xs :: encode.requires(x) && |encode(x)| == 4
    ensures |Concat(xs, encode)| == 4 * |xs|
    ensures forall i | 0 <= i < |xs| :: Concat(xs, encode)[4 * i .. 4 * i + 4] == encode(xs[i])
  {
    if xs != [] {
      ConcatWords(xs[1..], encode);
      var head := encode(xs[0]);
      var tail := Concat(xs[1..], encode);
      assert Concat(xs, encode) == head + tail;
      forall i | 0 <= i < |xs|
        ensures Concat(xs, encode)[4 * i .. 4 * i + 4] == encode(xs[i])
      {
        if i > 0 {
          assert (head + tail)[4 * i .. 4 * i + 4] == tail[4 * (i - 1) .. 4 * (i - 1) + 4];
          assert xs[i] == xs[1..][i - 1];
        }
      }
    }
  }

  /**
   * The encoding of a `Vec<T>`: the element count, then the encodings of the
   * elements in order.
   */
  function EncodeVec<T>(xs: seq<T>, encode: T --> seq<byte>): (r: seq<byte>)
    requires |xs| < 0x80
    requires forall x | x in xs :: encode.requires(x)
    ensures DecodeUnsigned(r) == Some(|xs|)
    ensures |r| == 1 + |Concat(xs, encode)|
    ensures r[1..] == Concat(xs, encode)
  {
    EncodeUnsigned(|xs|) + Concat(xs, encode)
  }

  /** The empty vector encodes to the single count byte 0, whatever its element type. */
  lemma EmptyVec<T>(encode: T --> seq<byte>)
    ensures EncodeVec([], encode) == [0]
  {
  }

  /** Encoding each byte of a list as itself gives the list back. */
  lemma {:induction false} ConcatBytes(bs: seq<byte>)
    ensures Concat(bs, EncodeByte) == bs
  {
    if bs != [] {
      ConcatBytes(bs[1..]);
    }
  }

  /** The UTF-8 encoding of one character, as Rust's `str::bytes` yields it. */
  function CharBytes(c: char): (r: seq<byte>)
    ensures 1 <= |r| <= 4
    ensures |r| == 1 <==> c as int < 0x80
    ensures |r| == 1 ==> r[0] == c as int
  {
    var cp := c as int;
    if cp < 0x80 then
      [cp]
    else if cp < 0x800 then
      [0xC0 + cp / 0x40, 0x80 + cp % 0x40]
    else if cp < 0x1_0000 then
      [0xE0 + cp / 0x1000, 0x80 + cp / 0x40 % 0x40, 0x80 + cp % 0x40]
    else
      [0xF0 + cp / 0x4_0000, 0x80 + cp / 0x1000 % 0x40, 0x80 + cp / 0x40 % 0x40, 0x80 + cp % 0x40]
  }

  /** The UTF-8 bytes of a string. */
  function Utf8(s: string): seq<byte>
  {
    Concat(s, CharBytes)
  }

  /** Every character of `s` is ASCII (below 128). */
  predicate IsAscii(s: string)
  {
    forall i | 0 <= i < |s| :: s[i] as int < 0x80
  }

  /**
   * A string has as many UTF-8 bytes as characters exactly when it is ASCII,
   * and then its bytes are its character codes; otherwise it has more bytes
   * than characters.
   */
  lemma {:induction false} Utf8Length(s: string)
    ensures |s| <= |Utf8(s)| <= 4 * |s|
    ensures |Utf8(s)| == |s| <==> IsAscii(s)
    ensures IsAscii(s) ==> forall i | 0 <= i < |s| :: Utf8(s)[i] == s[i] as int
  {
    if s != [] {
      Utf8Length(s[1..]);
      assert Utf8(s) == CharBytes(s[0]) + Utf8(s[1..]);
      assert IsAscii(s) <==> s[0] as int < 0x80 && IsAscii(s[1..]) by {
        if s[0] as int < 0x80 && IsAscii(s[1..]) {
          forall i | 0 <= i < |s| ensures s[i] as int < 0x80 {
            if i > 0 { assert s[i] == s[1..][i - 1]; }
          }
        }
        if IsAscii(s) {
          forall i | 0 <= i < |s| - 1 ensures s[1..][i] as int < 0x80 {
            assert s[1..][i] == s[i + 1];
          }
        }
      }
    }
  }

  /**
   * The encoding of a `String`: the vector of its UTF-8 bytes, so the leading
   * count is the byte length, not the number of characters.
   */
  function EncodeName(s: string): (r: seq<byte>)
    requires |Utf8(s)| < 0x80
    ensures DecodeUnsigned(r) == Some(|Utf8(s)|)
    ensures r[1..] == Utf8(s)
  {
    ConcatBytes(Utf8(s));
    EncodeVec(Utf8(s), EncodeByte)
  }

  /**
   * Reads a name from the front of `bytes`: its UTF-8 bytes and whatever
   * follows them, or None when the count is missing or runs past the end.
   */
  function DecodeName(bytes: seq<byte>): Option<(seq<byte>, seq<byte>)>
  {
    match DecodeUnsigned(bytes)
    case Some(n) => if 1 + n <= |bytes| then Some((bytes[1..1 + n], bytes[1 + n..])) else None
    case None => None
  }

  /** A name reads back as its UTF-8 bytes, whatever follows it. */
  lemma DecodeEncodeName(s: string, rest: seq<byte>)
    requires |Utf8(s)| < 0x80
    ensures DecodeName(EncodeName(s) + rest) == Some((Utf8(s), rest))
  {
    var e := EncodeName(s);
    var n := |Utf8(s)|;
    assert (e + rest)[1..1 + n] == e[1..];
    assert (e + rest)[1 + n..] == rest;
  }

  /** A name's length byte is its character count exactly when it is ASCII. */
  lemma NameCountIsCharCountIffAscii(s: string)
    requires |Utf8(s)| < 0x80
    ensures EncodeName(s)[0] == |s| <==> IsAscii(s)
  {
    Utf8Length(s);
  }

  /** `"é"` is one character but two UTF-8 bytes, so its name encoding starts with 2. */
  lemma NonAsciiName()
    ensures EncodeName("\U{E9}") == [2, 0xC3, 0xA9]
  {
    assert Utf8("\U{E9}") == CharBytes('\U{E9}') + Utf8("");
  }

  // ---------------------------------------------------------------------
  // Little-endian words (`to_le_bytes`)
  // ---------------------------------------------------------------------

  /** `u32::to_le_bytes`: least significant byte first. */
  function U32LeBytes(u: nat): (r: seq<byte>)
    requires u < 0x1_0000_0000
    ensures |r| == 4
    ensures r[0] as int + 0x100 * (r[1] as int + 0x100 * (r[2] as int + 0x100 * r[3] as int)) == u
  {
    var q1 := u / 0x100;
    var q2 := q1 / 0x100;
    var q3 := q2 / 0x100;
    [u % 0x100, q1 % 0x100, q2 % 0x100, q3]
  }

  /** `i32::to_le_bytes`: the little-endian bytes of the two's complement pattern. */
  function Int32LeBytes(v: int32): (r: seq<byte>)
    ensures |r| == 4
    ensures v >= 0 ==> r == U32LeBytes(v)
    ensures v < 0 ==> r == U32LeBytes(v + 0x1_0000_0000)
  {
    U32LeBytes(if v < 0 then v + 0x1_0000_0000 else v)
  }

  /** The `i32` whose little-endian two's complement bytes are `w` (`i32::from_le_bytes`). */
  function Int32FromLe(w: seq<byte>): (v: int32)
    requires |w| == 4
    ensures Int32LeBytes(v) == w
  {
    var u := w[0] as int + 0x100 * (w[1] as int + 0x100 * (w[2] as int + 0x100 * w[3] as int));
    LeBytesDetermineValue(w);
    if u < 0x8000_0000 then u else u - 0x1_0000_0000
  }

  /** Four bytes are the little-endian encoding of the number they denote. */
  lemma LeBytesDetermineValue(w: seq<byte>)
    requires |w| == 4
    ensures 0 <= w[0] as int + 0x100 * (w[1] as int + 0x100 * (w[2] as int + 0x100 * w[3] as int)) < 0x1_0000_0000
    ensures U32LeBytes(w[0] as int + 0x100 * (w[1] as int + 0x100 * (w[2] as int + 0x100 * w[3] as int))) == w
  {
    var hi2 := w[2] as int + 0x100 * w[3] as int;
    var hi1 := w[1] as int + 0x100 * hi2;
    var u := w[0] as int + 0x100 * hi1;
    assert 0 <= hi2 < 0x1_0000;
    assert 0 <= hi1 < 0x100_0000;
    assert 0 <= u < 0x1_0000_0000;
    assert u / 0x100 == hi1 && u % 0x100 == w[0];
    assert hi1 / 0x100 == hi2 && hi1 % 0x100 == w[1];
    assert hi2 / 0x100 == w[3] && hi2 % 0x100 == w[2];
  }

  /** Reading back the bytes of an `i32` gives the `i32`. */
  lemma Int32LeRoundTrip(v: int32)
    ensures Int32FromLe(Int32LeBytes(v)) == v
  {
    var w := Int32LeBytes(v);
    var u := w[0] as int + 0x100 * (w[1] as int + 0x100 * (w[2] as int + 0x100 * w[3] as int));
    assert u == (if v < 0 then v + 0x1_0000_0000 else v);
  }
}
