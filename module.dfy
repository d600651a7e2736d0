/**
 * src/wasm/module.rs: a module is the magic number, the version, then its
 * type, function and code sections in that order (section 5.5.15 of the
 * WebAssembly Core Specification 1.0).
 */
module Modules {
  import opened Optional
  import opened Wasm
  import Sections
  import TypeSections
  import FunctionSections
  import CodeSections

  /** The sections a module holds: its function types, each function's type index, and the bodies. */
  datatype Module = Module(
    types: seq<TypeSections.FunctionType>,
    functions: seq<nat>,
    code: seq<CodeSections.FunctionCode>)

  /** `Module::default()`: every section empty. */
  function NewModule(): (m: Module)
    ensures m.types == [] && m.functions == [] && m.code == []
  {
    Module([], [], [])
  }

  /** The bytes of "\0asm". */
  function Magic(): (r: seq<byte>)
    ensures r == [0x00, 0x61, 0x73, 0x6d]
  {
    Utf8Length("\0asm");
    Utf8("\0asm")
  }

  /** Version 1 as a little-endian 32-bit word. */
  function Version(): (r: seq<byte>)
    ensures r == [1, 0, 0, 0]
  {
    U32LeBytes(1)
  }

  /** The eight bytes every module starts with. */
  function Header(): (r: seq<byte>)
    ensures r == [0x00, 0x61, 0x73, 0x6d, 1, 0, 0, 0]
  {
    Magic() + Version()
  }

  /** The modules whose every section the one-byte encoders can handle. */
  predicate Encodable(m: Module)
  {
    && |m.types| <= 42 && (forall t | t in m.types :: TypeSections.Encodable(t))
    && FunctionSections.Encodable(m.functions)
    && CodeSections.EncodableSection(m.code)
  }

  /** The header, then the type, function and code sections. */
  function Encode(m: Module): (r: seq<byte>)
    requires Encodable(m)
    ensures |r| >= 8 && r[..8] == Header()
    ensures |r| == 8 + |TypeSections.EncodeTypeSection(m.types)|
      + |FunctionSections.EncodeFunctionSection(m.functions)| + |CodeSections.EncodeCodeSection(m.code)|
    ensures ParseModule(r) == Some([
      (TypeSections.ID, EncodeVec(m.types, TypeSections.EncodeFunctionType)),
      (FunctionSections.ID, EncodeVec(m.functions, EncodeUnsigned)),
      (CodeSections.ID, EncodeVec(m.code, CodeSections.EncodeFunctionCode))])
  {
    var types := TypeSections.EncodeTypeSection(m.types);
    var functions := FunctionSections.EncodeFunctionSection(m.functions);
    var code := CodeSections.EncodeCodeSection(m.code);
    var r := Header() + types + functions + code;
    ParseEncodeModule(m, r);
    r
  }

  /** Checks the header and splits the rest into sections. */
  function ParseModule(bytes: seq<byte>): Option<seq<(byte, seq<byte>)>>
  {
    if |bytes| >= 8 && bytes[..8] == Header() then Sections.ParseSections(bytes[8..])
    else None
  }

  /** The proof behind `Encode`'s second postcondition. */
  lemma ParseEncodeModule(m: Module, r: seq<byte>)
    requires Encodable(m)
    requires r == Header() + TypeSections.EncodeTypeSection(m.types)
      + FunctionSections.EncodeFunctionSection(m.functions) + CodeSections.EncodeCodeSection(m.code)
    ensures ParseModule(r) == Some([
      (TypeSections.ID, EncodeVec(m.types, TypeSections.EncodeFunctionType)),
      (FunctionSections.ID, EncodeVec(m.functions, EncodeUnsigned)),
      (CodeSections.ID, EncodeVec(m.code, CodeSections.EncodeFunctionCode))])
  {
    var t := EncodeVec(m.types, TypeSections.EncodeFunctionType);
    var f := EncodeVec(m.functions, EncodeUnsigned);
    var c := EncodeVec(m.code, CodeSections.EncodeFunctionCode);
    TypeSections.ConcatTypes(m.types);
    FunctionSections.ConcatIndices(m.functions);
    assert TypeSections.EncodeTypeSection(m.types) == Sections.EncodeSection(TypeSections.ID, t);
    assert FunctionSections.EncodeFunctionSection(m.functions) == Sections.EncodeSection(FunctionSections.ID, f);
    assert CodeSections.EncodeCodeSection(m.code) == Sections.EncodeSection(CodeSections.ID, c);
    ParseHeaderAndSections(t, f, c);
  }

  /** A header followed by a type, a function and a code section parses back into the three. */
  lemma ParseHeaderAndSections(t: seq<byte>, f: seq<byte>, c: seq<byte>)
    requires |t| < 0x80 && |f| < 0x80 && |c| < 0x80
    ensures ParseModule(Header() + Sections.EncodeSection(TypeSections.ID, t)
      + Sections.EncodeSection(FunctionSections.ID, f) + Sections.EncodeSection(CodeSections.ID, c))
      == Some([(TypeSections.ID, t), (FunctionSections.ID, f), (CodeSections.ID, c)])
  {
    var s1 := Sections.EncodeSection(TypeSections.ID, t);
    var s2 := Sections.EncodeSection(FunctionSections.ID, f);
    var s3 := Sections.EncodeSection(CodeSections.ID, c);
    Sections.ParseThreeSections(TypeSections.ID, t, FunctionSections.ID, f, CodeSections.ID, c);
    var r := Header() + s1 + s2 + s3;
    assert r[..8] == Header() && r[8..] == s1 + s2 + s3;
  }

  /** The module `Module::default()` describes: the header and three empty sections. */
  lemma EmptyModule()
    ensures Encodable(NewModule())
    ensures Encode(NewModule()) == [0x00, 0x61, 0x73, 0x6d, 1, 0, 0, 0, 1, 1, 0, 3, 1, 0, 10, 1, 0]
  {
  }
}
