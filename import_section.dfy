/**
 * src/wasm/section/import.rs: imports (section 5.5.5 of the WebAssembly Core
 * Specification 1.0) and the import section with its append-only builder.
 */
module ImportSections {
  import opened Optional
  import opened Wasm
  import Sections

  const ID: byte := 2

  /** What is imported: so far only functions, by type index. */
  datatype ImportDescription = FunctionImport(index: nat)

  datatype Import = Import(moduleName: string, functionName: string, description: ImportDescription)

  /** Tag 0x00 (a function), then the type index. */
  function EncodeImportDescription(d: ImportDescription): (r: seq<byte>)
    requires d.index < 0x80
    ensures |r| == 2 && r[0] == 0x00 && DecodeUnsigned(r[1..]) == Some(d.index)
  {
    match d
    case FunctionImport(index) => [0x00] + EncodeUnsigned(index)
  }

  /** The imports the one-byte encoders can handle. */
  predicate Encodable(i: Import)
  {
    |Utf8(i.moduleName)| < 0x80 && |Utf8(i.functionName)| < 0x80 && i.description.index < 0x80
  }

  /** The module name, then the function name, then the description. */
  function EncodeImport(i: Import): (r: seq<byte>)
    requires Encodable(i)
    ensures ParseImport(r) == Some((Utf8(i.moduleName), Utf8(i.functionName), i.description))
  {
    var m := EncodeName(i.moduleName);
    var f := EncodeName(i.functionName);
    var d := EncodeImportDescription(i.description);
    DecodeEncodeName(i.moduleName, f + d);
    DecodeEncodeName(i.functionName, d);
    assert m + f + d == m + (f + d);
    m + f + d
  }

  /**
   * Reads an import back: the bytes of the two names and the description,
   * when nothing is left over.
   */
  function ParseImport(bytes: seq<byte>): Option<(seq<byte>, seq<byte>, ImportDescription)>
  {
    match DecodeName(bytes)
    case None => None
    case Some((moduleName, rest)) =>
      match DecodeName(rest)
      case None => None
      case Some((functionName, rest')) =>
        if |rest'| == 2 && rest'[0] == 0x00 && DecodeUnsigned(rest'[1..]).Some? then
          Some((moduleName, functionName, FunctionImport(DecodeUnsigned(rest'[1..]).value)))
        else
          None
  }

  /** Import sections whose encoded contents fit the one-byte size field. */
  predicate EncodableSection(imports: seq<Import>)
  {
    && |imports| < 0x80
    && (forall i | i in imports :: Encodable(i))
    && |EncodeVec(imports, EncodeImport)| < 0x80
  }

  /** The whole section: ID 2 and the vector of imports. */
  function EncodeImportSection(imports: seq<Import>): (r: seq<byte>)
    requires EncodableSection(imports)
    ensures Sections.ParseSection(r) == Some((ID, EncodeVec(imports, EncodeImport)))
  {
    Sections.ParseEncodeSection(ID, EncodeVec(imports, EncodeImport));
    Sections.EncodeSection(ID, EncodeVec(imports, EncodeImport))
  }

  /** The builder: the imports in the order they were added. */
  class ImportSection {
    var imports: seq<Import>

    /** `ImportSection::default()`. */
    constructor ()
      ensures imports == []
    {
      imports := [];
    }

    /** Appends an import of function type `index` from `moduleName`.`functionName`. */
    method AddFunction(moduleName: string, functionName: string, index: nat)
      modifies this
      ensures imports == old(imports) + [Import(moduleName, functionName, FunctionImport(index))]
    {
      imports := imports + [Import(moduleName, functionName, FunctionImport(index))];
    }
  }

  /** A section of one import: the count 1, then its encoding. */
  lemma OneImport(i: Import)
    requires Encodable(i)
    requires |EncodeImport(i)| < 0x7f
    ensures EncodableSection([i])
    ensures EncodeImportSection([i]) == [ID, 1 + |EncodeImport(i)|, 1] + EncodeImport(i)
  {
    assert forall x | x in [i] :: x == i;
    Sections.SectionOfOne(ID, i, EncodeImport);
  }

  /** An import's bytes: each name as its length and its UTF-8 bytes, then the tag 0x00 and the type index. */
  lemma EncodeImportBytes(i: Import)
    requires Encodable(i)
    ensures EncodeImport(i) == [|Utf8(i.moduleName)|] + Utf8(i.moduleName)
      + [|Utf8(i.functionName)|] + Utf8(i.functionName) + [0x00, i.description.index]
  {
    var m := EncodeName(i.moduleName);
    var f := EncodeName(i.functionName);
    assert m == [|Utf8(i.moduleName)|] + Utf8(i.moduleName);
    assert f == [|Utf8(i.functionName)|] + Utf8(i.functionName);
  }

  /** Function type 123 imported as `mod`.`add`. */
  lemma ModAddImport()
    ensures Encodable(Import("mod", "add", FunctionImport(123)))
    ensures EncodeImport(Import("mod", "add", FunctionImport(123))) == [3, 0x6d, 0x6f, 0x64, 3, 0x61, 0x64, 0x64, 0, 123]
  {
    assert Utf8("mod") == [0x6d, 0x6f, 0x64] by { Utf8Length("mod"); }
    assert Utf8("add") == [0x61, 0x64, 0x64] by { Utf8Length("add"); }
    EncodeImportBytes(Import("mod", "add", FunctionImport(123)));
  }

  /** The section holding that one import. */
  lemma ModAddSection()
    ensures EncodableSection([Import("mod", "add", FunctionImport(123))])
    ensures EncodeImportSection([Import("mod", "add", FunctionImport(123))])
      == [2, 11, 1, 3, 0x6d, 0x6f, 0x64, 3, 0x61, 0x64, 0x64, 0, 123]
  {
    ModAddImport();
    OneImport(Import("mod", "add", FunctionImport(123)));
    HeaderAndModAdd();
  }

  /** The section's header followed by that import. */
  lemma HeaderAndModAdd()
    ensures Encodable(Import("mod", "add", FunctionImport(123)))
    ensures [ID, 11, 1] + EncodeImport(Import("mod", "add", FunctionImport(123)))
      == [2, 11, 1, 3, 0x6d, 0x6f, 0x64, 3, 0x61, 0x64, 0x64, 0, 123]
  {
    ModAddImport();
  }

  /**
   * The test in import.rs: importing `mod`.`add` with index 123 gives
   * `[2, 11, 1, 3, 'm', 'o', 'd', 3, 'a', 'd', 'd', 0, 123]`.
   */
  method ImportModAdd() returns (wasm: seq<byte>)
    ensures wasm == [2, 11, 1, 3, 0x6d, 0x6f, 0x64, 3, 0x61, 0x64, 0x64, 0, 123]
  {
    var section := new ImportSection();
    section.AddFunction("mod", "add", 123);
    assert section.imports == [Import("mod", "add", FunctionImport(123))];
    ModAddSection();
    wasm := EncodeImportSection(section.imports);
  }
}
