/**
 * src/wasm/section/export.rs: exports (section 5.5.10 of the WebAssembly Core
 * Specification 1.0) and the export section with its append-only builder.
 */
module ExportSections {
  import opened Optional
  import opened Wasm
  import Sections

  const ID: byte := 7

  /** What is exported: a function or a memory, by index. */
  datatype ExportDescription = FunctionExport(index: nat) | MemoryExport(index: nat)

  datatype Export = Export(name: string, description: ExportDescription)

  /** Tag 0x00 for a function or 0x02 for a memory, then the index. */
  function EncodeExportDescription(d: ExportDescription): (r: seq<byte>)
    requires d.index < 0x80
    ensures |r| == 2 && DecodeUnsigned(r[1..]) == Some(d.index)
    ensures r[0] == (if d.FunctionExport? then 0x00 else 0x02)
  {
    match d
    case FunctionExport(index) => [0x00] + EncodeUnsigned(index)
    case MemoryExport(index) => [0x02] + EncodeUnsigned(index)
  }

  /** The exports the one-byte encoders can handle. */
  predicate Encodable(e: Export)
  {
    |Utf8(e.name)| < 0x80 && e.description.index < 0x80
  }

  /** The name, then the description. */
  function EncodeExport(e: Export): (r: seq<byte>)
    requires Encodable(e)
    ensures ParseExport(r) == Some((Utf8(e.name), e.description))
  {
    var d := EncodeExportDescription(e.description);
    DecodeEncodeName(e.name, d);
    EncodeName(e.name) + d
  }

  /** Reads an export back: the bytes of its name and its description, when nothing is left over. */
  function ParseExport(bytes: seq<byte>): Option<(seq<byte>, ExportDescription)>
  {
    match DecodeName(bytes)
    case None => None
    case Some((name, rest)) =>
      if |rest| == 2 && DecodeUnsigned(rest[1..]).Some? then
        if rest[0] == 0x00 then Some((name, FunctionExport(DecodeUnsigned(rest[1..]).value)))
        else if rest[0] == 0x02 then Some((name, MemoryExport(DecodeUnsigned(rest[1..]).value)))
        else None
      else
        None
  }

  /** Export sections whose encoded contents fit the one-byte size field. */
  predicate EncodableSection(exports: seq<Export>)
  {
    && |exports| < 0x80
    && (forall e | e in exports :: Encodable(e))
    && |EncodeVec(exports, EncodeExport)| < 0x80
  }

  /** The whole section: ID 7 and the vector of exports. */
  function EncodeExportSection(exports: seq<Export>): (r: seq<byte>)
    requires EncodableSection(exports)
    ensures Sections.ParseSection(r) == Some((ID, EncodeVec(exports, EncodeExport)))
  {
    Sections.ParseEncodeSection(ID, EncodeVec(exports, EncodeExport));
    Sections.EncodeSection(ID, EncodeVec(exports, EncodeExport))
  }

  /** The builder: the exports in the order they were added. */
  class ExportSection {
    var exports: seq<Export>

    /** `ExportSection::default()`. */
    constructor ()
      ensures exports == []
    {
      exports := [];
    }

    /** Exports function `index` under `name`. */
    method AddFunction(name: string, index: nat)
      modifies this
      ensures exports == old(exports) + [Export(name, FunctionExport(index))]
    {
      Add(name, FunctionExport(index));
    }

    /** Exports memory `index` under `name`. */
    method AddMemory(name: string, index: nat)
      modifies this
      ensures exports == old(exports) + [Export(name, MemoryExport(index))]
    {
      Add(name, MemoryExport(index));
    }

    /** Appends one export. */
    method Add(name: string, description: ExportDescription)
      modifies this
      ensures exports == old(exports) + [Export(name, description)]
    {
      exports := exports + [Export(name, description)];
    }
  }

  /** A section of two exports: the count 2, then the two encodings. */
  lemma TwoExports(a: Export, b: Export)
    requires Encodable(a) && Encodable(b)
    requires |EncodeExport(a)| + |EncodeExport(b)| < 0x7f
    ensures EncodableSection([a, b])
    ensures EncodeExportSection([a, b])
      == [ID, 1 + |EncodeExport(a)| + |EncodeExport(b)|, 2] + EncodeExport(a) + EncodeExport(b)
  {
    assert forall e | e in [a, b] :: e == a || e == b;
    Sections.SectionOfTwo(ID, a, b, EncodeExport);
  }

  /** Function 123 exported as `main`. */
  lemma MainExport()
    ensures Encodable(Export("main", FunctionExport(123)))
    ensures EncodeExport(Export("main", FunctionExport(123))) == [4, 0x6d, 0x61, 0x69, 0x6e, 0, 123]
  {
    assert Utf8("main") == [0x6d, 0x61, 0x69, 0x6e] by { Utf8Length("main"); }
  }

  /** Memory 101 exported as `mem`. */
  lemma MemExport()
    ensures Encodable(Export("mem", MemoryExport(101)))
    ensures EncodeExport(Export("mem", MemoryExport(101))) == [3, 0x6d, 0x65, 0x6d, 2, 101]
  {
    assert Utf8("mem") == [0x6d, 0x65, 0x6d] by { Utf8Length("mem"); }
  }

  /** The section's header followed by the `main` export. */
  lemma HeaderAndMain()
    ensures Encodable(Export("main", FunctionExport(123)))
    ensures [ID, 14, 2] + EncodeExport(Export("main", FunctionExport(123)))
      == [7, 14, 2, 4, 0x6d, 0x61, 0x69, 0x6e, 0, 123]
  {
    MainExport();
  }

  /** Those bytes followed by the `mem` export. */
  lemma HeaderMainAndMem()
    ensures Encodable(Export("mem", MemoryExport(101)))
    ensures [7, 14, 2, 4, 0x6d, 0x61, 0x69, 0x6e, 0, 123] + EncodeExport(Export("mem", MemoryExport(101)))
      == [7, 14, 2, 4, 0x6d, 0x61, 0x69, 0x6e, 0, 123, 3, 0x6d, 0x65, 0x6d, 2, 101]
  {
    MemExport();
  }

  /** The section holding those two exports. */
  lemma MainAndMemorySection()
    ensures EncodableSection([Export("main", FunctionExport(123)), Export("mem", MemoryExport(101))])
    ensures EncodeExportSection([Export("main", FunctionExport(123)), Export("mem", MemoryExport(101))])
      == [7, 14, 2, 4, 0x6d, 0x61, 0x69, 0x6e, 0, 123, 3, 0x6d, 0x65, 0x6d, 2, 101]
  {
    MainExport();
    MemExport();
    TwoExports(Export("main", FunctionExport(123)), Export("mem", MemoryExport(101)));
    HeaderAndMain();
    HeaderMainAndMem();
  }

  /**
   * The test in export.rs: exporting function 123 as `main` and then memory
   * 101 as `mem` gives
   * `[7, 14, 2, 4, 'm', 'a', 'i', 'n', 0, 123, 3, 'm', 'e', 'm', 2, 101]`.
   */
  method ExportMainAndMemory() returns (wasm: seq<byte>)
    ensures wasm == [7, 14, 2, 4, 0x6d, 0x61, 0x69, 0x6e, 0, 123, 3, 0x6d, 0x65, 0x6d, 2, 101]
  {
    var section := new ExportSection();
    section.AddFunction("main", 123);
    section.AddMemory("mem", 101);
    assert section.exports == [Export("main", FunctionExport(123)), Export("mem", MemoryExport(101))];
    MainAndMemorySection();
    wasm := EncodeExportSection(section.exports);
  }
}
