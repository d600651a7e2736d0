/**
 * `compile_void_lang` of src/lib.rs: the compiler for the language whose only
 * program is the empty one, which compiles to the bare module header.
 */
module VoidLang {
  import opened Optional
  import opened Wasm
  import Modules

  /** The empty program gives the magic number and version; anything else panics. */
  function CompileVoidLang(input: string): (r: Result<seq<byte>>)
    ensures r.Success? <==> input == []
    ensures r.Success? ==> r.value == [0x00, 0x61, 0x73, 0x6d, 1, 0, 0, 0]
    ensures r.Panic? ==> r.message == "Expected empty code, got " + input
  {
    if input != [] then
      Panic("Expected empty code, got " + input)
    else
      Success(Modules.Magic() + Modules.Version())
  }

  /** What the void language compiles to is the start of every module's encoding. */
  lemma {:induction false} VoidOutputIsModulePrefix(m: Modules.Module)
    requires Modules.Encodable(m)
    ensures CompileVoidLang("").value <= Modules.Encode(m)
  {
    var r := Modules.Encode(m);
    assert r[..8] == Modules.Header();
  }
}
