/** The `risc0_c_kzg_alloc_mod` attribute macro: applied to a module, it
    emits that module with the allocator shim's items added to its content,
    so that each crate using it gets a private copy of the shim.

    Items are opaque: the model keeps only what the macro and the linker see
    of them, not their Rust syntax. */
module AllocMacro {
  import opened Wrappers

  /** The behaviour behind each of the shim's functions: the `Shim.Heap`
      operation of the same name models it, for either copy. */
  datatype ShimOp = StoreLenOp | GetLenOp | MallocOp | CallocOp | FreeOp | AssertFuncOp

  /** A module item. `exported` marks a `#[no_mangle] extern "C"` function,
      reachable under its own name as a C symbol. */
  datatype Item =
    | ExternCrate(crate: string)
    | Const(ident: string)
    | Fn(ident: string, exported: bool, op: ShimOp)
    | Opaque(id: nat)  // any other item of the annotated module

  /** `syn::ItemMod`: attributes, visibility and name, and `content`, which
      is None for `mod m;` and the brace-enclosed items otherwise. */
  datatype ItemMod = ItemMod(attrs: seq<string>, vis: string, ident: string, content: Option<seq<Item>>)

  /** The tokens the attribute is applied to, as `syn::parse` reads them. */
  datatype Input = Module(m: ItemMod) | NotAModule

  /** What the macro emits, or the panic that stops compilation. */
  datatype Expansion = Expanded(m: ItemMod) | Panicked(msg: string)

  /** The allocator items as written by hand in the `risc0_ffi` module of
      the bindings crate, in order. */
  function HandWrittenItems(): seq<Item>
  {
    [ ExternCrate("alloc"),
      Const("LEN_SIZE"),
      Fn("store_len", false, StoreLenOp),
      Fn("get_len", false, GetLenOp),
      Fn("malloc", true, MallocOp),
      Fn("calloc", true, CallocOp),
      Fn("free", true, FreeOp),
      Fn("__assert_func", true, AssertFuncOp) ]
  }

  /** The module the macro quotes and parses with `parse2`. */
  function BuiltinModule(): ItemMod
  {
    ItemMod([], "", "__risc0_c_kzg_alloc_mod",
      Some([ ExternCrate("alloc"),
             Const("LEN_SIZE"),
             Fn("store_len", false, StoreLenOp),
             Fn("get_len", false, GetLenOp),
             Fn("malloc", true, MallocOp),
             Fn("calloc", true, CallocOp),
             Fn("free", true, FreeOp) ]))
  }

  /** The names of the C symbols a sequence of items exports. */
  function Exports(items: seq<Item>): set<string>
  {
    if items == [] then {}
    else (if items[0].Fn? && items[0].exported then {items[0].ident} else {}) + Exports(items[1..])
  }

  /** The generated copy is the hand-written one without `__assert_func`:
      the same items, in the same order, with the same behaviour. Both item
      lists above are transcribed from the source: the quoted module
      (c-kzg-risc0-alloc/src/lib.rs:27-82) and the `risc0_ffi` module
      (bindings/rust/src/lib.rs:35-100) read identically, token for token,
      up to `__assert_func`. The lemma records that correspondence between
      the transcriptions; the transcription itself is by reading. */
  lemma BuiltinMatchesHandWritten()
    ensures BuiltinModule().content.Some?
    ensures BuiltinModule().content.value == HandWrittenItems()[..7]
    ensures HandWrittenItems()[7..] == [Fn("__assert_func", true, AssertFuncOp)]
  {
  }

  /** A module exports the symbols of its items, wherever they stand. */
  lemma {:induction false} ExportsConcat(a: seq<Item>, b: seq<Item>)
    ensures Exports(a + b) == Exports(a) + Exports(b)
  {
    if a == [] {
      assert a + b == b;
    } else {
      assert (a + b)[1..] == a[1..] + b;
      ExportsConcat(a[1..], b);
    }
  }

  /** The generated items export exactly the C allocation symbols. */
  lemma BuiltinExports()
    ensures Exports(BuiltinModule().content.value) == {"malloc", "calloc", "free"}
  {
    var items := BuiltinModule().content.value;
    assert items[1..][1..][1..][1..][1..][1..][1..] == [];
  }

  /** `risc0_c_kzg_alloc_mod(_attr, input)`. Input that is not a module
      panics. Otherwise the module comes out with the same attributes,
      visibility and name; its content is its own items, in order, followed
      by the generated items, and a module without a body gets the
      generated items as its body. `attr` has no influence on the result. */
  method Expand(attr: seq<nat>, input: Input) returns (out: Expansion)
    ensures input.NotAModule? ==> out == Panicked("Failed to parse input as a module")
    ensures input.Module? ==>
      && out.Expanded?
      && out.m.attrs == input.m.attrs
      && out.m.vis == input.m.vis
      && out.m.ident == input.m.ident
      && out.m.content == Some(input.m.content.GetOr([]) + BuiltinModule().content.value)
    ensures input.Module? && input.m.content.None? ==> out.m.content == BuiltinModule().content
  {
    if input.NotAModule? {
      return Panicked("Failed to parse input as a module");
    }
    var moduleDef := input.m;
    var builtin := BuiltinModule();
    if moduleDef.content.Some? {
      var newItems := builtin.content.value;
      moduleDef := moduleDef.(content := Some(moduleDef.content.value + newItems));
    } else {
      moduleDef := moduleDef.(content := builtin.content);
      assert [] + builtin.content.value == builtin.content.value;
    }
    out := Expanded(moduleDef);
  }

  /** What the expanded module exports: the C symbols it exported before,
      plus `malloc`, `calloc` and `free`. */
  lemma ExpandedExports(m: ItemMod)
    ensures Exports(m.content.GetOr([]) + BuiltinModule().content.value)
         == Exports(m.content.GetOr([])) + {"malloc", "calloc", "free"}
  {
    ExportsConcat(m.content.GetOr([]), BuiltinModule().content.value);
    BuiltinExports();
  }
}
