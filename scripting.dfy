/** The PAL4 side of the script bridge (scripting.rs): the application context handed
    to the VM, the native handlers, and the construction of the game's script VM.
    Where the Rust code calls `unwrap` on a missing value, and so panics, the model
    returns the corresponding `VmError` instead. */
module Scripting {
  import opened Wrappers
  import opened Primitives
  import opened Text
  import opened AssetLoader
  import opened ScriptVm
  import opened NativeRegistry

  /** `Pal4AppContext`: the shared asset loader. */
  datatype Pal4AppContext = Pal4AppContext(loader: Loader)

  type Pal4Vm = ScriptVm<Handler, Pal4AppContext>

  /** Forgets the pulled values: handlers bind them to `_`-names and never read them. */
  function Unit(r: Result<seq<Value>, VmError>): (u: Result<(), VmError>)
    ensures u.Ok? <==> r.Ok?
    ensures r.Err? ==> u.error == r.error
  {
    match r
    case Ok(_) => Ok(())
    case Err(e) => Err(e)
  }

  // ------------------------------------------------------------ handlers

  /** `imm_begin`, `imm_end`, `new_game`, `script_music_pause`, `script_music_resume`
      and the shared `not_implemented` stub: they pull no parameter and, having no
      `modifies` clause, change nothing in the VM. */
  method EffectOnly(vm: Pal4Vm) returns (r: Result<(), VmError>)
    ensures r == Ok(())
  {
    r := Ok(());
  }

  /** `as_params!` with a signature whose values the handler discards. */
  method Consume(vm: Pal4Vm, types: seq<ParamType>) returns (r: Result<(), VmError>)
    requires vm.Valid()
    modifies vm`cursor
    ensures vm.Valid() && old(vm.cursor) <= vm.cursor
    ensures r.Ok? <==> ArgsMatch(old(vm.Pending()), types)
    ensures r.Ok? ==> vm.cursor == old(vm.cursor) + |types|
    ensures r == Unit(PullAll(old(vm.Pending()), 0, types))
  {
    ghost var pending := vm.Pending();
    var pulled := vm.PullParams(types);
    PullAllPositional(pending, 0, types);
    r := Unit(pulled);
  }

  const FLASH_OUT_BLACK_PARAMS: seq<ParamType> := [FloatParam, IntParam, IntParam]
  const ONE_INT: seq<ParamType> := [IntParam]
  const ONE_FLOAT: seq<ParamType> := [FloatParam]

  /** `flash_out_black`: pulls a float and two ints. */
  method FlashOutBlack(vm: Pal4Vm) returns (r: Result<(), VmError>)
    requires vm.Valid()
    modifies vm`cursor
    ensures vm.Valid()
    ensures r.Ok? <==> |old(vm.Pending())| >= 3 && old(vm.Pending())[0].Float? && old(vm.Pending())[1].Int? && old(vm.Pending())[2].Int?
    ensures r.Ok? ==> vm.cursor == old(vm.cursor) + 3
    ensures r == Unit(PullAll(old(vm.Pending()), 0, FLASH_OUT_BLACK_PARAMS))
  {
    r := Consume(vm, FLASH_OUT_BLACK_PARAMS);
    ghost var p := old(vm.Pending());
    if ArgsMatch(p, FLASH_OUT_BLACK_PARAMS) {
      assert HasType(p[0], FloatParam) && HasType(p[1], IntParam) && HasType(p[2], IntParam);
    }
  }

  /** `play_movie`, `open_movie_flag` and `add_quest_complete_percentage`: each pulls
      one int (a movie-name heap index, a flag, a percentage) and ignores it. */
  method PullOneInt(vm: Pal4Vm) returns (r: Result<(), VmError>)
    requires vm.Valid()
    modifies vm`cursor
    ensures vm.Valid()
    ensures r.Ok? <==> |old(vm.Pending())| >= 1 && old(vm.Pending())[0].Int?
    ensures r.Ok? ==> vm.cursor == old(vm.cursor) + 1
    ensures r == Unit(PullAll(old(vm.Pending()), 0, ONE_INT))
  {
    r := Consume(vm, ONE_INT);
    ghost var p := old(vm.Pending());
    if ArgsMatch(p, ONE_INT) {
      assert HasType(p[0], IntParam);
    }
  }

  /** `wait`: pulls one float, the time, and installs no suspension. */
  method Wait(vm: Pal4Vm) returns (r: Result<(), VmError>)
    requires vm.Valid()
    modifies vm`cursor
    ensures vm.Valid()
    ensures r.Ok? <==> |old(vm.Pending())| >= 1 && old(vm.Pending())[0].Float?
    ensures r.Ok? ==> vm.cursor == old(vm.cursor) + 1
    ensures r == Unit(PullAll(old(vm.Pending()), 0, ONE_FLOAT))
  {
    r := Consume(vm, ONE_FLOAT);
    ghost var p := old(vm.Pending());
    if ArgsMatch(p, ONE_FLOAT) {
      assert HasType(p[0], FloatParam);
    }
  }

  // ------------------------------------------------------------ arena_load

  /** `get_str`: the heap slot at `index`; indexing past the heap panics in Rust. */
  function GetStr(heap: seq<Option<string>>, index: nat): (r: Result<Option<string>, VmError>)
    ensures r.Ok? <==> index < |heap|
    ensures r.Ok? ==> r.value == heap[index]
    ensures r.Err? ==> r.error == HeapIndexOutOfRange(index)
  {
    if index < |heap| then Ok(heap[index]) else Err(HeapIndexOutOfRange(index))
  }

  /** `get_str(vm, x as usize).unwrap()`: the string at a heap index given as an `i32`. */
  function HeapString(heap: seq<Option<string>>, x: i32): (r: Result<string, VmError>)
    ensures r.Ok? <==> AsUsize(x) < |heap| && heap[AsUsize(x)].Some?
    ensures r.Ok? ==> r.value == heap[AsUsize(x)].value
    ensures AsUsize(x) >= |heap| ==> r == Err(HeapIndexOutOfRange(AsUsize(x)))
  {
    match GetStr(heap, AsUsize(x))
    case Err(e) => Err(e)
    case Ok(None) => Err(EmptyHeapSlot(AsUsize(x)))
    case Ok(Some(s)) => Ok(s)
  }

  /** The entry point `arena_load` asks for: `format!("{}_{}_init", scn, block)`. */
  function InitEntryName(scn: string, block: string): (r: string)
    ensures r == scn + ("_" + (block + "_init"))
  {
    Format2("", "_", "_init", scn, block);
    assert "" + ("{}" + ("_" + ("{}" + "_init"))) == "{}" + ("_" + ("{}" + "_init"));
    assert "" + (scn + ("_" + (block + "_init"))) == scn + ("_" + (block + "_init"));
    Format("{}" + ("_" + ("{}" + "_init")), [scn, block])
  }

  /** Where `arena_load` sends the active frame, given its scene and block heap
      indices: the scene's script module and its `<scene>_<block>_init` entry. The
      scene string is read before the block string, and both before the module. */
  function ArenaTarget(loader: Loader, heap: seq<Option<string>>, scn: i32, block: i32): (r: Result<(ScriptModule, string), VmError>)
    ensures r.Ok? <==>
      HeapString(heap, scn).Ok? && HeapString(heap, block).Ok? &&
      ScriptPath(HeapString(heap, scn).value) in loader.vfs.files
    ensures r.Ok? ==>
      var s, b := HeapString(heap, scn).value, HeapString(heap, block).value;
      r.value == (ScriptModule(ScriptPath(s), loader.vfs.files[ScriptPath(s)]), s + ("_" + (b + "_init")))
    ensures HeapString(heap, scn).Err? ==> r == Err(HeapString(heap, scn).error)
  {
    match HeapString(heap, scn)
    case Err(e) => Err(e)
    case Ok(s) =>
      match HeapString(heap, block)
      case Err(e) => Err(e)
      case Ok(b) =>
        match LoadScriptModule(loader.vfs, s)
        case Err(e) => Err(ModuleLoadFailed(e))
        case Ok(m) => Ok((m, InitEntryName(s, b)))
  }

  const ARENA_LOAD_PARAMS: seq<ParamType> := [IntParam, IntParam, IntParam, IntParam]

  /** The whole of `arena_load` as a value: pull four ints from `pending`, then go to
      the target the first two name. */
  function ArenaLoadEffect(loader: Loader, heap: seq<Option<string>>, pending: seq<Value>): (r: Result<(ScriptModule, string), VmError>)
    ensures !ArgsMatch(pending, ARENA_LOAD_PARAMS) ==> r.Err? && r.error == PullAll(pending, 0, ARENA_LOAD_PARAMS).error
    ensures ArgsMatch(pending, ARENA_LOAD_PARAMS) ==>
      HasType(pending[0], IntParam) && HasType(pending[1], IntParam) &&
      r == ArenaTarget(loader, heap, pending[0].i, pending[1].i)
  {
    PullAllPositional(pending, 0, ARENA_LOAD_PARAMS);
    if ArgsMatch(pending, ARENA_LOAD_PARAMS) then
      assert HasType(pending[0], ARENA_LOAD_PARAMS[0]) && HasType(pending[1], ARENA_LOAD_PARAMS[1]);
      ArenaTarget(loader, heap, pending[0].i, pending[1].i)
    else
      Err(PullAll(pending, 0, ARENA_LOAD_PARAMS).error)
  }

  /** `arena_load`: redirects the active frame to another module's init function. A
      failure leaves the frame where it was; the heap and the rest of the VM are not
      touched either way. */
  method ArenaLoad(vm: Pal4Vm) returns (r: Result<(), VmError>)
    requires vm.Valid()
    modifies vm`cursor, vm`activeModule, vm`entry
    ensures vm.Valid()
    ensures var effect := ArenaLoadEffect(vm.app.loader, vm.heap, old(vm.Pending()));
      (r.Ok? <==> effect.Ok?) &&
      (effect.Err? ==> r.error == effect.error && vm.activeModule == old(vm.activeModule) && vm.entry == old(vm.entry)) &&
      (effect.Ok? ==> vm.activeModule == effect.value.0 && vm.entry == Function(effect.value.1) && vm.cursor == old(vm.cursor) + 4)
  {
    ghost var pending := vm.Pending();
    var pulled := vm.PullParams(ARENA_LOAD_PARAMS);
    PullAllPositional(pending, 0, ARENA_LOAD_PARAMS);
    if pulled.Err? {
      return Err(pulled.error);
    }
    var params := pulled.value;
    assert params == pending[..4];
    assert HasType(pending[0], ARENA_LOAD_PARAMS[0]) && HasType(pending[1], ARENA_LOAD_PARAMS[1]);
    var scn := HeapString(vm.heap, params[0].i);
    if scn.Err? {
      return Err(scn.error);
    }
    var block := HeapString(vm.heap, params[1].i);
    if block.Err? {
      return Err(block.error);
    }
    var loaded := LoadScriptModule(vm.app.loader.vfs, scn.value);
    if loaded.Err? {
      return Err(ModuleLoadFailed(loaded.error));
    }
    vm.SetFunctionByName(loaded.value, InitEntryName(scn.value, block.value));
    r := Ok(());
  }

  /** The third and fourth parameters (the data string and the loading-screen flag)
      play no part: only the scene and block indices choose the target, and arguments
      past the fourth stay pending. */
  lemma ArenaLoadIgnoresLastTwo(loader: Loader, heap: seq<Option<string>>, scn: i32, block: i32, data: i32, showLoading: i32, rest: seq<Value>)
    ensures ArenaLoadEffect(loader, heap, [Int(scn), Int(block), Int(data), Int(showLoading)] + rest)
         == ArenaTarget(loader, heap, scn, block)
  {
    var pending := [Int(scn), Int(block), Int(data), Int(showLoading)] + rest;
    assert pending[0] == Int(scn) && pending[1] == Int(block) && pending[2] == Int(data) && pending[3] == Int(showLoading);
    assert ArgsMatch(pending, ARENA_LOAD_PARAMS);
  }

  /** A negative index, cast to `usize`, lies beyond any heap a Rust `Vec` can hold
      (at most `isize::MAX` elements), so the lookup fails rather than wrapping onto a slot. */
  lemma NegativeSceneIndexFails(loader: Loader, heap: seq<Option<string>>, scn: i32, block: i32)
    requires scn < 0
    requires |heap| <= 0x7FFF_FFFF_FFFF_FFFF
    ensures ArenaTarget(loader, heap, scn, block) == Err(HeapIndexOutOfRange(AsUsize(scn)))
  {
  }

  /** A pulled argument that is not an int stops `arena_load` before any heap access. */
  lemma ArenaLoadRejectsFloat(loader: Loader, heap: seq<Option<string>>, f: F32, rest: seq<Value>)
    ensures ArenaLoadEffect(loader, heap, [Float(f)] + rest) == Err(ParameterTypeMismatch(0, IntParam, Float(f)))
  {
    var pending := [Float(f)] + rest;
    assert pending[0] == Float(f);
    assert !HasType(pending[0], ARENA_LOAD_PARAMS[0]);
  }

  /** For scene names without `_`, the entry name identifies the scene and the block
      it came from. */
  lemma InitEntryNameInjective(s1: string, b1: string, s2: string, b2: string)
    requires '_' !in s1 && '_' !in s2
    requires InitEntryName(s1, b1) == InitEntryName(s2, b2)
    ensures s1 == s2 && b1 == b2
  {
    JoinInjective(s1, b1 + "_init", s2, b2 + "_init", '_');
    CancelSuffix(b1, b2, "_init");
  }

  /** Two successful redirects to the same entry name, from scenes without `_`, load the same module. */
  lemma ArenaTargetDeterminedByEntry(loader: Loader, heap: seq<Option<string>>, scn1: i32, block1: i32, scn2: i32, block2: i32)
    requires ArenaTarget(loader, heap, scn1, block1).Ok? && ArenaTarget(loader, heap, scn2, block2).Ok?
    requires '_' !in HeapString(heap, scn1).value && '_' !in HeapString(heap, scn2).value
    requires ArenaTarget(loader, heap, scn1, block1).value.1 == ArenaTarget(loader, heap, scn2, block2).value.1
    ensures ArenaTarget(loader, heap, scn1, block1) == ArenaTarget(loader, heap, scn2, block2)
  {
    var s1, b1 := HeapString(heap, scn1).value, HeapString(heap, block1).value;
    var s2, b2 := HeapString(heap, scn2).value, HeapString(heap, block2).value;
    InitEntryNameInjective(s1, b1, s2, b2);
  }

  // ------------------------------------------------------------ dispatch and VM

  /** The `as_params!` signature each handler pulls. Exactly the empty handlers pull
      nothing, and no handler pulls more than `arena_load`'s four values. */
  function HandlerParams(h: Handler): (r: seq<ParamType>)
    ensures r == [] <==>
      h in {Handler.NotImplemented, Handler.ImmBegin, Handler.ImmEnd, Handler.NewGame, Handler.ScriptMusicPause, Handler.ScriptMusicResume}
    ensures |r| <= |ARENA_LOAD_PARAMS|
  {
    match h
    case ArenaLoad => ARENA_LOAD_PARAMS
    case OpenMovieFlag => ONE_INT
    case AddQuestCompletePercentage => ONE_INT
    case PlayMovie => ONE_INT
    case Wait => ONE_FLOAT
    case FlashOutBlack => FLASH_OUT_BLACK_PARAMS
    case _ => []
  }

  /** Runs the handler a registration boxes. Every handler but `arena_load` succeeds
      exactly when the pending arguments match its signature, consumes that many
      arguments, and leaves the active frame alone; `arena_load` also needs its target. */
  method Invoke(h: Handler, vm: Pal4Vm) returns (r: Result<(), VmError>)
    requires vm.Valid()
    modifies vm`cursor, vm`activeModule, vm`entry
    ensures vm.Valid()
    ensures h != Handler.ArenaLoad ==> vm.activeModule == old(vm.activeModule) && vm.entry == old(vm.entry)
    ensures h != Handler.ArenaLoad ==> r == Unit(PullAll(old(vm.Pending()), 0, HandlerParams(h)))
    ensures h != Handler.ArenaLoad ==> (r.Ok? <==> ArgsMatch(old(vm.Pending()), HandlerParams(h)))
    ensures r.Ok? ==> vm.cursor == old(vm.cursor) + |HandlerParams(h)|
    ensures h in {Handler.NotImplemented, Handler.ImmBegin, Handler.ImmEnd, Handler.NewGame, Handler.ScriptMusicPause, Handler.ScriptMusicResume} ==>
      r == Ok(()) && vm.cursor == old(vm.cursor)
    ensures h == Handler.ArenaLoad ==> var effect := ArenaLoadEffect(vm.app.loader, vm.heap, old(vm.Pending()));
      (r.Ok? <==> effect.Ok?) &&
      (effect.Err? ==> r.error == effect.error && vm.activeModule == old(vm.activeModule) && vm.entry == old(vm.entry)) &&
      (effect.Ok? ==> vm.activeModule == effect.value.0 && vm.entry == Function(effect.value.1))
  {
    match h {
      case NotImplemented => r := EffectOnly(vm);
      case ImmBegin => r := EffectOnly(vm);
      case ImmEnd => r := EffectOnly(vm);
      case NewGame => r := EffectOnly(vm);
      case ScriptMusicPause => r := EffectOnly(vm);
      case ScriptMusicResume => r := EffectOnly(vm);
      case ArenaLoad => r := ArenaLoad(vm);
      case OpenMovieFlag => r := PullOneInt(vm);
      case AddQuestCompletePercentage => r := PullOneInt(vm);
      case Wait => r := Wait(vm);
      case FlashOutBlack => r := FlashOutBlack(vm);
      case PlayMovie => r := PullOneInt(vm);
    }
  }

  /** The module the game starts in: `script`, read from `/gamedata/script/script.csb`. */
  lemma StartModulePath()
    ensures ScriptPath("script") == "/gamedata/script/script.csb"
  {
  }

  /** `create_script_vm`: loads the `script` module and builds a VM over the full native
      table, starting at offset 0 with the loader as its application context. A missing
      module, where Rust's `unwrap` panics, is an error. */
  method CreateScriptVm(loader: Loader) returns (r: Result<Pal4Vm, VmError>)
    ensures r.Ok? <==> ScriptPath("script") in loader.vfs.files
    ensures r.Err? ==> r.error == ModuleLoadFailed(FileNotFound(ScriptPath("script")))
    ensures r.Ok? ==> fresh(r.value) && r.value.Valid()
    ensures r.Ok? ==>
      r.value.context.functions == REGISTRATIONS && r.value.app == Pal4AppContext(loader) &&
      r.value.activeModule == ScriptModule(ScriptPath("script"), loader.vfs.files[ScriptPath("script")]) &&
      r.value.entry == Offset(0)
  {
    var loaded := LoadScriptModule(loader.vfs, "script");
    if loaded.Err? {
      return Err(ModuleLoadFailed(loaded.error));
    }
    var context := CreateContext();
    var vm := new ScriptVm(context, loaded.value, 0, Pal4AppContext(loader));
    r := Ok(vm);
  }
}
