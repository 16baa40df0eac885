/** The part of the AngelScript virtual machine the PAL4 native functions see: the
    native-function registry, the string heap, the typed cursor over a native call's
    arguments, and the active frame's module and entry point. The interpreter loop
    and bytecode decoding are not part of this model. */
module ScriptVm {
  import opened Wrappers
  import opened Primitives
  import opened AssetLoader

  // ------------------------------------------------------------ registry

  /** `ScriptGlobalFunction::new(name, handler)`; `H` names the handler. */
  datatype ScriptGlobalFunction<H> = ScriptGlobalFunction(name: string, handler: H)

  /** `ScriptGlobalContext`: the native functions in registration order. */
  datatype ScriptGlobalContext<H> = ScriptGlobalContext(functions: seq<ScriptGlobalFunction<H>>)
  {
    /** `register_function`: appends one registration. */
    function Register(f: ScriptGlobalFunction<H>): (r: ScriptGlobalContext<H>)
      ensures |r.functions| == |functions| + 1
      ensures r.functions[..|functions|] == functions && r.functions[|functions|] == f
    {
      ScriptGlobalContext(functions + [f])
    }
  }

  /** The handler of the first registration under `name`. */
  function LookupFirst<H>(functions: seq<ScriptGlobalFunction<H>>, name: string): Option<H>
  {
    if |functions| == 0 then None
    else if functions[0].name == name then Some(functions[0].handler)
    else LookupFirst(functions[1..], name)
  }

  /** The handler of the last registration under `name` (a later registration overwrites). */
  function LookupLast<H>(functions: seq<ScriptGlobalFunction<H>>, name: string): Option<H>
  {
    if |functions| == 0 then None
    else if functions[|functions| - 1].name == name then Some(functions[|functions| - 1].handler)
    else LookupLast(functions[..|functions| - 1], name)
  }

  predicate Registered<H>(functions: seq<ScriptGlobalFunction<H>>, name: string)
  {
    exists i :: 0 <= i < |functions| && functions[i].name == name
  }

  /** First-wins lookup finds a name iff it is registered, and returns the handler of one of its registrations. */
  lemma {:induction false} LookupFirstFinds<H>(functions: seq<ScriptGlobalFunction<H>>, name: string)
    ensures LookupFirst(functions, name).Some? <==> Registered(functions, name)
    ensures LookupFirst(functions, name).Some? ==>
      exists i :: 0 <= i < |functions| && functions[i].name == name && functions[i].handler == LookupFirst(functions, name).value
  {
    if |functions| > 0 && functions[0].name != name {
      var rest := functions[1..];
      LookupFirstFinds(rest, name);
      if Registered(functions, name) {
        var i :| 0 <= i < |functions| && functions[i].name == name;
        assert rest[i - 1] == functions[i];
      }
      if LookupFirst(rest, name).Some? {
        var i :| 0 <= i < |rest| && rest[i].name == name && rest[i].handler == LookupFirst(rest, name).value;
        assert functions[i + 1] == rest[i];
      }
    }
  }

  /** Last-wins lookup finds a name iff it is registered, and returns the handler of one of its registrations. */
  lemma {:induction false} LookupLastFinds<H>(functions: seq<ScriptGlobalFunction<H>>, name: string)
    ensures LookupLast(functions, name).Some? <==> Registered(functions, name)
    ensures LookupLast(functions, name).Some? ==>
      exists i :: 0 <= i < |functions| && functions[i].name == name && functions[i].handler == LookupLast(functions, name).value
  {
    var n := |functions| - 1;
    if |functions| > 0 && functions[n].name != name {
      var rest := functions[..n];
      LookupLastFinds(rest, name);
      if Registered(functions, name) {
        var i :| 0 <= i < |functions| && functions[i].name == name;
        assert rest[i] == functions[i];
      }
      if LookupLast(rest, name).Some? {
        var i :| 0 <= i < |rest| && rest[i].name == name && rest[i].handler == LookupLast(rest, name).value;
        assert functions[i] == rest[i];
      }
    }
  }

  /** When every registration of a name carries the same handler, the overwrite policy
      does not matter: first-wins and last-wins lookup agree, on that handler. */
  lemma LookupPolicyIrrelevant<H>(functions: seq<ScriptGlobalFunction<H>>, name: string, h: H)
    requires forall i :: 0 <= i < |functions| && functions[i].name == name ==> functions[i].handler == h
    ensures LookupFirst(functions, name) == LookupLast(functions, name)
    ensures Registered(functions, name) ==> LookupFirst(functions, name) == Some(h)
    ensures !Registered(functions, name) ==> LookupFirst(functions, name) == None
  {
    LookupFirstFinds(functions, name);
    LookupLastFinds(functions, name);
  }

  // ------------------------------------------------------------ call state

  /** A native-call argument as the VM stores it, with its type tag. */
  datatype Value = Int(i: i32) | Float(f: F32) | StrIndex(index: nat)

  /** The type a handler declares for each parameter it pulls. */
  datatype ParamType = IntParam | FloatParam | StrIndexParam

  predicate HasType(v: Value, t: ParamType)
  {
    match t
    case IntParam => v.Int?
    case FloatParam => v.Float?
    case StrIndexParam => v.StrIndex?
  }

  datatype VmError =
    | MissingParameter(position: nat)
    | ParameterTypeMismatch(position: nat, expected: ParamType, found: Value)
    | HeapIndexOutOfRange(index: nat)
    | EmptyHeapSlot(index: nat)
    | ModuleLoadFailed(error: LoadError)

  /** Where the active frame executes: a bytecode offset, or a function looked up by name. */
  datatype Entry = Offset(pc: nat) | Function(name: string)

  /** One typed pull from the arguments not yet pulled, `rest`; `position` is the
      index of the pull within the handler's signature, for the error. */
  function Pull(rest: seq<Value>, position: nat, t: ParamType): (r: Result<Value, VmError>)
    ensures r.Ok? <==> |rest| > 0 && HasType(rest[0], t)
    ensures r.Ok? ==> r.value == rest[0]
  {
    if |rest| == 0 then Err(MissingParameter(position))
    else if !HasType(rest[0], t) then Err(ParameterTypeMismatch(position, t, rest[0]))
    else Ok(rest[0])
  }

  /** Puts `vs` in front of a successful pull sequence; an error passes through. */
  function Prepend(vs: seq<Value>, r: Result<seq<Value>, VmError>): Result<seq<Value>, VmError>
  {
    match r
    case Err(e) => Err(e)
    case Ok(ws) => Ok(vs + ws)
  }

  /** `as_params!`: the declared types pulled one after another from `rest`, stopping at
      the first failure; `position` numbers the first pull. */
  function PullAll(rest: seq<Value>, position: nat, types: seq<ParamType>): Result<seq<Value>, VmError>
    decreases |types|
  {
    if |types| == 0 then Ok([])
    else match Pull(rest, position, types[0])
      case Err(e) => Err(e)
      case Ok(v) => Prepend([v], PullAll(rest[1..], position + 1, types[1..]))
  }

  lemma PrependNothing(r: Result<seq<Value>, VmError>)
    ensures Prepend([], r) == r
  {
    if r.Ok? {
      assert [] + r.value == r.value;
    }
  }

  lemma PrependTwice(us: seq<Value>, vs: seq<Value>, r: Result<seq<Value>, VmError>)
    ensures Prepend(us, Prepend(vs, r)) == Prepend(us + vs, r)
  {
    if r.Ok? {
      assert us + (vs + r.value) == (us + vs) + r.value;
    }
  }

  /** The next `|types|` arguments exist and carry the declared tags. */
  predicate ArgsMatch(rest: seq<Value>, types: seq<ParamType>)
  {
    |types| <= |rest| && forall k :: 0 <= k < |types| ==> HasType(rest[k], types[k])
  }

  /** The arguments match a non-empty signature iff the first one matches its head and the rest match its tail. */
  lemma ArgsMatchSplit(rest: seq<Value>, types: seq<ParamType>)
    requires |types| > 0
    ensures ArgsMatch(rest, types) <==> |rest| > 0 && HasType(rest[0], types[0]) && ArgsMatch(rest[1..], types[1..])
  {
    if |rest| > 0 && HasType(rest[0], types[0]) && ArgsMatch(rest[1..], types[1..]) {
      forall k | 0 <= k < |types| ensures HasType(rest[k], types[k]) {
        if k > 0 {
          assert HasType(rest[1..][k - 1], types[1..][k - 1]);
        }
      }
    }
  }

  /** Parameters are positional and typed: the pulls succeed iff the next `|types|`
      arguments exist and carry the declared tags, and they yield exactly those arguments. */
  lemma {:induction false} PullAllPositional(rest: seq<Value>, position: nat, types: seq<ParamType>)
    ensures PullAll(rest, position, types).Ok? <==> ArgsMatch(rest, types)
    ensures PullAll(rest, position, types).Ok? ==> PullAll(rest, position, types).value == rest[..|types|]
    decreases |types|
  {
    if |types| > 0 {
      ArgsMatchSplit(rest, types);
      if |rest| > 0 {
        PullAllPositional(rest[1..], position + 1, types[1..]);
        if ArgsMatch(rest, types) {
          assert [rest[0]] + rest[1..][..|types| - 1] == rest[..|types|];
        }
      }
    }
  }

  /** The VM state a native handler can read and change. */
  class ScriptVm<H, A> {
    const context: ScriptGlobalContext<H>
    const app: A
    /** The string heap; `None` is an empty slot. */
    var heap: seq<Option<string>>
    /** The arguments of the native call in progress, and the next one to pull. */
    var args: seq<Value>
    var cursor: nat
    /** The active frame's module and entry point. */
    var activeModule: ScriptModule
    var entry: Entry

    /** `ScriptVm::new(context, module, offset, app)`; the heap and the argument list
        start empty here, their initial contents being decided by the interpreter. */
    constructor (context: ScriptGlobalContext<H>, scriptModule: ScriptModule, offset: nat, app: A)
      ensures this.context == context && this.activeModule == scriptModule && this.entry == Offset(offset) && this.app == app
      ensures heap == [] && args == [] && cursor == 0
    {
      this.context := context;
      this.activeModule := scriptModule;
      this.entry := Offset(offset);
      this.app := app;
      heap := [];
      args := [];
      cursor := 0;
    }

    /** The cursor never passes the end of the argument list. */
    predicate Valid()
      reads this
    {
      cursor <= |args|
    }

    /** The arguments not yet pulled. */
    function Pending(): seq<Value>
      reads this
      requires Valid()
    {
      args[cursor..]
    }

    /** The expansion of `as_params!`: pulls the declared types in order. On success the
        cursor has moved past every pulled argument; on failure it stays inside the list. */
    method PullParams(types: seq<ParamType>) returns (r: Result<seq<Value>, VmError>)
      requires Valid()
      modifies this`cursor
      ensures Valid() && old(cursor) <= cursor
      ensures r == PullAll(old(Pending()), 0, types)
      ensures r.Ok? ==> cursor == old(cursor) + |types|
    {
      var values: seq<Value> := [];
      var start := cursor;
      assert types[0..] == types;
      PrependNothing(PullAll(args[start..], 0, types));
      for k := 0 to |types|
        invariant cursor == start + k <= |args|
        invariant PullAll(args[start..], 0, types) == Prepend(values, PullAll(args[cursor..], k, types[k..]))
      {
        assert types[k..][0] == types[k] && types[k..][1..] == types[k + 1..];
        var v := Pull(args[cursor..], k, types[k]);
        if v.Err? {
          return Err(v.error);
        }
        assert args[cursor..][1..] == args[cursor + 1..];
        PrependTwice(values, [v.value], PullAll(args[cursor + 1..], k + 1, types[k + 1..]));
        values := values + [v.value];
        cursor := cursor + 1;
      }
      assert values + [] == values;
      return Ok(values);
    }

    /** `set_function_by_name`: the active frame moves to the named entry of `m`. */
    method SetFunctionByName(m: ScriptModule, name: string)
      modifies this`activeModule, this`entry
      ensures activeModule == m && entry == Function(name)
    {
      activeModule := m;
      entry := Function(name);
    }
  }
}
