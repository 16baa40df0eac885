# PAL4 script bridge, asset loader and DFF clump loader

A Dafny model of three parts of the PAL4 (Chinese Paladin 4) runtime in OpenPAL3's `yaobow` crate:

- **The script bridge** (`yaobow/shared/src/openpal4/scripting.rs`).
  - `create_context` registers 264 native functions: eleven have handlers of their own, and the rest share the `not_implemented` stub.
  - `create_script_vm` loads the `script` module and starts a VM over that table.
  - The handlers pull typed arguments.
  - `arena_load` redirects the active frame to `<scene>_<block>_init` in another scene's script module.
- **The asset loader** (`yaobow/shared/src/openpal4/asset_loader.rs`).
  - The virtual-file-system path of every asset kind.
  - Case-insensitive routing of videos between `VideoA` and `videob`.
  - The portrait table, built from nine `.imageset` XML files; lookups into it ignore case.
- **The DFF clump loader** (`yaobow/shared/src/loaders/dff.rs`).
  - One entity per RenderWare frame.
  - The parent/child hierarchy and the HAnim skeleton.
  - The frame and skin matrix layouts.
  - The per-atomic geometry: vertices copied, triangles grouped by material, and a static mesh or skinned children on the skeleton.

Layout, one module per file:

| file | contents |
|---|---|
| `wrappers.dfy` | `Option` and `Result` |
| `primitives.dfy` | fixed-width integers, the Rust casts, opaque floats |
| `text.dfy` | `to_lowercase`, `format!`, `parse::<u32>` |
| `asset_loader.dfy` | the asset loader |
| `script_vm.dfy` | what a handler sees of the VM: the registry, the heap, the typed argument cursor, the active frame |
| `registry.dfy` | the 264-entry native table |
| `scripting.dfy` | the handlers, `arena_load`, `create_script_vm` |
| `rwbs.dfy` | the parsed DFF input |
| `dff_geometry.dfy` | matrices and `create_geometry(_internal)` |
| `dff.dfy` | `load_clump` |

How the model is written:

- Functions that only compute are Dafny functions, with their properties as lemmas.
- Loops and in-place updates are methods. Each is proved equal to a recursive specification function over a prefix of its input, and lemmas characterise that function.
- `ScriptVm` is a class whose handler methods name, in their `modifies` clauses, the fields they change (argument cursor, active module, entry point).
- Wherever the Rust code calls `unwrap` on a value that can be missing, an index that can be out of range, or a `HashMap::get` that can fail, it panics. The model returns a named error in that place instead. A panic inside one of the opaque parsers (the `.csb` module reader, `load_anm`, the DFF and XML readers) is not modelled: those parsers are listed under "## Left out".

The code's `wait` handler only pulls its float and installs no suspension (scripting.rs:1099-1101); the model follows the code.

## Model

| member | source | states |
|---|---|---|
| Primitives.AsUsize | yaobow/shared/src/openpal4/scripting.rs:1116-1117 | `i32 as usize` on a 64-bit target: a non-negative index is unchanged, a negative one lands at 2^64 - 2^31 or above |
| Primitives.AsI32 | yaobow/shared/src/loaders/dff.rs:94 | `i as i32` for a frame index: unchanged below 2^31, and always congruent to `i` modulo 2^32 |
| Primitives.AsU32 | yaobow/shared/src/loaders/dff.rs:313 | `i as u32` for a skin-matrix index: unchanged below 2^32, and always congruent to `i` modulo 2^32 |
| Text.ToLowercase | yaobow/shared/src/openpal4/asset_loader.rs:124 | the lowercased name has the same length and lowers each character in place |
| Text.ToLowercaseIsLowercase | yaobow/shared/src/openpal4/asset_loader.rs:160 | a lowercased string has no upper-case letter, and lowercasing it again changes nothing |
| Text.ToLowercaseKeepsLowercase | yaobow/shared/src/openpal4/asset_loader.rs:228 | a string without upper-case letters is its own lowercase form |
| Text.FormatLiteral | yaobow/shared/src/openpal4/asset_loader.rs:52 | `format!` copies template text without braces verbatim |
| Text.FormatHole | yaobow/shared/src/openpal4/asset_loader.rs:52 | each `{}` of a template takes the next argument |
| Text.Format1 | yaobow/shared/src/openpal4/asset_loader.rs:52 | a one-hole template yields prefix, argument, suffix |
| Text.Format2 | yaobow/shared/src/openpal4/asset_loader.rs:64 | a two-hole template yields its pieces and the two arguments in order |
| Text.Format3 | yaobow/shared/src/openpal4/asset_loader.rs:94-97 | a three-hole template yields its pieces and the three arguments in order |
| Text.Format1Tail | yaobow/shared/src/openpal4/asset_loader.rs:215 | a template ending in its only hole yields prefix then argument |
| Text.Format2Tail | yaobow/shared/src/openpal4/asset_loader.rs:140 | a template ending in its second hole yields both arguments around the separator |
| Text.ParseU32 | yaobow/shared/src/openpal4/asset_loader.rs:229-232 | `parse::<u32>` succeeds iff what follows an optional `+` is a non-empty run of digits whose value is below 2^32, leading zeros allowed, and returns that value |
| Text.ParseU32RoundTrip | yaobow/shared/src/openpal4/asset_loader.rs:229-244 | every `u32` printed in decimal, with or without a leading `+`, parses back to itself |
| Text.ParseU32Overflow | yaobow/shared/src/openpal4/asset_loader.rs:229-232 | 4294967296 is rejected |
| Text.DigitsValueLeadingZero | yaobow/shared/src/openpal4/asset_loader.rs:229-232 | a leading `0` does not change the value of a digit run |
| Text.ParseU32LeadingZero | yaobow/shared/src/openpal4/asset_loader.rs:229-232 | a digit run and the same run with a leading `0` parse alike, so `"007"` gives 7 |
| AssetLoader.ReadToEnd | yaobow/shared/src/openpal4/asset_loader.rs:52 | a read succeeds iff the path is mounted, returns its bytes, and otherwise reports that path as not found |
| AssetLoader.ScriptPath | yaobow/shared/src/openpal4/asset_loader.rs:52 | `/gamedata/script/<scene>.csb` |
| AssetLoader.ActorModelPath | yaobow/shared/src/openpal4/asset_loader.rs:64 | `/gamedata/PALActor/<actor>/<actor>.dff` |
| AssetLoader.AnmPath | yaobow/shared/src/openpal4/asset_loader.rs:76 | `/gamedata/PALActor/<actor>/<act>.anm` |
| AssetLoader.ScenePath | yaobow/shared/src/openpal4/asset_loader.rs:94-97 | `/gamedata/PALWorld/<scene>/<block>/<block>.bsp` |
| AssetLoader.NpcInfoPath | yaobow/shared/src/openpal4/asset_loader.rs:113-116 | `/gamedata/scenedata/<scene>/<block>/npcInfo.npc` |
| AssetLoader.MusicPath | yaobow/shared/src/openpal4/asset_loader.rs:134 | `/gamedata/Music/<music>.smp` |
| AssetLoader.SoundPath | yaobow/shared/src/openpal4/asset_loader.rs:140 | `/gamedata/PALSound/<sound>.<ext>` |
| AssetLoader.CameraPath | yaobow/shared/src/openpal4/asset_loader.rs:151-154 | `/gamedata/scenedata/<scene>/<block>/<camera>.cam` |
| AssetLoader.VideoFolder | yaobow/shared/src/openpal4/asset_loader.rs:124-127 | the folder is always `VideoA` or `videob` |
| AssetLoader.VideoPath | yaobow/shared/src/openpal4/asset_loader.rs:129 | `/gamedata/<folder>/<video>` with the folder chosen for the video |
| AssetLoader.ScriptPathInjective | yaobow/shared/src/openpal4/asset_loader.rs:52 | different scenes read different script files |
| AssetLoader.VideoFolderRouting | yaobow/shared/src/openpal4/asset_loader.rs:124-127 | `VideoA` exactly for the three listed names, compared after lowercasing, so every spelling of a name picks the same folder |
| AssetLoader.VideoPathKeepsName | yaobow/shared/src/openpal4/asset_loader.rs:129 | the path ends with the video name as the caller spelled it |
| AssetLoader.VideoFolderExamples | yaobow/shared/src/openpal4/asset_loader.rs:124-127 | `END2.BIK` and `Pal4A.bik` go to `VideoA`, `2b.bik` to `videob` |
| AssetLoader.NpcInfoPathInjective | yaobow/shared/src/openpal4/asset_loader.rs:113-116 | for scenes without `/`, the NPC-info path determines scene and block |
| AssetLoader.SoundPathInjective | yaobow/shared/src/openpal4/asset_loader.rs:140 | for extensions without `.`, the sound path determines name and extension |
| AssetLoader.LoadScriptModule | yaobow/shared/src/openpal4/asset_loader.rs:49-56 | succeeds iff the scene's `.csb` file exists, yielding that file's bytes; otherwise the error names the missing path |
| AssetLoader.LoadActor | yaobow/shared/src/openpal4/asset_loader.rs:58-82 | succeeds iff the model file exists and, when a default act is given, its `.anm` file does too; the animation is present exactly when an act was given and is that file's content |
| AssetLoader.LoadAnm | yaobow/shared/src/openpal4/asset_loader.rs:84-91 | succeeds iff `/gamedata/PALActor/<actor>/<act>.anm` exists, yielding its bytes |
| AssetLoader.LoadVideo | yaobow/shared/src/openpal4/asset_loader.rs:123-131 | opens the video under `VideoA` when its lowercased name is one of the three listed, else under `videob`, and succeeds iff that file exists, returning exactly its bytes |
| AssetLoader.NormaliseImageFile | yaobow/shared/src/openpal4/asset_loader.rs:214-218 | the result starts with `/` or `\`; a name already starting with one is kept, any other gets a leading `/` |
| AssetLoader.NormaliseImageFileIdempotent | yaobow/shared/src/openpal4/asset_loader.rs:214-218 | normalising twice equals normalising once; a name is left alone iff it already starts with a separator |
| AssetLoader.Attribute | yaobow/shared/src/openpal4/asset_loader.rs:211-213 | an attribute read succeeds iff the attribute exists, and otherwise reports it as missing |
| AssetLoader.U32Attribute | yaobow/shared/src/openpal4/asset_loader.rs:229-232 | succeeds iff the attribute exists and parses as a `u32`, yielding the parsed value |
| AssetLoader.ReadNode | yaobow/shared/src/openpal4/asset_loader.rs:224-263 | a node reads iff it has `Name`, four numeric position and size attributes and the image file exists; the image is named by the lowercased `Name` and holds the parsed numbers and the file's bytes |
| AssetLoader.NodeImage | yaobow/shared/src/openpal4/asset_loader.rs:220-269 | a child yields an image iff it is an `Image` element whose node reads, and then exactly that image |
| AssetLoader.NodeImages | yaobow/shared/src/openpal4/asset_loader.rs:220-223 | one entry per child, in order |
| AssetLoader.OpenImageSet | yaobow/shared/src/openpal4/asset_loader.rs:207-218 | succeeds iff the file exists, parses and its root has `Imagefile`; yields the normalised image file and the root's children; a root without `Imagefile` fails with that missing attribute |
| AssetLoader.LoadPortraitsSingle | yaobow/shared/src/openpal4/asset_loader.rs:201-272 | on success the table gains the images of every readable `Image` node, in node order; on failure it is unchanged and the error is the one opening the file gave |
| AssetLoader.LoadPortraits | yaobow/shared/src/openpal4/asset_loader.rs:174-199 | the table is built from the nine portrait files in order, a failing file skipped; every key is lowercase and names its own entry |
| AssetLoader.NewLoader | yaobow/shared/src/openpal4/asset_loader.rs:39-47 | the loader keeps the file system and builds the portrait table from it once |
| AssetLoader.LoadPortrait | yaobow/shared/src/openpal4/asset_loader.rs:159-161 | finds an entry iff the lowercased query is a key, and returns that entry |
| AssetLoader.NodeImagesLowercase | yaobow/shared/src/openpal4/asset_loader.rs:225-228 | every image a node yields has a lowercase name |
| AssetLoader.InsertAllTable | yaobow/shared/src/openpal4/asset_loader.rs:250-260 | inserting lowercase-named images keeps every key lowercase and naming its own entry |
| AssetLoader.PortraitsFromTable | yaobow/shared/src/openpal4/asset_loader.rs:190-198 | reading any list of portrait files keeps that table invariant |
| AssetLoader.LoadPortraitIgnoresCase | yaobow/shared/src/openpal4/asset_loader.rs:159-161 | queries that lowercase alike find the same entry, stored under the lowercased query |
| AssetLoader.InsertAllKeys | yaobow/shared/src/openpal4/asset_loader.rs:250-260 | a key is present after inserting iff it was present before or some image carries that name |
| AssetLoader.InsertAllLastWins | yaobow/shared/src/openpal4/asset_loader.rs:250-260 | a key holds the image of the last node with that name |
| AssetLoader.InsertAllKeepsOthers | yaobow/shared/src/openpal4/asset_loader.rs:250-260 | an entry whose name no new image carries is left as it was |
| AssetLoader.InsertAllSkipsFailures | yaobow/shared/src/openpal4/asset_loader.rs:265-268 | a failed node neither adds anything nor affects the nodes after it |
| AssetLoader.BadNodeSkipped | yaobow/shared/src/openpal4/asset_loader.rs:220-269 | a child that is not a readable `Image` element can be removed without changing the table |
| AssetLoader.BadFileSkipped | yaobow/shared/src/openpal4/asset_loader.rs:191-196 | a portrait file that cannot be opened, parsed or lacks `Imagefile` can be removed from the list without changing the table |
| AssetLoader.MissingImageFileAddsNothing | yaobow/shared/src/openpal4/asset_loader.rs:245-249 | when the image file is missing every node fails, so the image set adds nothing |
| AssetLoader.InsertAllNothing | yaobow/shared/src/openpal4/asset_loader.rs:265-268 | a run of failed nodes leaves the table unchanged |
| ScriptVm.ScriptGlobalContext.Register | yaobow/shared/src/openpal4/scripting.rs:29 | registering appends exactly one function after those already registered |
| ScriptVm.LookupFirstFinds | yaobow/shared/src/openpal4/scripting.rs:26-1075 | first-wins lookup finds a name iff it is registered, with the handler of one of its registrations |
| ScriptVm.LookupLastFinds | yaobow/shared/src/openpal4/scripting.rs:26-1075 | last-wins lookup finds a name iff it is registered, with the handler of one of its registrations |
| ScriptVm.LookupPolicyIrrelevant | yaobow/shared/src/openpal4/scripting.rs:26-1075 | when every registration of a name carries one handler, first-wins and last-wins lookup agree on it |
| ScriptVm.Pull | yaobow/shared/src/openpal4/scripting.rs:1084 | a typed pull succeeds iff an argument is left and carries the declared tag, and yields it |
| ScriptVm.PullAllPositional | yaobow/shared/src/openpal4/scripting.rs:1108-1114 | `as_params!` succeeds iff the next arguments carry the declared tags in order, and yields exactly those arguments |
| ScriptVm.ScriptVm.constructor | yaobow/shared/src/openpal4/scripting.rs:18-23 | the VM holds the context, module, start offset and application context it was given |
| ScriptVm.ScriptVm.PullParams | yaobow/shared/src/openpal4/scripting.rs:1108-1114 | the pulls in order from the pending arguments; on success the cursor moves past exactly the pulled arguments |
| ScriptVm.ScriptVm.SetFunctionByName | yaobow/shared/src/openpal4/scripting.rs:1122 | the active frame now runs the named function of the given module |
| NativeRegistry.Block0Bound | yaobow/shared/src/openpal4/scripting.rs:29-63 | each registration in these lines carries its own handler when implemented and `not_implemented` otherwise |
| NativeRegistry.Block1Bound | yaobow/shared/src/openpal4/scripting.rs:64-107 | each registration in these lines carries its own handler when implemented and `not_implemented` otherwise |
| NativeRegistry.Block2Bound | yaobow/shared/src/openpal4/scripting.rs:108-151 | each registration in these lines carries its own handler when implemented and `not_implemented` otherwise |
| NativeRegistry.Block3Bound | yaobow/shared/src/openpal4/scripting.rs:152-195 | each registration in these lines carries its own handler when implemented and `not_implemented` otherwise |
| NativeRegistry.Block4Bound | yaobow/shared/src/openpal4/scripting.rs:196-239 | each registration in these lines carries its own handler when implemented and `not_implemented` otherwise |
| NativeRegistry.Block5Bound | yaobow/shared/src/openpal4/scripting.rs:240-283 | each registration in these lines carries its own handler when implemented and `not_implemented` otherwise |
| NativeRegistry.Block6Bound | yaobow/shared/src/openpal4/scripting.rs:284-327 | each registration in these lines carries its own handler when implemented and `not_implemented` otherwise |
| NativeRegistry.Block7Bound | yaobow/shared/src/openpal4/scripting.rs:328-371 | each registration in these lines carries its own handler when implemented and `not_implemented` otherwise |
| NativeRegistry.Block8Bound | yaobow/shared/src/openpal4/scripting.rs:372-415 | each registration in these lines carries its own handler when implemented and `not_implemented` otherwise |
| NativeRegistry.Block9Bound | yaobow/shared/src/openpal4/scripting.rs:416-459 | each registration in these lines carries its own handler when implemented and `not_implemented` otherwise |
| NativeRegistry.Block10Bound | yaobow/shared/src/openpal4/scripting.rs:460-503 | each registration in these lines carries its own handler when implemented and `not_implemented` otherwise |
| NativeRegistry.Block11Bound | yaobow/shared/src/openpal4/scripting.rs:504-547 | each registration in these lines carries its own handler when implemented and `not_implemented` otherwise |
| NativeRegistry.Block12Bound | yaobow/shared/src/openpal4/scripting.rs:548-591 | each registration in these lines carries its own handler when implemented and `not_implemented` otherwise |
| NativeRegistry.Block13Bound | yaobow/shared/src/openpal4/scripting.rs:592-635 | each registration in these lines carries its own handler when implemented and `not_implemented` otherwise |
| NativeRegistry.Block14Bound | yaobow/shared/src/openpal4/scripting.rs:636-679 | each registration in these lines carries its own handler when implemented and `not_implemented` otherwise |
| NativeRegistry.Block15Bound | yaobow/shared/src/openpal4/scripting.rs:680-723 | each registration in these lines carries its own handler when implemented and `not_implemented` otherwise |
| NativeRegistry.Block16Bound | yaobow/shared/src/openpal4/scripting.rs:724-764 | each registration in these lines carries its own handler when implemented and `not_implemented` otherwise |
| NativeRegistry.Block17Bound | yaobow/shared/src/openpal4/scripting.rs:765-808 | each registration in these lines carries its own handler when implemented and `not_implemented` otherwise |
| NativeRegistry.Block18Bound | yaobow/shared/src/openpal4/scripting.rs:809-852 | each registration in these lines carries its own handler when implemented and `not_implemented` otherwise |
| NativeRegistry.Block19Bound | yaobow/shared/src/openpal4/scripting.rs:853-896 | each registration in these lines carries its own handler when implemented and `not_implemented` otherwise |
| NativeRegistry.Block20Bound | yaobow/shared/src/openpal4/scripting.rs:897-940 | each registration in these lines carries its own handler when implemented and `not_implemented` otherwise |
| NativeRegistry.Block21Bound | yaobow/shared/src/openpal4/scripting.rs:941-984 | each registration in these lines carries its own handler when implemented and `not_implemented` otherwise |
| NativeRegistry.Block22Bound | yaobow/shared/src/openpal4/scripting.rs:985-1028 | each registration in these lines carries its own handler when implemented and `not_implemented` otherwise |
| NativeRegistry.Block23Bound | yaobow/shared/src/openpal4/scripting.rs:1029-1072 | each registration in these lines carries its own handler when implemented and `not_implemented` otherwise |
| NativeRegistry.Part0Bound | yaobow/shared/src/openpal4/scripting.rs:29-283 | the same binding rule for every registration in these lines |
| NativeRegistry.Part1Bound | yaobow/shared/src/openpal4/scripting.rs:284-547 | the same binding rule for every registration in these lines |
| NativeRegistry.Part2Bound | yaobow/shared/src/openpal4/scripting.rs:548-808 | the same binding rule for every registration in these lines |
| NativeRegistry.Part3Bound | yaobow/shared/src/openpal4/scripting.rs:809-1072 | the same binding rule for every registration in these lines |
| NativeRegistry.AllBound | yaobow/shared/src/openpal4/scripting.rs:29-1072 | every one of the 264 registrations follows the binding rule |
| NativeRegistry.EarlyImplementedRegistered | yaobow/shared/src/openpal4/scripting.rs:29-243 | `giIMMBegin`, `giIMMEnd`, `giNewGame`, `giArenaLoad`, `giOpenMovieFlag` and `giAddQuestComplatePercentage` are registered |
| NativeRegistry.LateImplementedRegistered | yaobow/shared/src/openpal4/scripting.rs:744-988 | `giScriptMusicPause`, `giScriptMusicResume`, `giWait`, `giFlashOutBlack` and `giPlayMovie` are registered |
| NativeRegistry.ImplementedRegistered | yaobow/shared/src/openpal4/scripting.rs:26-1075 | every name with a handler of its own is registered |
| NativeRegistry.LookupBound | yaobow/shared/src/openpal4/scripting.rs:26-1075 | for every name, whatever the overwrite policy: an implemented name finds its handler, any other registered name `not_implemented`, an unregistered one nothing |
| NativeRegistry.PlayMovieFinalIsStub | yaobow/shared/src/openpal4/scripting.rs:985-1072 | `giPlayMovieFinal` dispatches to `not_implemented` while `giPlayMovie` has its own handler |
| NativeRegistry.RegisterAll | yaobow/shared/src/openpal4/scripting.rs:26-1075 | registering a table in order appends exactly that table |
| NativeRegistry.CreateContext | yaobow/shared/src/openpal4/scripting.rs:26-1075 | the context holds exactly the 264 registrations in source order |
| Scripting.EffectOnly | yaobow/shared/src/openpal4/scripting.rs:1077-1081 | a handler with an empty body always succeeds and, modifying nothing, leaves the VM as it was |
| Scripting.Consume | yaobow/shared/src/openpal4/scripting.rs:1084 | discarding pulls succeed iff the pending arguments match the signature, and then advance the cursor by its length |
| Scripting.FlashOutBlack | yaobow/shared/src/openpal4/scripting.rs:1083-1085 | succeeds iff the next three arguments are a float and two ints, consuming exactly three |
| Scripting.PullOneInt | yaobow/shared/src/openpal4/scripting.rs:1089-1105 | succeeds iff the next argument is an int, consuming exactly one |
| Scripting.Wait | yaobow/shared/src/openpal4/scripting.rs:1099-1101 | succeeds iff the next argument is a float, consuming exactly one |
| Scripting.GetStr | yaobow/shared/src/openpal4/scripting.rs:1125-1127 | the heap read succeeds iff the index is inside the heap, and yields that slot |
| Scripting.HeapString | yaobow/shared/src/openpal4/scripting.rs:1116-1117 | yields a string iff the sign-extended index is inside the heap and the slot holds one; past the end it reports that index |
| Scripting.InitEntryName | yaobow/shared/src/openpal4/scripting.rs:1122 | `<scene>_<block>_init` |
| Scripting.ArenaTarget | yaobow/shared/src/openpal4/scripting.rs:1116-1122 | succeeds iff both heap strings exist and the scene's script file exists; yields that module and `<scene>_<block>_init`; a bad scene index fails first |
| Scripting.ArenaLoadEffect | yaobow/shared/src/openpal4/scripting.rs:1107-1123 | with four ints pending the target is chosen by the first two; otherwise the pull error is reported |
| Scripting.ArenaLoad | yaobow/shared/src/openpal4/scripting.rs:1107-1123 | on success the frame runs the target's init function and four arguments are consumed; on failure module and entry are unchanged |
| Scripting.ArenaLoadIgnoresLastTwo | yaobow/shared/src/openpal4/scripting.rs:1108-1114 | the data and loading-flag arguments never affect the target |
| Scripting.NegativeSceneIndexFails | yaobow/shared/src/openpal4/scripting.rs:1116 | a negative scene index always fails as out of range |
| Scripting.ArenaLoadRejectsFloat | yaobow/shared/src/openpal4/scripting.rs:1108-1114 | a float where the scene index belongs is a type mismatch at position 0 |
| Scripting.InitEntryNameInjective | yaobow/shared/src/openpal4/scripting.rs:1122 | for scenes without `_`, the entry name determines scene and block |
| Scripting.ArenaTargetDeterminedByEntry | yaobow/shared/src/openpal4/scripting.rs:1116-1122 | two successful targets with the same entry name, from scenes without `_`, are the same |
| Scripting.HandlerParams | yaobow/shared/src/openpal4/scripting.rs:1083-1115 | the `as_params!` signature of each handler: exactly the empty handlers pull nothing, and none pulls more than `arena_load`'s four ints |
| Scripting.Invoke | yaobow/shared/src/openpal4/scripting.rs:1077-1123 | every handler but `arena_load` succeeds iff the pending arguments match its signature, consumes exactly that many and leaves the frame alone; `arena_load` moves the frame to its target or fails leaving it |
| Scripting.StartModulePath | yaobow/shared/src/openpal4/scripting.rs:17 | the VM starts from `/gamedata/script/script.csb` |
| Scripting.CreateScriptVm | yaobow/shared/src/openpal4/scripting.rs:16-24 | succeeds iff the `script` module exists; the new VM holds the full registry, that module at offset 0, and the loader |
| DffGeometry.Identity | yaobow/shared/src/loaders/dff.rs:135 | a 4x4 matrix with ones on the diagonal and zeros elsewhere |
| DffGeometry.SetCell | yaobow/shared/src/loaders/dff.rs:136-147 | writing a cell changes that cell and no other |
| DffGeometry.FrameMatrix | yaobow/shared/src/loaders/dff.rs:134-150 | columns 0-2 hold right, up and at; column 3 the position; the bottom row stays 0 0 0 1 |
| DffGeometry.CreateMatrix | yaobow/shared/src/loaders/dff.rs:134-150 | the twelve cell writes into an identity yield exactly `FrameMatrix`: rotation columns, position column, bottom row 0 0 0 1 |
| DffGeometry.ColumnMajor | yaobow/shared/src/loaders/dff.rs:152-172 | cell (r, c) of the result is float 4c + r of the input |
| DffGeometry.ColumnMajorLayout | yaobow/shared/src/loaders/dff.rs:152-172 | the layout is a bijection: flattening undoes it and it undoes flattening |
| DffGeometry.CreateMat44FromMatrix44f | yaobow/shared/src/loaders/dff.rs:152-172 | the sixteen cell writes yield exactly the column-major reading of the 16 floats |
| DffGeometry.FrameMatrixIsColumnMajor | yaobow/shared/src/loaders/dff.rs:134-172 | the frame matrix is the column-major reading of the frame's packed floats |
| DffGeometry.SelectTexcoordSets | yaobow/shared/src/loaders/dff.rs:194-198 | more than one set keeps only the first; otherwise all sets are kept |
| DffGeometry.FirstSkinIsFirst | yaobow/shared/src/loaders/dff.rs:201-207 | a skin plugin is selected iff an extension is one, and it comes from the first skin extension |
| DffGeometry.FindSkinPlugin | yaobow/shared/src/loaders/dff.rs:201-207 | the scan returns the plugin of the first skin extension, or none when no extension is a skin |
| DffGeometry.FirstSkinAt | yaobow/shared/src/loaders/dff.rs:201-207 | the first-skin search from any position finds the first skin extension at or after it |
| DffGeometry.Vec3s | yaobow/shared/src/loaders/dff.rs:240-243 | one vertex per input vertex, same components, same order |
| DffGeometry.CopyVertices | yaobow/shared/src/loaders/dff.rs:238-243 | the copy has the input's length and the same components at every index |
| DffGeometry.ConvertTexCoords | yaobow/shared/src/loaders/dff.rs:245-252 | per set and per coordinate, the same (u, v) in the same order |
| DffGeometry.TriangleIndices | yaobow/shared/src/loaders/dff.rs:277-279 | a triangle contributes its three indices, widened, in order |
| DffGeometry.GroupsOfSpec | yaobow/shared/src/loaders/dff.rs:254-280 | grouping succeeds iff every triangle's material exists; the keys are exactly the material ids used, each group holds its material's definition and the indices of its triangles in order |
| DffGeometry.GroupsOfStep | yaobow/shared/src/loaders/dff.rs:261-280 | one more triangle either fails on its material or appends its indices to its own group only |
| DffGeometry.GroupTriangles | yaobow/shared/src/loaders/dff.rs:254-280 | the `entry().or_insert_with` loop yields exactly the grouping whose keys, groups and error case `GroupsOfSpec` states |
| DffGeometry.GroupIndicesAppend | yaobow/shared/src/loaders/dff.rs:277-279 | a material's indices over two runs of triangles are the concatenation of each run's |
| DffGeometry.GroupIndicesEmpty | yaobow/shared/src/loaders/dff.rs:261-279 | a material no triangle uses has no indices |
| DffGeometry.GroupIndicesTotal | yaobow/shared/src/loaders/dff.rs:261-280 | over all materials used, the groups hold three indices per triangle in total |
| DffGeometry.GroupsTotal | yaobow/shared/src/loaders/dff.rs:261-295 | so the mesh geometries together draw every triangle exactly once |
| DffGeometry.BonePosesSpec | yaobow/shared/src/loaders/dff.rs:312-329 | posing succeeds iff every skin index has a bone; pose i is bone `indexed_bones[i]` with skin matrix i in column-major layout |
| DffGeometry.PoseBones | yaobow/shared/src/loaders/dff.rs:309-329 | the bone loop yields exactly the poses `BonePosesSpec` describes, failing on the first skin index without a bone |
| DffGeometry.PosedBones | yaobow/shared/src/loaders/dff.rs:328 | the `bones` list, one per skin matrix, in order |
| DffGeometry.BoneIds | yaobow/shared/src/loaders/dff.rs:331-342 | each quadruple of bone indices widened, in order |
| DffGeometry.GeomChildName | yaobow/shared/src/loaders/dff.rs:345 | `<entity>_geom` |
| DffGeometry.MeshGeometries | yaobow/shared/src/loaders/dff.rs:282-295 | one mesh geometry per material group, holding the shared vertices and texcoords and that group's indices and material |
| DffGeometry.SkinnedChildren | yaobow/shared/src/loaders/dff.rs:344-363 | one skinned child per mesh geometry, holding that geometry, the skeleton root, the whole bone list, the bone ids and the weights |
| DffGeometry.GeometryInternalSpec | yaobow/shared/src/loaders/dff.rs:224-365 | succeeds iff every material exists and, when skinned, a skeleton exists covering every skin index; static exactly without skin, one mesh per material id; skinned meshes carry exactly the poses the bone loop computes, one per matrix, and add children named `<entity>_geom` bound to the skeleton root |
| DffGeometry.GeometryInternalMeshes | yaobow/shared/src/loaders/dff.rs:282-363 | every mesh geometry, static or in a skinned child, shares all vertices and texcoords and holds its material's indices and definition; every skinned child holds all posed bones, the widened bone ids and the skin's weights |
| DffGeometry.CreateGeometryInternal | yaobow/shared/src/loaders/dff.rs:224-365 | returns exactly the effect whose error cases and static/skinned shape `GeometryInternalSpec` states |
| DffGeometry.GeometryEarlyExits | yaobow/shared/src/loaders/dff.rs:183-207 | nothing is created exactly when there is no morph target or the first has no vertices; the result is skinned iff an extension is a skin plugin; a skinned result needs a skeleton |
| DffGeometry.CreateGeometry | yaobow/shared/src/loaders/dff.rs:174-222 | returns exactly the effect whose early exits and skin selection `GeometryEarlyExits` states |
| Dff.FrameEntities | yaobow/shared/src/loaders/dff.rs:74-90 | one entity per frame, in order, named by the frame or `unnamed`, with a bone id exactly when the frame has an HAnim plugin |
| Dff.BoneTableSpec | yaobow/shared/src/loaders/dff.rs:79-86 | the bone table's keys are exactly the HAnim ids; each maps to the last HAnim frame with that id |
| Dff.CreateFrameEntities | yaobow/shared/src/loaders/dff.rs:72-90 | returns one entity per frame as `FrameEntities` states, and the bone table `BoneTableSpec` characterises |
| Dff.IndexBonesSpec | yaobow/shared/src/loaders/dff.rs:102-106 | indexing succeeds iff every bone id is in the table; keys are the bone indices, each mapped to the entity of the last bone with that index |
| Dff.IndexHAnimBones | yaobow/shared/src/loaders/dff.rs:102-106 | returns exactly the index table `IndexBonesSpec` characterises, failing on the first unknown bone id |
| Dff.HierarchyOk | yaobow/shared/src/loaders/dff.rs:94-116 | the hierarchy loop succeeds iff every attached frame's parent exists and every root's bone ids are known |
| Dff.HierarchyEdges | yaobow/shared/src/loaders/dff.rs:94-116 | attachments are exactly the expected parent links: frame i under frame `parent` iff `parent > 0 && parent != i`, else under the clump parent unless it is a skeleton root; each frame at most once, in frame order |
| Dff.HierarchySkeleton | yaobow/shared/src/loaders/dff.rs:99-112 | a skeleton exists iff some frame is a skeleton root; it is the last such frame, with its own bones indexed |
| Dff.BuildHierarchy | yaobow/shared/src/loaders/dff.rs:92-117 | returns exactly the attachments and skeleton characterised by `HierarchyOk`, `HierarchyEdges` and `HierarchySkeleton` |
| Dff.AtomicsSpec | yaobow/shared/src/loaders/dff.rs:119-131 | the atomic loop succeeds iff every atomic names an existing frame and geometry whose creation succeeds; effect k is atomic k's geometry on its frame |
| Dff.CreateAtomics | yaobow/shared/src/loaders/dff.rs:119-131 | returns exactly the per-atomic effects `AtomicsSpec` characterises, stopping at the first failing atomic |
| Dff.LoadedClumpShape | yaobow/shared/src/loaders/dff.rs:65-132 | a loaded clump has one entity per frame and one mesh effect per atomic, each on an existing frame; a skinned mesh implies a skeleton was found |
| Dff.LoadClump | yaobow/shared/src/loaders/dff.rs:65-132 | entities, then hierarchy, then atomics: returns exactly the clump effect, whose shape `LoadedClumpShape` states |

## Left out

- `Text.ToLowercase`: lowers ASCII letters only, while Rust's `to_lowercase` maps all of Unicode. The video names and portrait names involved are ASCII.
- File contents are opaque byte strings, and parsers are not modelled:
  - lossy UTF-8 decoding and `roxmltree` parsing are one opaque parser parameter;
  - `Sprite::load_from_buffer` PNG decoding: a sprite is the bytes of its image file;
  - `ScriptModule::read_from_buffer`: a module is its path and bytes, so the panic on a malformed `.csb` is not modelled;
  - `read_dff`: clumps arrive already parsed;
  - `NpcInfoFile`, `CameraDataFile`, `load_smp`, `load_anm` and the BSP loader; in `load_actor` and `load_anm`, only a missing `.anm` file is an error, so a parse failure of an existing one is not modelled.
- `load_scene`, `load_npc_info`, `load_music`, `load_sound` and `load_camera_data` are modelled by their paths only, because all they add is a call into an external parser or an entity builder.
- Logging: `log::error!` and the `println!` in `arena_load` have no effect the model could state.
- The interpreter: `ScriptVm`'s bytecode loop, its dispatch of a call through the registry, and the `as_params!` and `not_implemented` definitions live in the angelscript module, which is not part of this model.
  - Lookup is proved for first-wins and last-wins registries alike.
  - Arguments are a typed list with a cursor.
  - A missing or mistyped argument is an error.
  - `not_implemented` is treated as a handler that pulls nothing and changes nothing.
- The VM's initial heap and argument list are left empty by the constructor; their contents are decided by the interpreter.
- NativeRegistry.LookupBound: the 264 names are not proved pairwise distinct, which costs too much proof effort over a literal table this large. What is proved instead is that every registration of a name carries the same handler, so lookup gives the same answer whichever registration wins.
- NativeRegistry.CreateContext: the 264 literal `register_function` calls become one loop over a constant table that holds the same names and handlers in source order.
- Panics are errors:
  - a Rust panic unwinds after the attachments and components already made;
  - the model's `Err` stands for the whole call failing and does not describe that partial state;
  - this covers `get_str(..).unwrap()`, `load_script_module(..).unwrap()` in `arena_load` and `create_script_vm`, entity, material and geometry indexing, `bones.get(..).unwrap()`, `hanim_bone.unwrap()` and `indexed_bones.get(..).unwrap()`;
  - it also covers `vfs.open(&path).unwrap()` in `create_entity_from_dff_model` (dff.rs:45): in `AssetLoader.LoadActor`, a missing `.dff` is this panic, shown as `Err(FileNotFound(..))`, while a missing `.anm` is the `?` error the source returns (asset_loader.rs:77).
- Entities, components and `ComRc` sharing:
  - an entity is a value (name and optional bone id) referred to by its frame index;
  - attachments are a list of (parent, child) pairs;
  - a geometry's components are a value;
  - the identity and aliasing of entity objects are not modelled.
- Rendering inputs:
  - the component factory is not modelled;
  - the texture resolver's data is not modelled: a material definition keeps only its texture name, or `missing`;
  - normals are passed in, but the code never uses them (dff.rs:192, 228).
- The skinned-branch debug animation is not modelled, because it is a debugging artefact: `/gamedata/PALActor/101/C03.anm` and its keyframes (dff.rs:310, 324-326).
- The order of `material_to_indices.into_values()` is unspecified in Rust, so material groups are a map keyed by material id.
- The `f32` values are opaque bit patterns, because the modelled code only copies them.
- `create_entity_from_dff_model` (reading the file and looping over its clumps) is outside the modelled core.
