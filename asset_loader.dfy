/** The PAL4 asset loader: where each kind of game asset lives in the virtual file
    system, and the portrait table built from the `.imageset` XML files when the loader
    is created. File reads go through `Vfs`; parsers the loader calls into (the XML
    parser, the PNG decoder, the script-module reader) are opaque. */
module AssetLoader {
  import opened Wrappers
  import opened Primitives
  import opened Text

  // ------------------------------------------------------------ file system

  /** The mounted game data: path to file contents. */
  datatype Vfs = Vfs(files: map<string, seq<u8>>)

  datatype LoadError =
    | FileNotFound(path: string)
    | XmlMalformed(path: string)
    | MissingAttribute(attribute: string)
    | NotAnU32(attribute: string, text: string)

  /** `MiniFs::read_to_end` (and `open`): the file's bytes or a not-found error. */
  function ReadToEnd(vfs: Vfs, path: string): (r: Result<seq<u8>, LoadError>)
    ensures r.Ok? <==> path in vfs.files
    ensures r.Ok? ==> r.value == vfs.files[path]
    ensures r.Err? ==> r.error == FileNotFound(path)
  {
    if path in vfs.files then Ok(vfs.files[path]) else Err(FileNotFound(path))
  }

  // ---------------------------------------------------------- path builders

  function ScriptPath(scene: string): (r: string)
    ensures r == "/gamedata/script/" + (scene + ".csb")
  {
    Format1("/gamedata/script/", ".csb", scene);
    Format("/gamedata/script/" + ("{}" + ".csb"), [scene])
  }

  function ActorModelPath(actor: string): (r: string)
    ensures r == "/gamedata/PALActor/" + (actor + ("/" + (actor + ".dff")))
  {
    Format2("/gamedata/PALActor/", "/", ".dff", actor, actor);
    Format("/gamedata/PALActor/" + ("{}" + ("/" + ("{}" + ".dff"))), [actor, actor])
  }

  function AnmPath(actor: string, act: string): (r: string)
    ensures r == "/gamedata/PALActor/" + (actor + ("/" + (act + ".anm")))
  {
    Format2("/gamedata/PALActor/", "/", ".anm", actor, act);
    Format("/gamedata/PALActor/" + ("{}" + ("/" + ("{}" + ".anm"))), [actor, act])
  }

  function ScenePath(scene: string, block: string): (r: string)
    ensures r == "/gamedata/PALWorld/" + (scene + ("/" + (block + ("/" + (block + ".bsp")))))
  {
    Format3("/gamedata/PALWorld/", "/", "/", ".bsp", scene, block, block);
    Format("/gamedata/PALWorld/" + ("{}" + ("/" + ("{}" + ("/" + ("{}" + ".bsp"))))), [scene, block, block])
  }

  function NpcInfoPath(scene: string, block: string): (r: string)
    ensures r == "/gamedata/scenedata/" + (scene + ("/" + (block + "/npcInfo.npc")))
  {
    Format2("/gamedata/scenedata/", "/", "/npcInfo.npc", scene, block);
    Format("/gamedata/scenedata/" + ("{}" + ("/" + ("{}" + "/npcInfo.npc"))), [scene, block])
  }

  function MusicPath(music: string): (r: string)
    ensures r == "/gamedata/Music/" + (music + ".smp")
  {
    Format1("/gamedata/Music/", ".smp", music);
    Format("/gamedata/Music/" + ("{}" + ".smp"), [music])
  }

  function SoundPath(sound: string, ext: string): (r: string)
    ensures r == "/gamedata/PALSound/" + (sound + ("." + ext))
  {
    Format2Tail("/gamedata/PALSound/", ".", sound, ext);
    Format("/gamedata/PALSound/" + ("{}" + ("." + "{}")), [sound, ext])
  }

  function CameraPath(camera: string, scene: string, block: string): (r: string)
    ensures r == "/gamedata/scenedata/" + (scene + ("/" + (block + ("/" + (camera + ".cam")))))
  {
    Format3("/gamedata/scenedata/", "/", "/", ".cam", scene, block, camera);
    Format("/gamedata/scenedata/" + ("{}" + ("/" + ("{}" + ("/" + ("{}" + ".cam"))))), [scene, block, camera])
  }

  /** The three videos kept under `VideoA`, matched case-insensitively. */
  const VIDEO_A_NAMES: set<string> := {"1a.bik", "end2.bik", "pal4a.bik"}

  function VideoFolder(video: string): (r: string)
    ensures r == "VideoA" || r == "videob"
  {
    var lower := ToLowercase(video);
    if lower == "1a.bik" || lower == "end2.bik" || lower == "pal4a.bik" then "VideoA" else "videob"
  }

  function VideoPath(video: string): (r: string)
    ensures r == "/gamedata/" + (VideoFolder(video) + ("/" + video))
  {
    Format2Tail("/gamedata/", "/", VideoFolder(video), video);
    Format("/gamedata/" + ("{}" + ("/" + "{}")), [VideoFolder(video), video])
  }

  // ------------------------------------------------------ path properties

  /** A script path names exactly one module. */
  lemma ScriptPathInjective(a: string, b: string)
    requires ScriptPath(a) == ScriptPath(b)
    ensures a == b
  {
    CancelPrefix("/gamedata/script/", a + ".csb", b + ".csb");
    CancelSuffix(a, b, ".csb");
  }

  /** `load_video` routes by the lowercased name: all spellings of a name pick the same folder. */
  lemma VideoFolderRouting(video: string)
    ensures VideoFolder(video) == "VideoA" <==> ToLowercase(video) in VIDEO_A_NAMES
    ensures forall other :: ToLowercase(other) == ToLowercase(video) ==> VideoFolder(other) == VideoFolder(video)
  {
  }

  /** The file component of a video path keeps the caller's spelling. */
  lemma VideoPathKeepsName(video: string)
    ensures |VideoPath(video)| > |video|
    ensures VideoPath(video)[|VideoPath(video)| - |video|..] == video
  {
    var p := "/gamedata/" + (VideoFolder(video) + "/");
    assert VideoPath(video) == p + video;
  }

  /** Concrete spellings: an upper-case and a mixed-case listed name, and an unlisted one. */
  lemma VideoFolderExamples()
    ensures VideoFolder("END2.BIK") == "VideoA"
    ensures VideoFolder("Pal4A.bik") == "VideoA"
    ensures VideoFolder("2b.bik") == "videob"
  {
    assert ToLowercase("END2.BIK") == "end2.bik";
    assert ToLowercase("Pal4A.bik") == "pal4a.bik";
    assert ToLowercase("2b.bik") == "2b.bik";
    VideoFolderRouting("END2.BIK");
    VideoFolderRouting("Pal4A.bik");
    VideoFolderRouting("2b.bik");
  }

  /** Scene and block names without a `/` are recovered from the NPC-info path. */
  lemma NpcInfoPathInjective(s1: string, b1: string, s2: string, b2: string)
    requires '/' !in s1 && '/' !in s2
    requires NpcInfoPath(s1, b1) == NpcInfoPath(s2, b2)
    ensures s1 == s2 && b1 == b2
  {
    var suffix := "/npcInfo.npc";
    CancelPrefix("/gamedata/scenedata/", s1 + ("/" + (b1 + suffix)), s2 + ("/" + (b2 + suffix)));
    JoinInjective(s1, b1 + suffix, s2, b2 + suffix, '/');
    CancelSuffix(b1, b2, suffix);
  }

  /** A sound name and an extension without a `.` are recovered from the sound path. */
  lemma SoundPathInjective(n1: string, e1: string, n2: string, e2: string)
    requires '.' !in e1 && '.' !in e2
    requires SoundPath(n1, e1) == SoundPath(n2, e2)
    ensures n1 == n2 && e1 == e2
  {
    CancelPrefix("/gamedata/PALSound/", n1 + ("." + e1), n2 + ("." + e2));
    JoinInjectiveRight(n1, e1, n2, e2, '.');
  }

  // ------------------------------------------------------------ loaders

  /** A compiled script module as read from its `.csb` file; decoding the bytecode is
      not part of this model, so the module is its path and its bytes. */
  datatype ScriptModule = ScriptModule(path: string, content: seq<u8>)

  /** `load_script_module`: reads `/gamedata/script/{scene}.csb`. */
  function LoadScriptModule(vfs: Vfs, scene: string): (r: Result<ScriptModule, LoadError>)
    ensures r.Ok? <==> ScriptPath(scene) in vfs.files
    ensures r.Ok? ==> r.value == ScriptModule(ScriptPath(scene), vfs.files[ScriptPath(scene)])
    ensures r.Err? ==> r.error == FileNotFound(ScriptPath(scene))
  {
    var path := ScriptPath(scene);
    match ReadToEnd(vfs, path)
    case Ok(content) => Ok(ScriptModule(path, content))
    case Err(e) => Err(e)
  }

  /** What `load_actor` produces: the entity built from the model, and the animation
      applied to it, if any. Models and animations are kept as the bytes read. */
  datatype Actor = Actor(entityName: string, model: seq<u8>, animation: Option<seq<u8>>)

  /** `load_actor`: the model is always read (a missing model panics inside
      `create_entity_from_dff_model`); the `.anm` path is built and read only for a
      default act, and a missing animation is an error. */
  function LoadActor(vfs: Vfs, entityName: string, actor: string, defaultAct: Option<string>): (r: Result<Actor, LoadError>)
    ensures r.Ok? <==> ActorModelPath(actor) in vfs.files
                       && (defaultAct.Some? ==> AnmPath(actor, defaultAct.value) in vfs.files)
    ensures r.Ok? ==> r.value.entityName == entityName && r.value.model == vfs.files[ActorModelPath(actor)]
    ensures r.Ok? ==> (r.value.animation.Some? <==> defaultAct.Some?)
    ensures r.Ok? && defaultAct.Some? ==> r.value.animation.value == vfs.files[AnmPath(actor, defaultAct.value)]
  {
    match ReadToEnd(vfs, ActorModelPath(actor))
    case Err(e) => Err(e)
    case Ok(model) =>
      match defaultAct
      case None => Ok(Actor(entityName, model, None))
      case Some(act) =>
        match LoadAnm(vfs, actor, act)
        case Err(e) => Err(e)
        case Ok(anm) => Ok(Actor(entityName, model, Some(anm)))
  }

  /** `load_anm`: reads `/gamedata/PALActor/{actor}/{act}.anm`, the same file `load_actor` does. */
  function LoadAnm(vfs: Vfs, actor: string, act: string): (r: Result<seq<u8>, LoadError>)
    ensures r.Ok? <==> AnmPath(actor, act) in vfs.files
    ensures r.Ok? ==> r.value == vfs.files[AnmPath(actor, act)]
  {
    ReadToEnd(vfs, AnmPath(actor, act))
  }

  /** `load_video`: opens the file in the folder `VideoFolder` picks, under its original spelling. */
  function LoadVideo(vfs: Vfs, video: string): (r: Result<seq<u8>, LoadError>)
    ensures var folder := if ToLowercase(video) in VIDEO_A_NAMES then "VideoA" else "videob";
      r.Ok? <==> "/gamedata/" + (folder + ("/" + video)) in vfs.files
    ensures var folder := if ToLowercase(video) in VIDEO_A_NAMES then "VideoA" else "videob";
      r.Ok? ==> r.value == vfs.files["/gamedata/" + (folder + ("/" + video))]
  {
    VideoFolderRouting(video);
    ReadToEnd(vfs, VideoPath(video))
  }

  // -------------------------------------------------------- image sets

  /** `Sprite::load_from_buffer` result; decoding the PNG is not modelled. */
  datatype Sprite = Sprite(png: seq<u8>)

  datatype ImageSetImage = ImageSetImage(name: string, x: u32, y: u32, width: u32, height: u32, sprite: Sprite)

  /** A child of the document's root element: an element (its local tag name and
      attributes) or any other node (text, comment, processing instruction). */
  datatype XmlNode = XmlElement(tag: string, attributes: map<string, string>) | XmlOther

  datatype XmlRoot = XmlRoot(attributes: map<string, string>, children: seq<XmlNode>)

  /** Lossy UTF-8 decoding, `roxmltree::Document::parse` and `root_element`, taken
      as one opaque parser; `None` is a parse error. */
  type XmlParser = seq<u8> -> Option<XmlRoot>

  const PATH_SEPARATORS: set<char> := {'/', '\\'}

  /** The `Imagefile` attribute made absolute: a leading `/` is added unless the
      name already starts with `/` or `\`. */
  function NormaliseImageFile(file: string): (r: string)
    ensures StartsWithAny(r, PATH_SEPARATORS)
    ensures StartsWithAny(file, PATH_SEPARATORS) ==> r == file
    ensures !StartsWithAny(file, PATH_SEPARATORS) ==> r == "/" + file
  {
    if !StartsWithAny(file, PATH_SEPARATORS) then
      Format1Tail("/", file);
      Format("/" + "{}", [file])
    else file
  }

  lemma NormaliseImageFileIdempotent(file: string)
    ensures NormaliseImageFile(NormaliseImageFile(file)) == NormaliseImageFile(file)
    ensures NormaliseImageFile(file) == file <==> StartsWithAny(file, PATH_SEPARATORS)
  {
    if !StartsWithAny(file, PATH_SEPARATORS) {
      assert |NormaliseImageFile(file)| == |file| + 1;
    }
  }

  function Attribute(attributes: map<string, string>, key: string): (r: Result<string, LoadError>)
    ensures r.Ok? <==> key in attributes
    ensures r.Ok? ==> r.value == attributes[key]
    ensures r.Err? ==> r.error == MissingAttribute(key)
  {
    if key in attributes then Ok(attributes[key]) else Err(MissingAttribute(key))
  }

  /** An attribute read as a `u32`: missing and non-numeric values are both errors. */
  function U32Attribute(attributes: map<string, string>, key: string): (r: Result<u32, LoadError>)
    ensures r.Ok? <==> key in attributes && ParseU32(attributes[key]).Some?
    ensures r.Ok? ==> r.value == ParseU32(attributes[key]).value
  {
    match Attribute(attributes, key)
    case Err(e) => Err(e)
    case Ok(text) =>
      match ParseU32(text)
      case None => Err(NotAnU32(key, text))
      case Some(v) => Ok(v)
  }

  /** The `read_node` closure: the five attributes are read in order, the name is
      lowercased, and the sprite is the image file, which is read again for every node. */
  function ReadNode(vfs: Vfs, imageFile: string, attributes: map<string, string>): (r: Result<ImageSetImage, LoadError>)
    ensures r.Ok? <==> "Name" in attributes
                       && U32Attribute(attributes, "XPos").Ok? && U32Attribute(attributes, "YPos").Ok?
                       && U32Attribute(attributes, "Width").Ok? && U32Attribute(attributes, "Height").Ok?
                       && imageFile in vfs.files
    ensures r.Ok? ==> r.value == ImageSetImage(ToLowercase(attributes["Name"]),
                                               U32Attribute(attributes, "XPos").value,
                                               U32Attribute(attributes, "YPos").value,
                                               U32Attribute(attributes, "Width").value,
                                               U32Attribute(attributes, "Height").value,
                                               Sprite(vfs.files[imageFile]))
  {
    match Attribute(attributes, "Name")
    case Err(e) => Err(e)
    case Ok(name) =>
      match U32Attribute(attributes, "XPos")
      case Err(e) => Err(e)
      case Ok(x) =>
        match U32Attribute(attributes, "YPos")
        case Err(e) => Err(e)
        case Ok(y) =>
          match U32Attribute(attributes, "Width")
          case Err(e) => Err(e)
          case Ok(width) =>
            match U32Attribute(attributes, "Height")
            case Err(e) => Err(e)
            case Ok(height) =>
              match ReadToEnd(vfs, imageFile)
              case Err(e) => Err(e)
              case Ok(png) => Ok(ImageSetImage(ToLowercase(name), x, y, width, height, Sprite(png)))
  }

  /** The image a root child contributes: only `Image` elements are read, and a node
      that fails to read contributes nothing. */
  function NodeImage(vfs: Vfs, imageFile: string, node: XmlNode): (r: Option<ImageSetImage>)
    ensures r.Some? <==> node.XmlElement? && node.tag == "Image" && ReadNode(vfs, imageFile, node.attributes).Ok?
    ensures r.Some? ==> r.value == ReadNode(vfs, imageFile, node.attributes).value
  {
    if node.XmlElement? && node.tag == "Image" then
      match ReadNode(vfs, imageFile, node.attributes)
      case Ok(image) => Some(image)
      case Err(_) => None
    else None
  }

  /** The images the children of a root element contribute, child by child. */
  function NodeImages(vfs: Vfs, imageFile: string, nodes: seq<XmlNode>): (r: seq<Option<ImageSetImage>>)
    ensures |r| == |nodes|
    ensures forall i :: 0 <= i < |nodes| ==> r[i] == NodeImage(vfs, imageFile, nodes[i])
  {
    seq(|nodes|, i requires 0 <= i < |nodes| => NodeImage(vfs, imageFile, nodes[i]))
  }

  /** The portrait table after inserting `images` in order, each under its own name;
      a `None` (a node that failed to read) leaves the table as it is. */
  function InsertAll(portraits: map<string, ImageSetImage>, images: seq<Option<ImageSetImage>>): map<string, ImageSetImage>
    decreases |images|
  {
    if |images| == 0 then portraits
    else
      var before := InsertAll(portraits, images[..|images| - 1]);
      match images[|images| - 1]
      case None => before
      case Some(image) => before[image.name := image]
  }

  /** What an image-set file offers before its nodes are read: the normalised image
      file and the children of the root element. Unreadable files, malformed XML and
      a root without `Imagefile` are errors. */
  function OpenImageSet(vfs: Vfs, parse: XmlParser, imageset: string): (r: Result<(string, seq<XmlNode>), LoadError>)
    ensures r.Ok? <==> imageset in vfs.files && parse(vfs.files[imageset]).Some?
                       && "Imagefile" in parse(vfs.files[imageset]).value.attributes
    ensures r.Ok? ==> var root := parse(vfs.files[imageset]).value;
                      r.value == (NormaliseImageFile(root.attributes["Imagefile"]), root.children)
    ensures (imageset in vfs.files && parse(vfs.files[imageset]).Some?
             && "Imagefile" !in parse(vfs.files[imageset]).value.attributes)
            ==> r == Err(MissingAttribute("Imagefile"))
  {
    match ReadToEnd(vfs, imageset)
    case Err(e) => Err(e)
    case Ok(data) =>
      match parse(data)
      case None => Err(XmlMalformed(imageset))
      case Some(root) =>
        match Attribute(root.attributes, "Imagefile")
        case Err(e) => Err(e)
        case Ok(file) => Ok((NormaliseImageFile(file), root.children))
  }

  /** `load_portraits_single`: adds every readable `Image` node of one image-set file
      to `portraits`. */
  method LoadPortraitsSingle(vfs: Vfs, parse: XmlParser, imageset: string, portraits: map<string, ImageSetImage>)
    returns (r: Result<(), LoadError>, updated: map<string, ImageSetImage>)
    ensures r.Ok? <==> OpenImageSet(vfs, parse, imageset).Ok?
    ensures r.Err? ==> r.error == OpenImageSet(vfs, parse, imageset).error && updated == portraits
    ensures r.Ok? ==> var (imageFile, nodes) := OpenImageSet(vfs, parse, imageset).value;
                      updated == InsertAll(portraits, NodeImages(vfs, imageFile, nodes))
  {
    updated := portraits;
    var imageSet := OpenImageSet(vfs, parse, imageset);
    if imageSet.Err? {
      return Err(imageSet.error), updated;
    }
    var (imageFile, nodes) := imageSet.value;
    ghost var images := NodeImages(vfs, imageFile, nodes);
    for i := 0 to |nodes|
      invariant updated == InsertAll(portraits, images[..i])
    {
      assert images[..i + 1][..i] == images[..i];
      var node := nodes[i];
      if node.XmlElement? && node.tag == "Image" {
        var read := ReadNode(vfs, imageFile, node.attributes);
        if read.Ok? {
          updated := updated[read.value.name := read.value];
        }
      }
    }
    assert images[..|nodes|] == images;
    r := Ok(());
  }

  /** The nine image sets `load_portraits` reads, in order. */
  const PORTRAIT_FILES: seq<string> := [
    "/gamedata/ui/portrait/portrait0_0.imageset",
    "/gamedata/ui/portrait/portrait1_0.imageset",
    "/gamedata/ui/portrait/portrait2_0.imageset",
    "/gamedata/ui/portrait/portrait3_0.imageset",
    "/gamedata/ui/portrait/portrait4_0.imageset",
    "/gamedata/ui/portrait/portrait5_0.imageset",
    "/gamedata/ui/portrait/portrait6_0.imageset",
    "/gamedata/ui/portrait/portrait7_0.imageset",
    "/gamedata/ui/portrait/portrait8_0.imageset"
  ]

  /** The portrait table after reading `files` in order, a failed file leaving the table as it was. */
  function PortraitsFrom(portraits: map<string, ImageSetImage>, vfs: Vfs, parse: XmlParser, files: seq<string>): map<string, ImageSetImage>
    decreases |files|
  {
    if |files| == 0 then portraits
    else
      var before := PortraitsFrom(portraits, vfs, parse, files[..|files| - 1]);
      match OpenImageSet(vfs, parse, files[|files| - 1])
      case Err(_) => before
      case Ok((imageFile, nodes)) => InsertAll(before, NodeImages(vfs, imageFile, nodes))
  }

  /** `load_portraits`: every portrait file is tried; a failure is logged and the loop goes on. */
  method LoadPortraits(vfs: Vfs, parse: XmlParser) returns (portraits: map<string, ImageSetImage>)
    ensures portraits == PortraitsFrom(map[], vfs, parse, PORTRAIT_FILES)
    ensures PortraitTable(portraits)
  {
    portraits := map[];
    for i := 0 to |PORTRAIT_FILES|
      invariant portraits == PortraitsFrom(map[], vfs, parse, PORTRAIT_FILES[..i])
    {
      assert PORTRAIT_FILES[..i + 1][..i] == PORTRAIT_FILES[..i];
      var ret;
      ret, portraits := LoadPortraitsSingle(vfs, parse, PORTRAIT_FILES[i], portraits);
    }
    assert PORTRAIT_FILES[..|PORTRAIT_FILES|] == PORTRAIT_FILES;
    PortraitsFromTable(map[], vfs, parse, PORTRAIT_FILES);
  }

  /** The loader after construction; the component factory and texture resolver it
      also holds are not modelled. */
  datatype Loader = Loader(vfs: Vfs, portraits: map<string, ImageSetImage>)

  /** `AssetLoader::new`: the portrait table is built once, from the file system it is given. */
  method NewLoader(vfs: Vfs, parse: XmlParser) returns (loader: Loader)
    ensures loader.vfs == vfs
    ensures loader.portraits == PortraitsFrom(map[], vfs, parse, PORTRAIT_FILES)
    ensures PortraitTable(loader.portraits)
  {
    var portraits := LoadPortraits(vfs, parse);
    loader := Loader(vfs, portraits);
  }

  /** `load_portrait`: the query is lowercased before the lookup. */
  function LoadPortrait(loader: Loader, name: string): (r: Option<ImageSetImage>)
    ensures r.Some? <==> ToLowercase(name) in loader.portraits
    ensures r.Some? ==> r.value == loader.portraits[ToLowercase(name)]
  {
    var key := ToLowercase(name);
    if key in loader.portraits then Some(loader.portraits[key]) else None
  }

  // ------------------------------------------------- portrait table properties

  /** Keys are lowercase names and every entry is stored under its own name. */
  predicate PortraitTable(portraits: map<string, ImageSetImage>)
  {
    forall k :: k in portraits ==> IsLowercase(k) && portraits[k].name == k
  }

  /** Every image a node yields is named by its lowercased `Name`. */
  lemma NodeImagesLowercase(vfs: Vfs, imageFile: string, nodes: seq<XmlNode>)
    ensures forall i :: 0 <= i < |nodes| && NodeImages(vfs, imageFile, nodes)[i].Some? ==>
              IsLowercase(NodeImages(vfs, imageFile, nodes)[i].value.name)
  {
    forall i | 0 <= i < |nodes| && NodeImages(vfs, imageFile, nodes)[i].Some?
      ensures IsLowercase(NodeImages(vfs, imageFile, nodes)[i].value.name)
    {
      ToLowercaseIsLowercase(nodes[i].attributes["Name"]);
    }
  }

  lemma {:induction false} InsertAllTable(portraits: map<string, ImageSetImage>, images: seq<Option<ImageSetImage>>)
    requires PortraitTable(portraits)
    requires forall i :: 0 <= i < |images| && images[i].Some? ==> IsLowercase(images[i].value.name)
    ensures PortraitTable(InsertAll(portraits, images))
    decreases |images|
  {
    if |images| > 0 {
      InsertAllTable(portraits, images[..|images| - 1]);
    }
  }

  lemma {:induction false} PortraitsFromTable(portraits: map<string, ImageSetImage>, vfs: Vfs, parse: XmlParser, files: seq<string>)
    requires PortraitTable(portraits)
    ensures PortraitTable(PortraitsFrom(portraits, vfs, parse, files))
    decreases |files|
  {
    if |files| > 0 {
      PortraitsFromTable(portraits, vfs, parse, files[..|files| - 1]);
      var imageSet := OpenImageSet(vfs, parse, files[|files| - 1]);
      if imageSet.Ok? {
        NodeImagesLowercase(vfs, imageSet.value.0, imageSet.value.1);
        InsertAllTable(PortraitsFrom(portraits, vfs, parse, files[..|files| - 1]), NodeImages(vfs, imageSet.value.0, imageSet.value.1));
      }
    }
  }

  /** Lookup is case-insensitive, and what it finds is stored under the lowercased query. */
  lemma LoadPortraitIgnoresCase(loader: Loader, a: string, b: string)
    requires PortraitTable(loader.portraits)
    requires ToLowercase(a) == ToLowercase(b)
    ensures LoadPortrait(loader, a) == LoadPortrait(loader, b)
    ensures LoadPortrait(loader, a).Some? ==> LoadPortrait(loader, a).value.name == ToLowercase(a)
  {
  }

  /** `image` is stored under `key`. */
  predicate Named(image: Option<ImageSetImage>, key: string)
  {
    image.Some? && image.value.name == key
  }

  /** A key is in the table iff it was there before or some image carries that name. */
  lemma {:induction false} InsertAllKeys(portraits: map<string, ImageSetImage>, images: seq<Option<ImageSetImage>>, key: string)
    ensures key in InsertAll(portraits, images) <==>
            key in portraits || exists j :: 0 <= j < |images| && Named(images[j], key)
    decreases |images|
  {
    if |images| > 0 {
      var n := |images| - 1;
      InsertAllKeys(portraits, images[..n], key);
      assert forall j :: 0 <= j < n ==> images[..n][j] == images[j];
      if !Named(images[n], key) && (exists j :: 0 <= j < |images| && Named(images[j], key)) {
        var j :| 0 <= j < |images| && Named(images[j], key);
        assert images[..n][j] == images[j];
      }
    }
  }

  /** A later node with the same lowercased name overwrites an earlier one: each key
      holds the image of the last node that carries its name. */
  lemma {:induction false} InsertAllLastWins(portraits: map<string, ImageSetImage>, images: seq<Option<ImageSetImage>>, j: nat)
    requires j < |images| && images[j].Some?
    requires forall l :: j < l < |images| ==> !Named(images[l], images[j].value.name)
    ensures images[j].value.name in InsertAll(portraits, images)
    ensures InsertAll(portraits, images)[images[j].value.name] == images[j].value
    decreases |images|
  {
    var n := |images| - 1;
    if j < n {
      InsertAllLastWins(portraits, images[..n], j);
    }
  }

  /** An entry under a name no image carries is left as it was. */
  lemma {:induction false} InsertAllKeepsOthers(portraits: map<string, ImageSetImage>, images: seq<Option<ImageSetImage>>, key: string)
    requires key in portraits
    requires forall j :: 0 <= j < |images| ==> !Named(images[j], key)
    ensures key in InsertAll(portraits, images) && InsertAll(portraits, images)[key] == portraits[key]
    decreases |images|
  {
    if |images| > 0 {
      InsertAllKeepsOthers(portraits, images[..|images| - 1], key);
    }
  }

  /** A failed node contributes nothing and does not affect the nodes after it. */
  lemma {:induction false} InsertAllSkipsFailures(portraits: map<string, ImageSetImage>, before: seq<Option<ImageSetImage>>,
                                                  after: seq<Option<ImageSetImage>>)
    ensures InsertAll(portraits, before + [None] + after) == InsertAll(portraits, before + after)
    decreases |after|
  {
    var all := before + [None] + after;
    if |after| == 0 {
      assert all[..|all| - 1] == before;
      assert before + after == before;
    } else {
      var m := |after| - 1;
      InsertAllSkipsFailures(portraits, before, after[..m]);
      assert all[..|all| - 1] == before + [None] + after[..m];
      var rest := before + after;
      assert rest[..|rest| - 1] == before + after[..m];
    }
  }

  /** Node by node: a child that is not an `Image` element, or whose attributes do not
      read, is skipped without stopping the children after it. */
  lemma BadNodeSkipped(portraits: map<string, ImageSetImage>, vfs: Vfs, imageFile: string,
                       before: seq<XmlNode>, bad: XmlNode, after: seq<XmlNode>)
    requires NodeImage(vfs, imageFile, bad).None?
    ensures InsertAll(portraits, NodeImages(vfs, imageFile, before + [bad] + after))
         == InsertAll(portraits, NodeImages(vfs, imageFile, before + after))
  {
    var b, a := NodeImages(vfs, imageFile, before), NodeImages(vfs, imageFile, after);
    assert NodeImages(vfs, imageFile, before + [bad] + after) == b + [None] + a;
    assert NodeImages(vfs, imageFile, before + after) == b + a;
    InsertAllSkipsFailures(portraits, b, a);
  }

  /** A file that cannot be opened, parsed, or lacks `Imagefile` contributes nothing:
      dropping it from the list leaves the table unchanged. */
  lemma {:induction false} BadFileSkipped(portraits: map<string, ImageSetImage>, vfs: Vfs, parse: XmlParser,
                                          before: seq<string>, bad: string, after: seq<string>)
    requires OpenImageSet(vfs, parse, bad).Err?
    ensures PortraitsFrom(portraits, vfs, parse, before + [bad] + after)
         == PortraitsFrom(portraits, vfs, parse, before + after)
    decreases |after|
  {
    var all := before + [bad] + after;
    if |after| == 0 {
      assert all[..|all| - 1] == before;
      assert before + after == before;
    } else {
      var m := |after| - 1;
      BadFileSkipped(portraits, vfs, parse, before, bad, after[..m]);
      assert all[..|all| - 1] == before + [bad] + after[..m];
      assert all[|all| - 1] == after[m];
      var rest := before + after;
      assert rest[..|rest| - 1] == before + after[..m];
      assert rest[|rest| - 1] == after[m];
    }
  }

  /** The sprite is read inside the node closure, so when the image file is missing
      every node fails and the image set adds nothing, though it still reports success. */
  lemma MissingImageFileAddsNothing(portraits: map<string, ImageSetImage>, vfs: Vfs, imageFile: string, nodes: seq<XmlNode>)
    requires imageFile !in vfs.files
    ensures InsertAll(portraits, NodeImages(vfs, imageFile, nodes)) == portraits
  {
    InsertAllNothing(portraits, NodeImages(vfs, imageFile, nodes));
  }

  lemma {:induction false} InsertAllNothing(portraits: map<string, ImageSetImage>, images: seq<Option<ImageSetImage>>)
    requires forall i :: 0 <= i < |images| ==> images[i].None?
    ensures InsertAll(portraits, images) == portraits
    decreases |images|
  {
    if |images| > 0 {
      InsertAllNothing(portraits, images[..|images| - 1]);
    }
  }
}
