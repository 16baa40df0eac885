/** `load_clump`: one entity per frame, the frame hierarchy, the HAnim skeleton and one
    geometry per atomic. An entity is referred to by the index of its frame; the effect
    on the scene is returned as a value. */
module Dff {
  import opened Wrappers
  import opened Primitives
  import opened Rwbs
  import opened DffGeometry

  // ------------------------------------------------------------ frame entities

  /** The entity created for a frame, and the id on its HAnim bone component if it has one. */
  datatype EntityDef = EntityDef(name: string, boneId: Option<u32>)

  function EntityName(frame: Frame): string
  {
    if frame.name.Some? then frame.name.value else "unnamed"
  }

  function EntityOf(frame: Frame): EntityDef
  {
    EntityDef(EntityName(frame), if frame.hanim.Some? then Some(frame.hanim.value.id) else None)
  }

  /** Entity `i` belongs to frame `i`. */
  function FrameEntities(frames: seq<Frame>): (r: seq<EntityDef>)
    ensures |r| == |frames| && forall i :: 0 <= i < |frames| ==> r[i] == EntityOf(frames[i])
  {
    seq(|frames|, i requires 0 <= i < |frames| => EntityOf(frames[i]))
  }

  /** The `bones` map after the first `n` frames: each HAnim frame inserted under its id. */
  function BoneTable(frames: seq<Frame>, n: nat): map<u32, nat>
    requires n <= |frames|
  {
    if n == 0 then map[]
    else
      var t := BoneTable(frames, n - 1);
      if frames[n - 1].hanim.Some? then t[frames[n - 1].hanim.value.id := n - 1] else t
  }

  /** The bone table holds exactly the ids of the HAnim frames, each mapped to an HAnim
      frame carrying that id, the last one when several do. */
  lemma {:induction false} BoneTableSpec(frames: seq<Frame>, n: nat)
    requires n <= |frames|
    ensures forall id :: id in BoneTable(frames, n) <==>
      exists i :: 0 <= i < n && frames[i].hanim.Some? && frames[i].hanim.value.id == id
    ensures forall id :: id in BoneTable(frames, n) ==>
      var f := BoneTable(frames, n)[id];
      f < n && frames[f].hanim.Some? && frames[f].hanim.value.id == id &&
      forall j :: f < j < n && frames[j].hanim.Some? ==> frames[j].hanim.value.id != id
  {
    if n > 0 {
      BoneTableSpec(frames, n - 1);
      var t := BoneTable(frames, n - 1);
      forall id | exists i :: 0 <= i < n && frames[i].hanim.Some? && frames[i].hanim.value.id == id
        ensures id in BoneTable(frames, n)
      {
        var i :| 0 <= i < n && frames[i].hanim.Some? && frames[i].hanim.value.id == id;
        if i < n - 1 {
          assert id in t;
        }
      }
    }
  }

  /** The entity-creating `map` over the frames, with its insertions into `bones`. */
  method CreateFrameEntities(frames: seq<Frame>) returns (entities: seq<EntityDef>, bones: map<u32, nat>)
    ensures entities == FrameEntities(frames)
    ensures bones == BoneTable(frames, |frames|)
  {
    entities := [];
    bones := map[];
    for i := 0 to |frames|
      invariant |entities| == i && forall j :: 0 <= j < i ==> entities[j] == EntityOf(frames[j])
      invariant bones == BoneTable(frames, i)
    {
      var f := frames[i];
      var boneId: Option<u32> := None;
      if f.hanim.Some? {
        boneId := Some(f.hanim.value.id);
        bones := bones[f.hanim.value.id := i];
      }
      entities := entities + [EntityDef(EntityName(f), boneId)];
    }
  }

  // ------------------------------------------------------------ hierarchy

  /** What an entity is attached to: the clump's parent entity, or the entity of a frame. */
  datatype Node = ClumpParent | FrameNode(frame: nat)

  /** The attach rule: a positive parent index other than the frame's own (`i as i32`). */
  predicate AttachedToParent(frames: seq<Frame>, i: nat)
    requires i < |frames|
  {
    frames[i].parent > 0 && frames[i].parent != AsI32(i)
  }

  /** A frame that is not attached to a parent frame and has an HAnim bone. */
  predicate IsSkeletonRoot(frames: seq<Frame>, i: nat)
    requires i < |frames|
  {
    !AttachedToParent(frames, i) && frames[i].hanim.Some?
  }

  /** Where frame `i` ends up: under its parent frame, nowhere (the skeleton root), or under
      the clump's parent entity. */
  function ExpectedParent(frames: seq<Frame>, i: nat): Option<Node>
    requires i < |frames|
  {
    if AttachedToParent(frames, i) then Some(FrameNode(frames[i].parent as nat))
    else if frames[i].hanim.Some? then None
    else Some(ClumpParent)
  }

  /** `indexed_bones` after the first `n` bones of a root's plugin: `b.index` mapped to the
      entity registered under `b.id`. A missing id panics. */
  function IndexBones(bs: seq<HAnimBoneInfo>, bones: map<u32, nat>, n: nat): Result<map<u32, nat>, DffError>
    requires n <= |bs|
  {
    if n == 0 then Ok(map[])
    else
      match IndexBones(bs, bones, n - 1)
      case Err(e) => Err(e)
      case Ok(m) =>
        if bs[n - 1].id !in bones then Err(MissingBoneId(bs[n - 1].id))
        else Ok(m[bs[n - 1].index := bones[bs[n - 1].id]])
  }

  /** Indexing succeeds iff every bone id is in the table; then the keys are exactly the bone
      indices, and each index maps to the entity of the last bone carrying it. */
  lemma {:induction false} IndexBonesSpec(bs: seq<HAnimBoneInfo>, bones: map<u32, nat>, n: nat)
    requires n <= |bs|
    ensures IndexBones(bs, bones, n).Ok? <==> forall k :: 0 <= k < n ==> bs[k].id in bones
    ensures IndexBones(bs, bones, n).Ok? ==> var m := IndexBones(bs, bones, n).value;
      (forall idx :: idx in m <==> exists k :: 0 <= k < n && bs[k].index == idx) &&
      (forall idx :: idx in m ==> exists k :: (0 <= k < n && bs[k].index == idx && m[idx] == bones[bs[k].id] &&
                                               forall j :: k < j < n ==> bs[j].index != idx))
  {
    if n > 0 {
      IndexBonesSpec(bs, bones, n - 1);
      if IndexBones(bs, bones, n).Ok? {
        var m0 := IndexBones(bs, bones, n - 1).value;
        var m := IndexBones(bs, bones, n).value;
        var b := bs[n - 1];
        forall idx | idx in m
          ensures exists k :: (0 <= k < n && bs[k].index == idx && m[idx] == bones[bs[k].id] &&
                               forall j :: k < j < n ==> bs[j].index != idx)
        {
          if idx == b.index {
            assert bs[n - 1].index == idx && m[idx] == bones[bs[n - 1].id];
          } else {
            var k :| 0 <= k < n - 1 && bs[k].index == idx && m0[idx] == bones[bs[k].id] &&
              forall j :: k < j < n - 1 ==> bs[j].index != idx;
            assert bs[k].index == idx && m[idx] == bones[bs[k].id];
          }
        }
        forall idx | exists k :: 0 <= k < n && bs[k].index == idx
          ensures idx in m
        {
          var k :| 0 <= k < n && bs[k].index == idx;
          if k < n - 1 {
            assert idx in m0;
          }
        }
      }
    }
  }

  lemma {:induction false} IndexBonesPrefixErr(bs: seq<HAnimBoneInfo>, bones: map<u32, nat>, k: nat, n: nat)
    requires k <= n <= |bs| && IndexBones(bs, bones, k).Err?
    ensures IndexBones(bs, bones, n) == IndexBones(bs, bones, k)
    decreases n - k
  {
    if k < n {
      IndexBonesPrefixErr(bs, bones, k, n - 1);
    }
  }

  /** The loop over the root's `hanim.bones`. */
  method IndexHAnimBones(bs: seq<HAnimBoneInfo>, bones: map<u32, nat>) returns (r: Result<map<u32, nat>, DffError>)
    ensures r == IndexBones(bs, bones, |bs|)
  {
    var indexed: map<u32, nat> := map[];
    for k := 0 to |bs|
      invariant IndexBones(bs, bones, k) == Ok(indexed)
    {
      if bs[k].id !in bones {
        IndexBonesPrefixErr(bs, bones, k + 1, |bs|);
        return Err(MissingBoneId(bs[k].id));
      }
      indexed := indexed[bs[k].index := bones[bs[k].id]];
    }
    r := Ok(indexed);
  }

  /** The attachments made so far, in order, and the skeleton found so far. */
  datatype Hierarchy = Hierarchy(attachments: seq<(Node, nat)>, skeleton: Option<HAnimBone>)

  /** The hierarchy loop over the first `n` frames. Indexing `entities` with a parent past
      the end panics. */
  function HierarchyUpTo(frames: seq<Frame>, bones: map<u32, nat>, n: nat): Result<Hierarchy, DffError>
    requires n <= |frames|
  {
    if n == 0 then Ok(Hierarchy([], None))
    else
      match HierarchyUpTo(frames, bones, n - 1)
      case Err(e) => Err(e)
      case Ok(h) =>
        var i := n - 1;
        if AttachedToParent(frames, i) then
          if frames[i].parent as int >= |frames| then Err(FrameParentOutOfRange(i, frames[i].parent as nat))
          else Ok(h.(attachments := h.attachments + [(FrameNode(frames[i].parent as nat), i)]))
        else if frames[i].hanim.Some? then
          var bs := frames[i].hanim.value.bones;
          match IndexBones(bs, bones, |bs|)
          case Err(e) => Err(e)
          case Ok(m) => Ok(h.(skeleton := Some(HAnimBone(i, m))))
        else Ok(h.(attachments := h.attachments + [(ClumpParent, i)]))
  }

  /** What makes frame `i` fail: a parent past the end, or a root whose bones name an id
      with no HAnim frame. */
  predicate FrameLinks(frames: seq<Frame>, bones: map<u32, nat>, i: nat)
    requires i < |frames|
  {
    (AttachedToParent(frames, i) ==> frames[i].parent as int < |frames|) &&
    (IsSkeletonRoot(frames, i) ==>
       forall k :: 0 <= k < |frames[i].hanim.value.bones| ==> frames[i].hanim.value.bones[k].id in bones)
  }

  /** The hierarchy loop succeeds iff every frame's links resolve. */
  lemma {:induction false} HierarchyOk(frames: seq<Frame>, bones: map<u32, nat>, n: nat)
    requires n <= |frames|
    ensures HierarchyUpTo(frames, bones, n).Ok? <==> forall i :: 0 <= i < n ==> FrameLinks(frames, bones, i)
  {
    if n > 0 {
      HierarchyOk(frames, bones, n - 1);
      if frames[n - 1].hanim.Some? {
        var bs := frames[n - 1].hanim.value.bones;
        IndexBonesSpec(bs, bones, |bs|);
      }
      assert (forall i :: 0 <= i < n ==> FrameLinks(frames, bones, i)) <==>
        (forall i :: 0 <= i < n - 1 ==> FrameLinks(frames, bones, i)) && FrameLinks(frames, bones, n - 1);
    }
  }

  /** The attachments are exactly the expected parent links: every attachment links a frame
      to its expected parent; every frame that has one is attached; frames are attached in
      increasing order, so each at most once. */
  lemma {:induction false} HierarchyEdges(frames: seq<Frame>, bones: map<u32, nat>, n: nat)
    requires n <= |frames| && HierarchyUpTo(frames, bones, n).Ok?
    ensures var att := HierarchyUpTo(frames, bones, n).value.attachments;
      (forall a :: 0 <= a < |att| ==> att[a].1 < n && ExpectedParent(frames, att[a].1) == Some(att[a].0)) &&
      (forall i :: 0 <= i < n && ExpectedParent(frames, i).Some? ==> (ExpectedParent(frames, i).value, i) in att) &&
      (forall a, b :: 0 <= a < b < |att| ==> att[a].1 < att[b].1)
  {
    if n > 0 {
      HierarchyEdges(frames, bones, n - 1);
      var att0 := HierarchyUpTo(frames, bones, n - 1).value.attachments;
      var att := HierarchyUpTo(frames, bones, n).value.attachments;
      assert att == att0 || att == att0 + [att[|att| - 1]];
      forall i | 0 <= i < n && ExpectedParent(frames, i).Some?
        ensures (ExpectedParent(frames, i).value, i) in att
      {
        if i < n - 1 {
          var a :| 0 <= a < |att0| && att0[a] == (ExpectedParent(frames, i).value, i);
          assert att[a] == att0[a];
        } else {
          assert att[|att| - 1] == (ExpectedParent(frames, i).value, i);
        }
      }
    }
  }

  /** The skeleton is found iff some frame is a skeleton root; it is the last such frame,
      with that frame's bones indexed. */
  lemma {:induction false} HierarchySkeleton(frames: seq<Frame>, bones: map<u32, nat>, n: nat)
    requires n <= |frames| && HierarchyUpTo(frames, bones, n).Ok?
    ensures var s := HierarchyUpTo(frames, bones, n).value.skeleton;
      (s.Some? <==> exists i :: 0 <= i < n && IsSkeletonRoot(frames, i)) &&
      (s.Some? ==>
         s.value.boneRoot < n && IsSkeletonRoot(frames, s.value.boneRoot) &&
         (forall j :: s.value.boneRoot < j < n ==> !IsSkeletonRoot(frames, j)) &&
         IndexBones(frames[s.value.boneRoot].hanim.value.bones, bones, |frames[s.value.boneRoot].hanim.value.bones|)
           == Ok(s.value.indexedBones))
  {
    if n > 0 {
      HierarchySkeleton(frames, bones, n - 1);
      if !IsSkeletonRoot(frames, n - 1) && exists i :: 0 <= i < n && IsSkeletonRoot(frames, i) {
        var i :| 0 <= i < n && IsSkeletonRoot(frames, i);
        assert i < n - 1;
      }
    }
  }

  lemma {:induction false} HierarchyPrefixErr(frames: seq<Frame>, bones: map<u32, nat>, k: nat, n: nat)
    requires k <= n <= |frames| && HierarchyUpTo(frames, bones, k).Err?
    ensures HierarchyUpTo(frames, bones, n) == HierarchyUpTo(frames, bones, k)
    decreases n - k
  {
    if k < n {
      HierarchyPrefixErr(frames, bones, k, n - 1);
    }
  }

  /** The loop over `0..chunk.frames.len()` that attaches entities and finds the skeleton. */
  method BuildHierarchy(frames: seq<Frame>, bones: map<u32, nat>) returns (r: Result<Hierarchy, DffError>)
    ensures r == HierarchyUpTo(frames, bones, |frames|)
  {
    var attachments: seq<(Node, nat)> := [];
    var skeleton: Option<HAnimBone> := None;
    for i := 0 to |frames|
      invariant HierarchyUpTo(frames, bones, i) == Ok(Hierarchy(attachments, skeleton))
    {
      if frames[i].parent > 0 && frames[i].parent != AsI32(i) {
        if frames[i].parent as int >= |frames| {
          HierarchyPrefixErr(frames, bones, i + 1, |frames|);
          return Err(FrameParentOutOfRange(i, frames[i].parent as nat));
        }
        attachments := attachments + [(FrameNode(frames[i].parent as nat), i)];
      } else if frames[i].hanim.Some? {
        var indexed := IndexHAnimBones(frames[i].hanim.value.bones, bones);
        if indexed.Err? {
          HierarchyPrefixErr(frames, bones, i + 1, |frames|);
          return Err(indexed.error);
        }
        skeleton := Some(HAnimBone(i, indexed.value));
      } else {
        attachments := attachments + [(ClumpParent, i)];
      }
    }
    r := Ok(Hierarchy(attachments, skeleton));
  }

  // ------------------------------------------------------------ atomics

  /** The atomic loop over the first `n` atomics: each one's geometry created on its
      frame's entity. An atomic naming a frame or geometry past the end panics. */
  function AtomicsUpTo(clump: Clump, entities: seq<EntityDef>, skeleton: Option<HAnimBone>, n: nat)
    : Result<seq<(nat, GeometryEffect)>, DffError>
    requires n <= |clump.atomics|
  {
    if n == 0 then Ok([])
    else
      match AtomicsUpTo(clump, entities, skeleton, n - 1)
      case Err(e) => Err(e)
      case Ok(ms) =>
        var a := clump.atomics[n - 1];
        if a.frame as int >= |entities| then Err(AtomicFrameOutOfRange(n - 1))
        else if a.geometry as int >= |clump.geometries| then Err(AtomicGeometryOutOfRange(n - 1))
        else
          match GeometryEffectOf(clump.geometries[a.geometry], skeleton, entities[a.frame].name)
          case Err(e) => Err(e)
          case Ok(g) => Ok(ms + [(a.frame as nat, g)])
  }

  /** An atomic is usable when both its indices are in range and its geometry can be created. */
  predicate AtomicOk(clump: Clump, entities: seq<EntityDef>, skeleton: Option<HAnimBone>, k: nat)
    requires k < |clump.atomics|
  {
    var a := clump.atomics[k];
    a.frame as int < |entities| && a.geometry as int < |clump.geometries| &&
    GeometryEffectOf(clump.geometries[a.geometry], skeleton, entities[a.frame].name).Ok?
  }

  /** What atomic `k` contributes: its frame and the geometry created there. */
  function AtomicEffect(clump: Clump, entities: seq<EntityDef>, skeleton: Option<HAnimBone>, k: nat): (nat, GeometryEffect)
    requires k < |clump.atomics| && AtomicOk(clump, entities, skeleton, k)
  {
    var a := clump.atomics[k];
    (a.frame as nat, GeometryEffectOf(clump.geometries[a.geometry], skeleton, entities[a.frame].name).value)
  }

  /** The atomic loop succeeds iff every atomic is usable; then effect `k` is atomic `k`'s
      geometry on its frame. */
  lemma {:induction false} AtomicsSpec(clump: Clump, entities: seq<EntityDef>, skeleton: Option<HAnimBone>, n: nat)
    requires n <= |clump.atomics|
    ensures AtomicsUpTo(clump, entities, skeleton, n).Ok? <==> forall k :: 0 <= k < n ==> AtomicOk(clump, entities, skeleton, k)
    ensures AtomicsUpTo(clump, entities, skeleton, n).Ok? ==> var ms := AtomicsUpTo(clump, entities, skeleton, n).value;
      |ms| == n && forall k :: 0 <= k < n ==> AtomicOk(clump, entities, skeleton, k) && ms[k] == AtomicEffect(clump, entities, skeleton, k)
  {
    if n > 0 {
      AtomicsSpec(clump, entities, skeleton, n - 1);
      if AtomicsUpTo(clump, entities, skeleton, n - 1).Ok? && AtomicOk(clump, entities, skeleton, n - 1) {
        var ms := AtomicsUpTo(clump, entities, skeleton, n - 1).value;
        assert AtomicsUpTo(clump, entities, skeleton, n) == Ok(ms + [AtomicEffect(clump, entities, skeleton, n - 1)]);
      }
    }
  }

  lemma {:induction false} AtomicsPrefixErr(clump: Clump, entities: seq<EntityDef>, skeleton: Option<HAnimBone>, k: nat, n: nat)
    requires k <= n <= |clump.atomics| && AtomicsUpTo(clump, entities, skeleton, k).Err?
    ensures AtomicsUpTo(clump, entities, skeleton, n) == AtomicsUpTo(clump, entities, skeleton, k)
    decreases n - k
  {
    if k < n {
      AtomicsPrefixErr(clump, entities, skeleton, k, n - 1);
    }
  }

  /** The loop over `chunk.atomics`. */
  method CreateAtomics(clump: Clump, entities: seq<EntityDef>, skeleton: Option<HAnimBone>)
    returns (r: Result<seq<(nat, GeometryEffect)>, DffError>)
    ensures r == AtomicsUpTo(clump, entities, skeleton, |clump.atomics|)
  {
    var meshes: seq<(nat, GeometryEffect)> := [];
    for k := 0 to |clump.atomics|
      invariant AtomicsUpTo(clump, entities, skeleton, k) == Ok(meshes)
    {
      var a := clump.atomics[k];
      if a.frame as int >= |entities| {
        AtomicsPrefixErr(clump, entities, skeleton, k + 1, |clump.atomics|);
        return Err(AtomicFrameOutOfRange(k));
      }
      if a.geometry as int >= |clump.geometries| {
        AtomicsPrefixErr(clump, entities, skeleton, k + 1, |clump.atomics|);
        return Err(AtomicGeometryOutOfRange(k));
      }
      var g := CreateGeometry(clump.geometries[a.geometry], skeleton, entities[a.frame].name);
      if g.Err? {
        AtomicsPrefixErr(clump, entities, skeleton, k + 1, |clump.atomics|);
        return Err(g.error);
      }
      meshes := meshes + [(a.frame as nat, g.value)];
    }
    r := Ok(meshes);
  }

  // ------------------------------------------------------------ load_clump

  /** The effect of loading a clump: its entities, the attachments, the skeleton, and
      the geometry created on each atomic's frame, in atomic order. */
  datatype ClumpEffect = ClumpEffect(
    entities: seq<EntityDef>,
    attachments: seq<(Node, nat)>,
    skeleton: Option<HAnimBone>,
    meshes: seq<(nat, GeometryEffect)>)

  function ClumpEffectOf(clump: Clump): Result<ClumpEffect, DffError>
  {
    var entities := FrameEntities(clump.frames);
    match HierarchyUpTo(clump.frames, BoneTable(clump.frames, |clump.frames|), |clump.frames|)
    case Err(e) => Err(e)
    case Ok(h) =>
      match AtomicsUpTo(clump, entities, h.skeleton, |clump.atomics|)
      case Err(e) => Err(e)
      case Ok(ms) => Ok(ClumpEffect(entities, h.attachments, h.skeleton, ms))
  }

  /** A loaded clump has one entity per frame; every mesh sits on an existing frame's
      entity, one per atomic; and a skinned mesh is only created when a skeleton was found. */
  lemma LoadedClumpShape(clump: Clump)
    requires ClumpEffectOf(clump).Ok?
    ensures var c := ClumpEffectOf(clump).value;
      |c.entities| == |clump.frames| && |c.meshes| == |clump.atomics| &&
      (forall k :: 0 <= k < |c.meshes| ==> c.meshes[k].0 < |clump.frames|) &&
      (forall k :: 0 <= k < |c.meshes| && c.meshes[k].1.SkinnedMeshes? ==> c.skeleton.Some?)
  {
    var c := ClumpEffectOf(clump).value;
    var entities := FrameEntities(clump.frames);
    AtomicsSpec(clump, entities, c.skeleton, |clump.atomics|);
    forall k | 0 <= k < |c.meshes|
      ensures c.meshes[k].0 < |clump.frames|
      ensures c.meshes[k].1.SkinnedMeshes? ==> c.skeleton.Some?
    {
      assert AtomicOk(clump, entities, c.skeleton, k);
      var a := clump.atomics[k];
      GeometryEarlyExits(clump.geometries[a.geometry], c.skeleton, entities[a.frame].name);
    }
  }

  /** `load_clump`. */
  method LoadClump(clump: Clump) returns (r: Result<ClumpEffect, DffError>)
    ensures r == ClumpEffectOf(clump)
  {
    var entities, bones := CreateFrameEntities(clump.frames);
    var h := BuildHierarchy(clump.frames, bones);
    if h.Err? {
      return Err(h.error);
    }
    var meshes := CreateAtomics(clump, entities, h.value.skeleton);
    if meshes.Err? {
      return Err(meshes.error);
    }
    r := Ok(ClumpEffect(entities, h.value.attachments, h.value.skeleton, meshes.value));
  }
}
