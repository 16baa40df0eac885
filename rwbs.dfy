/** The parsed RenderWare DFF data that `load_clump` consumes (`fileformats::rwbs`).
    The binary reader itself is not part of this model; a clump arrives already parsed.
    Floats are opaque: the loader only copies them. */
module Rwbs {
  import opened Wrappers
  import opened Primitives

  datatype Vec3f = Vec3f(x: F32, y: F32, z: F32)

  datatype TexCoord = TexCoord(u: F32, v: F32)

  /** Three vertex indices and the material the face is drawn with. */
  datatype Triangle = Triangle(i0: u16, i1: u16, i2: u16, material: u16)

  datatype Texture = Texture(name: string)

  datatype Material = Material(texture: Option<Texture>)

  /** A 4x4 matrix stored as its 16 floats, column after column. */
  type Matrix44f = s: seq<F32> | |s| == 16
    witness [F32_ZERO, F32_ZERO, F32_ZERO, F32_ZERO, F32_ZERO, F32_ZERO, F32_ZERO, F32_ZERO,
             F32_ZERO, F32_ZERO, F32_ZERO, F32_ZERO, F32_ZERO, F32_ZERO, F32_ZERO, F32_ZERO]

  /** The four bone indices of one vertex. */
  type BoneIndices = s: seq<u8> | |s| == 4 witness [0, 0, 0, 0]

  /** The skin plugin: one inverse bind matrix per bone, and per-vertex bone indices and weights. */
  datatype SkinPlugin = SkinPlugin(matrix: seq<Matrix44f>, boneIndices: seq<BoneIndices>, weights: seq<seq<F32>>)

  datatype Extension = Skin(plugin: SkinPlugin) | OtherExtension

  datatype MorphTarget = MorphTarget(vertices: Option<seq<Vec3f>>, normals: Option<seq<Vec3f>>)

  datatype Geometry = Geometry(
    morphTargets: seq<MorphTarget>,
    triangles: seq<Triangle>,
    texcoordSets: seq<seq<TexCoord>>,
    materials: seq<Material>,
    extensions: seq<Extension>)

  /** One bone of an HAnim hierarchy: its id and its index in the skin. */
  datatype HAnimBoneInfo = HAnimBoneInfo(id: u32, index: u32)

  /** The HAnim plugin of a frame: the frame's own bone id (`header.id`) and, on the
      skeleton's root frame, the bones of the whole hierarchy. */
  datatype HAnimPlugin = HAnimPlugin(id: u32, bones: seq<HAnimBoneInfo>)

  /** A frame: its rotation columns and position, its parent's index (negative or its
      own index for none), its name and HAnim plugin if present. */
  datatype Frame = Frame(
    right: Vec3f, up: Vec3f, at: Vec3f, pos: Vec3f,
    parent: i32,
    name: Option<string>,
    hanim: Option<HAnimPlugin>)

  /** An atomic binds a geometry to the frame that carries it. */
  datatype Atomic = Atomic(frame: u32, geometry: u32)

  datatype Clump = Clump(frames: seq<Frame>, atomics: seq<Atomic>, geometries: seq<Geometry>)
}
