/** Geometry building for DFF models (dff.rs): the matrix layouts, `create_geometry`
    and `create_geometry_internal`. Entities are the indices of the frames that carry
    them; textures are named, their data is not resolved. */
module DffGeometry {
  import opened Wrappers
  import opened Primitives
  import opened Text
  import opened Rwbs

  // ------------------------------------------------------------ matrices

  /** `radiance::math::Mat44`: `floats[row][column]`. */
  datatype Mat44 = Mat44(floats: seq<seq<F32>>)

  predicate Is4x4(m: Mat44)
  {
    |m.floats| == 4 && forall r :: 0 <= r < 4 ==> |m.floats[r]| == 4
  }

  /** `Mat44::new_identity`. */
  function Identity(): (m: Mat44)
    ensures Is4x4(m)
    ensures forall r, c :: 0 <= r < 4 && 0 <= c < 4 ==> m.floats[r][c] == if r == c then F32_ONE else F32_ZERO
  {
    Mat44([[F32_ONE, F32_ZERO, F32_ZERO, F32_ZERO],
           [F32_ZERO, F32_ONE, F32_ZERO, F32_ZERO],
           [F32_ZERO, F32_ZERO, F32_ONE, F32_ZERO],
           [F32_ZERO, F32_ZERO, F32_ZERO, F32_ONE]])
  }

  /** `mat.floats_mut()[row][col] = v`: one cell changes, the others stay. */
  function SetCell(m: Mat44, row: nat, col: nat, v: F32): (r: Mat44)
    requires Is4x4(m) && row < 4 && col < 4
    ensures Is4x4(r)
    ensures r.floats[row][col] == v
    ensures forall i, j :: 0 <= i < 4 && 0 <= j < 4 && (i != row || j != col) ==> r.floats[i][j] == m.floats[i][j]
  {
    Mat44(m.floats[row := m.floats[row][col := v]])
  }

  function Component(v: Vec3f, i: nat): F32
    requires i < 3
  {
    if i == 0 then v.x else if i == 1 then v.y else v.z
  }

  /** The transform of a frame: rotation columns `right`, `up`, `at`, then the position,
      over an identity bottom row. */
  function FrameMatrix(frame: Frame): (m: Mat44)
    ensures Is4x4(m)
    ensures forall r :: 0 <= r < 3 ==>
      m.floats[r][0] == Component(frame.right, r) && m.floats[r][1] == Component(frame.up, r) &&
      m.floats[r][2] == Component(frame.at, r) && m.floats[r][3] == Component(frame.pos, r)
    ensures m.floats[3] == [F32_ZERO, F32_ZERO, F32_ZERO, F32_ONE]
  {
    Mat44([[frame.right.x, frame.up.x, frame.at.x, frame.pos.x],
           [frame.right.y, frame.up.y, frame.at.y, frame.pos.y],
           [frame.right.z, frame.up.z, frame.at.z, frame.pos.z],
           [F32_ZERO, F32_ZERO, F32_ZERO, F32_ONE]])
  }

  /** `create_matrix`: writes the twelve cells of the frame's transform into an identity matrix. */
  method CreateMatrix(frame: Frame) returns (mat: Mat44)
    ensures mat == FrameMatrix(frame)
  {
    mat := Identity();
    mat := SetCell(mat, 0, 0, frame.right.x);
    mat := SetCell(mat, 1, 0, frame.right.y);
    mat := SetCell(mat, 2, 0, frame.right.z);
    mat := SetCell(mat, 0, 1, frame.up.x);
    mat := SetCell(mat, 1, 1, frame.up.y);
    mat := SetCell(mat, 2, 1, frame.up.z);
    mat := SetCell(mat, 0, 2, frame.at.x);
    mat := SetCell(mat, 1, 2, frame.at.y);
    mat := SetCell(mat, 2, 2, frame.at.z);
    mat := SetCell(mat, 0, 3, frame.pos.x);
    mat := SetCell(mat, 1, 3, frame.pos.y);
    mat := SetCell(mat, 2, 3, frame.pos.z);
    SameCells(mat, FrameMatrix(frame));
  }

  /** Two 4x4 matrices with the same cells are the same matrix. */
  lemma SameCells(a: Mat44, b: Mat44)
    requires Is4x4(a) && Is4x4(b)
    requires forall r, c :: 0 <= r < 4 && 0 <= c < 4 ==> a.floats[r][c] == b.floats[r][c]
    ensures a == b
  {
    forall r | 0 <= r < 4 ensures a.floats[r] == b.floats[r] {
      assert forall c :: 0 <= c < 4 ==> a.floats[r][c] == b.floats[r][c];
    }
  }

  /** The matrix whose 16 floats, read column after column, are `m`. */
  function ColumnMajor(m: Matrix44f): (mat: Mat44)
    ensures Is4x4(mat)
  {
    Mat44(seq(4, r requires 0 <= r < 4 => seq(4, c requires 0 <= c < 4 => m[4 * c + r])))
  }

  /** The 16 floats of a 4x4 matrix, column after column. */
  function Flatten(mat: Mat44): (m: Matrix44f)
    requires Is4x4(mat)
  {
    seq(16, k requires 0 <= k < 16 => mat.floats[k % 4][k / 4])
  }

  /** Cell `[r][c]` of `ColumnMajor(m)` is `m[4c + r]`, and flattening undoes the layout both ways. */
  lemma ColumnMajorLayout(m: Matrix44f, mat: Mat44)
    requires Is4x4(mat)
    ensures forall r, c :: 0 <= r < 4 && 0 <= c < 4 ==> ColumnMajor(m).floats[r][c] == m[4 * c + r]
    ensures Flatten(ColumnMajor(m)) == m
    ensures ColumnMajor(Flatten(mat)) == mat
  {
    var back := ColumnMajor(Flatten(mat));
    forall r, c | 0 <= r < 4 && 0 <= c < 4 ensures back.floats[r][c] == mat.floats[r][c] {
      assert (4 * c + r) % 4 == r && (4 * c + r) / 4 == c;
    }
    SameCells(back, mat);
    forall k | 0 <= k < 16 ensures Flatten(ColumnMajor(m))[k] == m[k] {
      assert 4 * (k / 4) + k % 4 == k;
    }
  }

  /** `create_mat44_from_matrix44f`: writes all sixteen cells, reading the floats column after column. */
  method CreateMat44FromMatrix44f(m: Matrix44f) returns (mat: Mat44)
    ensures mat == ColumnMajor(m)
  {
    mat := Identity();
    mat := SetCell(mat, 0, 0, m[0]);
    mat := SetCell(mat, 1, 0, m[1]);
    mat := SetCell(mat, 2, 0, m[2]);
    mat := SetCell(mat, 3, 0, m[3]);
    mat := SetCell(mat, 0, 1, m[4]);
    mat := SetCell(mat, 1, 1, m[5]);
    mat := SetCell(mat, 2, 1, m[6]);
    mat := SetCell(mat, 3, 1, m[7]);
    mat := SetCell(mat, 0, 2, m[8]);
    mat := SetCell(mat, 1, 2, m[9]);
    mat := SetCell(mat, 2, 2, m[10]);
    mat := SetCell(mat, 3, 2, m[11]);
    mat := SetCell(mat, 0, 3, m[12]);
    mat := SetCell(mat, 1, 3, m[13]);
    mat := SetCell(mat, 2, 3, m[14]);
    mat := SetCell(mat, 3, 3, m[15]);
    SameCells(mat, ColumnMajor(m));
  }

  /** A frame's fields in RenderWare's own 16-float order: each column padded to four. */
  function PackFrame(frame: Frame): (m: Matrix44f)
  {
    [frame.right.x, frame.right.y, frame.right.z, F32_ZERO,
     frame.up.x, frame.up.y, frame.up.z, F32_ZERO,
     frame.at.x, frame.at.y, frame.at.z, F32_ZERO,
     frame.pos.x, frame.pos.y, frame.pos.z, F32_ONE]
  }

  /** The two layouts agree: `create_matrix` is `create_mat44_from_matrix44f` applied to
      the frame packed column after column with `0, 0, 0, 1` as its last row. */
  lemma FrameMatrixIsColumnMajor(frame: Frame)
    ensures FrameMatrix(frame) == ColumnMajor(PackFrame(frame))
  {
    SameCells(FrameMatrix(frame), ColumnMajor(PackFrame(frame)));
  }

  // ------------------------------------------------------------ errors and mesh data

  /** The panics of `load_clump` and `create_geometry_internal`, as errors. */
  datatype DffError =
    | FrameParentOutOfRange(frame: nat, parent: nat)
    | MissingBoneId(id: u32)
    | AtomicFrameOutOfRange(atomic: nat)
    | AtomicGeometryOutOfRange(atomic: nat)
    | MaterialOutOfRange(material: u16)
    | NoSkeleton
    | MissingIndexedBone(index: nat)

  /** `radiance::math::Vec3` and the mesh texture coordinate. */
  datatype Vec3 = Vec3(x: F32, y: F32, z: F32)
  datatype MeshTexCoord = MeshTexCoord(u: F32, v: F32)

  /** `SimpleMaterialDef::create2(name, data, true)`: the texture's name, or `"missing"`
      for an untextured material; whether texture data was looked up at all. */
  datatype MaterialDef = MaterialDef(name: string, textured: bool)

  /** The material and the vertex indices collected for one material id. */
  datatype Group = Group(material: MaterialDef, indices: seq<u32>)

  /** `radiance::components::mesh::Geometry`. */
  datatype MeshGeometry = MeshGeometry(vertices: seq<Vec3>, texcoords: seq<seq<MeshTexCoord>>, indices: seq<u32>, material: MaterialDef)

  /** The skeleton found while attaching frames: its root frame and the skin-index
      to bone-frame table. */
  datatype HAnimBone = HAnimBone(boneRoot: nat, indexedBones: map<u32, nat>)

  /** The child entity `create_geometry_internal` makes for one skinned geometry. */
  datatype SkinnedChild = SkinnedChild(
    name: string, geometry: MeshGeometry, boneRoot: nat, bones: seq<nat>,
    boneIds: seq<seq<nat>>, weights: seq<seq<F32>>)

  /** What one geometry adds to its entity: nothing, a static mesh component, or bone
      poses (bone frame, matrix) in the order they are set and one skinned child per material. */
  datatype GeometryEffect =
    | NoMesh
    | StaticMesh(geometries: map<u16, MeshGeometry>)
    | SkinnedMeshes(bonePoses: seq<(nat, Mat44)>, children: map<u16, SkinnedChild>)

  // ------------------------------------------------------------ create_geometry selections

  /** The texcoord sets kept: the first one alone when there are several. */
  function SelectTexcoordSets(sets: seq<seq<TexCoord>>): (r: seq<seq<TexCoord>>)
    ensures |r| == (if |sets| == 0 then 0 else 1)
    ensures r == sets[..|r|]
  {
    if |sets| > 1 then [sets[0]] else sets
  }

  /** The first skin-plugin extension, if any. */
  function FirstSkin(exts: seq<Extension>): Option<SkinPlugin>
  {
    if |exts| == 0 then None
    else if exts[0].Skin? then Some(exts[0].plugin)
    else FirstSkin(exts[1..])
  }

  /** FirstSkin finds a skin plugin iff there is one, and no skin plugin comes before it. */
  lemma {:induction false} FirstSkinIsFirst(exts: seq<Extension>)
    ensures FirstSkin(exts).None? <==> forall k :: 0 <= k < |exts| ==> !exts[k].Skin?
    ensures FirstSkin(exts).Some? ==> exists k :: 0 <= k < |exts| && exts[k] == Skin(FirstSkin(exts).value) && forall j :: 0 <= j < k ==> !exts[j].Skin?
  {
    if |exts| > 0 && !exts[0].Skin? {
      var rest := exts[1..];
      FirstSkinIsFirst(rest);
      if FirstSkin(rest).Some? {
        var k :| 0 <= k < |rest| && rest[k] == Skin(FirstSkin(rest).value) && forall j :: 0 <= j < k ==> !rest[j].Skin?;
        assert exts[k + 1] == rest[k];
        forall j | 0 <= j < k + 1 ensures !exts[j].Skin? {
          if j > 0 {
            assert exts[j] == rest[j - 1];
          }
        }
      } else {
        forall k | 0 <= k < |exts| ensures !exts[k].Skin? {
          if k > 0 {
            assert exts[k] == rest[k - 1];
          }
        }
      }
    } else if |exts| > 0 {
      assert exts[0] == Skin(FirstSkin(exts).value);
    }
  }

  /** The loop over the extensions that stops at the first skin plugin. */
  method FindSkinPlugin(exts: seq<Extension>) returns (r: Option<SkinPlugin>)
    ensures r == FirstSkin(exts)
  {
    r := None;
    for k := 0 to |exts|
      invariant forall j :: 0 <= j < k ==> !exts[j].Skin?
    {
      if exts[k].Skin? {
        r := Some(exts[k].plugin);
        FirstSkinAt(exts, k);
        return;
      }
    }
    FirstSkinIsFirst(exts);
  }

  /** A skin plugin preceded by none is the one FirstSkin picks. */
  lemma {:induction false} FirstSkinAt(exts: seq<Extension>, k: nat)
    requires k < |exts| && exts[k].Skin?
    requires forall j :: 0 <= j < k ==> !exts[j].Skin?
    ensures FirstSkin(exts) == Some(exts[k].plugin)
  {
    if k > 0 {
      FirstSkinAt(exts[1..], k - 1);
    }
  }

  // ------------------------------------------------------------ vertices and texcoords

  function Vec3s(vs: seq<Vec3f>): (r: seq<Vec3>)
    ensures |r| == |vs|
    ensures forall i :: 0 <= i < |vs| ==> r[i] == Vec3(vs[i].x, vs[i].y, vs[i].z)
  {
    seq(|vs|, i requires 0 <= i < |vs| => Vec3(vs[i].x, vs[i].y, vs[i].z))
  }

  /** The vertex loop: one `Vec3` pushed per vertex, in order. */
  method CopyVertices(vs: seq<Vec3f>) returns (r: seq<Vec3>)
    ensures r == Vec3s(vs)
  {
    r := [];
    for i := 0 to |vs|
      invariant |r| == i
      invariant forall k :: 0 <= k < i ==> r[k] == Vec3(vs[k].x, vs[k].y, vs[k].z)
    {
      r := r + [Vec3(vs[i].x, vs[i].y, vs[i].z)];
    }
  }

  /** The texcoord conversion: each set, and each coordinate in it, in order. */
  function ConvertTexCoords(sets: seq<seq<TexCoord>>): (r: seq<seq<MeshTexCoord>>)
    ensures |r| == |sets|
    ensures forall i :: 0 <= i < |sets| ==>
      (|r[i]| == |sets[i]| && forall j :: 0 <= j < |sets[i]| ==> r[i][j] == MeshTexCoord(sets[i][j].u, sets[i][j].v))
  {
    seq(|sets|, i requires 0 <= i < |sets| =>
      seq(|sets[i]|, j requires 0 <= j < |sets[i]| => MeshTexCoord(sets[i][j].u, sets[i][j].v)))
  }

  // ------------------------------------------------------------ grouping by material

  function TriangleIndices(t: Triangle): (r: seq<u32>)
    ensures |r| == 3
  {
    [t.i0 as u32, t.i1 as u32, t.i2 as u32]
  }

  /** The index triples of the triangles drawn with material `m`, in input order. */
  function GroupIndices(tris: seq<Triangle>, m: u16): seq<u32>
  {
    if |tris| == 0 then []
    else
      var t := tris[|tris| - 1];
      GroupIndices(tris[..|tris| - 1], m) + (if t.material == m then TriangleIndices(t) else [])
  }

  /** The distinct material ids of the triangles. */
  function MaterialIds(tris: seq<Triangle>): set<u16>
  {
    set k | 0 <= k < |tris| :: tris[k].material
  }

  predicate MaterialsInRange(tris: seq<Triangle>, materials: seq<Material>)
  {
    forall k :: 0 <= k < |tris| ==> tris[k].material as int < |materials|
  }

  function MaterialDefOf(material: Material): MaterialDef
  {
    match material.texture
    case Some(texture) => MaterialDef(texture.name, true)
    case None => MaterialDef("missing", false)
  }

  lemma MaterialIdsSnoc(tris: seq<Triangle>)
    requires |tris| > 0
    ensures MaterialIds(tris) == MaterialIds(tris[..|tris| - 1]) + {tris[|tris| - 1].material}
  {
    var p := tris[..|tris| - 1];
    forall m | m in MaterialIds(tris) ensures m in MaterialIds(p) + {tris[|tris| - 1].material} {
      var k :| 0 <= k < |tris| && tris[k].material == m;
      if k < |p| {
        assert p[k] == tris[k];
      }
    }
    forall m | m in MaterialIds(p) ensures m in MaterialIds(tris) {
      var k :| 0 <= k < |p| && p[k].material == m;
      assert tris[k] == p[k];
    }
  }

  /** The material-to-indices table after the triangles, one `entry(..).or_insert_with`
      and three pushes per triangle. A material id past the material list panics when
      its first triangle creates the entry. */
  function GroupsOf(tris: seq<Triangle>, materials: seq<Material>): Result<map<u16, Group>, DffError>
  {
    if |tris| == 0 then Ok(map[])
    else
      var t := tris[|tris| - 1];
      match GroupsOf(tris[..|tris| - 1], materials)
      case Err(e) => Err(e)
      case Ok(g) =>
        if t.material in g then
          Ok(g[t.material := Group(g[t.material].material, g[t.material].indices + TriangleIndices(t))])
        else if t.material as int >= |materials| then
          Err(MaterialOutOfRange(t.material))
        else
          Ok(g[t.material := Group(MaterialDefOf(materials[t.material]), TriangleIndices(t))])
  }

  /** The half of the grouping property the loop relies on: the keys are the material ids
      seen, each group holds its material and that material's index triples in order. */
  predicate GroupedAs(groups: map<u16, Group>, tris: seq<Triangle>, materials: seq<Material>)
  {
    groups.Keys == MaterialIds(tris) &&
    forall m :: m in groups ==> m as int < |materials| && groups[m] == Group(MaterialDefOf(materials[m]), GroupIndices(tris, m))
  }

  /** Grouping succeeds iff every material id is in range, and then the keys are exactly the
      material ids used and group `m` holds the triples of `m`'s triangles in input order. */
  lemma {:induction false} GroupsOfSpec(tris: seq<Triangle>, materials: seq<Material>)
    ensures GroupsOf(tris, materials).Ok? <==> MaterialsInRange(tris, materials)
    ensures GroupsOf(tris, materials).Ok? ==> GroupedAs(GroupsOf(tris, materials).value, tris, materials)
    decreases |tris|
  {
    if |tris| > 0 {
      var p, t := tris[..|tris| - 1], tris[|tris| - 1];
      GroupsOfSpec(p, materials);
      MaterialIdsSnoc(tris);
      assert forall k :: 0 <= k < |p| ==> p[k] == tris[k];
      if GroupsOf(p, materials).Ok? {
        GroupsOfStep(GroupsOf(p, materials).value, tris, materials);
      }
    }
  }

  /** One triangle of the grouping loop keeps GroupedAs. */
  lemma GroupsOfStep(g: map<u16, Group>, tris: seq<Triangle>, materials: seq<Material>)
    requires |tris| > 0
    requires GroupedAs(g, tris[..|tris| - 1], materials)
    requires GroupsOf(tris[..|tris| - 1], materials) == Ok(g)
    ensures GroupsOf(tris, materials).Ok? ==> GroupedAs(GroupsOf(tris, materials).value, tris, materials)
  {
    var p, t := tris[..|tris| - 1], tris[|tris| - 1];
    MaterialIdsSnoc(tris);
    var r := GroupsOf(tris, materials);
    if r.Ok? {
      var h := r.value;
      forall m | m in h
        ensures m as int < |materials| && h[m] == Group(MaterialDefOf(materials[m]), GroupIndices(tris, m))
      {
        assert GroupIndices(tris, m) == GroupIndices(p, m) + (if t.material == m then TriangleIndices(t) else []);
        if m != t.material {
          assert h[m] == g[m];
        } else if m !in g {
          GroupIndicesEmpty(p, m);
        }
      }
    }
  }

  /** A material out of range stops the loop for good: the error of a prefix is the error of the whole. */
  lemma {:induction false} GroupsOfPrefixErr(tris: seq<Triangle>, materials: seq<Material>, n: nat)
    requires n <= |tris| && GroupsOf(tris[..n], materials).Err?
    ensures GroupsOf(tris, materials) == GroupsOf(tris[..n], materials)
    decreases |tris| - n
  {
    if n < |tris| {
      var p := tris[..|tris| - 1];
      assert p[..n] == tris[..n];
      GroupsOfPrefixErr(p, materials, n);
    } else {
      assert tris[..n] == tris;
    }
  }

  /** The triangle loop of `create_geometry_internal`. */
  method GroupTriangles(tris: seq<Triangle>, materials: seq<Material>) returns (r: Result<map<u16, Group>, DffError>)
    ensures r == GroupsOf(tris, materials)
  {
    var groups: map<u16, Group> := map[];
    assert tris[..0] == [];
    for i := 0 to |tris|
      invariant GroupsOf(tris[..i], materials) == Ok(groups)
    {
      var t := tris[i];
      var q := tris[..i + 1];
      ghost var g := groups;
      assert q[..|q| - 1] == tris[..i] && q[|q| - 1] == t;
      assert GroupsOf(q[..|q| - 1], materials) == Ok(g);
      if t.material !in groups {
        if t.material as int >= |materials| {
          GroupsOfPrefixErr(tris, materials, i + 1);
          return Err(MaterialOutOfRange(t.material));
        }
        groups := groups[t.material := Group(MaterialDefOf(materials[t.material]), [])];
        var group := groups[t.material];
        assert [] + TriangleIndices(t) == TriangleIndices(t);
        groups := groups[t.material := Group(group.material, group.indices + TriangleIndices(t))];
        assert groups == g[t.material := Group(MaterialDefOf(materials[t.material]), TriangleIndices(t))];
        assert GroupsOf(q, materials) == Ok(groups);
      } else {
        var group := groups[t.material];
        groups := groups[t.material := Group(group.material, group.indices + TriangleIndices(t))];
        assert GroupsOf(q, materials) == Ok(groups);
      }
    }
    assert tris[..|tris|] == tris;
    r := Ok(groups);
  }

  /** Grouping distributes over concatenation: each group keeps the input order. */
  lemma {:induction false} GroupIndicesAppend(a: seq<Triangle>, b: seq<Triangle>, m: u16)
    ensures GroupIndices(a + b, m) == GroupIndices(a, m) + GroupIndices(b, m)
    decreases |b|
  {
    if |b| == 0 {
      assert a + b == a;
    } else {
      var ab := a + b;
      var last := b[|b| - 1];
      assert ab[..|ab| - 1] == a + b[..|b| - 1];
      assert ab[|ab| - 1] == last;
      GroupIndicesAppend(a, b[..|b| - 1], m);
    }
  }

  /** A group is empty exactly when no triangle uses its material. */
  lemma {:induction false} GroupIndicesEmpty(tris: seq<Triangle>, m: u16)
    ensures GroupIndices(tris, m) == [] <==> m !in MaterialIds(tris)
    decreases |tris|
  {
    if |tris| > 0 {
      GroupIndicesEmpty(tris[..|tris| - 1], m);
      MaterialIdsSnoc(tris);
    }
  }

  /** The number of indices summed over a set of material ids. */
  ghost function SumSizes(tris: seq<Triangle>, keys: set<u16>): nat
    decreases keys
  {
    if keys == {} then 0
    else
      var m :| m in keys;
      |GroupIndices(tris, m)| + SumSizes(tris, keys - {m})
  }

  /** Any member of the set can be taken out of the sum first. */
  lemma {:induction false} SumSizesSplit(tris: seq<Triangle>, keys: set<u16>, m: u16)
    requires m in keys
    ensures SumSizes(tris, keys) == |GroupIndices(tris, m)| + SumSizes(tris, keys - {m})
    decreases keys
  {
    var x :| x in keys && SumSizes(tris, keys) == |GroupIndices(tris, x)| + SumSizes(tris, keys - {x});
    if x != m {
      SumSizesSplit(tris, keys - {x}, m);
      SumSizesSplit(tris, keys - {m}, x);
      assert keys - {x} - {m} == keys - {m} - {x};
    }
  }

  /** Adding a triangle of material `t.material` leaves every other group's size alone. */
  lemma {:induction false} SumSizesOthers(tris: seq<Triangle>, t: Triangle, keys: set<u16>)
    requires t.material !in keys
    ensures SumSizes(tris + [t], keys) == SumSizes(tris, keys)
    decreases keys
  {
    if keys != {} {
      var x :| x in keys && SumSizes(tris + [t], keys) == |GroupIndices(tris + [t], x)| + SumSizes(tris + [t], keys - {x});
      assert (tris + [t])[..|tris|] == tris;
      assert GroupIndices(tris + [t], x) == GroupIndices(tris, x);
      SumSizesOthers(tris, t, keys - {x});
      SumSizesSplit(tris, keys, x);
    }
  }

  /** Every triangle contributes its three indices to exactly one group: the groups
      hold 3 * |triangles| indices between them. */
  lemma {:induction false} GroupIndicesTotal(tris: seq<Triangle>)
    ensures SumSizes(tris, MaterialIds(tris)) == 3 * |tris|
    decreases |tris|
  {
    if |tris| == 0 {
      assert MaterialIds(tris) == {};
    } else {
      var p, t := tris[..|tris| - 1], tris[|tris| - 1];
      assert tris == p + [t];
      var m := t.material;
      GroupIndicesTotal(p);
      MaterialIdsSnoc(tris);
      var keys := MaterialIds(p);
      assert |GroupIndices(tris, m)| == |GroupIndices(p, m)| + 3;
      SumSizesSplit(tris, MaterialIds(tris), m);
      SumSizesOthers(p, t, MaterialIds(tris) - {m});
      if m in keys {
        assert MaterialIds(tris) == keys;
        SumSizesSplit(p, keys, m);
      } else {
        assert MaterialIds(tris) - {m} == keys;
        GroupIndicesEmpty(p, m);
      }
    }
  }

  /** The grouping the loop builds holds 3 * |triangles| indices over its keys. */
  lemma GroupsTotal(tris: seq<Triangle>, materials: seq<Material>)
    requires MaterialsInRange(tris, materials)
    ensures GroupsOf(tris, materials).Ok?
    ensures SumSizes(tris, GroupsOf(tris, materials).value.Keys) == 3 * |tris|
  {
    GroupsOfSpec(tris, materials);
    GroupIndicesTotal(tris);
  }

  // ------------------------------------------------------------ skinned meshes

  /** The bone loop's results for the first `n` skin matrices: the bone entity found for
      index `i` and the matrix set on its transform. A missing index panics. */
  function BonePoses(matrices: seq<Matrix44f>, indexed: map<u32, nat>, n: nat): Result<seq<(nat, Mat44)>, DffError>
    requires n <= |matrices|
  {
    if n == 0 then Ok([])
    else
      match BonePoses(matrices, indexed, n - 1)
      case Err(e) => Err(e)
      case Ok(ps) =>
        if AsU32(n - 1) !in indexed then Err(MissingIndexedBone(n - 1))
        else Ok(ps + [(indexed[AsU32(n - 1)], ColumnMajor(matrices[n - 1]))])
  }

  /** The loop succeeds iff every skin index has a bone, and then pose `i` is bone
      `indexed_bones[i]` with skin matrix `i` in column-major layout. */
  lemma {:induction false} BonePosesSpec(matrices: seq<Matrix44f>, indexed: map<u32, nat>, n: nat)
    requires n <= |matrices|
    ensures BonePoses(matrices, indexed, n).Ok? <==> forall i :: 0 <= i < n ==> AsU32(i) in indexed
    ensures BonePoses(matrices, indexed, n).Ok? ==> var ps := BonePoses(matrices, indexed, n).value;
      |ps| == n && forall i :: 0 <= i < n ==> ps[i] == (indexed[AsU32(i)], ColumnMajor(matrices[i]))
  {
    if n > 0 {
      BonePosesSpec(matrices, indexed, n - 1);
    }
  }

  lemma {:induction false} BonePosesPrefixErr(matrices: seq<Matrix44f>, indexed: map<u32, nat>, k: nat, n: nat)
    requires k <= n <= |matrices| && BonePoses(matrices, indexed, k).Err?
    ensures BonePoses(matrices, indexed, n) == BonePoses(matrices, indexed, k)
    decreases n - k
  {
    if k < n {
      BonePosesPrefixErr(matrices, indexed, k, n - 1);
    }
  }

  /** The loop over the skin matrices (`bones.push`, `set_matrix`). */
  method PoseBones(matrices: seq<Matrix44f>, indexed: map<u32, nat>) returns (r: Result<seq<(nat, Mat44)>, DffError>)
    ensures r == BonePoses(matrices, indexed, |matrices|)
  {
    var poses: seq<(nat, Mat44)> := [];
    for i := 0 to |matrices|
      invariant BonePoses(matrices, indexed, i) == Ok(poses)
    {
      var key := AsU32(i);
      if key !in indexed {
        BonePosesPrefixErr(matrices, indexed, i + 1, |matrices|);
        return Err(MissingIndexedBone(i));
      }
      var bone := indexed[key];
      var mat := CreateMat44FromMatrix44f(matrices[i]);
      poses := poses + [(bone, mat)];
    }
    r := Ok(poses);
  }

  function PosedBones(poses: seq<(nat, Mat44)>): (r: seq<nat>)
    ensures |r| == |poses| && forall i :: 0 <= i < |poses| ==> r[i] == poses[i].0
  {
    seq(|poses|, i requires 0 <= i < |poses| => poses[i].0)
  }

  /** The `bone_id` conversion: every `u8` of every quadruple widened, in order. */
  function BoneIds(ids: seq<BoneIndices>): (r: seq<seq<nat>>)
    ensures |r| == |ids|
    ensures forall k :: 0 <= k < |ids| ==> (|r[k]| == 4 && forall j :: 0 <= j < 4 ==> r[k][j] == ids[k][j] as nat)
  {
    seq(|ids|, k requires 0 <= k < |ids| => [ids[k][0] as nat, ids[k][1] as nat, ids[k][2] as nat, ids[k][3] as nat])
  }

  /** `format!("{}_geom", entity.name())`. */
  function GeomChildName(name: string): (r: string)
    ensures r == name + "_geom"
  {
    Format1("", "_geom", name);
    assert "" + ("{}" + "_geom") == "{}" + "_geom";
    assert "" + (name + "_geom") == name + "_geom";
    Format("{}" + "_geom", [name])
  }

  // ------------------------------------------------------------ create_geometry_internal

  /** One mesh geometry per group, sharing the vertices and texcoords. */
  function MeshGeometries(vertices: seq<Vec3>, texcoords: seq<seq<MeshTexCoord>>, groups: map<u16, Group>): (r: map<u16, MeshGeometry>)
    ensures r.Keys == groups.Keys
    ensures forall m :: m in groups ==>
      r[m] == MeshGeometry(vertices, texcoords, groups[m].indices, groups[m].material)
  {
    map m | m in groups :: MeshGeometry(vertices, texcoords, groups[m].indices, groups[m].material)
  }

  /** One skinned child per geometry, all bound to the same skeleton. */
  function SkinnedChildren(geometries: map<u16, MeshGeometry>, name: string, root: nat, bones: seq<nat>,
                           ids: seq<seq<nat>>, weights: seq<seq<F32>>): (r: map<u16, SkinnedChild>)
    ensures r.Keys == geometries.Keys
    ensures forall m :: m in geometries ==> r[m] == SkinnedChild(name, geometries[m], root, bones, ids, weights)
  {
    map m | m in geometries :: SkinnedChild(name, geometries[m], root, bones, ids, weights)
  }

  /** What `create_geometry_internal` does to its entity: group the triangles, then
      either add a static mesh or, with a skin plugin, pose the skeleton's bones and add
      one skinned child per material. */
  function GeometryInternal(vertices: seq<Vec3f>, triangles: seq<Triangle>, texcoordSets: seq<seq<TexCoord>>,
                            materials: seq<Material>, skeleton: Option<HAnimBone>, skin: Option<SkinPlugin>,
                            entityName: string): Result<GeometryEffect, DffError>
  {
    match GroupsOf(triangles, materials)
    case Err(e) => Err(e)
    case Ok(groups) =>
      var geometries := MeshGeometries(Vec3s(vertices), ConvertTexCoords(texcoordSets), groups);
      if skin.None? then Ok(StaticMesh(geometries))
      else if skeleton.None? then Err(NoSkeleton)
      else
        match BonePoses(skin.value.matrix, skeleton.value.indexedBones, |skin.value.matrix|)
        case Err(e) => Err(e)
        case Ok(poses) =>
          Ok(SkinnedMeshes(poses, SkinnedChildren(geometries, GeomChildName(entityName), skeleton.value.boneRoot,
                                                  PosedBones(poses), BoneIds(skin.value.boneIndices), skin.value.weights)))
  }

  /** The static-versus-skinned rule. The geometry succeeds iff every triangle's material
      exists and, when it is skinned, a skeleton exists whose index table covers every
      skin matrix. A static geometry yields one mesh per material id used; a skinned one
      poses one bone per skin matrix and yields one child per material id, named
      `<entity>_geom` and bound to the skeleton's root. */
  lemma GeometryInternalSpec(vertices: seq<Vec3f>, triangles: seq<Triangle>, texcoordSets: seq<seq<TexCoord>>,
                             materials: seq<Material>, skeleton: Option<HAnimBone>, skin: Option<SkinPlugin>,
                             entityName: string)
    ensures var r := GeometryInternal(vertices, triangles, texcoordSets, materials, skeleton, skin, entityName);
      (r.Ok? <==> (MaterialsInRange(triangles, materials) &&
                   (skin.Some? ==> skeleton.Some? && forall i :: 0 <= i < |skin.value.matrix| ==> AsU32(i) in skeleton.value.indexedBones))) &&
      (r.Ok? ==> !r.value.NoMesh? && (r.value.StaticMesh? <==> skin.None?)) &&
      (r.Ok? && r.value.StaticMesh? ==> r.value.geometries.Keys == MaterialIds(triangles)) &&
      (r.Ok? && r.value.SkinnedMeshes? ==>
        r.value.children.Keys == MaterialIds(triangles) && |r.value.bonePoses| == |skin.value.matrix| &&
        r.value.bonePoses == BonePoses(skin.value.matrix, skeleton.value.indexedBones, |skin.value.matrix|).value &&
        forall m :: m in r.value.children ==>
          r.value.children[m].name == entityName + "_geom" && r.value.children[m].boneRoot == skeleton.value.boneRoot)
  {
    GroupsOfSpec(triangles, materials);
    if skin.Some? && skeleton.Some? {
      BonePosesSpec(skin.value.matrix, skeleton.value.indexedBones, |skin.value.matrix|);
    }
  }

  /** Every mesh geometry, static or inside a skinned child, carries all the vertices and
      texcoords, in order, and its material group's indices and definition. Every skinned
      child also carries the whole posed bone list, every bone-index quadruple and the
      skin's weights. */
  lemma GeometryInternalMeshes(vertices: seq<Vec3f>, triangles: seq<Triangle>, texcoordSets: seq<seq<TexCoord>>,
                               materials: seq<Material>, skeleton: Option<HAnimBone>, skin: Option<SkinPlugin>,
                               entityName: string)
    requires GeometryInternal(vertices, triangles, texcoordSets, materials, skeleton, skin, entityName).Ok?
    ensures var e := GeometryInternal(vertices, triangles, texcoordSets, materials, skeleton, skin, entityName).value;
      e.StaticMesh? ==> forall m :: m in e.geometries ==>
        m as int < |materials| && e.geometries[m] == MeshGeometry(Vec3s(vertices), ConvertTexCoords(texcoordSets), GroupIndices(triangles, m), MaterialDefOf(materials[m]))
    ensures var e := GeometryInternal(vertices, triangles, texcoordSets, materials, skeleton, skin, entityName).value;
      e.SkinnedMeshes? ==> skin.Some? && forall m :: m in e.children ==>
        m as int < |materials| &&
        e.children[m].geometry == MeshGeometry(Vec3s(vertices), ConvertTexCoords(texcoordSets), GroupIndices(triangles, m), MaterialDefOf(materials[m])) &&
        e.children[m].bones == PosedBones(e.bonePoses) &&
        e.children[m].boneIds == BoneIds(skin.value.boneIndices) &&
        e.children[m].weights == skin.value.weights
  {
    GroupsOfSpec(triangles, materials);
  }

  /** `create_geometry_internal`. */
  method CreateGeometryInternal(vertices: seq<Vec3f>, triangles: seq<Triangle>, texcoordSets: seq<seq<TexCoord>>,
                                materials: seq<Material>, skeleton: Option<HAnimBone>, skin: Option<SkinPlugin>,
                                entityName: string) returns (r: Result<GeometryEffect, DffError>)
    ensures r == GeometryInternal(vertices, triangles, texcoordSets, materials, skeleton, skin, entityName)
  {
    var rVertices := CopyVertices(vertices);
    var rTexcoords := ConvertTexCoords(texcoordSets);
    var groups := GroupTriangles(triangles, materials);
    if groups.Err? {
      return Err(groups.error);
    }
    var geometries := MeshGeometries(rVertices, rTexcoords, groups.value);
    if skin.None? {
      return Ok(StaticMesh(geometries));
    }
    if skeleton.None? {
      return Err(NoSkeleton);
    }
    var poses := PoseBones(skin.value.matrix, skeleton.value.indexedBones);
    if poses.Err? {
      return Err(poses.error);
    }
    var ids := BoneIds(skin.value.boneIndices);
    var children := SkinnedChildren(geometries, GeomChildName(entityName), skeleton.value.boneRoot,
                                    PosedBones(poses.value), ids, skin.value.weights);
    r := Ok(SkinnedMeshes(poses.value, children));
  }

  // ------------------------------------------------------------ create_geometry

  /** `create_geometry`: nothing without a first morph target with vertices; otherwise
      the internal step on those vertices, the selected texcoord sets and the first skin plugin. */
  function GeometryEffectOf(geometry: Geometry, skeleton: Option<HAnimBone>, entityName: string): Result<GeometryEffect, DffError>
  {
    if |geometry.morphTargets| == 0 || geometry.morphTargets[0].vertices.None? then Ok(NoMesh)
    else GeometryInternal(geometry.morphTargets[0].vertices.value, geometry.triangles,
                          SelectTexcoordSets(geometry.texcoordSets), geometry.materials,
                          skeleton, FirstSkin(geometry.extensions), entityName)
  }

  /** A geometry yields nothing exactly at the two early exits, and is skinned exactly when
      one of its extensions is a skin plugin; a skinned geometry needs a skeleton. */
  lemma GeometryEarlyExits(geometry: Geometry, skeleton: Option<HAnimBone>, entityName: string)
    ensures var r := GeometryEffectOf(geometry, skeleton, entityName);
      (r == Ok(NoMesh) <==> |geometry.morphTargets| == 0 || geometry.morphTargets[0].vertices.None?) &&
      (r.Ok? && r.value.SkinnedMeshes? <==>
        r.Ok? && !r.value.NoMesh? && exists k :: 0 <= k < |geometry.extensions| && geometry.extensions[k].Skin?) &&
      (r.Ok? && r.value.SkinnedMeshes? ==> skeleton.Some?)
  {
    FirstSkinIsFirst(geometry.extensions);
    if |geometry.morphTargets| > 0 && geometry.morphTargets[0].vertices.Some? {
      GeometryInternalSpec(geometry.morphTargets[0].vertices.value, geometry.triangles,
                           SelectTexcoordSets(geometry.texcoordSets), geometry.materials,
                           skeleton, FirstSkin(geometry.extensions), entityName);
    }
  }

  method CreateGeometry(geometry: Geometry, skeleton: Option<HAnimBone>, entityName: string) returns (r: Result<GeometryEffect, DffError>)
    ensures r == GeometryEffectOf(geometry, skeleton, entityName)
  {
    if |geometry.morphTargets| == 0 {
      return Ok(NoMesh);
    }
    if geometry.morphTargets[0].vertices.None? {
      return Ok(NoMesh);
    }
    var vertices := geometry.morphTargets[0].vertices.value;
    var texcoordSets := SelectTexcoordSets(geometry.texcoordSets);
    var skin := FindSkinPlugin(geometry.extensions);
    r := CreateGeometryInternal(vertices, geometry.triangles, texcoordSets, geometry.materials, skeleton, skin, entityName);
  }
}
