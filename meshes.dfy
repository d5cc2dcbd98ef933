/**
 * The building blocks of the chunk mesher in `src/geometry.cpp`: the block-face
 * texture-layer table, the unit-cube face tables, `add_polygon` and `add_face`, and
 * the vertex and index lists that a sequence of emitted faces produces.
 *
 * Vertex positions, normals and texture coordinates are whole numbers in the source
 * (block coordinates plus unit-cube corners), so they are `int` here.
 */
module Meshes {
  import opened Vk
  import opened Voxel
  import opened Culling

  /** `BlockFace`, in the order the tables below are indexed. */
  datatype BlockFace = Top | Bottom | North | South | East | West

  /** `(int)face`. */
  function FaceIndex(f: BlockFace): (i: nat)
    ensures i < 6
  {
    match f
    case Top => 0
    case Bottom => 1
    case North => 2
    case South => 3
    case East => 4
    case West => 5
  }

  /** `block_texture_layers`: one row per block type, in enumeration order, one column per face. */
  const BlockTextureLayers: seq<seq<nat>> := [
    [0, 0, 0, 0, 0, 0],        // Air
    [0, 0, 0, 0, 0, 0],        // Bedrock
    [1, 1, 1, 1, 1, 1],        // Brick
    [2, 2, 2, 2, 2, 2],        // OreCoal
    [3, 3, 3, 3, 3, 3],        // Cobble
    [4, 4, 4, 4, 4, 4],        // MossyCobble
    [15, 15, 15, 15, 15, 15],  // OreDiamond
    [16, 16, 16, 16, 16, 16],  // Dirt
    [21, 18, 18, 18, 18, 18],  // Grass
    [22, 22, 22, 22, 22, 22],  // OreIron
    [17, 17, 17, 17, 17, 17],  // OreGold
    [23, 23, 23, 23, 23, 23],  // OreLapis
    [24, 24, 24, 24, 24, 24],  // Leaves
    [26, 26, 25, 25, 25, 25],  // Log
    [28, 28, 28, 28, 28, 28],  // Planks
    [29, 29, 29, 29, 29, 29]   // Stone
  ]

  /** The table has one row of six layers for each of the sixteen block types, all below 30. */
  lemma TextureTableShape()
    ensures |BlockTextureLayers| == BlockTypeCount
    ensures forall i | 0 <= i < BlockTypeCount :: |BlockTextureLayers[i]| == 6
    ensures forall i, j | 0 <= i < BlockTypeCount && 0 <= j < 6 :: BlockTextureLayers[i][j] < 30
  {
  }

  /** `block_texture_layers[(int)type][(int)face]`: every lookup is in range. */
  function TextureLayer(t: BlockType, f: BlockFace): (layer: nat)
    ensures layer < 30
  {
    TextureTableShape();
    BlockTextureLayers[Ordinal(t)][FaceIndex(f)]
  }

  /** `is_transparent`: only Air lets a neighbouring face show. */
  predicate IsTransparent(t: BlockType) {
    t == Air
  }

  datatype IVec3 = IVec3(x: int, y: int, z: int)

  function IAdd(a: IVec3, b: IVec3): IVec3 { IVec3(a.x + b.x, a.y + b.y, a.z + b.z) }

  /** `unit_cube_face_verts`: the four corners of each face, counter-clockwise. */
  const UnitCubeFaceVerts: seq<seq<IVec3>> := [
    [IVec3(0, 1, 0), IVec3(0, 1, 1), IVec3(1, 1, 1), IVec3(1, 1, 0)],  // Top (Y = 1)
    [IVec3(1, 0, 0), IVec3(1, 0, 1), IVec3(0, 0, 1), IVec3(0, 0, 0)],  // Bottom (Y = 0)
    [IVec3(1, 1, 0), IVec3(1, 0, 0), IVec3(0, 0, 0), IVec3(0, 1, 0)],  // North (Z = 0)
    [IVec3(0, 1, 1), IVec3(0, 0, 1), IVec3(1, 0, 1), IVec3(1, 1, 1)],  // South (Z = 1)
    [IVec3(1, 1, 1), IVec3(1, 0, 1), IVec3(1, 0, 0), IVec3(1, 1, 0)],  // East (X = 1)
    [IVec3(0, 1, 0), IVec3(0, 0, 0), IVec3(0, 0, 1), IVec3(0, 1, 1)]   // West (X = 0)
  ]

  /** `unit_cube_face_normals`, as written: the West entry is (0, 1, 0). */
  const UnitCubeFaceNormals: seq<IVec3> := [
    IVec3(0, 1, 0),   // Top
    IVec3(0, -1, 0),  // Bottom
    IVec3(0, 0, -1),  // North
    IVec3(0, 0, 1),   // South
    IVec3(1, 0, 0),   // East
    IVec3(0, 1, 0)    // West
  ]

  predicate InUnitCube(v: IVec3) {
    0 <= v.x <= 1 && 0 <= v.y <= 1 && 0 <= v.z <= 1
  }

  /** `unit_cube_face_verts[(int)face][k]`, a corner of the unit cube. */
  function FaceCorner(f: BlockFace, k: nat): (c: IVec3)
    requires k < 4
    ensures InUnitCube(c)
  {
    UnitCubeFaceVerts[FaceIndex(f)][k]
  }

  /** `unit_cube_face_normals[(int)face]`. */
  function FaceNormal(f: BlockFace): IVec3 {
    UnitCubeFaceNormals[FaceIndex(f)]
  }

  function Dot(a: IVec3, b: IVec3): int { a.x * b.x + a.y * b.y + a.z * b.z }

  /** The corner seen from the cube's centre, doubled so that it stays integral: `2c - (1, 1, 1)`. */
  function FromCentre(c: IVec3): IVec3 { IVec3(2 * c.x - 1, 2 * c.y - 1, 2 * c.z - 1) }

  /** Each corner of a face lies on that face's plane of the unit cube; the table normal of each face. */
  lemma FacePlane(f: BlockFace, k: nat)
    requires k < 4
    ensures f == Top ==> FaceCorner(f, k).y == 1 && FaceNormal(f) == IVec3(0, 1, 0)
    ensures f == Bottom ==> FaceCorner(f, k).y == 0 && FaceNormal(f) == IVec3(0, -1, 0)
    ensures f == North ==> FaceCorner(f, k).z == 0 && FaceNormal(f) == IVec3(0, 0, -1)
    ensures f == South ==> FaceCorner(f, k).z == 1 && FaceNormal(f) == IVec3(0, 0, 1)
    ensures f == East ==> FaceCorner(f, k).x == 1 && FaceNormal(f) == IVec3(1, 0, 0)
    ensures f == West ==> FaceCorner(f, k).x == 0 && FaceNormal(f) == IVec3(0, 1, 0)
  {
    if k == 0 {
    } else if k == 1 {
    } else if k == 2 {
    } else {
    }
  }

  /**
   * Five of the six table normals are the outward unit normals of their faces: every
   * corner of the face lies one unit along the normal from the cube's centre.
   */
  lemma NormalsOutwardExceptWest(f: BlockFace, k: nat)
    requires f != West && k < 4
    ensures Dot(FaceNormal(f), FromCentre(FaceCorner(f, k))) == 1
  {
    FacePlane(f, k);
    var n, d := FaceNormal(f), FromCentre(FaceCorner(f, k));
    if f == Top || f == Bottom {
      assert n.x == 0 && n.z == 0 && n.y * d.y == 1;
    } else if f == North || f == South {
      assert n.x == 0 && n.y == 0 && n.z * d.z == 1;
    } else {
      assert n.y == 0 && n.z == 0 && n.x * d.x == 1;
    }
  }

  /** The West normal as written is the Top normal. */
  lemma WestNormalIsTopNormal()
    ensures FaceNormal(West) == FaceNormal(Top) == IVec3(0, 1, 0)
  {
  }

  /**
   * Unlike the other five, the West normal is not perpendicular to its face: two corners
   * of the West face lie at different distances along it.
   */
  lemma WestNormalNotPerpendicular()
    ensures Dot(FaceNormal(West), FromCentre(FaceCorner(West, 0)))
         != Dot(FaceNormal(West), FromCentre(FaceCorner(West, 1)))
  {
  }

  /** `Vertex`: position, normal, and texture coordinate whose third component is the texture-array layer. */
  datatype Vertex = Vertex(position: IVec3, normal: IVec3, texCoord: IVec3)

  /** `Chunk::chunk_size` and `Chunk::max_height` of the chunk the mesher works on. */
  const ChunkSize: nat := 16
  const MaxHeight: nat := 256

  /**
   * `chunk_to_world(cx, cz, bx, bz, x, z)`, whose body is not part of this model; it is
   * taken to place block column (bx, bz) of chunk (cx, cz) at world
   * (cx * chunk_size + bx, cz * chunk_size + bz), the same convention on both axes.
   */
  function ChunkToWorld(cx: int, cz: int, bx: int, bz: int): (int, int) {
    (cx * ChunkSize + bx, cz * ChunkSize + bz)
  }

  /** One face `add_face` is asked to emit: block (x, y, z) of type `block`, direction `dir`. */
  datatype Face = Face(x: int, y: int, z: int, block: BlockType, dir: BlockFace)

  /** The texture coordinate of corner `k` of a face on layer `layer`: (0,0), (0,1), (1,1), (1,0). */
  function CornerTexCoord(k: nat, layer: int): IVec3
    requires k < 4
  {
    [IVec3(0, 0, layer), IVec3(0, 1, layer), IVec3(1, 1, layer), IVec3(1, 0, layer)][k]
  }

  /** The four vertices `add_face` hands to `add_polygon` for face `f` of chunk (cx, cz). */
  function FaceVertices(cx: int, cz: int, f: Face): (vs: seq<Vertex>)
    ensures |vs| == 4
    ensures forall k | 0 <= k < 4 ::
      && vs[k].normal == FaceNormal(f.dir)
      && vs[k].texCoord == CornerTexCoord(k, TextureLayer(f.block, f.dir))
  {
    var (ox, oz) := ChunkToWorld(cx, cz, f.x, f.z);
    var origin := IVec3(ox, f.y, oz);
    var n := FaceNormal(f.dir);
    var layer := TextureLayer(f.block, f.dir);
    [ Vertex(IAdd(origin, FaceCorner(f.dir, 0)), n, IVec3(0, 0, layer)),
      Vertex(IAdd(origin, FaceCorner(f.dir, 1)), n, IVec3(0, 1, layer)),
      Vertex(IAdd(origin, FaceCorner(f.dir, 2)), n, IVec3(1, 1, layer)),
      Vertex(IAdd(origin, FaceCorner(f.dir, 3)), n, IVec3(1, 0, layer)) ]
  }

  /** Every vertex of a face lies in the unit cube of its block. */
  lemma FaceVerticesInBlock(cx: int, cz: int, f: Face, k: nat)
    requires k < 4
    ensures var (ox, oz) := ChunkToWorld(cx, cz, f.x, f.z);
      && ox <= FaceVertices(cx, cz, f)[k].position.x <= ox + 1
      && f.y <= FaceVertices(cx, cz, f)[k].position.y <= f.y + 1
      && oz <= FaceVertices(cx, cz, f)[k].position.z <= oz + 1
  {
    var c := FaceCorner(f.dir, k);
    assert InUnitCube(c);
  }

  /** The index list `add_face` hands to `add_polygon`: two triangles (0, 1, 2) and (0, 2, 3). */
  const QuadPattern: seq<nat> := [0, 1, 2, 0, 2, 3]

  /** The indices `add_polygon` appends: each of `idx` plus the `uint32_t` base index, in `uint32_t`. */
  function Rebase(idx: seq<nat>, vertexCount: nat): (r: seq<nat>)
    ensures |r| == |idx|
    ensures forall k | 0 <= k < |r| :: IsUint32(r[k])
  {
    seq(|idx|, k requires 0 <= k < |idx| => (ToUint32(vertexCount) + idx[k]) % Two32)
  }

  /** The vertex list produced by emitting the faces `fs` in order, starting from an empty mesh. */
  function VerticesOf(cx: int, cz: int, fs: seq<Face>): (vs: seq<Vertex>)
    ensures |vs| == 4 * |fs|
  {
    if fs == [] then [] else VerticesOf(cx, cz, fs[..|fs| - 1]) + FaceVertices(cx, cz, fs[|fs| - 1])
  }

  /** The index list produced by emitting `n` faces, starting from an empty mesh. */
  function QuadIndices(n: nat): (r: seq<nat>)
    ensures |r| == 6 * n
  {
    if n == 0 then [] else QuadIndices(n - 1) + Rebase(QuadPattern, 4 * (n - 1))
  }

  lemma VerticesOfSnoc(cx: int, cz: int, fs: seq<Face>, f: Face)
    ensures VerticesOf(cx, cz, fs + [f]) == VerticesOf(cx, cz, fs) + FaceVertices(cx, cz, f)
  {
    assert (fs + [f])[..|fs|] == fs;
  }

  lemma QuadIndicesSnoc(n: nat)
    ensures QuadIndices(n + 1) == QuadIndices(n) + Rebase(QuadPattern, 4 * n)
  {
  }

  /** Emitting one list of faces after another concatenates their vertex lists. */
  lemma {:induction false} VerticesOfAppend(cx: int, cz: int, fs: seq<Face>, gs: seq<Face>)
    ensures VerticesOf(cx, cz, fs + gs) == VerticesOf(cx, cz, fs) + VerticesOf(cx, cz, gs)
    decreases |gs|
  {
    if gs != [] {
      var init, last := gs[..|gs| - 1], gs[|gs| - 1];
      assert gs == init + [last];
      assert fs + gs == (fs + init) + [last];
      VerticesOfSnoc(cx, cz, fs + init, last);
      VerticesOfAppend(cx, cz, fs, init);
      VerticesOfSnoc(cx, cz, init, last);
    } else {
      assert fs + gs == fs;
    }
  }

  /** Vertex `4k + j` of the mesh is corner `j` of face `k`. */
  lemma {:induction false} VerticesOfAt(cx: int, cz: int, fs: seq<Face>, k: nat, j: nat)
    requires k < |fs| && j < 4
    ensures VerticesOf(cx, cz, fs)[4 * k + j] == FaceVertices(cx, cz, fs[k])[j]
    decreases |fs|
  {
    if k < |fs| - 1 {
      VerticesOfAt(cx, cz, fs[..|fs| - 1], k, j);
    }
  }

  /**
   * While fewer than 2^30 faces have been emitted no index wraps: entry `6k + j` of the
   * index list is `4k + QuadPattern[j]`, a vertex of face `k`.
   */
  lemma {:induction false} QuadIndicesAt(n: nat, k: nat, j: nat)
    requires 4 * n <= Two32 && k < n && j < 6
    ensures QuadIndices(n)[6 * k + j] == 4 * k + QuadPattern[j]
    decreases n
  {
    if k < n - 1 {
      QuadIndicesAt(n - 1, k, j);
    } else {
      assert |QuadIndices(n - 1)| == 6 * k;
      assert QuadIndices(n)[6 * k + j] == Rebase(QuadPattern, 4 * k)[j];
      assert ToUint32(4 * k) == 4 * k;
      assert QuadPattern[j] <= 3;
    }
  }

  /** Every index refers to an existing vertex: all entries are below the vertex count `4n`. */
  lemma QuadIndicesInRange(n: nat)
    requires 4 * n <= Two32
    ensures forall i | 0 <= i < |QuadIndices(n)| :: QuadIndices(n)[i] < 4 * n
  {
    forall i | 0 <= i < |QuadIndices(n)|
      ensures QuadIndices(n)[i] < 4 * n
    {
      QuadIndicesAt(n, i / 6, i % 6);
    }
  }

  /** `Mesh`: the vertex and index lists (both appended to in place) and the bounding box. */
  class Mesh {
    var vertices: seq<Vertex>
    var indices: seq<nat>
    var aabb: Aabb

    constructor ()
      ensures vertices == [] && indices == []
    {
      vertices := [];
      indices := [];
      aabb := Aabb(Vec3(0.0, 0.0, 0.0), Vec3(0.0, 0.0, 0.0));
    }

    /**
     * `add_polygon(vs, idx, mesh)`: appends the indices, each offset by the previous
     * vertex count (all in `uint32_t`), then the vertices. Earlier entries are untouched.
     */
    method AddPolygon(vs: seq<Vertex>, idx: seq<nat>)
      modifies this
      ensures vertices == old(vertices) + vs
      ensures indices == old(indices) + Rebase(idx, |old(vertices)|)
      ensures aabb == old(aabb)
    {
      var baseIndex := ToUint32(|vertices|);
      for i := 0 to |idx|
        invariant vertices == old(vertices) && aabb == old(aabb)
        invariant indices == old(indices) + Rebase(idx, |old(vertices)|)[..i]
      {
        indices := indices + [(baseIndex + idx[i]) % Two32];
      }
      assert Rebase(idx, |old(vertices)|)[..|idx|] == Rebase(idx, |old(vertices)|);
      for i := 0 to |vs|
        invariant vertices == old(vertices) + vs[..i] && aabb == old(aabb)
        invariant indices == old(indices) + Rebase(idx, |old(vertices)|)
      {
        vertices := vertices + [vs[i]];
      }
      assert vs[..|vs|] == vs;
    }

    /** `add_face(cx, cz, bx, by, bz, type, face, mesh)` for block (x, y, z): appends the face's four vertices and two triangles. */
    method AddFace(cx: int, cz: int, x: int, y: int, z: int, t: BlockType, face: BlockFace)
      modifies this
      ensures vertices == old(vertices) + FaceVertices(cx, cz, Face(x, y, z, t, face))
      ensures indices == old(indices) + Rebase(QuadPattern, |old(vertices)|)
      ensures aabb == old(aabb)
    {
      AddPolygon(FaceVertices(cx, cz, Face(x, y, z, t, face)), QuadPattern);
    }
  }
}
