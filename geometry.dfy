/**
 * The chunk pipeline of `src/geometry.cpp`: a chunk's blocks, the mesher that turns
 * every visible block face into a quad, the column height query, and the world
 * generator that fills chunks column by column and keeps them in a lazily grown map.
 *
 * The `Chunk` header is not part of this model. Its `block`, `set_block` and
 * `in_bounds` are taken to read and write a `chunk_size x max_height x chunk_size`
 * array, with `block` returning Air and `set_block` doing nothing outside it.
 */
module Geometry {
  import opened Vk
  import opened Voxel
  import opened Culling
  import opened Meshes
  import opened Rendering

  lemma AppendAssoc<T>(a: seq<T>, b: seq<T>, c: seq<T>)
    ensures a + b + c == a + (b + c)
  {
  }

  predicate InBounds(x: int, y: int, z: int) {
    0 <= x < ChunkSize && 0 <= y < MaxHeight && 0 <= z < ChunkSize
  }

  /** The block the mesher compares against for face `d`: the neighbour one step out of that face. */
  function Offset(d: BlockFace): IVec3 {
    match d
    case Top => IVec3(0, 1, 0)
    case Bottom => IVec3(0, -1, 0)
    case North => IVec3(0, 0, -1)
    case South => IVec3(0, 0, 1)
    case East => IVec3(1, 0, 0)
    case West => IVec3(-1, 0, 0)
  }

  /**
   * The normal table agrees with the neighbour each face is tested against for five
   * faces; for West the table says (0, 1, 0) while the neighbour lies at (-1, 0, 0).
   */
  lemma NormalsMatchNeighbours(d: BlockFace)
    ensures FaceNormal(d) == Offset(d) <==> d != West
  {
  }

  /**
   * The bounding box `create_mesh` gives the mesh of chunk (cx, cz): from the chunk's
   * world origin at height 0 to that corner plus (chunk_size, max_height, chunk_size).
   */
  function ChunkBox(cx: int, cz: int): (box: Aabb)
    ensures var (wx, wz) := ChunkToWorld(cx, cz, 0, 0);
      && Sub(box.center, box.extents) == Vec3(wx as real, 0.0, wz as real)
      && Add(box.center, box.extents) == Vec3((wx + ChunkSize) as real, MaxHeight as real, (wz + ChunkSize) as real)
  {
    var (wx, wz) := ChunkToWorld(cx, cz, 0, 0);
    var a := Vec3(wx as real, 0.0, wz as real);
    SetFromCorners(a, Add(a, Vec3(ChunkSize as real, MaxHeight as real, ChunkSize as real)))
  }

  /**
   * The block that `generate_chunk` puts at height `y` of a column `height` blocks tall:
   * Bedrock at the bottom, Grass on top, Dirt in the six layers under the Grass, Stone
   * underneath, and nothing (the Air left by `clear`) from `height` up.
   */
  function ColumnBlock(y: int, height: int): (t: BlockType)
    ensures t != Air <==> 0 <= y < height
    ensures t == Bedrock <==> y == 0 && height > 0
    ensures t == Grass <==> 0 < y && y == height - 1
    ensures t == Dirt <==> 0 < y < height - 1 && y > height - 8
    ensures t == Stone <==> 0 < y <= height - 8
  {
    if y < 0 || y >= height then Air
    else if y == 0 then Bedrock
    else if y == height - 1 then Grass
    else if y > height - 8 then Dirt
    else Stone
  }

  /** `(int)r`: conversion to an integer truncates toward zero. */
  function Trunc(r: real): (n: int)
    ensures r >= 0.0 ==> n as real <= r < n as real + 1.0
    ensures r < 0.0 ==> n as real - 1.0 < r <= n as real
  {
    if r >= 0.0 then r.Floor else -((-r).Floor)
  }

  /** `64 + (int)(noise * 31.0f)`: the height of the column whose noise value is `noise`. */
  function ColumnHeight(noise: real): int {
    64 + Trunc(noise * 31.0)
  }

  /** Column heights lie in 64 +/- 31 while the noise lies in [-1, 1]. */
  lemma ColumnHeightRange(noise: real)
    requires -1.0 <= noise <= 1.0
    ensures 33 <= ColumnHeight(noise) <= 95
  {
  }

  /**
   * The value `Chunk::get_height` can report for a column `h` blocks tall: its scan
   * starts at the top of the chunk and stops at 0, so heights are cut to 0..max_height.
   */
  function Clamp(h: int): nat {
    if h < 0 then 0 else if h > MaxHeight then MaxHeight else h
  }

  lemma InPrefix<T>(a: seq<T>, b: seq<T>, f: T)
    requires f in a
    ensures f in a + b
  {
  }

  lemma InSuffix<T>(a: seq<T>, b: seq<T>, f: T)
    requires f in b
    ensures f in a + b
  {
  }

  lemma InConcat<T>(a: seq<T>, b: seq<T>, f: T)
    requires f in a + b
    ensures f in a || f in b
  {
  }

  /** `Chunk` of `src/geometry.cpp`: its blocks, its chunk coordinate and its mesh. */
  class Chunk {
    const blocks: array3<BlockType>
    var originX: int
    var originZ: int
    const mesh: Mesh

    /** The block array has the chunk's dimensions. */
    predicate Valid() {
      blocks.Length0 == ChunkSize && blocks.Length1 == MaxHeight && blocks.Length2 == ChunkSize
    }

    /** A chunk with no solid blocks and an empty mesh. */
    constructor ()
      ensures Valid() && fresh(blocks) && fresh(mesh)
      ensures originX == 0 && originZ == 0
      ensures forall x, y, z :: Block(x, y, z) == Air
      ensures mesh.vertices == [] && mesh.indices == []
    {
      blocks := new BlockType[ChunkSize, MaxHeight, ChunkSize]((x, y, z) => Air);
      originX := 0;
      originZ := 0;
      mesh := new Mesh();
    }

    /** `block(x, y, z)`: the stored block in range, Air anywhere else. */
    function Block(x: int, y: int, z: int): BlockType
      requires Valid()
      reads blocks
    {
      if InBounds(x, y, z) then blocks[x, y, z] else Air
    }

    /** `set_block(x, y, z, type)`: overwrites one block in range and ignores coordinates outside. */
    method SetBlock(x: int, y: int, z: int, t: BlockType)
      requires Valid()
      modifies blocks
      ensures forall i, j, k :: Block(i, j, k) == (if i == x && j == y && k == z && InBounds(x, y, z) then t else old(Block(i, j, k)))
    {
      if InBounds(x, y, z) {
        blocks[x, y, z] := t;
      }
    }

    /** `clear()`: every block becomes Air. */
    method Clear()
      requires Valid()
      modifies blocks
      ensures forall x, y, z :: Block(x, y, z) == Air
    {
      forall x, y, z | 0 <= x < ChunkSize && 0 <= y < MaxHeight && 0 <= z < ChunkSize {
        blocks[x, y, z] := Air;
      }
    }

    /** The neighbour of block (x, y, z) across face `d`. */
    function Neighbour(x: int, y: int, z: int, d: BlockFace): BlockType
      requires Valid()
      reads blocks
    {
      var o := Offset(d);
      Block(x + o.x, y + o.y, z + o.z)
    }

    /** Face `d` of block (x, y, z) is visible: the block is solid and the neighbour across `d` is transparent. */
    predicate Shows(x: int, y: int, z: int, d: BlockFace)
      requires Valid()
      reads blocks
    {
      Block(x, y, z) != Air && IsTransparent(Neighbour(x, y, z, d))
    }

    /** `f` describes a visible face of this chunk, carrying the type of its block. */
    predicate Emitted(f: Face)
      requires Valid()
      reads blocks
    {
      InBounds(f.x, f.y, f.z) && f.block == Block(f.x, f.y, f.z) && Shows(f.x, f.y, f.z, f.dir)
    }

    function FaceIf(x: int, y: int, z: int, d: BlockFace): seq<Face>
      requires Valid()
      reads blocks
    {
      if IsTransparent(Neighbour(x, y, z, d)) then [Face(x, y, z, Block(x, y, z), d)] else []
    }

    /** The faces the mesher emits for block (x, y, z), in the order Top, Bottom, North, South, East, West. */
    function CellFaces(x: int, y: int, z: int): (fs: seq<Face>)
      requires Valid()
      reads blocks
      ensures |fs| <= 6
    {
      if Block(x, y, z) == Air then []
      else (FaceIf(x, y, z, Top) + FaceIf(x, y, z, Bottom) + FaceIf(x, y, z, North)
         + FaceIf(x, y, z, South) + FaceIf(x, y, z, East) + FaceIf(x, y, z, West))
    }

    /** The faces emitted for blocks x = 0 .. n-1 of row (y, z). */
    function RowFaces(y: int, z: int, n: nat): (fs: seq<Face>)
      requires Valid()
      reads blocks
      ensures |fs| <= 6 * n
    {
      if n == 0 then [] else RowFaces(y, z, n - 1) + CellFaces(n - 1, y, z)
    }

    /** The faces emitted for rows z = 0 .. n-1 of layer y. */
    function LayerFaces(y: int, n: nat): (fs: seq<Face>)
      requires Valid()
      reads blocks
      ensures |fs| <= 6 * ChunkSize * n
    {
      if n == 0 then [] else LayerFaces(y, n - 1) + RowFaces(y, n - 1, ChunkSize)
    }

    /** The faces emitted for layers y = 0 .. n-1. */
    function ChunkFaces(n: nat): (fs: seq<Face>)
      requires Valid()
      reads blocks
      ensures |fs| <= 6 * ChunkSize * ChunkSize * n
    {
      if n == 0 then [] else ChunkFaces(n - 1) + LayerFaces(n - 1, ChunkSize)
    }

    /** Every face `create_mesh` emits, in emission order. */
    function MeshFaces(): seq<Face>
      requires Valid()
      reads blocks
    {
      ChunkFaces(MaxHeight)
    }

    /** A face listed for block (x, y, z) belongs to that block and is visible. */
    lemma CellFacesEmitted(x: int, y: int, z: int, f: Face)
      requires Valid() && InBounds(x, y, z) && f in CellFaces(x, y, z)
      ensures f.x == x && f.y == y && f.z == z && Emitted(f)
    {
    }

    lemma {:induction false} RowFacesEmitted(y: int, z: int, n: nat, f: Face)
      requires Valid() && 0 <= y < MaxHeight && 0 <= z < ChunkSize && n <= ChunkSize
      requires f in RowFaces(y, z, n)
      ensures f.y == y && f.z == z && 0 <= f.x < n && Emitted(f)
    {
      InConcat(RowFaces(y, z, n - 1), CellFaces(n - 1, y, z), f);
      if f in RowFaces(y, z, n - 1) {
        RowFacesEmitted(y, z, n - 1, f);
      } else {
        CellFacesEmitted(n - 1, y, z, f);
      }
    }

    lemma {:induction false} LayerFacesEmitted(y: int, n: nat, f: Face)
      requires Valid() && 0 <= y < MaxHeight && n <= ChunkSize
      requires f in LayerFaces(y, n)
      ensures f.y == y && 0 <= f.z < n && Emitted(f)
    {
      InConcat(LayerFaces(y, n - 1), RowFaces(y, n - 1, ChunkSize), f);
      if f in LayerFaces(y, n - 1) {
        LayerFacesEmitted(y, n - 1, f);
      } else {
        RowFacesEmitted(y, n - 1, ChunkSize, f);
      }
    }

    lemma {:induction false} ChunkFacesEmitted(n: nat, f: Face)
      requires Valid() && n <= MaxHeight
      requires f in ChunkFaces(n)
      ensures 0 <= f.y < n && Emitted(f)
    {
      InConcat(ChunkFaces(n - 1), LayerFaces(n - 1, ChunkSize), f);
      if f in ChunkFaces(n - 1) {
        ChunkFacesEmitted(n - 1, f);
      } else {
        LayerFacesEmitted(n - 1, ChunkSize, f);
      }
    }

    lemma {:induction false} InRow(x: int, y: int, z: int, n: nat, f: Face)
      requires Valid() && 0 <= x < n && f in CellFaces(x, y, z)
      ensures f in RowFaces(y, z, n)
      decreases n
    {
      if x < n - 1 {
        InRow(x, y, z, n - 1, f);
        InPrefix(RowFaces(y, z, n - 1), CellFaces(n - 1, y, z), f);
      } else {
        InSuffix(RowFaces(y, z, n - 1), CellFaces(n - 1, y, z), f);
      }
    }

    lemma {:induction false} InLayer(y: int, z: int, n: nat, f: Face)
      requires Valid() && 0 <= z < n && f in RowFaces(y, z, ChunkSize)
      ensures f in LayerFaces(y, n)
      decreases n
    {
      if z < n - 1 {
        InLayer(y, z, n - 1, f);
        InPrefix(LayerFaces(y, n - 1), RowFaces(y, n - 1, ChunkSize), f);
      } else {
        InSuffix(LayerFaces(y, n - 1), RowFaces(y, n - 1, ChunkSize), f);
      }
    }

    lemma {:induction false} InChunk(y: int, n: nat, f: Face)
      requires Valid() && 0 <= y < n && f in LayerFaces(y, ChunkSize)
      ensures f in ChunkFaces(n)
      decreases n
    {
      if y < n - 1 {
        InChunk(y, n - 1, f);
        InPrefix(ChunkFaces(n - 1), LayerFaces(n - 1, ChunkSize), f);
      } else {
        InSuffix(ChunkFaces(n - 1), LayerFaces(n - 1, ChunkSize), f);
      }
    }

    /**
     * The mesh holds face `d` of block (x, y, z) iff that block is solid and its
     * neighbour across `d` is Air; and every face in the mesh is such a face of a block
     * of the chunk.
     */
    lemma {:induction false} FaceEmittedIff(x: int, y: int, z: int, d: BlockFace)
      requires Valid() && InBounds(x, y, z)
      ensures Face(x, y, z, Block(x, y, z), d) in MeshFaces() <==> Shows(x, y, z, d)
      ensures forall f | f in MeshFaces() :: Emitted(f)
    {
      forall f | f in MeshFaces()
        ensures Emitted(f)
      {
        ChunkFacesEmitted(MaxHeight, f);
      }
      var f := Face(x, y, z, Block(x, y, z), d);
      if Shows(x, y, z, d) {
        assert f in CellFaces(x, y, z) by {
          match d
          case Top => assert f in FaceIf(x, y, z, Top);
          case Bottom => assert f in FaceIf(x, y, z, Bottom);
          case North => assert f in FaceIf(x, y, z, North);
          case South => assert f in FaceIf(x, y, z, South);
          case East => assert f in FaceIf(x, y, z, East);
          case West => assert f in FaceIf(x, y, z, West);
        }
        InRow(x, y, z, ChunkSize, f);
        InLayer(y, z, ChunkSize, f);
        InChunk(y, MaxHeight, f);
      }
    }

    /** The mesh never has more than six faces per block, so its indices cannot wrap. */
    lemma MeshFaceCount()
      requires Valid()
      ensures 4 * |MeshFaces()| <= 6 * 4 * ChunkSize * ChunkSize * MaxHeight < Two32
    {
    }

    /**
     * The mesh of the emitted faces is well formed: vertices 4k .. 4k+3 are the corners of
     * face k, indices 6k .. 6k+5 are its two triangles, and every index names a vertex.
     */
    lemma MeshLayout(cx: int, cz: int, k: nat, j: nat)
      requires Valid() && k < |MeshFaces()| && j < 6
      ensures j < 4 ==> VerticesOf(cx, cz, MeshFaces())[4 * k + j] == FaceVertices(cx, cz, MeshFaces()[k])[j]
      ensures QuadIndices(|MeshFaces()|)[6 * k + j] == 4 * k + QuadPattern[j] < |VerticesOf(cx, cz, MeshFaces())|
    {
      MeshFaceCount();
      if j < 4 {
        VerticesOfAt(cx, cz, MeshFaces(), k, j);
      }
      QuadIndicesAt(|MeshFaces()|, k, j);
    }

    /** Every vertex of the mesh of chunk (cx, cz) lies in the box `create_mesh` assigns to it. */
    lemma MeshInsideBox(cx: int, cz: int, i: nat)
      requires Valid() && i < |VerticesOf(cx, cz, MeshFaces())|
      ensures var p := VerticesOf(cx, cz, MeshFaces())[i].position;
        Contains(ChunkBox(cx, cz), Vec3(p.x as real, p.y as real, p.z as real))
    {
      var fs := MeshFaces();
      var k, j := i / 4, i % 4;
      VerticesOfAt(cx, cz, fs, k, j);
      assert fs[k] in fs;
      ChunkFacesEmitted(MaxHeight, fs[k]);
      FaceVerticesInBlock(cx, cz, fs[k], j);
      var (wx, wz) := ChunkToWorld(cx, cz, 0, 0);
      var a := Vec3(wx as real, 0.0, wz as real);
      var b := Add(a, Vec3(ChunkSize as real, MaxHeight as real, ChunkSize as real));
      var p := VerticesOf(cx, cz, fs)[i].position;
      CornersBoxContains(a, b, Vec3(p.x as real, p.y as real, p.z as real));
    }

    /** The mesh of chunk (ox, oz) is the mesh of the faces `emitted`, in order. */
    ghost predicate MeshOf(emitted: seq<Face>)
      reads this, mesh
    {
      mesh.vertices == VerticesOf(originX, originZ, emitted) && mesh.indices == QuadIndices(|emitted|)
    }

    /** One face test of `create_mesh`: `add_face` for face `d` when the neighbour across it is transparent. */
    method EmitIf(x: int, y: int, z: int, d: BlockFace, ghost prefix: seq<Face>, ghost cell: seq<Face>)
      requires Valid() && MeshOf(prefix + cell)
      modifies mesh
      ensures MeshOf(prefix + (cell + FaceIf(x, y, z, d)))
      ensures mesh.aabb == old(mesh.aabb)
    {
      ghost var before := prefix + cell;
      AppendAssoc(prefix, cell, FaceIf(x, y, z, d));
      if IsTransparent(Neighbour(x, y, z, d)) {
        var t := Block(x, y, z);
        ghost var f := Face(x, y, z, t, d);
        assert FaceIf(x, y, z, d) == [f];
        mesh.AddFace(originX, originZ, x, y, z, t, d);
        VerticesOfSnoc(originX, originZ, before, f);
        QuadIndicesSnoc(|before|);
      } else {
        assert FaceIf(x, y, z, d) == [];
        assert before + [] == before;
      }
    }

    /**
     * The part of `create_mesh` that handles block (x, y, z): for a solid block, one
     * face test per direction in the order Top, Bottom, North, South, East, West. The
     * mesh grows by exactly the faces `CellFaces` lists.
     */
    method EmitBlockFaces(x: int, y: int, z: int, ghost prefix: seq<Face>)
      requires Valid() && MeshOf(prefix)
      modifies mesh
      ensures MeshOf(prefix + CellFaces(x, y, z))
      ensures mesh.aabb == old(mesh.aabb)
    {
      assert prefix + [] == prefix;
      if Block(x, y, z) != Air {
        EmitIf(x, y, z, Top, prefix, []);
        ghost var cell := FaceIf(x, y, z, Top);
        assert [] + cell == cell;
        EmitIf(x, y, z, Bottom, prefix, cell);
        cell := cell + FaceIf(x, y, z, Bottom);
        EmitIf(x, y, z, North, prefix, cell);
        cell := cell + FaceIf(x, y, z, North);
        EmitIf(x, y, z, South, prefix, cell);
        cell := cell + FaceIf(x, y, z, South);
        EmitIf(x, y, z, East, prefix, cell);
        cell := cell + FaceIf(x, y, z, East);
        EmitIf(x, y, z, West, prefix, cell);
        cell := cell + FaceIf(x, y, z, West);
        assert cell == CellFaces(x, y, z);
      }
    }

    /** The innermost loop of `create_mesh`: blocks x = 0 .. chunk_size-1 of row (y, z). */
    method EmitRow(y: int, z: int, ghost prefix: seq<Face>)
      requires Valid() && MeshOf(prefix)
      modifies mesh
      ensures MeshOf(prefix + RowFaces(y, z, ChunkSize))
      ensures mesh.aabb == old(mesh.aabb)
    {
      assert prefix + RowFaces(y, z, 0) == prefix;
      for x := 0 to ChunkSize
        invariant MeshOf(prefix + RowFaces(y, z, x))
        invariant mesh.aabb == old(mesh.aabb)
      {
        EmitBlockFaces(x, y, z, prefix + RowFaces(y, z, x));
        AppendAssoc(prefix, RowFaces(y, z, x), CellFaces(x, y, z));
      }
    }

    /** The middle loop of `create_mesh`: rows z = 0 .. chunk_size-1 of layer y. */
    method EmitLayer(y: int, ghost prefix: seq<Face>)
      requires Valid() && MeshOf(prefix)
      modifies mesh
      ensures MeshOf(prefix + LayerFaces(y, ChunkSize))
      ensures mesh.aabb == old(mesh.aabb)
    {
      assert prefix + LayerFaces(y, 0) == prefix;
      for z := 0 to ChunkSize
        invariant MeshOf(prefix + LayerFaces(y, z))
        invariant mesh.aabb == old(mesh.aabb)
      {
        EmitRow(y, z, prefix + LayerFaces(y, z));
        AppendAssoc(prefix, LayerFaces(y, z), RowFaces(y, z, ChunkSize));
      }
    }

    /**
     * `create_mesh()`: empties the mesh, then scans layers bottom to top, rows front to
     * back and blocks left to right, emitting each visible face. The result depends only
     * on the blocks and the chunk coordinate, never on the mesh's previous contents.
     */
    method CreateMesh()
      requires Valid()
      modifies mesh
      ensures mesh.vertices == VerticesOf(originX, originZ, MeshFaces())
      ensures mesh.indices == QuadIndices(|MeshFaces()|)
      ensures mesh.aabb == ChunkBox(originX, originZ)
    {
      mesh.vertices := [];
      mesh.indices := [];
      for y := 0 to MaxHeight
        invariant MeshOf(ChunkFaces(y))
      {
        EmitLayer(y, ChunkFaces(y));
      }
      var (wx, wz) := ChunkToWorld(originX, originZ, 0, 0);
      var a := Vec3(wx as real, 0.0, wz as real);
      var b := Add(a, Vec3(ChunkSize as real, MaxHeight as real, ChunkSize as real));
      mesh.aabb := SetFromCorners(a, b);
    }

    /**
     * `get_height(x, z)`: scanning down from the top of the column, the height just above
     * the highest solid block; 0 for an all-Air column or a column outside the chunk.
     */
    method GetHeight(x: int, z: int) returns (h: nat)
      requires Valid()
      ensures h <= MaxHeight
      ensures h > 0 ==> InBounds(x, h - 1, z) && Block(x, h - 1, z) != Air
      ensures forall y | h <= y < MaxHeight :: Block(x, y, z) == Air
    {
      if InBounds(x, 0, z) {
        var y := MaxHeight;
        while y > 0
          invariant 0 <= y <= MaxHeight
          invariant forall j | y <= j < MaxHeight :: Block(x, j, z) == Air
        {
          if Block(x, y - 1, z) != Air {
            return y;
          }
          y := y - 1;
        }
      }
      return 0;
    }

    /**
     * In a column filled by the generator, the only height meeting `get_height`'s
     * description is the generated height, cut to the chunk: the query reads back
     * what generation wrote.
     */
    lemma {:induction false} GeneratedHeight(x: int, z: int, height: int, h: nat)
      requires Valid() && InBounds(x, 0, z)
      requires forall y | 0 <= y < MaxHeight :: Block(x, y, z) == ColumnBlock(y, height)
      requires h <= MaxHeight
      requires h > 0 ==> Block(x, h - 1, z) != Air
      requires forall y | h <= y < MaxHeight :: Block(x, y, z) == Air
      ensures h == Clamp(height)
    {
      var c := Clamp(height);
      if c > 0 {
        assert Block(x, c - 1, z) == ColumnBlock(c - 1, height);
      }
      if h > 0 {
        assert Block(x, h - 1, z) == ColumnBlock(h - 1, height);
      }
    }
  }

  /**
   * `world_to_chunk`, which is not part of this model, taken to split the world column
   * containing `r` into a chunk coordinate and an offset inside that chunk.
   */
  function WorldToChunk(r: real): (cb: (int, int))
    ensures 0 <= cb.1 < ChunkSize && cb.0 * ChunkSize + cb.1 == r.Floor
  {
    (r.Floor / ChunkSize, r.Floor % ChunkSize)
  }

  /** Chunk `k` lies within `radius` chunks of chunk (cx, cz) along both axes. */
  predicate InWindow(cx: int, cz: int, radius: int, k: (int, int)) {
    cx - radius <= k.0 <= cx + radius && cz - radius <= k.1 <= cz + radius
  }

  /** Every chunk of row `z` from column `lo` up to but excluding `hi` is in `m`. */
  predicate RowCovered<V>(m: map<(int, int), V>, z: int, lo: int, hi: int) {
    forall x | lo <= x < hi :: (x, z) in m
  }

  /** Extending a covered row by one chunk, in a map that keeps every earlier key. */
  lemma RowCoveredStep<V>(before: map<(int, int), V>, after: map<(int, int), V>, z: int, lo: int, hi: int)
    requires RowCovered(before, z, lo, hi) && Keeps(before, after) && (hi, z) in after
    ensures RowCovered(after, z, lo, hi + 1)
  {
    forall x | lo <= x < hi + 1
      ensures (x, z) in after
    {
      assert KeptAt(before, after, (x, z));
    }
  }

  /** Adding a covered row to a covered block of rows, in a map that keeps every earlier key. */
  lemma BlockCoveredStep<V>(before: map<(int, int), V>, after: map<(int, int), V>, xlo: int, xhi: int, zlo: int, zhi: int)
    requires BlockCovered(before, xlo, xhi, zlo, zhi) && Keeps(before, after)
    requires RowCovered(after, zhi, xlo, xhi + 1)
    ensures BlockCovered(after, xlo, xhi, zlo, zhi + 1)
  {
    forall x, z | xlo <= x <= xhi && zlo <= z < zhi + 1
      ensures (x, z) in after
    {
      assert KeptAt(before, after, (x, z));
    }
  }

  /** Key `k` of `before`, if it is one, is still in `after` with the same value. */
  ghost predicate KeptAt<V>(before: map<(int, int), V>, after: map<(int, int), V>, k: (int, int)) {
    k in before ==> k in after && after[k] == before[k]
  }

  /** Every entry of `before` is still in `after`, unchanged. */
  ghost predicate Keeps<V>(before: map<(int, int), V>, after: map<(int, int), V>) {
    forall k {:trigger KeptAt(before, after, k)} :: KeptAt(before, after, k)
  }

  /** Key `k`, if `after` has it and `before` does not, lies in columns `xlo..xhi` and rows `zlo..zhi`. */
  ghost predicate AddedAt<V>(before: map<(int, int), V>, after: map<(int, int), V>, k: (int, int), xlo: int, xhi: int, zlo: int, zhi: int) {
    k in after && k !in before ==> xlo <= k.0 <= xhi && zlo <= k.1 <= zhi
  }

  /** Every key `after` has and `before` lacks lies in columns `xlo..xhi` and rows `zlo..zhi`. */
  ghost predicate AddedWithin<V>(before: map<(int, int), V>, after: map<(int, int), V>, xlo: int, xhi: int, zlo: int, zhi: int) {
    forall k {:trigger AddedAt(before, after, k, xlo, xhi, zlo, zhi)} :: AddedAt(before, after, k, xlo, xhi, zlo, zhi)
  }

  /** Keeping entries composes. */
  lemma KeepsTransitive<V>(a: map<(int, int), V>, b: map<(int, int), V>, c: map<(int, int), V>)
    requires Keeps(a, b) && Keeps(b, c)
    ensures Keeps(a, c)
  {
    forall k
      ensures KeptAt(a, c, k)
    {
      assert KeptAt(a, b, k) && KeptAt(b, c, k);
    }
  }

  /** Additions within two boxes, both inside a third, are additions within the third. */
  lemma AddedTransitive<V>(a: map<(int, int), V>, b: map<(int, int), V>, c: map<(int, int), V>,
                           x1: int, x2: int, z1: int, z2: int, y1: int, y2: int, w1: int, w2: int,
                           xlo: int, xhi: int, zlo: int, zhi: int)
    requires Keeps(a, b)
    requires AddedWithin(a, b, x1, x2, z1, z2) && AddedWithin(b, c, y1, y2, w1, w2)
    requires xlo <= x1 && x2 <= xhi && zlo <= z1 && z2 <= zhi
    requires xlo <= y1 && y2 <= xhi && zlo <= w1 && w2 <= zhi
    ensures AddedWithin(a, c, xlo, xhi, zlo, zhi)
  {
    forall k
      ensures AddedAt(a, c, k, xlo, xhi, zlo, zhi)
    {
      assert KeptAt(a, b, k) && AddedAt(a, b, k, x1, x2, z1, z2) && AddedAt(b, c, k, y1, y2, w1, w2);
    }
  }

  /** Rows `zlo` up to but excluding `zhi` of columns `xlo` to `xhi` are all in `m`. */
  predicate BlockCovered<V>(m: map<(int, int), V>, xlo: int, xhi: int, zlo: int, zhi: int) {
    forall x, z | xlo <= x <= xhi && zlo <= z < zhi :: (x, z) in m
  }

  /**
   * `WorldGen`: the chunks generated so far, keyed by chunk coordinate, and the renderer
   * every new chunk's mesh is handed to.
   */
  class WorldGen {
    var chunks: map<(int, int), Chunk>
    /** The stored chunks and their block arrays. */
    ghost var Repr: set<object>
    const renderer: Renderer
    /** The seeded Perlin noise at a world column; the noise library is not part of this model. */
    const noise: (int, int) -> real

    constructor (renderer: Renderer, noise: (int, int) -> real)
      ensures chunks == map[] && this.renderer == renderer && this.noise == noise
      ensures Valid()
    {
      chunks := map[];
      Repr := {};
      this.renderer := renderer;
      this.noise := noise;
    }

    /** The height `generate_chunk` gives column (x, z) of chunk (cx, cz). */
    function HeightAt(cx: int, cz: int, x: int, z: int): int {
      var (wx, wz) := ChunkToWorld(cx, cz, x, z);
      ColumnHeight(noise(wx, wz))
    }

    /** Chunk `c` holds what generation writes for chunk (cx, cz): every column layered by its height. */
    ghost predicate Generated(c: Chunk, cx: int, cz: int)
      requires c.Valid()
      reads c.blocks
    {
      forall x, y, z {:trigger GeneratedAt(c, cx, cz, x, y, z)} :: GeneratedAt(c, cx, cz, x, y, z)
    }

    /** Block (x, y, z) of `c`, if in range, is what generation writes for chunk (cx, cz). */
    ghost predicate GeneratedAt(c: Chunk, cx: int, cz: int, x: int, y: int, z: int)
      requires c.Valid()
      reads c.blocks
    {
      InBounds(x, y, z) ==> c.Block(x, y, z) == ColumnBlock(y, HeightAt(cx, cz, x, z))
    }

    /** Generation has filled the rows before `bz` and the first `bx` columns of row `bz`; the rest is Air. */
    ghost predicate FilledUpTo(c: Chunk, cx: int, cz: int, bx: int, bz: int)
      requires c.Valid()
      reads c.blocks
    {
      forall x, y, z | InBounds(x, y, z) ::
        c.Block(x, y, z) == (if z < bz || (z == bz && x < bx) then ColumnBlock(y, HeightAt(cx, cz, x, z)) else Air)
    }

    /** Every chunk of `m` is the generated chunk for its key, and it and its blocks lie in `repr`. */
    ghost predicate ChunksValid(m: map<(int, int), Chunk>, repr: set<object>)
      reads repr
    {
      forall k {:trigger Stored(m, repr, k)} | k in m :: Stored(m, repr, k)
    }

    /** The chunk stored under `k` is the generated chunk for `k`, and it and its blocks lie in `repr`. */
    ghost predicate Stored(m: map<(int, int), Chunk>, repr: set<object>, k: (int, int))
      requires k in m
      reads repr
    {
      && m[k] in repr && m[k].blocks in repr
      && m[k].Valid()
      && m[k].originX == k.0 && m[k].originZ == k.1
      && Generated(m[k], k.0, k.1)
    }

    /** Every stored chunk is the generated chunk for its key; `Repr` holds the stored chunks and their blocks. */
    ghost predicate Valid()
      reads this, Repr
    {
      this !in Repr && renderer !in Repr && ChunksValid(chunks, Repr)
    }

    /** Storing a generated chunk under its own key keeps the store valid. */
    lemma InsertGenerated(m: map<(int, int), Chunk>, repr: set<object>, k: (int, int), c: Chunk)
      requires ChunksValid(m, repr) && c.Valid() && c.originX == k.0 && c.originZ == k.1 && Generated(c, k.0, k.1)
      ensures ChunksValid(m[k := c], repr + {c, c.blocks})
    {
      var after, repr' := m[k := c], repr + {c, c.blocks};
      forall j | j in after
        ensures Stored(after, repr', j)
      {
        if j != k {
          assert Stored(m, repr, j);
        }
      }
    }

    /** One column of the layering loop of `generate_chunk`. */
    method FillColumn(chunk: Chunk, cx: int, cz: int, bx: int, bz: int)
      requires chunk.Valid() && 0 <= bx < ChunkSize && 0 <= bz < ChunkSize
      requires FilledUpTo(chunk, cx, cz, bx, bz)
      modifies chunk.blocks
      ensures FilledUpTo(chunk, cx, cz, bx + 1, bz)
    {
      var height := HeightAt(cx, cz, bx, bz);
      var level := 0;
      while level < height
        invariant 0 <= level && (level == 0 || level <= height)
        invariant forall x, y, z | InBounds(x, y, z) ::
          chunk.Block(x, y, z) ==
            (if z < bz || (z == bz && x < bx) || (z == bz && x == bx && y < level)
             then ColumnBlock(y, HeightAt(cx, cz, x, z)) else Air)
      {
        chunk.SetBlock(bx, level, bz, ColumnBlock(level, height));
        level := level + 1;
      }
    }

    /** One row (fixed `bz`) of the layering loop of `generate_chunk`. */
    method FillRow(chunk: Chunk, cx: int, cz: int, bz: int)
      requires chunk.Valid() && 0 <= bz < ChunkSize
      requires FilledUpTo(chunk, cx, cz, 0, bz)
      modifies chunk.blocks
      ensures FilledUpTo(chunk, cx, cz, 0, bz + 1)
    {
      for bx := 0 to ChunkSize
        invariant FilledUpTo(chunk, cx, cz, bx, bz)
      {
        FillColumn(chunk, cx, cz, bx, bz);
      }
    }

    /** The filling part of `generate_chunk`: a cleared chunk at (cx, cz) layered column by column. */
    method FillChunk(cx: int, cz: int) returns (chunk: Chunk)
      ensures fresh(chunk) && fresh(chunk.blocks) && fresh(chunk.mesh) && chunk.Valid()
      ensures chunk.originX == cx && chunk.originZ == cz
      ensures Generated(chunk, cx, cz)
    {
      chunk := new Chunk();
      chunk.Clear();
      chunk.originX := cx;
      chunk.originZ := cz;
      for bz := 0 to ChunkSize
        invariant FilledUpTo(chunk, cx, cz, 0, bz)
        invariant chunk.originX == cx && chunk.originZ == cz
      {
        FillRow(chunk, cx, cz, bz);
      }
      forall x, y, z
        ensures GeneratedAt(chunk, cx, cz, x, y, z)
      {
      }
    }

    /** The chunk `generate_chunk` builds for (cx, cz): filled column by column, then meshed. */
    method BuildChunk(cx: int, cz: int) returns (chunk: Chunk)
      ensures fresh(chunk) && fresh(chunk.blocks) && fresh(chunk.mesh) && chunk.Valid()
      ensures chunk.originX == cx && chunk.originZ == cz
      ensures Generated(chunk, cx, cz)
      ensures chunk.mesh.vertices == VerticesOf(cx, cz, chunk.MeshFaces())
      ensures chunk.mesh.indices == QuadIndices(|chunk.MeshFaces()|)
      ensures chunk.mesh.aabb == ChunkBox(cx, cz)
    {
      chunk := FillChunk(cx, cz);
      chunk.CreateMesh();
    }

    /** The map entry of `generate_chunk`: a generated chunk stored under its own key. */
    method StoreChunk(chunk: Chunk)
      requires Valid() && (chunk.originX, chunk.originZ) !in chunks
      requires chunk.Valid() && Generated(chunk, chunk.originX, chunk.originZ)
      modifies this
      ensures Valid() && chunks == old(chunks)[(chunk.originX, chunk.originZ) := chunk]
    {
      ghost var before, repr := chunks, Repr;
      chunks, Repr := chunks[(chunk.originX, chunk.originZ) := chunk], Repr + {chunk, chunk.blocks};
      InsertGenerated(before, repr, (chunk.originX, chunk.originZ), chunk);
    }

    /**
     * `generate_chunk(cx, cz)`: a filled chunk is meshed and handed to the renderer; the
     * outcome of `add_mesh` is not looked at, so the chunk is kept even when the upload
     * fails.
     */
    method GenerateChunk(cx: int, cz: int, env: UploadEnv) returns (chunk: Chunk)
      requires Valid() && (cx, cz) !in chunks && DeviceSized(env)
      modifies this, renderer
      ensures Valid()
      ensures fresh(chunk) && chunks == old(chunks)[(cx, cz) := chunk] && chunk.Valid()
      ensures chunk.mesh.vertices == VerticesOf(cx, cz, chunk.MeshFaces())
      ensures chunk.mesh.indices == QuadIndices(|chunk.MeshFaces()|)
      ensures chunk.mesh.aabb == ChunkBox(cx, cz)
      ensures renderer.addMeshCalls == old(renderer.addMeshCalls) + 1
      ensures renderer.meshes ==
        if NothingToUpload(chunk.mesh) || !UploadSucceeds(env) then old(renderer.meshes)
        else old(renderer.meshes) + [Uploaded(chunk.mesh, env)]
      ensures renderer.FrameStateUnchanged()
    {
      chunk := BuildChunk(cx, cz);
      StoreChunk(chunk);
      var uploaded := renderer.AddMesh(chunk.mesh, env);
    }

    /**
     * `get_chunk(cx, cz)`: the stored chunk if there is one, with nothing generated and
     * nothing uploaded; otherwise a newly generated chunk, stored under its key, whose
     * mesh is handed to `add_mesh` exactly once.
     */
    method GetChunk(cx: int, cz: int, env: UploadEnv) returns (chunk: Chunk)
      requires Valid() && DeviceSized(env)
      modifies this, renderer
      ensures Valid()
      ensures (cx, cz) in chunks && chunk == chunks[(cx, cz)]
      ensures (cx, cz) in old(chunks) ==>
        chunks == old(chunks) && renderer.addMeshCalls == old(renderer.addMeshCalls) && renderer.meshes == old(renderer.meshes)
      ensures (cx, cz) !in old(chunks) ==>
        && fresh(chunk) && chunks == old(chunks)[(cx, cz) := chunk] && renderer.addMeshCalls == old(renderer.addMeshCalls) + 1
        && renderer.meshes ==
             if NothingToUpload(chunk.mesh) || !UploadSucceeds(env) then old(renderer.meshes)
             else old(renderer.meshes) + [Uploaded(chunk.mesh, env)]
      ensures renderer.FrameStateUnchanged()
      ensures Keeps(old(chunks), chunks)
      ensures AddedWithin(old(chunks), chunks, cx, cx, cz, cz)
      ensures renderer.addMeshCalls == old(renderer.addMeshCalls) + |chunks| - |old(chunks)|
    {
      if (cx, cz) !in chunks {
        ghost var before := chunks;
        chunk := GenerateChunk(cx, cz, env);
        forall k
          ensures KeptAt(before, chunks, k) && AddedAt(before, chunks, k, cx, cx, cz, cz)
        {
        }
      } else {
        chunk := chunks[(cx, cz)];
        forall k
          ensures KeptAt(chunks, chunks, k) && AddedAt(chunks, chunks, k, cx, cx, cz, cz)
        {
        }
      }
    }

    /** The inner loop of `generate_around`: row `dz` of the window, from `dx = -radius` up. */
    method GenerateRow(cx: int, cz: int, radius: int, dz: int, envFor: (int, int) -> UploadEnv)
      requires Valid() && forall a: int, b: int :: DeviceSized(envFor(a, b))
      requires -radius <= dz <= radius
      modifies this, renderer
      ensures Valid()
      ensures RowCovered(chunks, cz + dz, cx - radius, cx + radius + 1)
      ensures Keeps(old(chunks), chunks)
      ensures AddedWithin(old(chunks), chunks, cx - radius, cx + radius, cz + dz, cz + dz)
      ensures renderer.addMeshCalls == old(renderer.addMeshCalls) + |chunks| - |old(chunks)|
      ensures old(renderer.meshes) <= renderer.meshes && renderer.FrameStateUnchanged()
    {
      var dx := -radius;
      while dx <= radius
        invariant Valid()
        invariant -radius <= dx <= radius + 1
        invariant RowCovered(chunks, cz + dz, cx - radius, cx + dx)
        invariant Keeps(old(chunks), chunks)
        invariant AddedWithin(old(chunks), chunks, cx - radius, cx + radius, cz + dz, cz + dz)
        invariant renderer.addMeshCalls == old(renderer.addMeshCalls) + |chunks| - |old(chunks)|
        invariant old(renderer.meshes) <= renderer.meshes && renderer.FrameStateUnchanged()
        decreases radius - dx
      {
        ghost var before := chunks;
        var chunk := GetChunk(cx + dx, cz + dz, envFor(cx + dx, cz + dz));
        RowCoveredStep(before, chunks, cz + dz, cx - radius, cx + dx);
        AddedTransitive(old(chunks), before, chunks, cx - radius, cx + radius, cz + dz, cz + dz,
                        cx + dx, cx + dx, cz + dz, cz + dz, cx - radius, cx + radius, cz + dz, cz + dz);
        KeepsTransitive(old(chunks), before, chunks);
        dx := dx + 1;
      }
    }

    /**
     * `generate_around(x, z, radius)`: every chunk within `radius` chunks of the one
     * holding world position (x, z) exists afterwards; chunks already present are kept
     * as they were, no chunk outside the window is created, and `add_mesh` is called
     * once per created chunk. `envFor` gives the upload outcomes for each chunk.
     */
    method GenerateAround(x: real, z: real, radius: int, envFor: (int, int) -> UploadEnv)
      requires Valid() && forall a: int, b: int :: DeviceSized(envFor(a, b))
      modifies this, renderer
      ensures Valid()
      ensures forall k | InWindow(WorldToChunk(x).0, WorldToChunk(z).0, radius, k) :: k in chunks
      ensures Keeps(old(chunks), chunks)
      ensures AddedWithin(old(chunks), chunks, WorldToChunk(x).0 - radius, WorldToChunk(x).0 + radius,
                                                WorldToChunk(z).0 - radius, WorldToChunk(z).0 + radius)
      ensures renderer.addMeshCalls == old(renderer.addMeshCalls) + |chunks| - |old(chunks)|
      ensures old(renderer.meshes) <= renderer.meshes && renderer.FrameStateUnchanged()
    {
      var cx, cz := WorldToChunk(x).0, WorldToChunk(z).0;
      var dz := -radius;
      while dz <= radius
        invariant Valid()
        invariant dz == -radius || dz <= radius + 1
        invariant BlockCovered(chunks, cx - radius, cx + radius, cz - radius, cz + dz)
        invariant Keeps(old(chunks), chunks)
        invariant AddedWithin(old(chunks), chunks, cx - radius, cx + radius, cz - radius, cz + radius)
        invariant renderer.addMeshCalls == old(renderer.addMeshCalls) + |chunks| - |old(chunks)|
        invariant old(renderer.meshes) <= renderer.meshes && renderer.FrameStateUnchanged()
        decreases radius - dz
      {
        ghost var before := chunks;
        GenerateRow(cx, cz, radius, dz, envFor);
        BlockCoveredStep(before, chunks, cx - radius, cx + radius, cz - radius, cz + dz);
        AddedTransitive(old(chunks), before, chunks, cx - radius, cx + radius, cz - radius, cz + radius,
                        cx - radius, cx + radius, cz + dz, cz + dz, cx - radius, cx + radius, cz - radius, cz + radius);
        KeepsTransitive(old(chunks), before, chunks);
        dz := dz + 1;
      }
      forall k | InWindow(cx, cz, radius, k)
        ensures k in chunks
      {
        assert (k.0, k.1) == k;
      }
    }

    /**
     * `WorldGen::get_height(x, z)`: the height of the column holding world position
     * (x, z), generating its chunk first if needed. What comes back is the generated
     * column height, cut to the chunk's vertical range.
     */
    method GetHeight(x: real, z: real, env: UploadEnv) returns (h: nat)
      requires Valid() && DeviceSized(env)
      modifies this, renderer
      ensures Valid()
      ensures (WorldToChunk(x).0, WorldToChunk(z).0) in chunks
      ensures h == Clamp(HeightAt(WorldToChunk(x).0, WorldToChunk(z).0, WorldToChunk(x).1, WorldToChunk(z).1))
      ensures old(renderer.meshes) <= renderer.meshes && renderer.FrameStateUnchanged()
    {
      var (cx, bx) := WorldToChunk(x);
      var (cz, bz) := WorldToChunk(z);
      var chunk := GetChunk(cx, cz, env);
      assert Stored(chunks, Repr, (cx, cz));
      forall y | 0 <= y < MaxHeight
        ensures chunk.Block(bx, y, bz) == ColumnBlock(y, HeightAt(cx, cz, bx, bz))
      {
        assert GeneratedAt(chunk, cx, cz, bx, y, bz);
      }
      h := chunk.GetHeight(bx, bz);
      chunk.GeneratedHeight(bx, bz, HeightAt(cx, cz, bx, bz), h);
    }
  }
}
