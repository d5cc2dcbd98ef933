/**
 * `src/renderer.cpp`: the renderer's bookkeeping around its Vulkan calls. `add_mesh`
 * lays out the vertex and index data of a mesh in one allocation and appends a
 * `RenderMesh`; `draw_frame` records one indexed draw per mesh; `invalidate` drops the
 * per-swapchain objects once; `pick_device` chooses a physical device.
 *
 * Every Vulkan call is an outcome carried in the `UploadEnv` and `FrameEnv` parameters.
 */
module Rendering {
  import opened Vk
  import opened Culling
  import opened Meshes
  import opened VertexBuffers
  import opened Pipelines
  import opened Devices

  // ---------------------------------------------------------------------------
  // Bit masks of `VkDeviceSize` (uint64_t) values, on natural numbers

  function Pow2(n: nat): (p: nat)
    ensures p >= 1
  {
    if n == 0 then 1 else 2 * Pow2(n - 1)
  }

  lemma {:induction false} Pow2Add(a: nat, b: nat)
    ensures Pow2(a + b) == Pow2(a) * Pow2(b)
    decreases a
  {
    if a > 0 {
      Pow2Add(a - 1, b);
      assert Pow2(a + b) == 2 * Pow2(a - 1 + b);
    }
  }

  lemma Pow2Eight()
    ensures Pow2(8) == 0x100
  {
  }

  lemma Pow2Sixteen()
    ensures Pow2(16) == 0x1_0000
  {
    Pow2Eight();
    Pow2Add(8, 8);
  }

  lemma Pow2ThirtyTwo()
    ensures Pow2(32) == Two32
  {
    Pow2Sixteen();
    Pow2Add(16, 16);
  }

  lemma Pow2Sixty4()
    ensures Pow2(64) == Two64
  {
    Pow2ThirtyTwo();
    Pow2Add(32, 32);
  }

  lemma {:induction false} Pow2Monotone(k: nat, n: nat)
    requires k <= n
    ensures Pow2(k) <= Pow2(n)
    decreases n
  {
    if k < n {
      Pow2Monotone(k, n - 1);
    }
  }

  /** Bitwise AND of two naturals, bit by bit from the lowest. */
  function And(x: nat, y: nat): nat
    decreases x
  {
    if x == 0 || y == 0 then 0
    else 2 * And(x / 2, y / 2) + (if x % 2 == 1 && y % 2 == 1 then 1 else 0)
  }

  lemma {:induction false} AndAllOnes(y: nat, n: nat)
    requires y < Pow2(n)
    ensures And(y, Pow2(n) - 1) == y
    decreases n
  {
    if y != 0 {
      var p := Pow2(n - 1);
      assert Pow2(n) == 2 * p;
      assert (2 * p - 1) / 2 == p - 1 && (2 * p - 1) % 2 == 1;
      assert y / 2 < p;
      AndAllOnes(y / 2, n - 1);
      assert And(y, 2 * p - 1) == 2 * And(y / 2, p - 1) + (if y % 2 == 1 then 1 else 0);
    }
  }

  lemma {:induction false} MulAtLeast(a: nat, d: nat)
    requires a >= 1
    ensures a * d >= d
    decreases a
  {
    if a > 1 {
      MulAtLeast(a - 1, d);
      assert a * d == (a - 1) * d + d;
    }
  }

  /** Quotient and remainder are unique. */
  lemma ModUnique(y: nat, d: nat, q: nat, r: nat)
    requires d > 0 && y == q * d + r && r < d
    ensures y % d == r && y / d == q
  {
    var q', r' := y / d, y % d;
    assert y == q' * d + r';
    if q < q' {
      assert q' * d == (q' - q) * d + q * d;
      MulAtLeast(q' - q, d);
    } else if q > q' {
      assert q * d == (q - q') * d + q' * d;
      MulAtLeast(q - q', d);
    }
  }

  lemma ModHalf(y: nat, k: nat)
    requires k > 0
    ensures y % Pow2(k) == y % 2 + 2 * ((y / 2) % Pow2(k - 1))
  {
    var p := Pow2(k - 1);
    var q := (y / 2) / p;
    var s := (y / 2) % p;
    assert y / 2 == q * p + s;
    assert y == q * (2 * p) + (y % 2 + 2 * s);
    ModUnique(y, 2 * p, q, y % 2 + 2 * s);
  }

  /** The low `k` bits of `y`, bit by bit. */
  function LowBits(y: nat, k: nat): nat {
    if k == 0 then 0 else y % 2 + 2 * LowBits(y / 2, k - 1)
  }

  lemma {:induction false} LowBitsMod(y: nat, k: nat)
    ensures LowBits(y, k) == y % Pow2(k)
    decreases k
  {
    if k > 0 {
      LowBitsMod(y / 2, k - 1);
      ModHalf(y, k);
    }
  }

  /** An even mask contributes no low bit. */
  lemma AndEven(x: nat, m: nat)
    requires m % 2 == 0
    ensures And(x, m) == 2 * And(x / 2, m / 2)
  {
  }

  /** Masking with the bits from `k` up to `n` (given as `mask`) clears the low `k` bits. */
  lemma {:induction false} AndHighBits(y: nat, n: nat, k: nat, mask: nat)
    requires k <= n && y < Pow2(n) && mask + Pow2(k) == Pow2(n)
    ensures And(y, mask) == y - LowBits(y, k)
    decreases k
  {
    if k == 0 {
      AndAllOnes(y, n);
    } else {
      var p, big := Pow2(k - 1), Pow2(n - 1);
      var h := y / 2;
      assert Pow2(k) == 2 * p && Pow2(n) == 2 * big && h < big;
      var half := mask / 2;
      assert mask == 2 * half && half + p == big;
      AndHighBits(h, n - 1, k - 1, half);
      AndEven(y, mask);
      HalvingStep(y, h, y % 2, LowBits(h, k - 1), And(h, half), LowBits(y, k));
    }
  }

  /** The linear step of `AndHighBits`: doubling the result for `y / 2` gives the result for `y`. */
  lemma HalvingStep(y: int, half: int, bit: int, low: int, masked: int, lowY: int)
    requires y == 2 * half + bit && masked == half - low && lowY == bit + 2 * low
    ensures 2 * masked == y - lowY
  {
  }

  /** Masking with the bits from `k` up to `n` rounds down to a multiple of `2^k`. */
  lemma AndHighMask(y: nat, n: nat, k: nat)
    requires k <= n && y < Pow2(n)
    ensures Pow2(k) <= Pow2(n)
    ensures And(y, Pow2(n) - Pow2(k)) == y - y % Pow2(k)
  {
    Pow2Monotone(k, n);
    AndHighBits(y, n, k, Pow2(n) - Pow2(k));
    LowBitsMod(y, k);
  }

  /** `~v` on a `VkDeviceSize`. */
  function Not64(v: nat): nat
    requires v < Two64
  {
    Two64 - 1 - v
  }

  // ---------------------------------------------------------------------------
  // The buffer layout of `add_mesh`

  /**
   * `index_data_offset = (vertex size + index alignment - 1) & ~(index alignment - 1)`,
   * computed in wrapping `VkDeviceSize` arithmetic.
   */
  function IndexDataOffset(vertexSize: nat, alignment: nat): nat
    requires vertexSize < Two64 && alignment < Two64
  {
    var mask := (alignment + Two64 - 1) % Two64;
    And((vertexSize + alignment + Two64 - 1) % Two64, Not64(mask))
  }

  /** Without wrap-around the offset is the masked sum itself. */
  lemma IndexDataOffsetNoWrap(vertexSize: nat, alignment: nat)
    requires 1 <= alignment < Two64 && vertexSize + alignment - 1 < Two64
    ensures IndexDataOffset(vertexSize, alignment) == And(vertexSize + alignment - 1, Two64 - alignment)
  {
    ModUnique(alignment + Two64 - 1, Two64, 1, alignment - 1);
    ModUnique(vertexSize + alignment + Two64 - 1, Two64, 1, vertexSize + alignment - 1);
  }

  /** Rounding `y` down to a multiple of `a`. */
  lemma RoundDown(y: nat, a: nat)
    requires a >= 1
    ensures (y - y % a) % a == 0
    ensures y - (a - 1) <= y - y % a <= y
  {
    assert y == (y / a) * a + y % a;
    ModUnique(y - y % a, a, y / a, 0);
  }

  /**
   * For a power-of-two index alignment and no overflow, the index data starts at the
   * first multiple of the alignment at or after the end of the vertex data.
   */
  lemma IndexDataOffsetAligned(vertexSize: nat, alignment: nat, k: nat)
    requires k < 64 && alignment == Pow2(k) && alignment < Two64
    requires vertexSize + alignment - 1 < Two64
    ensures IndexDataOffset(vertexSize, alignment) % alignment == 0
    ensures vertexSize <= IndexDataOffset(vertexSize, alignment) < vertexSize + alignment
  {
    Pow2Sixty4();
    var y := vertexSize + alignment - 1;
    IndexDataOffsetNoWrap(vertexSize, alignment);
    AndHighMask(y, 64, k);
    RoundDown(y, alignment);
  }

  /**
   * The requirements of the single allocation holding both buffers: the larger of the
   * two alignments, room for the index data after its offset, and only the memory types
   * both buffers accept.
   */
  function Combine(v: MemoryRequirements, i: MemoryRequirements): (r: MemoryRequirements)
    requires v.size < Two64 && i.alignment < Two64
    ensures r.alignment >= v.alignment && r.alignment >= i.alignment
    ensures r.alignment == v.alignment || r.alignment == i.alignment
  {
    MemoryRequirements(
      (IndexDataOffset(v.size, i.alignment) + i.size) % Two64,
      if v.alignment < i.alignment then i.alignment else v.alignment,
      v.memoryTypeBits & i.memoryTypeBits)
  }

  /**
   * A memory type is allowed for the joint allocation iff both buffers allow it, so an
   * empty intersection means no memory type can hold both.
   */
  lemma SharedMemoryTypes(v: MemoryRequirements, i: MemoryRequirements, j: nat)
    requires v.size < Two64 && i.alignment < Two64 && j < 32
    ensures Combine(v, i).memoryTypeBits & Bit(j) != 0 <==> v.memoryTypeBits & Bit(j) != 0 && i.memoryTypeBits & Bit(j) != 0
  {
    BitIsSingle(j);
    MaskSingleBit(v.memoryTypeBits, i.memoryTypeBits, Bit(j));
  }

  /** Through a one-bit mask, the mask of `a & b` is set iff it is set in both. */
  lemma MaskSingleBit(a: bv32, b: bv32, m: bv32)
    requires m != 0 && m & (m - 1) == 0
    ensures (a & b) & m != 0 <==> a & m != 0 && b & m != 0
  {
  }

  lemma BitIsSingle(j: nat)
    requires j < 32
    ensures Bit(j) != 0 && Bit(j) & (Bit(j) - 1) == 0
  {
  }

  /**
   * Without overflow and with a power-of-two index alignment, the allocation holds the
   * vertex data at offset 0 and the index data at an aligned offset past it, and is
   * exactly large enough.
   */
  lemma CombinedLayout(v: MemoryRequirements, i: MemoryRequirements, k: nat)
    requires k < 64 && i.alignment == Pow2(k) && i.alignment < Two64
    requires v.size + i.alignment - 1 + i.size < Two64
    ensures IndexDataOffset(v.size, i.alignment) % i.alignment == 0
    ensures v.size <= IndexDataOffset(v.size, i.alignment)
    ensures Combine(v, i).size == IndexDataOffset(v.size, i.alignment) + i.size
  {
    IndexDataOffsetAligned(v.size, i.alignment, k);
    var total := IndexDataOffset(v.size, i.alignment) + i.size;
    ModUnique(total, Two64, 0, total);
  }

  // ---------------------------------------------------------------------------
  // Renderer state

  /** A mesh on the GPU: its index count, its box, and the allocation layout it was given. */
  datatype RenderMesh = RenderMesh(indexCount: nat, aabb: Aabb, requirements: MemoryRequirements, indexDataOffset: nat)

  /** The outcomes of the calls `add_mesh` makes, in call order, and the queried requirements. */
  datatype UploadEnv = UploadEnv(
    vertexBufferCreated: bool,
    indexBufferCreated: bool,
    vertexRequirements: MemoryRequirements,
    indexRequirements: MemoryRequirements,
    stagingCreated: bool,
    stagingMapped: bool,
    memoryAllocated: bool,
    vertexBound: bool,
    indexBound: bool,
    vertexCopied: bool,
    indexCopied: bool)

  /** Both requirement values fit `VkDeviceSize`. */
  predicate DeviceSized(env: UploadEnv) {
    env.vertexRequirements.size < Two64 && env.indexRequirements.alignment < Two64
  }

  /** Every call succeeds and the two buffers share at least one memory type. */
  predicate UploadSucceeds(env: UploadEnv)
    requires DeviceSized(env)
  {
    && env.vertexBufferCreated && env.indexBufferCreated
    && Combine(env.vertexRequirements, env.indexRequirements).memoryTypeBits != 0
    && env.stagingCreated && env.stagingMapped && env.memoryAllocated
    && env.vertexBound && env.indexBound && env.vertexCopied && env.indexCopied
  }

  /** A mesh with no vertices or no indices (counted as `uint32_t`) is skipped. */
  predicate NothingToUpload(mesh: Mesh)
    reads mesh
  {
    ToUint32(|mesh.vertices|) == 0 || ToUint32(|mesh.indices|) == 0
  }

  /** The `RenderMesh` a successful upload of `mesh` appends. */
  function Uploaded(mesh: Mesh, env: UploadEnv): RenderMesh
    requires DeviceSized(env)
    reads mesh
  {
    RenderMesh(
      ToUint32(|mesh.indices|),
      mesh.aabb,
      Combine(env.vertexRequirements, env.indexRequirements),
      IndexDataOffset(env.vertexRequirements.size, env.indexRequirements.alignment))
  }

  /** The outcomes of the calls `draw_frame` makes, in call order. */
  datatype FrameEnv = FrameEnv(
    frameBegun: bool,
    uniformsMapped: bool,
    fenceWaited: bool,
    fenceReset: bool,
    recordingBegun: bool,
    recordingEnded: bool,
    framePresented: bool)

  /** Every call before the draw loop succeeds. */
  predicate ReachesDraws(env: FrameEnv) {
    env.frameBegun && env.uniformsMapped && env.fenceWaited && env.fenceReset && env.recordingBegun
  }

  function IndexCounts(ms: seq<RenderMesh>): (counts: seq<nat>)
    ensures |counts| == |ms| && forall i | 0 <= i < |ms| :: counts[i] == ms[i].indexCount
  {
    seq(|ms|, i requires 0 <= i < |ms| => ms[i].indexCount)
  }

  /** `Renderer`: the state the model tracks between frames. */
  class Renderer {
    var validState: bool
    var meshes: seq<RenderMesh>
    var frameFences: seq<Handle>
    var frameBuffers: seq<Handle>
    var commandBuffers: seq<Handle>
    const pipeline: GraphicsPipeline
    /** Fences and framebuffers passed to `vkDestroy*`, in order. */
    ghost var destroyed: seq<Handle>
    /** Command buffers passed to `vkFreeCommandBuffers`, in order. */
    ghost var freed: seq<Handle>
    /** The number of `add_mesh` calls. */
    ghost var addMeshCalls: nat

    /** A renderer whose swapchain-dependent objects have been created. */
    constructor (pipeline: GraphicsPipeline, fences: seq<Handle>, framebuffers: seq<Handle>, commands: seq<Handle>)
      ensures validState && meshes == [] && this.pipeline == pipeline
      ensures frameFences == fences && frameBuffers == framebuffers && commandBuffers == commands
      ensures destroyed == [] && freed == [] && addMeshCalls == 0
    {
      validState := true;
      meshes := [];
      frameFences := fences;
      frameBuffers := framebuffers;
      commandBuffers := commands;
      this.pipeline := pipeline;
      destroyed := [];
      freed := [];
      addMeshCalls := 0;
    }

    /**
     * Since the previous state, the swapchain-dependent objects and the logs of destroyed
     * and freed handles are as they were: what `add_mesh` leaves alone.
     */
    twostate predicate FrameStateUnchanged()
      reads this
    {
      && validState == old(validState) && frameFences == old(frameFences) && frameBuffers == old(frameBuffers)
      && commandBuffers == old(commandBuffers) && destroyed == old(destroyed) && freed == old(freed)
    }

    /**
     * `add_mesh(mesh)`: an empty mesh is accepted and skipped. Otherwise the mesh is
     * uploaded into one allocation laid out by `Combine`; any failed call, or two
     * buffers with no memory type in common, returns false with nothing appended.
     */
    method AddMesh(mesh: Mesh, env: UploadEnv) returns (ok: bool)
      requires DeviceSized(env)
      modifies this
      ensures NothingToUpload(mesh) ==> ok
      ensures !NothingToUpload(mesh) ==> (ok <==> UploadSucceeds(env))
      ensures meshes == (if ok && !NothingToUpload(mesh) then old(meshes) + [Uploaded(mesh, env)] else old(meshes))
      ensures addMeshCalls == old(addMeshCalls) + 1
      ensures validState == old(validState) && frameFences == old(frameFences) && frameBuffers == old(frameBuffers)
      ensures commandBuffers == old(commandBuffers) && destroyed == old(destroyed) && freed == old(freed)
    {
      addMeshCalls := addMeshCalls + 1;
      var vertexCount := ToUint32(|mesh.vertices|);
      if vertexCount == 0 {
        return true;
      }
      var indexCount := ToUint32(|mesh.indices|);
      if indexCount == 0 {
        return true;
      }
      if !env.vertexBufferCreated || !env.indexBufferCreated {
        return false;
      }
      var requirements := Combine(env.vertexRequirements, env.indexRequirements);
      var indexDataOffset := IndexDataOffset(env.vertexRequirements.size, env.indexRequirements.alignment);
      if requirements.memoryTypeBits == 0 {
        return false;
      }
      if !env.stagingCreated || !env.stagingMapped || !env.memoryAllocated {
        return false;
      }
      if !env.vertexBound || !env.indexBound || !env.vertexCopied || !env.indexCopied {
        return false;
      }
      meshes := meshes + [RenderMesh(indexCount, mesh.aabb, requirements, indexDataOffset)];
      return true;
    }

    /**
     * `draw_frame()`: without a valid swapchain state it succeeds and draws nothing.
     * Otherwise, once the frame has begun and recording has started, it records one
     * indexed draw per mesh, in order: each mesh is run through the frustum cull but
     * the outcome is not used, so culled meshes are drawn too.
     */
    method DrawFrame(viewProj: Mat4, test: (Aabb, Plane) -> real, env: FrameEnv) returns (ok: bool, drawn: seq<nat>)
      ensures !validState ==> ok && drawn == []
      ensures validState ==> (ok <==> ReachesDraws(env) && env.recordingEnded && env.framePresented)
      ensures validState && ReachesDraws(env) ==> drawn == IndexCounts(meshes)
      ensures validState && !ReachesDraws(env) ==> drawn == []
    {
      drawn := [];
      if !validState {
        return true, drawn;
      }
      if !env.frameBegun || !env.uniformsMapped || !env.fenceWaited || !env.fenceReset || !env.recordingBegun {
        return false, drawn;
      }
      var f := SetFromMatrix(viewProj);
      for i := 0 to |meshes|
        invariant |drawn| == i && forall j | 0 <= j < i :: drawn[j] == meshes[j].indexCount
      {
        ghost var tested: nat;
        var culled: bool;
        culled, tested := Cull(f, meshes[i].aabb, test);
        drawn := drawn + [meshes[i].indexCount];
      }
      if !env.recordingEnded {
        return false, drawn;
      }
      return env.framePresented, drawn;
    }

    /**
     * `invalidate()`: only with a valid state, clears the flag, destroys every frame
     * fence and framebuffer, frees the command buffers and invalidates the pipeline; the
     * meshes stay. A second call finds the flag cleared and changes nothing.
     */
    method Invalidate()
      modifies this, pipeline
      ensures !old(validState) ==>
        && validState == old(validState) && frameFences == old(frameFences) && frameBuffers == old(frameBuffers)
        && commandBuffers == old(commandBuffers) && destroyed == old(destroyed) && freed == old(freed)
        && pipeline.pipeline == old(pipeline.pipeline) && pipeline.destroyed == old(pipeline.destroyed)
      ensures old(validState) ==>
        && !validState && frameFences == [] && frameBuffers == [] && commandBuffers == []
        && destroyed == old(destroyed) + old(frameFences) + old(frameBuffers)
        && freed == old(freed) + old(commandBuffers)
        && pipeline.pipeline == NullHandle
        && pipeline.destroyed == old(pipeline.destroyed) + (if old(pipeline.pipeline) != NullHandle then [old(pipeline.pipeline)] else [])
      ensures meshes == old(meshes) && addMeshCalls == old(addMeshCalls)
      ensures pipeline.description == old(pipeline.description) && pipeline.layout == old(pipeline.layout)
    {
      if !validState {
        return;
      }
      validState := false;
      ghost var log := destroyed;
      for i := 0 to |frameFences|
        invariant log == old(destroyed) + frameFences[..i]
      {
        log := log + [frameFences[i]];
      }
      assert frameFences[..|frameFences|] == frameFences;
      for i := 0 to |frameBuffers|
        invariant log == old(destroyed) + frameFences + frameBuffers[..i]
      {
        log := log + [frameBuffers[i]];
      }
      assert frameBuffers[..|frameBuffers|] == frameBuffers;
      destroyed := log;
      frameFences := [];
      frameBuffers := [];
      if |commandBuffers| > 0 {
        freed := freed + commandBuffers;
        commandBuffers := [];
      } else {
        assert freed + commandBuffers == freed;
      }
      pipeline.Invalidate();
    }
  }

  // ---------------------------------------------------------------------------
  // Device choice

  /**
   * `check_device` after a successful `initialise`: the surface queries succeeded and
   * some queue family offers graphics (with presentation to `surface`, when there is one).
   */
  predicate Eligible(d: PhysicalDeviceInfo, surface: Handle) {
    && d.capabilitiesOk && d.formatsOk && d.presentModesOk
    && exists i | 0 <= i < |d.families| :: CapableFamily(d.families, d.presentSupport, surface, QueueGraphics, i)
  }

  /**
   * `pick_device(devices, surface)`: every device that initialises and passes
   * `check_device` replaces the current best, because `compare_devices` always prefers
   * its second argument; so the result is the last eligible device, or a device with no
   * physical device when none is eligible.
   */
  method PickDevice(devices: seq<PhysicalDeviceInfo>, surface: Handle) returns (best: VulkanDevice, chosen: Option<nat>)
    requires forall d | d in devices :: |d.families| <= Uint32Max
    ensures chosen.Some? ==>
      && chosen.value < |devices| && Eligible(devices[chosen.value], surface)
      && forall j | chosen.value < j < |devices| :: !Eligible(devices[j], surface)
    ensures chosen.None? <==> forall j | 0 <= j < |devices| :: !Eligible(devices[j], surface)
    ensures chosen.Some? ==>
      best.physicalDevice == devices[chosen.value].handle && best.surface == surface
      && best.families == devices[chosen.value].families
    ensures chosen.None? ==> best.physicalDevice == NullHandle
  {
    best := new VulkanDevice();
    chosen := None;
    for k := 0 to |devices|
      invariant chosen.Some? ==>
        && chosen.value < k && Eligible(devices[chosen.value], surface)
        && forall j | chosen.value < j < k :: !Eligible(devices[j], surface)
      invariant chosen.None? ==> forall j | 0 <= j < k :: !Eligible(devices[j], surface)
      invariant chosen.Some? ==>
        best.physicalDevice == devices[chosen.value].handle && best.surface == surface
        && best.families == devices[chosen.value].families
      invariant chosen.None? ==> best.physicalDevice == NullHandle
    {
      var device := new VulkanDevice();
      var ok := device.Initialise(devices[k], surface);
      if ok {
        assert devices[k] in devices;
        var index: nat;
        ghost var queried: seq<nat>;
        index, queried := device.FindQueueFamilyIndex(QueueGraphics);
        if index != Uint32Max {
          best := device;
          chosen := Some(k);
        }
      }
    }
  }
}
