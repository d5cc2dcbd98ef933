/**
 * `src/vertex_buffer.cpp`: the size of a vertex described by a vertex declaration,
 * the first-fit choice of a memory type for a vertex buffer, and the vertex input
 * descriptions a declaration contributes to a pipeline. The same size computation
 * and input-state construction appear again in `src/graphics_pipeline.cpp`, which
 * uses the members defined here.
 */
module VertexBuffers {
  import opened Vk

  /** `VertexElement`: shader location, format, byte offset and byte size of one attribute. */
  datatype VertexElement = VertexElement(location: nat, format: nat, offset: nat, size: nat)

  /** `VertexDecl`. */
  type VertexDecl = seq<VertexElement>

  /** `VkVertexInputBindingDescription` with input rate VERTEX. */
  datatype BindingDescription = BindingDescription(binding: nat, stride: nat)

  /** `VkVertexInputAttributeDescription`. */
  datatype AttributeDescription = AttributeDescription(binding: nat, format: nat, location: nat, offset: nat)

  /** The exact sum of the element sizes of a declaration. */
  function DeclSize(decl: VertexDecl): nat {
    if decl == [] then 0 else DeclSize(decl[..|decl| - 1]) + decl[|decl| - 1].size
  }

  /** The size of a declaration made of two parts is the sum of their sizes. */
  lemma {:induction false} DeclSizeAppend(a: VertexDecl, b: VertexDecl)
    ensures DeclSize(a + b) == DeclSize(a) + DeclSize(b)
    decreases |b|
  {
    if b == [] {
      assert a + b == a;
    } else {
      var init := b[..|b| - 1];
      assert (a + b)[..|a + b| - 1] == a + init;
      DeclSizeAppend(a, init);
    }
  }

  lemma ModAddStep(a: nat, b: nat)
    ensures (a % Two32 + b) % Two32 == (a + b) % Two32
  {
    var q := a / Two32;
    assert a == q * Two32 + a % Two32;
    assert a + b == (a % Two32 + b) + q * Two32;
  }

  /**
   * `get_vertex_size(decl)`: the element sizes added up in a `uint32_t`, which is the
   * exact sum whenever that sum fits in 32 bits.
   */
  method GetVertexSize(decl: VertexDecl) returns (size: nat)
    ensures size == DeclSize(decl) % Two32
    ensures DeclSize(decl) < Two32 ==> size == DeclSize(decl)
  {
    size := 0;
    for i := 0 to |decl|
      invariant size == DeclSize(decl[..i]) % Two32
    {
      assert decl[..i + 1][..i] == decl[..i];
      ModAddStep(DeclSize(decl[..i]), decl[i].size);
      size := (size + decl[i].size) % Two32;
    }
    assert decl[..|decl|] == decl;
  }

  /** The attribute descriptions for the elements of `decl`, all on binding `binding`, in declaration order. */
  function AttributesFor(binding: nat, decl: VertexDecl): (attrs: seq<AttributeDescription>)
    ensures |attrs| == |decl|
  {
    seq(|decl|, i requires 0 <= i < |decl| =>
      AttributeDescription(binding, decl[i].format, decl[i].location, decl[i].offset))
  }

  /**
   * The input state a declaration adds (`VertexBuffer::bind` and `create_input_state`):
   * one binding whose number is the previous binding count and whose stride is the
   * vertex size, then one attribute per element on that binding. Existing entries are
   * kept unchanged in front.
   */
  method AppendInputState(decl: VertexDecl, bindings: seq<BindingDescription>, attributes: seq<AttributeDescription>)
    returns (bindings': seq<BindingDescription>, attributes': seq<AttributeDescription>)
    ensures bindings' == bindings + [BindingDescription(ToUint32(|bindings|), DeclSize(decl) % Two32)]
    ensures attributes' == attributes + AttributesFor(ToUint32(|bindings|), decl)
  {
    var binding := ToUint32(|bindings|);
    var stride := GetVertexSize(decl);
    bindings' := bindings + [BindingDescription(binding, stride)];
    attributes' := attributes;
    for i := 0 to |decl|
      invariant attributes' == attributes + AttributesFor(binding, decl[..i])
    {
      var element := decl[i];
      attributes' := attributes' + [AttributeDescription(binding, element.format, element.location, element.offset)];
      assert AttributesFor(binding, decl[..i + 1]) == AttributesFor(binding, decl[..i]) + [AttributeDescription(binding, element.format, element.location, element.offset)];
    }
    assert decl[..|decl|] == decl;
  }

  /** VK_MEMORY_PROPERTY_DEVICE_LOCAL_BIT | HOST_VISIBLE_BIT | HOST_COHERENT_BIT. */
  const DesiredProperties: bv32 := 0x1 | 0x2 | 0x4

  /** `1 << i`: the bit of memory type `i` in a `memoryTypeBits` mask. */
  function Bit(i: nat): bv32
    requires i < 32
  {
    (1 as bv32) << (i as bv5)
  }

  /** Memory type `i` is allowed by `typeBits` and its property flags include every desired flag. */
  predicate Suitable(typeBits: bv32, propertyFlags: seq<bv32>, desired: bv32, i: nat)
    requires i < |propertyFlags| <= 32
  {
    typeBits & Bit(i) != 0 && propertyFlags[i] & desired == desired
  }

  /**
   * The memory-type search of `VertexBuffer::create`: the lowest suitable index, or
   * `memoryTypeCount` when there is none.
   */
  method FindMemoryType(typeBits: bv32, propertyFlags: seq<bv32>, desired: bv32) returns (index: nat)
    requires |propertyFlags| <= 32
    ensures index <= |propertyFlags|
    ensures index < |propertyFlags| ==> Suitable(typeBits, propertyFlags, desired, index)
    ensures forall j | 0 <= j < index && j < |propertyFlags| :: !Suitable(typeBits, propertyFlags, desired, j)
  {
    index := 0;
    while index < |propertyFlags|
      invariant index <= |propertyFlags|
      invariant forall j | 0 <= j < index :: !Suitable(typeBits, propertyFlags, desired, j)
    {
      if typeBits & Bit(index) == 0 {
        assert !Suitable(typeBits, propertyFlags, desired, index);
        index := index + 1;
        continue;
      }
      if propertyFlags[index] & desired == desired {
        break;
      }
      assert !Suitable(typeBits, propertyFlags, desired, index);
      index := index + 1;
    }
  }

  /** The Vulkan calls `VertexBuffer::create` makes, as their outcomes. */
  datatype BufferEnv = BufferEnv(
    buffer: Option<Handle>,                  // vkCreateBuffer
    requirements: MemoryRequirements,        // vkGetBufferMemoryRequirements
    memoryTypes: seq<bv32>,                  // the device's memory type property flags
    allocate: (nat, nat) -> Option<Handle>,  // vkAllocateMemory(size, memory type index)
    bound: bool)                             // vkBindBufferMemory

  /** `VertexBuffer`. */
  class VertexBuffer {
    var decl: VertexDecl
    var count: nat
    var memorySize: nat
    var vertexBuffer: Handle
    var deviceMemory: Handle

    constructor ()
      ensures decl == [] && count == 0 && memorySize == 0
      ensures vertexBuffer == NullHandle && deviceMemory == NullHandle
    {
      decl := [];
      count := 0;
      memorySize := 0;
      vertexBuffer := NullHandle;
      deviceMemory := NullHandle;
    }

    /**
     * `create(device, decl, count)`: records the declaration, the count and the
     * `uint32_t` byte size, creates the buffer, and allocates memory of the first
     * suitable type. It fails when a call fails or no memory type is suitable.
     */
    method Create(decl: VertexDecl, count: nat, env: BufferEnv) returns (ok: bool)
      requires |env.memoryTypes| <= 32
      modifies this
      ensures this.decl == decl && this.count == count
      ensures memorySize == (DeclSize(decl) % Two32 * count) % Two32
      ensures ok ==> env.buffer.Some? && vertexBuffer == env.buffer.value && env.bound
      ensures ok ==> exists i | 0 <= i < |env.memoryTypes| ::
        && Suitable(env.requirements.memoryTypeBits, env.memoryTypes, DesiredProperties, i)
        && (forall j | 0 <= j < i :: !Suitable(env.requirements.memoryTypeBits, env.memoryTypes, DesiredProperties, j))
        && env.allocate(env.requirements.size, i) == Some(deviceMemory)
      ensures (forall i | 0 <= i < |env.memoryTypes| :: !Suitable(env.requirements.memoryTypeBits, env.memoryTypes, DesiredProperties, i)) ==> !ok
      ensures ok <==> env.buffer.Some? && env.bound && exists i | 0 <= i < |env.memoryTypes| ::
        && Suitable(env.requirements.memoryTypeBits, env.memoryTypes, DesiredProperties, i)
        && (forall j | 0 <= j < i :: !Suitable(env.requirements.memoryTypeBits, env.memoryTypes, DesiredProperties, j))
        && env.allocate(env.requirements.size, i).Some?
    {
      this.decl := decl;
      this.count := count;
      var vertexSize := GetVertexSize(decl);
      memorySize := (vertexSize * count) % Two32;
      if env.buffer.None? {
        return false;
      }
      vertexBuffer := env.buffer.value;
      var memoryTypeIndex := FindMemoryType(env.requirements.memoryTypeBits, env.memoryTypes, DesiredProperties);
      if memoryTypeIndex == |env.memoryTypes| {
        return false;
      }
      var memory := env.allocate(env.requirements.size, memoryTypeIndex);
      if memory.None? {
        return false;
      }
      deviceMemory := memory.value;
      if !env.bound {
        return false;
      }
      return true;
    }

    /** `bind(bindings, attributes)`: appends this buffer's input state to the caller's lists. */
    method Bind(bindings: seq<BindingDescription>, attributes: seq<AttributeDescription>)
      returns (ok: bool, bindings': seq<BindingDescription>, attributes': seq<AttributeDescription>)
      ensures ok
      ensures bindings' == bindings + [BindingDescription(ToUint32(|bindings|), DeclSize(decl) % Two32)]
      ensures attributes' == attributes + AttributesFor(ToUint32(|bindings|), decl)
    {
      bindings', attributes' := AppendInputState(decl, bindings, attributes);
      ok := true;
    }
  }
}
