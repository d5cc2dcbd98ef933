/**
 * Shared vocabulary of the model: Vulkan handles, the unsigned integer widths the
 * source computes in, and an Option type.
 *
 * Every Vulkan object (device, buffer, shader module, pipeline, fence, ...) is an
 * opaque handle; the model only needs to tell a null handle from a non-null one and
 * two handles apart, so a handle is a natural number and 0 plays VK_NULL_HANDLE.
 */
module Vk {

  type Handle = nat

  /** VK_NULL_HANDLE (and a null `const char*`). */
  const NullHandle: Handle := 0

  /** 2^32: the modulus of `uint32_t` arithmetic. */
  const Two32: nat := 0x1_0000_0000

  /** UINT32_MAX, used by the source as a "no index" sentinel. */
  const Uint32Max: nat := 0xFFFF_FFFF

  /** 2^64: the modulus of `uint64_t` (and `VkDeviceSize`) arithmetic. */
  const Two64: nat := 0x1_0000_0000_0000_0000

  predicate IsUint32(v: int) { 0 <= v < Two32 }

  /** The conversion `(uint32_t)v` of a non-negative count (for example a `size()`). */
  function ToUint32(v: nat): (r: nat)
    ensures IsUint32(r)
    ensures v < Two32 ==> r == v
  {
    v % Two32
  }

  datatype Option<T> = None | Some(value: T)

  /** `VkMemoryRequirements`: byte size, alignment, and the bit set of allowed memory types. */
  datatype MemoryRequirements = MemoryRequirements(size: nat, alignment: nat, memoryTypeBits: bv32)
}
