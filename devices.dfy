/**
 * `src/vulkan_device.cpp`: what a `VulkanDevice` records about a physical device when
 * it is initialised, and the choice of a queue family that supports a requested set
 * of queue capabilities (and, for graphics, presentation to the window surface).
 */
module Devices {
  import opened Vk

  /** VK_QUEUE_GRAPHICS_BIT. */
  const QueueGraphics: bv32 := 0x1

  /** `VkQueueFamilyProperties`: capability flags and number of queues. */
  datatype QueueFamily = QueueFamily(queueFlags: bv32, queueCount: nat)

  /** `VkExtent2D`. */
  datatype Extent = Extent(width: nat, height: nat)

  /** The fields of `VkSurfaceCapabilitiesKHR` the swapchain reads. */
  datatype SurfaceCapabilities = SurfaceCapabilities(
    minImageCount: nat,
    maxImageCount: nat,
    currentExtent: Extent,
    supportedTransforms: bv32,
    currentTransform: bv32,
    supportedCompositeAlpha: bv32)

  /** `VkSurfaceFormatKHR`. */
  datatype SurfaceFormat = SurfaceFormat(format: nat, colorSpace: nat)

  /**
   * A physical device as the Vulkan queries `initialise` makes describe it. The
   * `...Ok` fields are the outcomes of the three surface queries; `presentSupport[i]`
   * is what `vkGetPhysicalDeviceSurfaceSupportKHR` reports for family `i`.
   */
  datatype PhysicalDeviceInfo = PhysicalDeviceInfo(
    handle: Handle,
    families: seq<QueueFamily>,
    presentSupport: seq<bool>,
    capabilitiesOk: bool,
    capabilities: SurfaceCapabilities,
    formatsOk: bool,
    formats: seq<SurfaceFormat>,
    presentModesOk: bool,
    presentModes: seq<nat>)

  /** Surface support is asked for only for graphics requests with a surface; otherwise it counts as given. */
  predicate SurfaceQueried(flags: bv32, surface: Handle) {
    flags & QueueGraphics != 0 && surface != NullHandle
  }

  /** Family `i` can present, or presentation is not asked about (`needed` is false). */
  predicate SurfaceOk(support: seq<bool>, needed: bool, i: nat) {
    needed ==> i < |support| && support[i]
  }

  /** Family `i` has queues, exactly the requested flags and the needed surface support. */
  predicate ExactFamily(families: seq<QueueFamily>, support: seq<bool>, surface: Handle, flags: bv32, i: nat)
    requires i < |families|
  {
    families[i].queueCount != 0 && families[i].queueFlags == flags && SurfaceOk(support, SurfaceQueried(flags, surface), i)
  }

  /** `have` includes every bit of `want`. */
  predicate Covers(have: bv32, want: bv32) {
    have & want == want
  }

  /** Family `i` has queues, at least the requested flags and the needed surface support. */
  predicate CapableFamily(families: seq<QueueFamily>, support: seq<bool>, surface: Handle, flags: bv32, i: nat)
    requires i < |families|
  {
    families[i].queueCount != 0 && Covers(families[i].queueFlags, flags) && SurfaceOk(support, SurfaceQueried(flags, surface), i)
  }

  /** An exact family is in particular a capable one. */
  lemma ExactIsCapable(families: seq<QueueFamily>, support: seq<bool>, surface: Handle, flags: bv32, i: nat)
    requires i < |families| && ExactFamily(families, support, surface, flags, i)
    ensures CapableFamily(families, support, surface, flags, i)
  {
  }

  /**
   * The outcome of `find_queue_family_index`: the first exact family if there is one;
   * otherwise the first capable family; otherwise UINT32_MAX.
   */
  predicate ChosenFamily(families: seq<QueueFamily>, support: seq<bool>, surface: Handle, flags: bv32, index: nat) {
    && ((exists i | 0 <= i < |families| :: ExactFamily(families, support, surface, flags, i)) ==>
          && index < |families| && ExactFamily(families, support, surface, flags, index)
          && forall j | 0 <= j < index :: !ExactFamily(families, support, surface, flags, j))
    && ((forall i | 0 <= i < |families| :: !ExactFamily(families, support, surface, flags, i)) ==>
          if exists i | 0 <= i < |families| :: CapableFamily(families, support, surface, flags, i) then
            && index < |families| && CapableFamily(families, support, surface, flags, index)
            && forall j | 0 <= j < index :: !CapableFamily(families, support, surface, flags, j)
          else index == Uint32Max)
    && (index != Uint32Max <==> exists i | 0 <= i < |families| :: CapableFamily(families, support, surface, flags, i))
  }

  /** Returning the first exact family meets the outcome. */
  lemma ExactChosen(families: seq<QueueFamily>, support: seq<bool>, surface: Handle, flags: bv32, index: nat)
    requires |families| <= Uint32Max && index < |families|
    requires ExactFamily(families, support, surface, flags, index)
    requires forall j | 0 <= j < index :: !ExactFamily(families, support, surface, flags, j)
    ensures ChosenFamily(families, support, surface, flags, index)
  {
    ExactIsCapable(families, support, surface, flags, index);
  }

  /** With no exact family, returning the first capable one, or UINT32_MAX, meets the outcome. */
  lemma CapableChosen(families: seq<QueueFamily>, support: seq<bool>, surface: Handle, flags: bv32, index: nat)
    requires |families| <= Uint32Max
    requires forall j | 0 <= j < |families| :: !ExactFamily(families, support, surface, flags, j)
    requires index == Uint32Max ==> forall j | 0 <= j < |families| :: !CapableFamily(families, support, surface, flags, j)
    requires index != Uint32Max ==>
      && index < |families| && CapableFamily(families, support, surface, flags, index)
      && forall j | 0 <= j < index :: !CapableFamily(families, support, surface, flags, j)
    ensures ChosenFamily(families, support, surface, flags, index)
  {
  }

  /**
   * Any index other than UINT32_MAX names a family that has queues and offers every
   * requested flag.
   */
  lemma ChosenCovers(families: seq<QueueFamily>, support: seq<bool>, surface: Handle, flags: bv32, index: nat)
    requires ChosenFamily(families, support, surface, flags, index) && index != Uint32Max
    ensures index < |families| && families[index].queueCount != 0 && Covers(families[index].queueFlags, flags)
  {
    if exists i | 0 <= i < |families| :: ExactFamily(families, support, surface, flags, i) {
      ExactIsCapable(families, support, surface, flags, index);
    }
  }

  /** `VulkanDevice`: the recorded device properties and handles. */
  class VulkanDevice {
    var physicalDevice: Handle
    var surface: Handle
    var families: seq<QueueFamily>
    var presentSupport: seq<bool>
    var surfaceCapabilities: SurfaceCapabilities
    var surfaceFormats: seq<SurfaceFormat>
    var presentModes: seq<nat>

    constructor ()
      ensures physicalDevice == NullHandle && surface == NullHandle
      ensures surfaceCapabilities == SurfaceCapabilities(0, 0, Extent(0, 0), 0, 0, 0)
      ensures families == [] && presentSupport == [] && surfaceFormats == [] && presentModes == []
    {
      physicalDevice := NullHandle;
      surface := NullHandle;
      surfaceCapabilities := SurfaceCapabilities(0, 0, Extent(0, 0), 0, 0, 0);
      families := [];
      presentSupport := [];
      surfaceFormats := [];
      presentModes := [];
    }

    /**
     * `initialise(device, surface)`: records the queue families, then the surface
     * formats and present modes, failing at the first surface query that fails; only a
     * complete run records the physical device and the surface.
     */
    method Initialise(info: PhysicalDeviceInfo, surface: Handle) returns (ok: bool)
      modifies this
      ensures ok <==> info.capabilitiesOk && info.formatsOk && info.presentModesOk
      ensures families == info.families && presentSupport == info.presentSupport
      ensures info.capabilitiesOk ==> surfaceCapabilities == info.capabilities
      ensures info.capabilitiesOk && info.formatsOk ==> surfaceFormats == info.formats
      ensures ok ==> presentModes == info.presentModes && physicalDevice == info.handle && this.surface == surface
      ensures !ok ==> physicalDevice == old(physicalDevice) && this.surface == old(this.surface)
    {
      families := info.families;
      presentSupport := info.presentSupport;
      if !info.capabilitiesOk {
        return false;
      }
      surfaceCapabilities := info.capabilities;
      if !info.formatsOk {
        return false;
      }
      surfaceFormats := info.formats;
      if !info.presentModesOk {
        return false;
      }
      presentModes := info.presentModes;
      physicalDevice := info.handle;
      this.surface := surface;
      return true;
    }

    /**
     * `find_queue_family_index(flags)`: the first family with exactly the requested
     * flags if there is one; otherwise the first family with at least those flags;
     * otherwise UINT32_MAX. Families without queues never qualify, and surface support
     * is consulted (`queried` lists the families asked about) only for graphics requests
     * when there is a surface.
     */
    method FindQueueFamilyIndex(flags: bv32) returns (index: nat, ghost queried: seq<nat>)
      requires |families| <= Uint32Max
      ensures ChosenFamily(families, presentSupport, surface, flags, index)
      ensures forall q | q in queried :: SurfaceQueried(flags, surface) && q < |families| && families[q].queueCount != 0
    {
      var fams, support, surf := families, presentSupport, surface;
      var needed := SurfaceQueried(flags, surf);
      var valid: nat := Uint32Max;
      queried := [];
      for i := 0 to |fams|
        invariant forall j | 0 <= j < i :: !ExactFamily(fams, support, surf, flags, j)
        invariant valid == Uint32Max ==> forall j | 0 <= j < i :: !CapableFamily(fams, support, surf, flags, j)
        invariant valid != Uint32Max ==>
          (valid < i && CapableFamily(fams, support, surf, flags, valid)
           && forall j | 0 <= j < valid :: !CapableFamily(fams, support, surf, flags, j))
        invariant forall q | q in queried :: needed && q < |fams| && fams[q].queueCount != 0
      {
        if fams[i].queueCount == 0 {
          continue;
        }
        if fams[i].queueFlags == flags {
          if needed {
            queried := queried + [i];
          }
          if SurfaceOk(support, needed, i) {
            ExactChosen(fams, support, surf, flags, i);
            return i, queried;
          }
          assert !ExactFamily(fams, support, surf, flags, i);
        }
        if valid == Uint32Max && Covers(fams[i].queueFlags, flags) {
          if needed {
            queried := queried + [i];
          }
          if SurfaceOk(support, needed, i) {
            valid := i;
          }
        }
      }
      CapableChosen(fams, support, surf, flags, valid);
      return valid, queried;
    }
  }
}
