/**
 * `src/vulkan_swapchain.cpp`: how `VulkanSwapchain::create` chooses the swapchain's
 * extent, present mode, image count, surface format, pretransform, composite alpha
 * and image usage from what the device reports about the window surface.
 */
module Swapchains {
  import opened Vk
  import opened Devices

  const FormatUndefined: nat := 0
  const FormatB8G8R8A8Unorm: nat := 44

  const PresentModeImmediate: nat := 0
  const PresentModeMailbox: nat := 1
  const PresentModeFifo: nat := 2

  const TransformIdentity: bv32 := 0x1

  const CompositeAlphaOpaque: bv32 := 0x1
  const CompositeAlphaPreMultiplied: bv32 := 0x2
  const CompositeAlphaPostMultiplied: bv32 := 0x4
  const CompositeAlphaInherit: bv32 := 0x8

  const ImageUsageTransferSrc: bv32 := 0x1
  const ImageUsageColorAttachment: bv32 := 0x10

  const FormatFeatureBlitDst: bv32 := 0x800

  /** The composite alpha modes in the order `create` tries them. */
  const CompositeAlphaOrder: seq<bv32> :=
    [CompositeAlphaOpaque, CompositeAlphaPreMultiplied, CompositeAlphaPostMultiplied, CompositeAlphaInherit]

  /** The position of the first B8G8R8A8_UNORM entry, or the length when there is none. */
  function FirstUnorm(formats: seq<SurfaceFormat>): (i: nat)
    ensures i <= |formats|
    ensures i < |formats| ==> formats[i].format == FormatB8G8R8A8Unorm
    ensures forall j | 0 <= j < i :: formats[j].format != FormatB8G8R8A8Unorm
  {
    if formats == [] then 0
    else if formats[0].format == FormatB8G8R8A8Unorm then 0
    else 1 + FirstUnorm(formats[1..])
  }

  /**
   * The format `choose_surface_format` settles on: B8G8R8A8_UNORM with the reported
   * colour space when the surface reports a single UNDEFINED format (no preference);
   * otherwise the first B8G8R8A8_UNORM entry, or the first entry when there is none.
   */
  function SurfaceFormatFor(formats: seq<SurfaceFormat>): (chosen: SurfaceFormat)
    requires |formats| > 0
    ensures chosen.format == FormatB8G8R8A8Unorm || chosen == formats[0]
    ensures (exists i | 0 <= i < |formats| :: formats[i].format == FormatB8G8R8A8Unorm) ==>
      chosen.format == FormatB8G8R8A8Unorm
    ensures |formats| == 1 && formats[0].format == FormatUndefined ==>
      chosen == SurfaceFormat(FormatB8G8R8A8Unorm, formats[0].colorSpace)
    ensures !(|formats| == 1 && formats[0].format == FormatUndefined) && FirstUnorm(formats) < |formats| ==>
      chosen == formats[FirstUnorm(formats)]
    ensures !(|formats| == 1 && formats[0].format == FormatUndefined) && FirstUnorm(formats) == |formats| ==>
      chosen == formats[0]
  {
    if |formats| == 1 && formats[0].format == FormatUndefined then
      SurfaceFormat(FormatB8G8R8A8Unorm, formats[0].colorSpace)
    else if FirstUnorm(formats) < |formats| then
      formats[FirstUnorm(formats)]
    else
      formats[0]
  }

  /**
   * `choose_surface_format(surface_formats, format, colour_space)`; the list must not
   * be empty, because its first entry is read unconditionally.
   */
  method ChooseSurfaceFormat(formats: seq<SurfaceFormat>) returns (format: nat, colourSpace: nat)
    requires |formats| > 0
    ensures SurfaceFormat(format, colourSpace) == SurfaceFormatFor(formats)
  {
    if |formats| == 1 && formats[0].format == FormatUndefined {
      return FormatB8G8R8A8Unorm, formats[0].colorSpace;
    }
    for i := 0 to |formats|
      invariant forall j | 0 <= j < i :: formats[j].format != FormatB8G8R8A8Unorm
    {
      if formats[i].format == FormatB8G8R8A8Unorm {
        assert FirstUnorm(formats) == i;
        return formats[i].format, formats[i].colorSpace;
      }
    }
    assert FirstUnorm(formats) == |formats|;
    return formats[0].format, formats[0].colorSpace;
  }

  /**
   * The present mode `create` asks for: MAILBOX whenever the surface offers it; else
   * IMMEDIATE when vsync is off and it is offered; else FIFO, which is always available.
   */
  function PresentModeFor(modes: seq<nat>, vsync: bool): (mode: nat)
    ensures mode in {PresentModeMailbox, PresentModeImmediate, PresentModeFifo}
    ensures mode == PresentModeFifo || mode in modes
    ensures mode == PresentModeImmediate ==> !vsync
  {
    if PresentModeMailbox in modes then PresentModeMailbox
    else if !vsync && PresentModeImmediate in modes then PresentModeImmediate
    else PresentModeFifo
  }

  /** The present-mode loop of `create`, which stops at the first MAILBOX. */
  method ChoosePresentMode(modes: seq<nat>, vsync: bool) returns (mode: nat)
    ensures mode == PresentModeFor(modes, vsync)
  {
    mode := PresentModeFifo;
    for i := 0 to |modes|
      invariant PresentModeMailbox !in modes[..i]
      invariant mode == (if !vsync && PresentModeImmediate in modes[..i] then PresentModeImmediate else PresentModeFifo)
    {
      assert modes[..i + 1] == modes[..i] + [modes[i]];
      if modes[i] == PresentModeMailbox {
        return PresentModeMailbox;
      }
      if !vsync && mode != PresentModeMailbox && modes[i] == PresentModeImmediate {
        mode := PresentModeImmediate;
      }
    }
    assert modes[..|modes|] == modes;
  }

  /**
   * `minImageCount + 1` in `uint32_t` arithmetic, lowered to `maxImageCount` when the
   * surface has a maximum (a non-zero one) and the count exceeds it.
   */
  function ImageCount(caps: SurfaceCapabilities): (n: nat)
    ensures caps.maxImageCount > 0 ==> n <= caps.maxImageCount
    ensures IsUint32(caps.maxImageCount) ==> IsUint32(n)
    ensures caps.minImageCount < Uint32Max && (caps.maxImageCount == 0 || caps.minImageCount < caps.maxImageCount) ==>
      n == caps.minImageCount + 1
    ensures caps.minImageCount < Uint32Max && 0 < caps.maxImageCount <= caps.minImageCount ==>
      n == caps.maxImageCount
  {
    var count := ToUint32(caps.minImageCount + 1);
    if caps.maxImageCount > 0 && count > caps.maxImageCount then caps.maxImageCount else count
  }

  /** IDENTITY when the surface supports it, otherwise the surface's current transform. */
  function Pretransform(caps: SurfaceCapabilities): (t: bv32)
    ensures t == TransformIdentity || t == caps.currentTransform
    ensures caps.supportedTransforms & TransformIdentity != 0 ==> t == TransformIdentity
    ensures caps.supportedTransforms & TransformIdentity == 0 ==> t == caps.currentTransform
  {
    if caps.supportedTransforms & TransformIdentity != 0 then TransformIdentity else caps.currentTransform
  }

  /**
   * The first of OPAQUE, PRE_MULTIPLIED, POST_MULTIPLIED and INHERIT the surface
   * supports, or OPAQUE when it supports none of them.
   */
  function CompositeAlphaFor(supported: bv32): (flag: bv32)
    ensures flag in CompositeAlphaOrder
    ensures flag == CompositeAlphaOpaque || supported & flag != 0
    ensures supported & CompositeAlphaOpaque != 0 ==> flag == CompositeAlphaOpaque
  {
    if supported & CompositeAlphaOpaque != 0 then CompositeAlphaOpaque
    else if supported & CompositeAlphaPreMultiplied != 0 then CompositeAlphaPreMultiplied
    else if supported & CompositeAlphaPostMultiplied != 0 then CompositeAlphaPostMultiplied
    else if supported & CompositeAlphaInherit != 0 then CompositeAlphaInherit
    else CompositeAlphaOpaque
  }

  /** The first supported mode in the try order is the chosen one. */
  lemma CompositeAlphaFirst(supported: bv32, i: nat)
    requires i < 4 && supported & CompositeAlphaOrder[i] != 0
    requires forall j | 0 <= j < i :: supported & CompositeAlphaOrder[j] == 0
    ensures CompositeAlphaFor(supported) == CompositeAlphaOrder[i]
  {
    if i > 0 {
      assert supported & CompositeAlphaOrder[0] == 0;
    }
    if i > 1 {
      assert supported & CompositeAlphaOrder[1] == 0;
    }
    if i > 2 {
      assert supported & CompositeAlphaOrder[2] == 0;
    }
  }

  /** With none of the four supported, OPAQUE is used anyway. */
  lemma CompositeAlphaNone(supported: bv32)
    requires forall j | 0 <= j < 4 :: supported & CompositeAlphaOrder[j] == 0
    ensures CompositeAlphaFor(supported) == CompositeAlphaOpaque
  {
    assert supported & CompositeAlphaOrder[0] == 0;
  }

  /** The composite-alpha loop of `create`. */
  method ChooseCompositeAlpha(supported: bv32) returns (alpha: bv32)
    ensures alpha == CompositeAlphaFor(supported)
  {
    alpha := CompositeAlphaOpaque;
    for i := 0 to |CompositeAlphaOrder|
      invariant alpha == CompositeAlphaOpaque
      invariant forall j | 0 <= j < i :: supported & CompositeAlphaOrder[j] == 0
    {
      if supported & CompositeAlphaOrder[i] != 0 {
        CompositeAlphaFirst(supported, i);
        return CompositeAlphaOrder[i];
      }
    }
    CompositeAlphaNone(supported);
  }

  /** Colour attachment always; transfer source as well when the format can be a blit destination. */
  function ImageUsage(optimalTilingFeatures: bv32): (usage: bv32)
    ensures usage & ImageUsageColorAttachment != 0
    ensures usage & ImageUsageTransferSrc != 0 <==> optimalTilingFeatures & FormatFeatureBlitDst != 0
  {
    if optimalTilingFeatures & FormatFeatureBlitDst != 0 then ImageUsageColorAttachment | ImageUsageTransferSrc
    else ImageUsageColorAttachment
  }

  /** The fields of `VkSwapchainCreateInfoKHR` that `create` chooses. */
  datatype SwapchainCreateInfo = SwapchainCreateInfo(
    minImageCount: nat,
    imageFormat: nat,
    imageColorSpace: nat,
    imageExtent: Extent,
    imageUsage: bv32,
    preTransform: bv32,
    presentMode: nat,
    compositeAlpha: bv32,
    oldSwapchain: Handle)

  /** `VulkanSwapchain`: the device it presents from and its current swapchain. */
  class VulkanSwapchain {
    const device: VulkanDevice
    var swapchain: Handle
    /** Swapchains handed to `cleanup_swapchain`, in order. */
    ghost var cleanedUp: seq<Handle>

    constructor (device: VulkanDevice)
      ensures this.device == device && swapchain == NullHandle && cleanedUp == []
    {
      this.device := device;
      swapchain := NullHandle;
      cleanedUp := [];
    }

    /**
     * The extent rule of `create`: a current width of UINT32_MAX means the surface takes
     * the requested size; otherwise the surface's current extent is used and reported
     * back through `width` and `height`. Either way the swapchain extent is the size
     * reported back.
     */
    method ChooseExtent(width: nat, height: nat) returns (extent: Extent, newWidth: nat, newHeight: nat)
      ensures extent == Extent(newWidth, newHeight)
      ensures device.surfaceCapabilities.currentExtent.width == Uint32Max ==> newWidth == width && newHeight == height
      ensures device.surfaceCapabilities.currentExtent.width != Uint32Max ==> extent == device.surfaceCapabilities.currentExtent
    {
      var caps := device.surfaceCapabilities;
      if caps.currentExtent.width == Uint32Max {
        extent := Extent(width, height);
        newWidth, newHeight := width, height;
      } else {
        extent := caps.currentExtent;
        newWidth, newHeight := caps.currentExtent.width, caps.currentExtent.height;
      }
    }

    /**
     * `create(width, height, vsync)`: builds the create info from the rules above and the
     * previous swapchain. `optimalTilingFeatures` is what the device reports for the
     * chosen format, `created` the outcome of `vkCreateSwapchainKHR` and `imagesOk` that
     * of `get_images`. A new swapchain replaces the old one, which is cleaned up.
     */
    method Create(width: nat, height: nat, vsync: bool, optimalTilingFeatures: bv32, created: Option<Handle>, imagesOk: bool)
      returns (ok: bool, info: SwapchainCreateInfo, newWidth: nat, newHeight: nat)
      requires |device.surfaceFormats| > 0
      modifies this
      ensures info.imageExtent == Extent(newWidth, newHeight)
      ensures device.surfaceCapabilities.currentExtent.width == Uint32Max ==> newWidth == width && newHeight == height
      ensures device.surfaceCapabilities.currentExtent.width != Uint32Max ==>
        info.imageExtent == device.surfaceCapabilities.currentExtent
      ensures info.presentMode == PresentModeFor(device.presentModes, vsync)
      ensures info.minImageCount == ImageCount(device.surfaceCapabilities)
      ensures SurfaceFormat(info.imageFormat, info.imageColorSpace) == SurfaceFormatFor(device.surfaceFormats)
      ensures info.preTransform == Pretransform(device.surfaceCapabilities)
      ensures info.compositeAlpha == CompositeAlphaFor(device.surfaceCapabilities.supportedCompositeAlpha)
      ensures info.imageUsage == ImageUsage(optimalTilingFeatures)
      ensures info.oldSwapchain == old(swapchain)
      ensures created.None? ==> !ok && swapchain == old(swapchain) && cleanedUp == old(cleanedUp)
      ensures created.Some? ==>
        && swapchain == created.value
        && cleanedUp == old(cleanedUp) + (if old(swapchain) != NullHandle then [old(swapchain)] else [])
        && (ok <==> imagesOk)
    {
      var oldSwapchain := swapchain;
      var caps := device.surfaceCapabilities;
      var extent;
      extent, newWidth, newHeight := ChooseExtent(width, height);
      var presentMode := ChoosePresentMode(device.presentModes, vsync);
      var imageCount := ImageCount(caps);
      var format, colourSpace := ChooseSurfaceFormat(device.surfaceFormats);
      var pretransform := Pretransform(caps);
      var alpha := ChooseCompositeAlpha(caps.supportedCompositeAlpha);
      info := SwapchainCreateInfo(imageCount, format, colourSpace, extent, ImageUsage(optimalTilingFeatures),
                                  pretransform, presentMode, alpha, oldSwapchain);
      if created.None? {
        return false, info, newWidth, newHeight;
      }
      swapchain := created.value;
      if oldSwapchain != NullHandle {
        cleanedUp := cleanedUp + [oldSwapchain];
      }
      ok := imagesOk;
    }
  }
}
