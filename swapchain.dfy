/** Swapchain selection rules (surface format, present mode, extent, image
    count, sharing mode) and the swapchain object whose image-view and
    framebuffer lists follow its image list. The surface capabilities, the
    format and mode lists and the window's framebuffer size are inputs. */
module Swapchains {
  import opened Vk
  import opened VulkanUtil

  datatype SurfaceFormat = SurfaceFormat(format: int, colorSpace: int)

  /** The format the engine looks for first: 8-bit BGRA sRGB, non-linear. */
  const PREFERRED_SURFACE_FORMAT := SurfaceFormat(FORMAT_B8G8R8A8_SRGB, COLOR_SPACE_SRGB_NONLINEAR)

  datatype Extent = Extent(width: u32, height: u32)

  datatype SurfaceCapabilities = SurfaceCapabilities(
    minImageCount: u32,
    maxImageCount: u32,  // 0 means "no limit"
    currentExtent: Extent,
    minImageExtent: Extent,
    maxImageExtent: Extent)

  // ---------------------------------------------------------------------
  // Selection rules

  /** The format the surface-format search settles on. */
  function SurfaceFormatFor(available: seq<SurfaceFormat>): SurfaceFormat
    requires |available| > 0
  {
    if PREFERRED_SURFACE_FORMAT in available then PREFERRED_SURFACE_FORMAT else available[0]
  }

  /** The present mode the present-mode search settles on. */
  function PresentModeFor(available: seq<int>): int
  {
    if PRESENT_MODE_MAILBOX in available then PRESENT_MODE_MAILBOX else PRESENT_MODE_FIFO
  }

  /** The preferred format when the surface offers it, otherwise the first
      offered one (the list must not be empty: it is indexed unchecked). */
  method ChooseSurfaceFormat(available: seq<SurfaceFormat>) returns (chosen: SurfaceFormat)
    requires |available| > 0
    ensures chosen == SurfaceFormatFor(available)
    ensures chosen in available
    ensures chosen == PREFERRED_SURFACE_FORMAT <==> PREFERRED_SURFACE_FORMAT in available
    ensures PREFERRED_SURFACE_FORMAT !in available ==> chosen == available[0]
  {
    var i := 0;
    while i < |available|
      invariant 0 <= i <= |available|
      invariant PREFERRED_SURFACE_FORMAT !in available[..i]
    {
      var f := available[i];
      if f.format == FORMAT_B8G8R8A8_SRGB && f.colorSpace == COLOR_SPACE_SRGB_NONLINEAR {
        return f;
      }
      i := i + 1;
    }
    assert available[..i] == available;
    return available[0];
  }

  /** MAILBOX when offered, FIFO (always available) otherwise. */
  method ChoosePresentMode(available: seq<int>) returns (mode: int)
    ensures mode == PresentModeFor(available)
    ensures mode == PRESENT_MODE_MAILBOX <==> PRESENT_MODE_MAILBOX in available
    ensures mode == PRESENT_MODE_MAILBOX || mode == PRESENT_MODE_FIFO
  {
    var i := 0;
    while i < |available|
      invariant 0 <= i <= |available|
      invariant PRESENT_MODE_MAILBOX !in available[..i]
    {
      if available[i] == PRESENT_MODE_MAILBOX {
        return available[i];
      }
      i := i + 1;
    }
    assert available[..i] == available;
    return PRESENT_MODE_FIFO;
  }

  /** std::clamp: the value pulled into [lo, hi]. */
  function Clamp(v: int, lo: int, hi: int): (r: int)
    requires lo <= hi
    ensures lo <= r <= hi
    ensures lo <= v <= hi ==> r == v
    ensures v < lo ==> r == lo
    ensures hi < v ==> r == hi
  {
    if v < lo then lo else if hi < v then hi else v
  }

  /** The clamped value is the point of [lo, hi] nearest to v. */
  lemma ClampIsNearest(v: int, lo: int, hi: int, y: int)
    requires lo <= hi && lo <= y <= hi
    ensures Dist(Clamp(v, lo, hi), v) <= Dist(y, v)
  {
  }

  function Dist(a: int, b: int): nat
  {
    if a < b then b - a else a - b
  }

  /** Width and height can be taken from the window only when the surface
      reports the special current width UINT32_MAX; std::clamp then needs
      each minimum no larger than its maximum. */
  predicate ExtentChoosable(caps: SurfaceCapabilities)
  {
    caps.currentExtent.width == UINT32_MAX ==>
      caps.minImageExtent.width <= caps.maxImageExtent.width
      && caps.minImageExtent.height <= caps.maxImageExtent.height
  }

  /** The surface's current extent unless its width is UINT32_MAX; then the
      window's framebuffer size (cast to uint32) clamped into the surface's
      allowed range, dimension by dimension. */
  function ChooseExtent(caps: SurfaceCapabilities, windowWidth: int, windowHeight: int): (e: Extent)
    requires ExtentChoosable(caps)
    ensures caps.currentExtent.width != UINT32_MAX ==> e == caps.currentExtent
    ensures caps.currentExtent.width == UINT32_MAX ==>
              && caps.minImageExtent.width <= e.width <= caps.maxImageExtent.width
              && caps.minImageExtent.height <= e.height <= caps.maxImageExtent.height
              && (caps.minImageExtent.width <= U32(windowWidth) <= caps.maxImageExtent.width ==> e.width == U32(windowWidth))
              && (caps.minImageExtent.height <= U32(windowHeight) <= caps.maxImageExtent.height ==> e.height == U32(windowHeight))
    ensures caps.currentExtent.width == UINT32_MAX ==>
              && (U32(windowWidth) < caps.minImageExtent.width ==> e.width == caps.minImageExtent.width)
              && (U32(windowWidth) > caps.maxImageExtent.width ==> e.width == caps.maxImageExtent.width)
              && (U32(windowHeight) < caps.minImageExtent.height ==> e.height == caps.minImageExtent.height)
              && (U32(windowHeight) > caps.maxImageExtent.height ==> e.height == caps.maxImageExtent.height)
  {
    if caps.currentExtent.width != UINT32_MAX then caps.currentExtent
    else
      Extent(Clamp(U32(windowWidth), caps.minImageExtent.width, caps.maxImageExtent.width),
             Clamp(U32(windowHeight), caps.minImageExtent.height, caps.maxImageExtent.height))
  }

  /** A 50x5000 window on a surface allowing 100x100 .. 4000x3000 gets a
      100x3000 swapchain. */
  lemma ChooseExtentExample()
    ensures var caps := SurfaceCapabilities(2, 8, Extent(UINT32_MAX, UINT32_MAX), Extent(100, 100), Extent(4000, 3000));
            ChooseExtent(caps, 50, 5000) == Extent(100, 3000)
  {
  }

  /** One image more than the minimum, lowered to the maximum when there is
      one (nonzero) and it is smaller; the addition wraps as uint32. */
  function RequestedImageCount(caps: SurfaceCapabilities): (n: u32)
  {
    var count := U32(caps.minImageCount + 1);
    if caps.maxImageCount > 0 && count > caps.maxImageCount then caps.maxImageCount else count
  }

  /** For capabilities Vulkan can report (maximum 0 or at least the minimum)
      and a minimum below UINT32_MAX, the request lies in the allowed range
      and exceeds the minimum unless the maximum forbids it. */
  lemma RequestedImageCountInRange(caps: SurfaceCapabilities)
    requires caps.maxImageCount == 0 || caps.minImageCount <= caps.maxImageCount
    requires caps.minImageCount < UINT32_MAX
    ensures caps.minImageCount <= RequestedImageCount(caps)
    ensures caps.maxImageCount > 0 ==> RequestedImageCount(caps) <= caps.maxImageCount
    ensures RequestedImageCount(caps) > caps.minImageCount <==>
              caps.maxImageCount == 0 || caps.minImageCount < caps.maxImageCount
  {
  }

  /** With a minimum of UINT32_MAX and no maximum the uint32 addition wraps
      and zero images are requested. */
  lemma RequestedImageCountWraps()
    ensures RequestedImageCount(SurfaceCapabilities(UINT32_MAX, 0, Extent(0, 0), Extent(0, 0), Extent(0, 0))) == 0
  {
  }

  /** The sharing fields of the swapchain create info. */
  datatype Sharing = Sharing(mode: int, queueFamilyIndexCount: nat, queueFamilyIndices: seq<nat>)

  /** Vulkan's rule for concurrent sharing: more than one queue family, and
      the index array holds exactly that many entries. */
  predicate SharingWellFormed(s: Sharing)
  {
    s.mode == SHARING_MODE_CONCURRENT ==>
      s.queueFamilyIndexCount > 1 && |s.queueFamilyIndices| == s.queueFamilyIndexCount
  }

  /** Sharing as written: CONCURRENT with a count of 2 when the (optional)
      graphics and present families differ, EXCLUSIVE otherwise; the index
      array itself is never filled in. */
  function SharingAsWritten(indices: QueueFamilyIndices): (s: Sharing)
    ensures s.mode == SHARING_MODE_CONCURRENT <==> indices.graphicsFamily != indices.presentFamily
    ensures s.mode == SHARING_MODE_CONCURRENT || s.mode == SHARING_MODE_EXCLUSIVE
    ensures s.queueFamilyIndices == []
  {
    if indices.graphicsFamily != indices.presentFamily then Sharing(SHARING_MODE_CONCURRENT, 2, [])
    else Sharing(SHARING_MODE_EXCLUSIVE, 0, [])
  }

  /** Graphics family 0 and present family 1: the create info claims two
      concurrent queue families but passes no index array. */
  lemma SharingAsWrittenMissesIndices()
    ensures !SharingWellFormed(SharingAsWritten(QueueFamilyIndices(Some(0), Some(1))))
  {
  }

  /** Sharing with the index array filled from the two families. Called only
      with complete indices (the device was chosen as suitable). */
  function SharingFor(indices: QueueFamilyIndices): (s: Sharing)
    requires indices.IsComplete()
    ensures SharingWellFormed(s)
    ensures s.mode == SharingAsWritten(indices).mode
    ensures s.queueFamilyIndexCount == SharingAsWritten(indices).queueFamilyIndexCount
    ensures s.mode == SHARING_MODE_CONCURRENT ==>
              s.queueFamilyIndices == [indices.graphicsFamily.value, indices.presentFamily.value]
  {
    if indices.graphicsFamily != indices.presentFamily then
      Sharing(SHARING_MODE_CONCURRENT, 2, [indices.graphicsFamily.value, indices.presentFamily.value])
    else Sharing(SHARING_MODE_EXCLUSIVE, 0, [])
  }

  // ---------------------------------------------------------------------
  // The swapchain object

  datatype SwapchainCreateInfo = SwapchainCreateInfo(
    imageFormat: int, imageColorSpace: int, presentMode: int, imageExtent: Extent,
    minImageCount: u32, imageArrayLayers: nat, sharing: Sharing)

  /** Vulkan's rules for the fields modelled here: the image count within
      the surface's range (a maximum of 0 meaning none) and well-formed
      sharing. */
  predicate CreateInfoValid(caps: SurfaceCapabilities, info: SwapchainCreateInfo)
  {
    && caps.minImageCount <= info.minImageCount
    && (caps.maxImageCount == 0 || info.minImageCount <= caps.maxImageCount)
    && SharingWellFormed(info.sharing)
  }

  /** The create info as written: the chosen format, mode and extent, one
      array layer and the sharing as written; the computed image count is
      never stored, so minImageCount keeps its zero initialisation. */
  function CreateInfoAsWritten(caps: SurfaceCapabilities, formats: seq<SurfaceFormat>, presentModes: seq<int>,
                               windowWidth: int, windowHeight: int, indices: QueueFamilyIndices): SwapchainCreateInfo
    requires |formats| > 0 && ExtentChoosable(caps)
  {
    var f := SurfaceFormatFor(formats);
    SwapchainCreateInfo(f.format, f.colorSpace, PresentModeFor(presentModes),
                        ChooseExtent(caps, windowWidth, windowHeight), 0, 1, SharingAsWritten(indices))
  }

  /** The create info with the computed image count stored and the sharing
      index array filled in. */
  function CreateInfoFor(caps: SurfaceCapabilities, formats: seq<SurfaceFormat>, presentModes: seq<int>,
                         windowWidth: int, windowHeight: int, indices: QueueFamilyIndices): SwapchainCreateInfo
    requires |formats| > 0 && ExtentChoosable(caps) && indices.IsComplete()
  {
    var f := SurfaceFormatFor(formats);
    SwapchainCreateInfo(f.format, f.colorSpace, PresentModeFor(presentModes),
                        ChooseExtent(caps, windowWidth, windowHeight), RequestedImageCount(caps), 1, SharingFor(indices))
  }

  /** Every surface reports a minimum of at least one image, so the create
      info as written asks for fewer images than the surface allows. */
  lemma CreateInfoAsWrittenRequestsNoImages(caps: SurfaceCapabilities, formats: seq<SurfaceFormat>, presentModes: seq<int>,
                                            windowWidth: int, windowHeight: int, indices: QueueFamilyIndices)
    requires |formats| > 0 && ExtentChoosable(caps)
    requires caps.minImageCount > 0
    ensures var info := CreateInfoAsWritten(caps, formats, presentModes, windowWidth, windowHeight, indices);
            info.minImageCount == 0 < caps.minImageCount && !CreateInfoValid(caps, info)
  {
  }

  /** For any surface Vulkan can report and a suitable device, the corrected
      create info is valid, and it differs from the one as written only in
      the image count and the sharing index array. */
  lemma CreateInfoForValid(caps: SurfaceCapabilities, formats: seq<SurfaceFormat>, presentModes: seq<int>,
                           windowWidth: int, windowHeight: int, indices: QueueFamilyIndices)
    requires |formats| > 0 && ExtentChoosable(caps) && indices.IsComplete()
    requires caps.maxImageCount == 0 || caps.minImageCount <= caps.maxImageCount
    requires caps.minImageCount < UINT32_MAX
    ensures var info := CreateInfoFor(caps, formats, presentModes, windowWidth, windowHeight, indices);
            && CreateInfoValid(caps, info)
            && info.(minImageCount := 0, sharing := SharingAsWritten(indices))
               == CreateInfoAsWritten(caps, formats, presentModes, windowWidth, windowHeight, indices)
  {
    RequestedImageCountInRange(caps);
  }

  /** A driver image handle. */
  type Image = nat

  datatype ImageView = NullView | View(image: Image, format: int, aspect: bv32)

  datatype Framebuffer = NullFramebuffer | Framebuffer(renderPass: nat, attachments: seq<ImageView>, width: u32, height: u32, layers: nat)

  /** What Destroy hands back to the driver, in order. */
  datatype Released = ReleasedFramebuffer(framebuffer: Framebuffer) | ReleasedSwapchain | ReleasedView(view: ImageView)

  /** `v` resized to `n` entries, new ones value-initialised. */
  function ResizedTo<T>(v: seq<T>, n: nat, fill: T): (r: seq<T>)
    ensures |r| == n
    ensures forall i :: 0 <= i < n && i < |v| ==> r[i] == v[i]
  {
    if n <= |v| then v[..n] else v + seq(n - |v|, _ => fill)
  }

  class Swapchain {
    var createInfo: SwapchainCreateInfo
    var images: seq<Image>
    var imageViews: seq<ImageView>
    var imageFormat: int
    var extent: Extent
    var framebuffers: seq<Framebuffer>
    var framebufferResized: bool
    var cleanedUp: bool

    /** View i shows image i in the swapchain's format as a colour image. */
    ghost predicate ViewsMatchImages()
      reads this
    {
      |imageViews| == |images|
      && forall i :: 0 <= i < |images| ==> imageViews[i] == View(images[i], imageFormat, ASPECT_COLOR)
    }

    /** Framebuffer i draws into view i plus the shared depth view, at the
        swapchain's extent. */
    ghost predicate FramebuffersMatchViews(renderPass: nat, depthView: ImageView)
      reads this
    {
      |framebuffers| == |imageViews|
      && forall i :: 0 <= i < |framebuffers| ==>
           framebuffers[i] == Framebuffer(renderPass, [imageViews[i], depthView], extent.width, extent.height, 1)
    }

    /** Chooses format, mode and extent and builds the corrected create
        info (`CreateInfoFor`: the computed image count stored, the sharing
        index array filled in; `CreateInfoAsWritten` is the engine's), then
        takes the images the driver reports. Views and framebuffers come
        later; the resized flag starts cleared. */
    constructor (caps: SurfaceCapabilities, formats: seq<SurfaceFormat>, presentModes: seq<int>,
                 windowWidth: int, windowHeight: int, indices: QueueFamilyIndices, driverImages: seq<Image>)
      requires |formats| > 0
      requires ExtentChoosable(caps)
      requires indices.IsComplete()
      ensures createInfo == CreateInfoFor(caps, formats, presentModes, windowWidth, windowHeight, indices)
      ensures SurfaceFormat(createInfo.imageFormat, createInfo.imageColorSpace)
              == if PREFERRED_SURFACE_FORMAT in formats then PREFERRED_SURFACE_FORMAT else formats[0]
      ensures createInfo.presentMode == if PRESENT_MODE_MAILBOX in presentModes then PRESENT_MODE_MAILBOX else PRESENT_MODE_FIFO
      ensures createInfo.minImageCount == RequestedImageCount(caps)
      ensures createInfo.(minImageCount := 0, sharing := SharingAsWritten(indices))
              == CreateInfoAsWritten(caps, formats, presentModes, windowWidth, windowHeight, indices)
      ensures createInfo.imageExtent == ChooseExtent(caps, windowWidth, windowHeight)
      ensures createInfo.sharing == SharingFor(indices)
      ensures createInfo.imageArrayLayers == 1
      ensures SurfaceFormat(createInfo.imageFormat, createInfo.imageColorSpace) in formats
      ensures createInfo.presentMode == PRESENT_MODE_MAILBOX <==> PRESENT_MODE_MAILBOX in presentModes
      ensures images == driverImages
      ensures imageFormat == createInfo.imageFormat && extent == createInfo.imageExtent
      ensures imageViews == [] && framebuffers == []
      ensures !framebufferResized && !cleanedUp
    {
      var surfaceFormat := ChooseSurfaceFormat(formats);
      var presentMode := ChoosePresentMode(presentModes);
      var chosenExtent := ChooseExtent(caps, windowWidth, windowHeight);
      var imageCount := RequestedImageCount(caps);
      createInfo := SwapchainCreateInfo(surfaceFormat.format, surfaceFormat.colorSpace, presentMode,
                                        chosenExtent, imageCount, 1, SharingFor(indices));
      images := driverImages;
      imageViews := [];
      framebuffers := [];
      imageFormat := surfaceFormat.format;
      extent := chosenExtent;
      framebufferResized := false;
      cleanedUp := false;
    }

    /** One colour view per image, view i built from image i. */
    method InitImageViews()
      modifies this
      ensures ViewsMatchImages()
      ensures images == old(images) && framebuffers == old(framebuffers)
      ensures imageFormat == old(imageFormat) && extent == old(extent) && createInfo == old(createInfo)
      ensures framebufferResized == old(framebufferResized) && cleanedUp == old(cleanedUp)
    {
      var views := ResizedTo(imageViews, |images|, NullView);
      var i := 0;
      while i < |images|
        invariant 0 <= i <= |images| == |views|
        invariant forall k :: 0 <= k < i ==> views[k] == View(images[k], imageFormat, ASPECT_COLOR)
      {
        views := views[i := View(images[i], imageFormat, ASPECT_COLOR)];
        i := i + 1;
      }
      imageViews := views;
    }

    /** One framebuffer per image view, each with two attachments (the view
        and the shared depth view), the swapchain's extent and one layer. */
    method InitFramebuffers(renderPass: nat, depthView: ImageView)
      modifies this
      ensures FramebuffersMatchViews(renderPass, depthView)
      ensures images == old(images) && imageViews == old(imageViews)
      ensures imageFormat == old(imageFormat) && extent == old(extent) && createInfo == old(createInfo)
      ensures framebufferResized == old(framebufferResized) && cleanedUp == old(cleanedUp)
    {
      var fbs := ResizedTo(framebuffers, |imageViews|, NullFramebuffer);
      var i := 0;
      while i < |imageViews|
        invariant 0 <= i <= |imageViews| == |fbs|
        invariant forall k :: 0 <= k < i ==>
                    fbs[k] == Framebuffer(renderPass, [imageViews[k], depthView], extent.width, extent.height, 1)
      {
        var attachments := [imageViews[i], depthView];
        fbs := fbs[i := Framebuffer(renderPass, attachments, extent.width, extent.height, 1)];
        i := i + 1;
      }
      framebuffers := fbs;
    }

    /** Releases every framebuffer, then the swapchain, then every image
        view, and marks the object cleaned up. The lists themselves stay. */
    method Destroy() returns (released: seq<Released>)
      modifies this
      ensures released == ReleaseOrder(framebuffers, imageViews)
      ensures cleanedUp
      ensures images == old(images) && imageViews == old(imageViews) && framebuffers == old(framebuffers)
      ensures imageFormat == old(imageFormat) && extent == old(extent) && createInfo == old(createInfo)
      ensures framebufferResized == old(framebufferResized)
    {
      var fbs, views := framebuffers, imageViews;
      released := [];
      var i := 0;
      while i < |fbs|
        invariant 0 <= i <= |fbs|
        invariant released == seq(i, k requires 0 <= k < i => ReleasedFramebuffer(fbs[k]))
      {
        released := released + [ReleasedFramebuffer(fbs[i])];
        i := i + 1;
      }
      released := released + [ReleasedSwapchain];
      ghost var prefix := released;
      var j := 0;
      while j < |views|
        invariant 0 <= j <= |views|
        invariant released == prefix + seq(j, k requires 0 <= k < j => ReleasedView(views[k]))
      {
        released := released + [ReleasedView(views[j])];
        j := j + 1;
      }
      cleanedUp := true;
    }

    method SetFramebufferResized(b: bool)
      modifies this
      ensures framebufferResized == b
      ensures images == old(images) && imageViews == old(imageViews) && framebuffers == old(framebuffers)
      ensures imageFormat == old(imageFormat) && extent == old(extent) && createInfo == old(createInfo)
      ensures cleanedUp == old(cleanedUp)
    {
      framebufferResized := b;
    }

    /** The image count narrowed to uint32. */
    function GetImageCount(): (n: u32)
      reads this
      ensures |images| < U32_MODULUS ==> n == |images|
    {
      U32(|images|)
    }
  }

  /** The release sequence Destroy produces for the given lists. */
  function ReleaseOrder(framebuffers: seq<Framebuffer>, views: seq<ImageView>): seq<Released>
  {
    seq(|framebuffers|, k requires 0 <= k < |framebuffers| => ReleasedFramebuffer(framebuffers[k]))
    + [ReleasedSwapchain]
    + seq(|views|, k requires 0 <= k < |views| => ReleasedView(views[k]))
  }

  /** In the release sequence the swapchain is released exactly once, after
      every framebuffer and before every image view, and each framebuffer and
      view appears at its own position. */
  lemma ReleaseOrderIsFramebuffersSwapchainViews(framebuffers: seq<Framebuffer>, views: seq<ImageView>)
    ensures var r := ReleaseOrder(framebuffers, views);
            && |r| == |framebuffers| + 1 + |views|
            && r[|framebuffers|] == ReleasedSwapchain
            && (forall k :: 0 <= k < |r| && r[k].ReleasedSwapchain? ==> k == |framebuffers|)
            && (forall k :: 0 <= k < |framebuffers| ==> r[k] == ReleasedFramebuffer(framebuffers[k]))
            && (forall k :: 0 <= k < |views| ==> r[|framebuffers| + 1 + k] == ReleasedView(views[k]))
  {
    var r := ReleaseOrder(framebuffers, views);
    assert forall k :: 0 <= k < |framebuffers| ==> r[k] == ReleasedFramebuffer(framebuffers[k]);
    assert forall k :: |framebuffers| < k < |r| ==> r[k] == ReleasedView(views[k - |framebuffers| - 1]);
  }

  /** Building views and then framebuffers leaves all three lists the same
      length, framebuffer i presenting image i. */
  method InitViewsAndFramebuffers(s: Swapchain, renderPass: nat, depthView: ImageView)
    modifies s
    ensures |s.imageViews| == |s.images| == |s.framebuffers|
    ensures forall i :: 0 <= i < |s.images| ==>
              s.framebuffers[i] == Framebuffer(renderPass, [View(s.images[i], s.imageFormat, ASPECT_COLOR), depthView],
                                               s.extent.width, s.extent.height, 1)
    ensures s.images == old(s.images)
  {
    s.InitImageViews();
    s.InitFramebuffers(renderPass, depthView);
  }
}
