/** Device and format query utilities: first-match searches over what the
    driver reports (memory types, format features, queue families, extension
    and layer names), device suitability, and the image-layout transition
    table. Driver queries are plain input sequences here. */
module VulkanUtil {
  import opened Vk

  // ---------------------------------------------------------------------
  // First-match search over a sequence of booleans (the shape shared by the
  // queue-family searches).

  function FirstIndex(bs: seq<bool>): (r: Option<nat>)
  {
    if bs == [] then None
    else if bs[0] then Some(0)
    else match FirstIndex(bs[1..])
      case None => None
      case Some(i) => Some(i + 1)
  }

  /** FirstIndex finds the least true position, and nothing iff there is none. */
  lemma {:induction false} FirstIndexIsLeast(bs: seq<bool>)
    ensures FirstIndex(bs).Some? ==>
              FirstIndex(bs).value < |bs| && bs[FirstIndex(bs).value]
              && forall j :: 0 <= j < FirstIndex(bs).value ==> !bs[j]
    ensures FirstIndex(bs).None? <==> forall j :: 0 <= j < |bs| ==> !bs[j]
  {
    if bs != [] && !bs[0] {
      FirstIndexIsLeast(bs[1..]);
      assert forall j :: 1 <= j < |bs| ==> bs[j] == bs[1..][j - 1];
    }
  }

  // ---------------------------------------------------------------------
  // Queue families

  /** Util.h: both indices optional; complete only when both are present. */
  datatype QueueFamilyIndices = QueueFamilyIndices(graphicsFamily: Option<nat>, presentFamily: Option<nat>) {
    predicate IsComplete() {
      graphicsFamily.Some? && presentFamily.Some?
    }
  }

  /** One queue family as the driver reports it, together with the answer to
      the surface-support query for its index. */
  datatype QueueFamily = QueueFamily(queueFlags: bv32, presentSupport: bool)

  function GraphicsCapable(families: seq<QueueFamily>): (bs: seq<bool>)
    ensures |bs| == |families|
    ensures forall i :: 0 <= i < |families| ==> bs[i] == (HasAnyBit(families[i].queueFlags, QUEUE_GRAPHICS))
  {
    seq(|families|, i requires 0 <= i < |families| => HasAnyBit(families[i].queueFlags, QUEUE_GRAPHICS))
  }

  function PresentCapable(families: seq<QueueFamily>): (bs: seq<bool>)
    ensures |bs| == |families|
    ensures forall i :: 0 <= i < |families| ==> bs[i] == families[i].presentSupport
  {
    seq(|families|, i requires 0 <= i < |families| => families[i].presentSupport)
  }

  /** The indices FindQueueFamilies produces: the first graphics-capable
      family and the first family that can present. */
  function QueueFamiliesOf(families: seq<QueueFamily>): QueueFamilyIndices
  {
    QueueFamilyIndices(FirstIndex(GraphicsCapable(families)), FirstIndex(PresentCapable(families)))
  }

  /** Indices are complete exactly when some family has the graphics bit and
      some family can present to the surface. */
  lemma QueueFamiliesCompleteIff(families: seq<QueueFamily>)
    ensures QueueFamiliesOf(families).IsComplete() <==>
              (exists i :: 0 <= i < |families| && HasAnyBit(families[i].queueFlags, QUEUE_GRAPHICS))
              && (exists i :: 0 <= i < |families| && families[i].presentSupport)
  {
    FirstIndexIsLeast(GraphicsCapable(families));
    FirstIndexIsLeast(PresentCapable(families));
  }

  /** Walks the families once; each index is set at the first qualifying
      family and never overwritten afterwards. */
  method FindQueueFamilies(families: seq<QueueFamily>) returns (indices: QueueFamilyIndices)
    requires |families| < 0x8000_0000  // the loop counter is a C int
    ensures indices == QueueFamiliesOf(families)
    ensures indices.graphicsFamily.Some? ==>
              var g := indices.graphicsFamily.value;
              g < |families| && HasAnyBit(families[g].queueFlags, QUEUE_GRAPHICS)
              && forall j :: 0 <= j < g ==> !HasAnyBit(families[j].queueFlags, QUEUE_GRAPHICS)
    ensures indices.presentFamily.Some? ==>
              var p := indices.presentFamily.value;
              p < |families| && families[p].presentSupport
              && forall j :: 0 <= j < p ==> !families[j].presentSupport
  {
    indices := QueueFamilyIndices(None, None);
    var i := 0;
    while i < |families|
      invariant 0 <= i <= |families|
      invariant indices.graphicsFamily == FirstIndex(GraphicsCapable(families[..i]))
      invariant indices.presentFamily == FirstIndex(PresentCapable(families[..i]))
    {
      FirstIndexOfExtension(GraphicsCapable(families[..i + 1]));
      FirstIndexOfExtension(PresentCapable(families[..i + 1]));
      assert GraphicsCapable(families[..i + 1])[..i] == GraphicsCapable(families[..i]);
      assert PresentCapable(families[..i + 1])[..i] == PresentCapable(families[..i]);
      if indices.graphicsFamily.None? && HasAnyBit(families[i].queueFlags, QUEUE_GRAPHICS) {
        indices := indices.(graphicsFamily := Some(i));
      }
      if indices.presentFamily.None? && families[i].presentSupport {
        indices := indices.(presentFamily := Some(i));
      }
      i := i + 1;
    }
    assert families[..i] == families;
    FirstIndexIsLeast(GraphicsCapable(families));
    FirstIndexIsLeast(PresentCapable(families));
  }

  /** Extending a sequence by one element keeps an earlier first match and
      otherwise finds the new element if it is true. */
  lemma {:induction false} FirstIndexOfExtension(bs: seq<bool>)
    requires bs != []
    ensures FirstIndex(bs) ==
              match FirstIndex(bs[..|bs| - 1])
              case Some(i) => Some(i)
              case None => if bs[|bs| - 1] then Some(|bs| - 1) else None
  {
    if |bs| > 1 {
      FirstIndexOfExtension(bs[1..]);
      assert bs[1..][..|bs[1..]| - 1] == bs[..|bs| - 1][1..];
    }
  }

  // ---------------------------------------------------------------------
  // Name lists (device extensions, instance layers)

  ghost predicate AllNamesPresent(requested: seq<string>, available: seq<string>)
  {
    forall k :: 0 <= k < |requested| ==> requested[k] in available
  }

  /** Searches `available` for `name` with an early exit, as the inner loops do. */
  method ContainsName(available: seq<string>, name: string) returns (found: bool)
    ensures found <==> name in available
  {
    found := false;
    var j := 0;
    while j < |available|
      invariant 0 <= j <= |available|
      invariant name !in available[..j]
    {
      if available[j] == name {
        found := true;
        return;
      }
      j := j + 1;
    }
    assert available[..j] == available;
  }

  /** Counts the requested extensions found among the available ones; true
      iff the count reaches the number requested. */
  method CheckDeviceExtensionSupport(requested: seq<string>, available: seq<string>) returns (supported: bool)
    requires |requested| < U32_MODULUS  // the counter and the size are compared as uint32
    ensures supported <==> AllNamesPresent(requested, available)
  {
    var supportedCount := 0;
    var i := 0;
    while i < |requested|
      invariant 0 <= i <= |requested|
      invariant 0 <= supportedCount <= i
      invariant supportedCount == i <==> AllNamesPresent(requested[..i], available)
    {
      var found := ContainsName(available, requested[i]);
      if found {
        supportedCount := supportedCount + 1;
      }
      assert forall k :: 0 <= k < i ==> requested[..i + 1][k] == requested[..i][k];
      i := i + 1;
    }
    assert requested[..i] == requested;
    supported := supportedCount == |requested|;
  }

  /** Every requested validation layer must be among the instance's layers;
      stops at the first one missing. */
  method ValidationLayersSupported(requested: seq<string>, layers: seq<string>) returns (supported: bool)
    ensures supported <==> AllNamesPresent(requested, layers)
  {
    var i := 0;
    while i < |requested|
      invariant 0 <= i <= |requested|
      invariant AllNamesPresent(requested[..i], layers)
    {
      var found := ContainsName(layers, requested[i]);
      if !found {
        return false;
      }
      assert forall k :: 0 <= k < i ==> requested[..i + 1][k] == requested[..i][k];
      i := i + 1;
    }
    assert requested[..i] == requested;
    return true;
  }

  // ---------------------------------------------------------------------
  // Device suitability

  /** What the driver reports about one physical device for one surface. */
  datatype PhysicalDevice = PhysicalDevice(
    queueFamilies: seq<QueueFamily>,
    extensions: seq<string>,
    surfaceFormatCount: nat,
    presentModeCount: nat,
    samplerAnisotropy: bool)

  ghost predicate Suitable(device: PhysicalDevice, requiredExtensions: seq<string>)
  {
    && QueueFamiliesOf(device.queueFamilies).IsComplete()
    && AllNamesPresent(requiredExtensions, device.extensions)
    && device.surfaceFormatCount > 0
    && device.presentModeCount > 0
    && device.samplerAnisotropy
  }

  /** True iff the device is suitable; the caller's indices are overwritten
      with the device's queue families only then. */
  method IsSuitablePhysicalDevice(device: PhysicalDevice, requiredExtensions: seq<string>,
                                  indicesIn: QueueFamilyIndices)
    returns (suitable: bool, indicesOut: QueueFamilyIndices)
    requires |device.queueFamilies| < 0x8000_0000
    requires |requiredExtensions| < U32_MODULUS
    ensures suitable <==> Suitable(device, requiredExtensions)
    ensures suitable ==> indicesOut == QueueFamiliesOf(device.queueFamilies) && indicesOut.IsComplete()
    ensures !suitable ==> indicesOut == indicesIn
  {
    var indices := FindQueueFamilies(device.queueFamilies);
    var extensionSupport := CheckDeviceExtensionSupport(requiredExtensions, device.extensions);
    var swapchainSuitable := false;
    if extensionSupport {
      swapchainSuitable := device.surfaceFormatCount > 0 && device.presentModeCount > 0;
    }
    if indices.IsComplete() && swapchainSuitable && device.samplerAnisotropy {
      return true, indices;
    }
    return false, indicesIn;
  }

  // ---------------------------------------------------------------------
  // Memory types

  /** VkPhysicalDeviceMemoryProperties holds at most 32 memory types. */
  const MAX_MEMORY_TYPES: nat := 32

  datatype MemoryType = MemoryType(propertyFlags: bv32, heapIndex: nat)

  predicate MemoryTypeFits(memoryTypes: seq<MemoryType>, typeFilter: bv32, flags: bv32, i: nat)
    requires i < |memoryTypes| <= MAX_MEMORY_TYPES
  {
    HasBit(typeFilter, i) && HasAllBits(memoryTypes[i].propertyFlags, flags)
  }

  /** The least memory type allowed by `typeFilter` that has every requested
      property flag; None (fatal in the engine) when there is none. */
  method FindMemoryType(memoryTypes: seq<MemoryType>, typeFilter: bv32, flags: bv32) returns (r: Option<nat>)
    requires |memoryTypes| <= MAX_MEMORY_TYPES
    ensures r.Some? ==>
              r.value < |memoryTypes|
              && HasBit(typeFilter, r.value)
              && HasAllBits(memoryTypes[r.value].propertyFlags, flags)
              && forall j :: 0 <= j < r.value ==> !MemoryTypeFits(memoryTypes, typeFilter, flags, j)
    ensures r.None? <==> forall j :: 0 <= j < |memoryTypes| ==> !MemoryTypeFits(memoryTypes, typeFilter, flags, j)
  {
    var i := 0;
    while i < |memoryTypes|
      invariant 0 <= i <= |memoryTypes|
      invariant forall j :: 0 <= j < i ==> !MemoryTypeFits(memoryTypes, typeFilter, flags, j)
    {
      if HasBit(typeFilter, i) && HasAllBits(memoryTypes[i].propertyFlags, flags) {
        assert MemoryTypeFits(memoryTypes, typeFilter, flags, i);
        return Some(i);
      }
      i := i + 1;
    }
    return None;
  }

  /** A zero type filter admits no memory type, so the search is fatal. */
  lemma EmptyFilterFindsNothing(memoryTypes: seq<MemoryType>, flags: bv32)
    requires |memoryTypes| <= MAX_MEMORY_TYPES
    ensures forall j :: 0 <= j < |memoryTypes| ==> !MemoryTypeFits(memoryTypes, 0, flags, j)
  {
  }

  // ---------------------------------------------------------------------
  // Formats

  datatype FormatProperties = FormatProperties(linearTilingFeatures: bv32, optimalTilingFeatures: bv32, bufferFeatures: bv32)

  /** The feature set for the requested tiling contains every requested
      feature; tilings other than linear and optimal never qualify. */
  predicate SupportsFeatures(p: FormatProperties, tiling: int, features: bv32)
  {
    || (tiling == IMAGE_TILING_LINEAR && HasAllBits(p.linearTilingFeatures, features))
    || (tiling == IMAGE_TILING_OPTIMAL && HasAllBits(p.optimalTilingFeatures, features))
  }

  lemma SupportsFeaturesCases(p: FormatProperties, tiling: int, features: bv32)
    ensures SupportsFeatures(p, tiling, features) <==>
              (tiling == IMAGE_TILING_LINEAR && HasAllBits(p.linearTilingFeatures, features))
              || (tiling == IMAGE_TILING_OPTIMAL && HasAllBits(p.optimalTilingFeatures, features))
  {
  }

  /** The first candidate, in order, whose properties (as the driver
      reports them through `properties`) support the features. */
  function FirstSupported(candidates: seq<int>, properties: int -> FormatProperties, tiling: int, features: bv32): Option<int>
  {
    if candidates == [] then None
    else if SupportsFeatures(properties(candidates[0]), tiling, features) then Some(candidates[0])
    else FirstSupported(candidates[1..], properties, tiling, features)
  }

  /** FirstSupported picks the earliest qualifying candidate, and nothing
      exactly when no candidate qualifies. */
  lemma {:induction false} FirstSupportedIsFirst(candidates: seq<int>, properties: int -> FormatProperties, tiling: int, features: bv32)
    ensures FirstSupported(candidates, properties, tiling, features).None? <==>
              forall i :: 0 <= i < |candidates| ==> !SupportsFeatures(properties(candidates[i]), tiling, features)
    ensures FirstSupported(candidates, properties, tiling, features).Some? ==>
              exists k :: 0 <= k < |candidates|
                && FirstSupported(candidates, properties, tiling, features).value == candidates[k]
                && SupportsFeatures(properties(candidates[k]), tiling, features)
                && forall j :: 0 <= j < k ==> !SupportsFeatures(properties(candidates[j]), tiling, features)
  {
    if candidates != [] && !SupportsFeatures(properties(candidates[0]), tiling, features) {
      var rest := candidates[1..];
      FirstSupportedIsFirst(rest, properties, tiling, features);
      assert forall i :: 1 <= i < |candidates| ==> candidates[i] == rest[i - 1];
      if FirstSupported(rest, properties, tiling, features).Some? {
        var k :| 0 <= k < |rest|
                && FirstSupported(rest, properties, tiling, features).value == rest[k]
                && SupportsFeatures(properties(rest[k]), tiling, features)
                && forall j :: 0 <= j < k ==> !SupportsFeatures(properties(rest[j]), tiling, features);
        assert candidates[k + 1] == rest[k];
      }
    } else if candidates != [] {
      assert candidates[0] == candidates[0];
    }
  }

  /** The candidate search with its early return; None is fatal. */
  method FindSupportedFormat(candidates: seq<int>, properties: int -> FormatProperties, tiling: int, features: bv32)
    returns (r: Option<int>)
    ensures r == FirstSupported(candidates, properties, tiling, features)
  {
    var i := 0;
    while i < |candidates|
      invariant 0 <= i <= |candidates|
      invariant FirstSupported(candidates, properties, tiling, features)
                == FirstSupported(candidates[i..], properties, tiling, features)
    {
      var p := properties(candidates[i]);
      ghost var rest := candidates[i..];
      assert rest != [] && rest[0] == candidates[i] && rest[1..] == candidates[i + 1..];
      var linearOk := HasAllBits(p.linearTilingFeatures, features);
      var optimalOk := HasAllBits(p.optimalTilingFeatures, features);
      SupportsFeaturesCases(p, tiling, features);
      if tiling == IMAGE_TILING_LINEAR && linearOk {
        return Some(candidates[i]);
      }
      if tiling == IMAGE_TILING_OPTIMAL && optimalOk {
        return Some(candidates[i]);
      }
      i := i + 1;
    }
    assert candidates[i..] == [];
    return None;
  }

  /** Exactly the two combined depth-stencil formats of the depth search
      carry a stencil part; the depth-only fallback does not. */
  function HasStencilComponent(format: int): (b: bool)
    ensures b <==> format in {FORMAT_D32_SFLOAT_S8_UINT, FORMAT_D24_UNORM_S8_UINT}
    ensures format == FORMAT_D32_SFLOAT ==> !b
  {
    format == FORMAT_D32_SFLOAT_S8_UINT || format == FORMAT_D24_UNORM_S8_UINT
  }

  predicate DepthAttachable(properties: int -> FormatProperties, format: int)
  {
    HasAllBits(properties(format).optimalTilingFeatures, FORMAT_FEATURE_DEPTH_STENCIL_ATTACHMENT)
  }

  /** Depth formats in order of preference (32-bit depth with stencil, 24-bit
      depth with stencil, 32-bit depth), searched with optimal tiling for the
      depth-stencil attachment feature. */
  method FindDepthFormat(properties: int -> FormatProperties) returns (r: Option<int>)
    ensures r == if DepthAttachable(properties, FORMAT_D32_SFLOAT_S8_UINT) then Some(FORMAT_D32_SFLOAT_S8_UINT)
                 else if DepthAttachable(properties, FORMAT_D24_UNORM_S8_UINT) then Some(FORMAT_D24_UNORM_S8_UINT)
                 else if DepthAttachable(properties, FORMAT_D32_SFLOAT) then Some(FORMAT_D32_SFLOAT)
                 else None
    ensures r.Some? ==> (HasStencilComponent(r.value) <==> r.value != FORMAT_D32_SFLOAT)
  {
    var candidates := [FORMAT_D32_SFLOAT_S8_UINT, FORMAT_D24_UNORM_S8_UINT, FORMAT_D32_SFLOAT];
    r := FindSupportedFormat(candidates, properties, IMAGE_TILING_OPTIMAL, FORMAT_FEATURE_DEPTH_STENCIL_ATTACHMENT);
    var tiling, features := IMAGE_TILING_OPTIMAL, FORMAT_FEATURE_DEPTH_STENCIL_ATTACHMENT;
    SupportsFeaturesCases(properties(FORMAT_D32_SFLOAT_S8_UINT), tiling, features);
    SupportsFeaturesCases(properties(FORMAT_D24_UNORM_S8_UINT), tiling, features);
    SupportsFeaturesCases(properties(FORMAT_D32_SFLOAT), tiling, features);
    assert candidates[1..] == [FORMAT_D24_UNORM_S8_UINT, FORMAT_D32_SFLOAT];
    assert candidates[1..][1..] == [FORMAT_D32_SFLOAT];
    assert candidates[1..][1..][1..] == [];
    assert FirstSupported([FORMAT_D32_SFLOAT], properties, tiling, features)
           == if DepthAttachable(properties, FORMAT_D32_SFLOAT) then Some(FORMAT_D32_SFLOAT) else None;
    assert FirstSupported(candidates[1..], properties, tiling, features)
           == if DepthAttachable(properties, FORMAT_D24_UNORM_S8_UINT) then Some(FORMAT_D24_UNORM_S8_UINT)
              else FirstSupported([FORMAT_D32_SFLOAT], properties, tiling, features);
  }
}
