/** Shared vocabulary: the Vulkan enumerant values the engine compares against,
    fixed-width unsigned arithmetic, and the Option type used for results that
    are fatal in the engine's debug build. */
module Vk {

  datatype Option<+T> = None | Some(value: T)

  /** Unsigned 32-bit wrap-around, as C's conversion to uint32_t does it
      (Dafny's % is Euclidean, so negative ints wrap as two's complement). */
  const U32_MODULUS: int := 0x1_0000_0000
  const UINT32_MAX: int := 0xFFFF_FFFF

  type u32 = x: int | 0 <= x < 0x1_0000_0000

  function U32(x: int): (r: int)
    ensures 0 <= r < U32_MODULUS
    ensures 0 <= x < U32_MODULUS ==> r == x
  {
    x % U32_MODULUS
  }

  /** Flag tests on 32-bit Vulkan masks. */
  predicate HasAllBits(mask: bv32, bits: bv32)
  {
    mask & bits == bits
  }

  predicate HasAnyBit(mask: bv32, bits: bv32)
  {
    mask & bits != 0
  }

  /** Bit `i` of `mask`, tested as `mask & (1 << i)`. */
  predicate HasBit(mask: bv32, i: nat)
    requires i < 32
  {
    mask & (1 << i) != 0
  }

  // VkFormat
  const FORMAT_UNDEFINED: int := 0
  const FORMAT_B8G8R8A8_SRGB: int := 50
  const FORMAT_R32_SFLOAT: int := 100
  const FORMAT_R32G32_SFLOAT: int := 103
  const FORMAT_R32G32B32_SFLOAT: int := 106
  const FORMAT_D32_SFLOAT: int := 126
  const FORMAT_D24_UNORM_S8_UINT: int := 129
  const FORMAT_D32_SFLOAT_S8_UINT: int := 130

  // VkColorSpaceKHR
  const COLOR_SPACE_SRGB_NONLINEAR: int := 0

  // VkPresentModeKHR
  const PRESENT_MODE_IMMEDIATE: int := 0
  const PRESENT_MODE_MAILBOX: int := 1
  const PRESENT_MODE_FIFO: int := 2
  const PRESENT_MODE_FIFO_RELAXED: int := 3

  // VkSharingMode
  const SHARING_MODE_EXCLUSIVE: int := 0
  const SHARING_MODE_CONCURRENT: int := 1

  // VkImageTiling
  const IMAGE_TILING_OPTIMAL: int := 0
  const IMAGE_TILING_LINEAR: int := 1

  // VkImageLayout
  const IMAGE_LAYOUT_UNDEFINED: int := 0
  const IMAGE_LAYOUT_DEPTH_STENCIL_ATTACHMENT_OPTIMAL: int := 3
  const IMAGE_LAYOUT_SHADER_READ_ONLY_OPTIMAL: int := 5
  const IMAGE_LAYOUT_TRANSFER_DST_OPTIMAL: int := 7

  // VkImageAspectFlagBits
  const ASPECT_COLOR: bv32 := 0x1
  const ASPECT_DEPTH: bv32 := 0x2
  const ASPECT_STENCIL: bv32 := 0x4

  // VkAccessFlagBits
  const ACCESS_SHADER_READ: bv32 := 0x20
  const ACCESS_DEPTH_STENCIL_ATTACHMENT_READ: bv32 := 0x200
  const ACCESS_DEPTH_STENCIL_ATTACHMENT_WRITE: bv32 := 0x400
  const ACCESS_TRANSFER_READ: bv32 := 0x800
  const ACCESS_TRANSFER_WRITE: bv32 := 0x1000

  // VkPipelineStageFlagBits
  const STAGE_TOP_OF_PIPE: bv32 := 0x1
  const STAGE_FRAGMENT_SHADER: bv32 := 0x80
  const STAGE_EARLY_FRAGMENT_TESTS: bv32 := 0x100
  const STAGE_TRANSFER: bv32 := 0x1000

  // VkFormatFeatureFlagBits
  const FORMAT_FEATURE_DEPTH_STENCIL_ATTACHMENT: bv32 := 0x200

  // VkQueueFlagBits
  const QUEUE_GRAPHICS: bv32 := 0x1

  // VkVertexInputRate
  const VERTEX_INPUT_RATE_VERTEX: int := 0

  // VkResult
  const RESULT_SUCCESS: int := 0
  const RESULT_SUBOPTIMAL: int := 1000001003
  const RESULT_ERROR_OUT_OF_DATE: int := -1000001004

  /** Frames in flight (FrameGroup.h). */
  const MAX_FRAMES_IN_FLIGHT: nat := 2
}
