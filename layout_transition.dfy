/** The image layout transitions the engine records as pipeline barriers:
    for each supported (old, new) layout pair, the aspect, access masks and
    pipeline stages of the barrier. */
module LayoutTransitions {
  import opened Vk
  import opened VulkanUtil

  datatype Barrier = Barrier(
    oldLayout: int, newLayout: int, aspectMask: bv32,
    srcAccessMask: bv32, dstAccessMask: bv32,
    srcStageMask: bv32, dstStageMask: bv32)

  function AspectFor(format: int, newLayout: int): bv32
  {
    if newLayout == IMAGE_LAYOUT_DEPTH_STENCIL_ATTACHMENT_OPTIMAL then
      if HasStencilComponent(format) then ASPECT_DEPTH | ASPECT_STENCIL else ASPECT_DEPTH
    else ASPECT_COLOR
  }

  /** The barrier TransitionImageLayout records, exactly as written: the
      shader-read transition's destination access is TRANSFER_READ. */
  function TransitionBarrierAsWritten(format: int, oldLayout: int, newLayout: int): (r: Option<Barrier>)
    ensures r.Some? <==> SupportedTransition(oldLayout, newLayout)
    ensures r.Some? && oldLayout == IMAGE_LAYOUT_TRANSFER_DST_OPTIMAL ==>
              r.value.dstAccessMask == ACCESS_TRANSFER_READ && r.value.dstStageMask == STAGE_FRAGMENT_SHADER
  {
    var aspect := AspectFor(format, newLayout);
    if oldLayout == IMAGE_LAYOUT_UNDEFINED && newLayout == IMAGE_LAYOUT_TRANSFER_DST_OPTIMAL then
      Some(Barrier(oldLayout, newLayout, aspect, 0, ACCESS_TRANSFER_WRITE, STAGE_TOP_OF_PIPE, STAGE_TRANSFER))
    else if oldLayout == IMAGE_LAYOUT_TRANSFER_DST_OPTIMAL && newLayout == IMAGE_LAYOUT_SHADER_READ_ONLY_OPTIMAL then
      Some(Barrier(oldLayout, newLayout, aspect, ACCESS_TRANSFER_WRITE, ACCESS_TRANSFER_READ, STAGE_TRANSFER, STAGE_FRAGMENT_SHADER))
    else if oldLayout == IMAGE_LAYOUT_UNDEFINED && newLayout == IMAGE_LAYOUT_DEPTH_STENCIL_ATTACHMENT_OPTIMAL then
      Some(Barrier(oldLayout, newLayout, aspect, 0,
                   ACCESS_DEPTH_STENCIL_ATTACHMENT_READ | ACCESS_DEPTH_STENCIL_ATTACHMENT_WRITE,
                   STAGE_TOP_OF_PIPE, STAGE_EARLY_FRAGMENT_TESTS))
    else None
  }

  /** The three (old, new) layout pairs the transition table knows. */
  predicate SupportedTransition(oldLayout: int, newLayout: int)
  {
    || (oldLayout == IMAGE_LAYOUT_UNDEFINED && newLayout == IMAGE_LAYOUT_TRANSFER_DST_OPTIMAL)
    || (oldLayout == IMAGE_LAYOUT_TRANSFER_DST_OPTIMAL && newLayout == IMAGE_LAYOUT_SHADER_READ_ONLY_OPTIMAL)
    || (oldLayout == IMAGE_LAYOUT_UNDEFINED && newLayout == IMAGE_LAYOUT_DEPTH_STENCIL_ATTACHMENT_OPTIMAL)
  }

  /** Every access bit in `access` is one the Vulkan specification allows for
      some stage in `stages` (its table of access types supported by each
      pipeline stage, restricted to the bits this engine uses). */
  predicate AccessSupportedByStages(access: bv32, stages: bv32)
  {
    && (access & (ACCESS_TRANSFER_READ | ACCESS_TRANSFER_WRITE) != 0 ==> stages & STAGE_TRANSFER != 0)
    && (access & ACCESS_SHADER_READ != 0 ==> stages & STAGE_FRAGMENT_SHADER != 0)
    && (access & (ACCESS_DEPTH_STENCIL_ATTACHMENT_READ | ACCESS_DEPTH_STENCIL_ATTACHMENT_WRITE) != 0 ==>
          stages & STAGE_EARLY_FRAGMENT_TESTS != 0)
    && access & !(ACCESS_TRANSFER_READ | ACCESS_TRANSFER_WRITE | ACCESS_SHADER_READ
                  | ACCESS_DEPTH_STENCIL_ATTACHMENT_READ | ACCESS_DEPTH_STENCIL_ATTACHMENT_WRITE) == 0
  }

  /** As written, the shader-read transition asks the fragment-shader stage
      for transfer reads, which that stage does not perform. */
  lemma ShaderReadTransitionAsWrittenIsInvalid(format: int)
    ensures var b := TransitionBarrierAsWritten(format, IMAGE_LAYOUT_TRANSFER_DST_OPTIMAL, IMAGE_LAYOUT_SHADER_READ_ONLY_OPTIMAL);
            b.Some? && !AccessSupportedByStages(b.value.dstAccessMask, b.value.dstStageMask)
  {
  }

  /** The transition table with the shader-read destination access corrected
      to SHADER_READ; the rest of the model uses this one. None is fatal. */
  function TransitionBarrier(format: int, oldLayout: int, newLayout: int): (r: Option<Barrier>)
    ensures r.Some? <==> SupportedTransition(oldLayout, newLayout)
    ensures r.Some? ==> r.value.oldLayout == oldLayout && r.value.newLayout == newLayout
    ensures r.Some? ==> r.value.aspectMask == AspectFor(format, newLayout)
    ensures r.Some? ==> AccessSupportedByStages(r.value.srcAccessMask, r.value.srcStageMask)
                        && AccessSupportedByStages(r.value.dstAccessMask, r.value.dstStageMask)
    ensures r.Some? ==> (r.value.srcAccessMask == 0 <==> r.value.srcStageMask == STAGE_TOP_OF_PIPE)
    ensures r.Some? ==> r.value == TransitionBarrierAsWritten(format, oldLayout, newLayout).value.(
              dstAccessMask := if oldLayout == IMAGE_LAYOUT_TRANSFER_DST_OPTIMAL then ACCESS_SHADER_READ
                               else TransitionBarrierAsWritten(format, oldLayout, newLayout).value.dstAccessMask)
  {
    var aspect := AspectFor(format, newLayout);
    if oldLayout == IMAGE_LAYOUT_UNDEFINED && newLayout == IMAGE_LAYOUT_TRANSFER_DST_OPTIMAL then
      Some(Barrier(oldLayout, newLayout, aspect, 0, ACCESS_TRANSFER_WRITE, STAGE_TOP_OF_PIPE, STAGE_TRANSFER))
    else if oldLayout == IMAGE_LAYOUT_TRANSFER_DST_OPTIMAL && newLayout == IMAGE_LAYOUT_SHADER_READ_ONLY_OPTIMAL then
      Some(Barrier(oldLayout, newLayout, aspect, ACCESS_TRANSFER_WRITE, ACCESS_SHADER_READ, STAGE_TRANSFER, STAGE_FRAGMENT_SHADER))
    else if oldLayout == IMAGE_LAYOUT_UNDEFINED && newLayout == IMAGE_LAYOUT_DEPTH_STENCIL_ATTACHMENT_OPTIMAL then
      Some(Barrier(oldLayout, newLayout, aspect, 0,
                   ACCESS_DEPTH_STENCIL_ATTACHMENT_READ | ACCESS_DEPTH_STENCIL_ATTACHMENT_WRITE,
                   STAGE_TOP_OF_PIPE, STAGE_EARLY_FRAGMENT_TESTS))
    else None
  }

  /** The corrected transition: it records the barrier field by field in
      the engine's order (the aspect first, then the access masks and stages
      of the matching table row), but the shader-read row waits with
      SHADER_READ access where the engine writes TRANSFER_READ;
      `TransitionBarrierAsWritten` is the table as written. An unsupported
      pair is fatal (None). */
  method TransitionImageLayout(format: int, oldLayout: int, newLayout: int) returns (r: Option<Barrier>)
    ensures r == TransitionBarrier(format, oldLayout, newLayout)
  {
    var aspectMask: bv32;
    if newLayout == IMAGE_LAYOUT_DEPTH_STENCIL_ATTACHMENT_OPTIMAL {
      aspectMask := ASPECT_DEPTH;
      if HasStencilComponent(format) {
        aspectMask := aspectMask | ASPECT_STENCIL;
      }
    } else {
      aspectMask := ASPECT_COLOR;
    }

    var srcAccessMask: bv32, dstAccessMask: bv32, srcStageFlags: bv32, dstStageFlags: bv32;
    if oldLayout == IMAGE_LAYOUT_UNDEFINED && newLayout == IMAGE_LAYOUT_TRANSFER_DST_OPTIMAL {
      srcAccessMask := 0;
      dstAccessMask := ACCESS_TRANSFER_WRITE;
      srcStageFlags := STAGE_TOP_OF_PIPE;
      dstStageFlags := STAGE_TRANSFER;
    } else if oldLayout == IMAGE_LAYOUT_TRANSFER_DST_OPTIMAL && newLayout == IMAGE_LAYOUT_SHADER_READ_ONLY_OPTIMAL {
      srcAccessMask := ACCESS_TRANSFER_WRITE;
      dstAccessMask := ACCESS_SHADER_READ;
      srcStageFlags := STAGE_TRANSFER;
      dstStageFlags := STAGE_FRAGMENT_SHADER;
    } else if oldLayout == IMAGE_LAYOUT_UNDEFINED && newLayout == IMAGE_LAYOUT_DEPTH_STENCIL_ATTACHMENT_OPTIMAL {
      srcAccessMask := 0;
      dstAccessMask := ACCESS_DEPTH_STENCIL_ATTACHMENT_READ | ACCESS_DEPTH_STENCIL_ATTACHMENT_WRITE;
      srcStageFlags := STAGE_TOP_OF_PIPE;
      dstStageFlags := STAGE_EARLY_FRAGMENT_TESTS;
    } else {
      return None;
    }
    r := Some(Barrier(oldLayout, newLayout, aspectMask, srcAccessMask, dstAccessMask, srcStageFlags, dstStageFlags));
  }

  /** Texture upload performs UNDEFINED -> TRANSFER_DST, copies, then
      TRANSFER_DST -> SHADER_READ_ONLY: both are in the table, so neither is
      fatal, and the second starts from the layout the first produced. */
  lemma TextureUploadTransitionsSupported(format: int)
    ensures var first := TransitionBarrier(format, IMAGE_LAYOUT_UNDEFINED, IMAGE_LAYOUT_TRANSFER_DST_OPTIMAL);
            var second := TransitionBarrier(format, IMAGE_LAYOUT_TRANSFER_DST_OPTIMAL, IMAGE_LAYOUT_SHADER_READ_ONLY_OPTIMAL);
            first.Some? && second.Some? && first.value.newLayout == second.value.oldLayout
            && first.value.aspectMask == ASPECT_COLOR && second.value.aspectMask == ASPECT_COLOR
  {
  }
}
