/** The per-frame loop of the Vulkan instance: two frame slots, each with a
    command buffer, an image-available and a render-finished semaphore and
    an in-flight fence; a tick waits on the current slot's fence, acquires an
    image, records, submits, presents and advances the slot, rebuilding the
    swapchain when it is out of date or the window was resized. Driver
    results and window sizes are inputs; handles are numbers drawn from a
    counter so that re-created objects are new. */
module FrameLoop {
  import opened Vk

  /** Host-visible state of a fence: signalled, reset by the host, or reset
      and attached to a submission the device has not finished. */
  datatype FenceState = Signalled | Unsignalled | Pending

  datatype Step =
    | WaitForFence(slot: nat)
    | AcquireImage(slot: nat)
    | ResetFence(slot: nat)
    | ResetCommandBuffer(slot: nat)
    | RecordCommandBuffer(slot: nat, image: nat)
    | UpdateUniformBuffer(slot: nat)
    | Submit(slot: nat)
    | Present(slot: nat, image: nat)
    | ClearResized
    | WaitForWindow(samplesRead: nat)
    | WaitDeviceIdle
    | DestroySwapchain
    | CreateSwapchain
    | CreateImageViews
    | CreateRenderPass
    | DestroyPipeline
    | CreateUniformBuffers
    | CreatePipeline
    | CreateFramebuffers
    | CreateCommandPool
    | CreateVertexBuffer
    | CreateCommandBuffers
    | CreateSyncObjects

  /** How a tick ends. Fatal is a failed debug assertion; Minimised is a
      rebuild whose wait for a non-empty window never ends. */
  datatype TickOutcome = Drawn | SkippedOutOfDate | Fatal | Minimised

  /** A framebuffer size sample; the window is usable when both are nonzero. */
  datatype WindowSize = WindowSize(width: int, height: int)

  predicate Usable(s: WindowSize)
  {
    s.width != 0 && s.height != 0
  }

  /** The index of the first usable sample at or after `from`. */
  function FirstUsable(samples: seq<WindowSize>, from: nat): (r: Option<nat>)
    ensures r.Some? ==> from <= r.value < |samples| && Usable(samples[r.value])
                        && forall j :: from <= j < r.value ==> !Usable(samples[j])
    ensures r.None? ==> forall j :: from <= j < |samples| ==> !Usable(samples[j])
    decreases |samples| - from
  {
    if from >= |samples| then None
    else if Usable(samples[from]) then Some(from)
    else FirstUsable(samples, from + 1)
  }

  /** A swapchain rebuild once `samplesRead` size samples were taken. */
  function RebuildSteps(samplesRead: nat): seq<Step>
  {
    [WaitForWindow(samplesRead), WaitDeviceIdle, DestroySwapchain, CreateSwapchain, CreateImageViews,
     CreateRenderPass, DestroyPipeline, CreateUniformBuffers, CreatePipeline, CreateFramebuffers,
     CreateCommandPool, CreateVertexBuffer, CreateCommandBuffers, CreateSyncObjects]
  }

  /** The steps of ReInitSwapchain for the given window samples. */
  function ReInitSteps(samples: seq<WindowSize>): seq<Step>
  {
    match FirstUsable(samples, 0)
    case None => [WaitForWindow(|samples|)]
    case Some(k) => RebuildSteps(k + 1)
  }

  predicate AcquireOk(acquire: int)
  {
    acquire == RESULT_SUCCESS || acquire == RESULT_SUBOPTIMAL
  }

  predicate PresentNeedsRebuild(present: int, resized: bool)
  {
    present == RESULT_ERROR_OUT_OF_DATE || present == RESULT_SUBOPTIMAL || resized
  }

  /** The steps of one tick on `slot`. */
  function TickSteps(slot: nat, acquire: int, image: nat, submitOk: bool, present: int, resized: bool,
                     samples: seq<WindowSize>): seq<Step>
  {
    var start := [WaitForFence(slot), AcquireImage(slot)];
    if acquire == RESULT_ERROR_OUT_OF_DATE then start + ReInitSteps(samples)
    else if !AcquireOk(acquire) then start
    else
      var drawn := start + [ResetFence(slot), ResetCommandBuffer(slot), RecordCommandBuffer(slot, image),
                            UpdateUniformBuffer(slot), Submit(slot)];
      if !submitOk then drawn
      else if PresentNeedsRebuild(present, resized) then drawn + [Present(slot, image), ClearResized] + ReInitSteps(samples)
      else drawn + [Present(slot, image)]
  }

  /** How one tick ends. */
  function TickOutcomeOf(acquire: int, submitOk: bool, present: int, resized: bool, samples: seq<WindowSize>): TickOutcome
  {
    if acquire == RESULT_ERROR_OUT_OF_DATE then
      if FirstUsable(samples, 0).Some? then SkippedOutOfDate else Minimised
    else if !AcquireOk(acquire) || !submitOk then Fatal
    else if PresentNeedsRebuild(present, resized) then
      if FirstUsable(samples, 0).Some? then Drawn else Minimised
    else if present != RESULT_SUCCESS then Fatal
    else Drawn
  }

  // ---------------------------------------------------------------------
  // Properties of a tick

  /** Every tick first waits on its slot's fence, then acquires. The fence is
      reset only after a successful or suboptimal acquire, and then
      immediately, with the command buffer reset and re-recorded right after
      it and submitted last; an out-of-date acquire touches neither. */
  lemma TickOrdersFenceAndCommandBuffer(slot: nat, acquire: int, image: nat, submitOk: bool, present: int,
                                        resized: bool, samples: seq<WindowSize>)
    ensures var steps := TickSteps(slot, acquire, image, submitOk, present, resized, samples);
            && |steps| >= 2 && steps[0] == WaitForFence(slot) && steps[1] == AcquireImage(slot)
            && (ResetFence(slot) in steps <==> AcquireOk(acquire))
            && (AcquireOk(acquire) ==>
                  steps[2..7] == [ResetFence(slot), ResetCommandBuffer(slot), RecordCommandBuffer(slot, image),
                                  UpdateUniformBuffer(slot), Submit(slot)])
            && (acquire == RESULT_ERROR_OUT_OF_DATE ==>
                  ResetCommandBuffer(slot) !in steps && Submit(slot) !in steps)
  {
    var steps := TickSteps(slot, acquire, image, submitOk, present, resized, samples);
    assert forall s :: s in ReInitSteps(samples) ==> !s.ResetFence? && !s.ResetCommandBuffer? && !s.Submit?;
    if AcquireOk(acquire) {
      assert steps[2] == ResetFence(slot);
    }
  }

  /** The swapchain is torn down only after a usable window size was read
      and the device went idle. */
  lemma TeardownOnlyWhenRestored(samples: seq<WindowSize>)
    ensures var steps := ReInitSteps(samples);
            && (DestroySwapchain in steps <==> FirstUsable(samples, 0).Some?)
            && (DestroySwapchain in steps ==>
                  && steps[0] == WaitForWindow(FirstUsable(samples, 0).value + 1)
                  && Usable(samples[FirstUsable(samples, 0).value])
                  && steps[1] == WaitDeviceIdle && steps[2] == DestroySwapchain)
  {
  }

  /** A tick draws when the acquire succeeds, the submit succeeds and the
      present either succeeds or asks for a rebuild that completes. */
  lemma DrawnIff(acquire: int, submitOk: bool, present: int, resized: bool, samples: seq<WindowSize>)
    ensures TickOutcomeOf(acquire, submitOk, present, resized, samples) == Drawn <==>
              AcquireOk(acquire) && submitOk
              && (if PresentNeedsRebuild(present, resized) then FirstUsable(samples, 0).Some?
                  else present == RESULT_SUCCESS)
  {
  }

  /** The inputs of one tick: the driver's acquire and present results,
      whether the submit succeeded, the acquired image and the window
      samples a rebuild would read. */
  datatype TickInput = TickInput(acquire: int, image: nat, submitOk: bool, present: int, samples: seq<WindowSize>)

  /** A drawn tick waits on its slot's fence first and records into its
      slot's command buffer fifth. */
  lemma DrawnTickShape(slot: nat, t: TickInput, resized: bool)
    requires TickOutcomeOf(t.acquire, t.submitOk, t.present, resized, t.samples) == Drawn
    ensures var steps := TickSteps(slot, t.acquire, t.image, t.submitOk, t.present, resized, t.samples);
            |steps| >= 7 && steps[0] == WaitForFence(slot) && steps[4] == RecordCommandBuffer(slot, t.image)
  {
    TickOrdersFenceAndCommandBuffer(slot, t.acquire, t.image, t.submitOk, t.present, resized, t.samples);
  }

  // ---------------------------------------------------------------------
  // The instance

  class Instance {
    var currentFrame: nat
    var fences: seq<FenceState>
    var commandBuffers: seq<nat>
    var imageAvailable: seq<nat>
    var renderFinished: seq<nat>
    /** Handles below this number have been created. */
    var nextHandle: nat
    /** How many swapchains were created before the current one. */
    var swapchainGeneration: nat
    /** The current swapchain's resized flag. */
    var framebufferResized: bool

    /** Between ticks: a valid frame slot, one of each per-slot object per
        frame in flight, and no fence left reset without a submission, so
        the next wait on any slot finishes. */
    ghost predicate Valid()
      reads this
    {
      && currentFrame < MAX_FRAMES_IN_FLIGHT
      && |fences| == |commandBuffers| == |imageAvailable| == |renderFinished| == MAX_FRAMES_IN_FLIGHT
      && (forall i :: 0 <= i < |fences| ==> fences[i] != Unsignalled)
      && (forall i :: 0 <= i < MAX_FRAMES_IN_FLIGHT ==>
            commandBuffers[i] < nextHandle && imageAvailable[i] < nextHandle && renderFinished[i] < nextHandle)
    }

    predicate AllSignalled()
      reads this
    {
      forall i :: 0 <= i < |fences| ==> fences[i] == Signalled
    }

    /** Every command buffer and semaphore was created at or after handle
        `since`: all were made anew by a rebuild that started there. */
    predicate FreshSince(since: nat)
      reads this
    {
      && since < nextHandle
      && |commandBuffers| == |imageAvailable| == |renderFinished| == MAX_FRAMES_IN_FLIGHT
      && forall i :: 0 <= i < MAX_FRAMES_IN_FLIGHT ==>
           since <= commandBuffers[i] && since <= imageAvailable[i] && since <= renderFinished[i]
    }

    /** Frame slot 0, then command buffers and sync objects, every fence
        created signalled. */
    constructor ()
      ensures Valid() && AllSignalled()
      ensures currentFrame == 0 && swapchainGeneration == 0 && !framebufferResized
    {
      currentFrame := 0;
      fences := [];
      commandBuffers := [];
      imageAvailable := [];
      renderFinished := [];
      nextHandle := 0;
      swapchainGeneration := 0;
      framebufferResized := false;
      new;
      InitCommandBuffers();
      InitSyncObjects();
    }

    /** One new command buffer per frame in flight. */
    method InitCommandBuffers()
      modifies this
      ensures |commandBuffers| == MAX_FRAMES_IN_FLIGHT
      ensures forall i :: 0 <= i < MAX_FRAMES_IN_FLIGHT ==> old(nextHandle) <= commandBuffers[i] < nextHandle
      ensures forall i, j :: 0 <= i < j < MAX_FRAMES_IN_FLIGHT ==> commandBuffers[i] != commandBuffers[j]
      ensures nextHandle == old(nextHandle) + MAX_FRAMES_IN_FLIGHT
      ensures currentFrame == old(currentFrame) && fences == old(fences)
      ensures imageAvailable == old(imageAvailable) && renderFinished == old(renderFinished)
      ensures swapchainGeneration == old(swapchainGeneration) && framebufferResized == old(framebufferResized)
    {
      var buffers := [];
      var handle := nextHandle;
      var i := 0;
      while i < MAX_FRAMES_IN_FLIGHT
        invariant 0 <= i <= MAX_FRAMES_IN_FLIGHT
        invariant |buffers| == i
        invariant handle == nextHandle + i
        invariant forall j :: 0 <= j < i ==> buffers[j] == nextHandle + j
      {
        buffers := buffers + [handle];
        handle := handle + 1;
        i := i + 1;
      }
      commandBuffers, nextHandle := buffers, handle;
    }

    /** Per frame in flight: two new semaphores and a new fence, created
        signalled. */
    method InitSyncObjects()
      modifies this
      ensures |imageAvailable| == |renderFinished| == |fences| == MAX_FRAMES_IN_FLIGHT
      ensures AllSignalled()
      ensures forall i :: 0 <= i < MAX_FRAMES_IN_FLIGHT ==>
                old(nextHandle) <= imageAvailable[i] < nextHandle && old(nextHandle) <= renderFinished[i] < nextHandle
                && imageAvailable[i] != renderFinished[i]
      ensures nextHandle == old(nextHandle) + 2 * MAX_FRAMES_IN_FLIGHT
      ensures currentFrame == old(currentFrame) && commandBuffers == old(commandBuffers)
      ensures swapchainGeneration == old(swapchainGeneration) && framebufferResized == old(framebufferResized)
    {
      var available := [];
      var finished := [];
      var inFlight := [];
      var handle := nextHandle;
      var i := 0;
      while i < MAX_FRAMES_IN_FLIGHT
        invariant 0 <= i <= MAX_FRAMES_IN_FLIGHT
        invariant |available| == |finished| == |inFlight| == i
        invariant handle == nextHandle + 2 * i
        invariant forall j :: 0 <= j < i ==>
                    available[j] == nextHandle + 2 * j && finished[j] == nextHandle + 2 * j + 1
                    && inFlight[j] == Signalled
      {
        available := available + [handle];
        finished := finished + [handle + 1];
        inFlight := inFlight + [Signalled];
        handle := handle + 2;
        i := i + 1;
      }
      imageAvailable, renderFinished, fences, nextHandle := available, finished, inFlight, handle;
    }

    /** Waits for a usable window size, then idles the device and rebuilds
        the swapchain and everything sized by it: a new swapchain, new
        command buffers and new, signalled sync objects. The frame slot is
        kept. `restored` is false when no usable size is ever read; the
        engine then waits forever. */
    method ReInitSwapchain(samples: seq<WindowSize>) returns (steps: seq<Step>, restored: bool)
      requires Valid()
      modifies this
      ensures steps == ReInitSteps(samples)
      ensures restored <==> FirstUsable(samples, 0).Some?
      ensures !restored ==> unchanged(this)
      ensures restored ==> && Valid() && AllSignalled()
                           && currentFrame == old(currentFrame)
                           && swapchainGeneration == old(swapchainGeneration) + 1
                           && !framebufferResized
                           && FreshSince(old(nextHandle))
    {
      var k := 0;
      while k < |samples| && !Usable(samples[k])
        invariant 0 <= k <= |samples|
        invariant forall j :: 0 <= j < k ==> !Usable(samples[j])
      {
        k := k + 1;
      }
      if k == |samples| {
        return [WaitForWindow(|samples|)], false;
      }
      assert FirstUsable(samples, 0) == Some(k);
      ghost var start := nextHandle;
      // Device idle: every submission has finished.
      fences := seq(|fences|, i => Signalled);
      // A new swapchain starts with its resized flag clear.
      swapchainGeneration := swapchainGeneration + 1;
      framebufferResized := false;
      InitCommandBuffers();
      InitSyncObjects();
      steps := RebuildSteps(k + 1);
      restored := true;
    }

    /** One frame. The driver's acquire and present results, the submit's
        success and the image index are inputs, as are the window samples a
        rebuild would read. */
    method OnUpdate(acquire: int, image: nat, submitOk: bool, present: int, samples: seq<WindowSize>)
      returns (steps: seq<Step>, outcome: TickOutcome)
      requires Valid()
      modifies this
      ensures steps == TickSteps(old(currentFrame), acquire, image, submitOk, present, old(framebufferResized), samples)
      ensures outcome == TickOutcomeOf(acquire, submitOk, present, old(framebufferResized), samples)
      ensures outcome == Drawn ==> Valid() && currentFrame == (old(currentFrame) + 1) % MAX_FRAMES_IN_FLIGHT
      ensures outcome == SkippedOutOfDate ==>
                && Valid() && AllSignalled() && currentFrame == old(currentFrame)
                && swapchainGeneration == old(swapchainGeneration) + 1 && !framebufferResized
                && FreshSince(old(nextHandle))
      ensures outcome == Drawn && !PresentNeedsRebuild(present, old(framebufferResized)) ==>
                && fences == old(fences)[old(currentFrame) := Pending]
                && swapchainGeneration == old(swapchainGeneration)
                && commandBuffers == old(commandBuffers)
                && imageAvailable == old(imageAvailable) && renderFinished == old(renderFinished)
                && nextHandle == old(nextHandle) && framebufferResized == old(framebufferResized)
      ensures outcome == Drawn && PresentNeedsRebuild(present, old(framebufferResized)) ==>
                && AllSignalled() && swapchainGeneration == old(swapchainGeneration) + 1 && !framebufferResized
                && FreshSince(old(nextHandle))
    {
      var slot := currentFrame;
      steps := [WaitForFence(slot)];
      // The wait finishes: the fence is never left reset without a submission.
      fences := fences[slot := Signalled];

      steps := steps + [AcquireImage(slot)];
      if acquire == RESULT_ERROR_OUT_OF_DATE {
        var rebuild, restored := ReInitSwapchain(samples);
        steps := steps + rebuild;
        outcome := if restored then SkippedOutOfDate else Minimised;
        return;
      }
      if !AcquireOk(acquire) {
        return steps, Fatal;
      }

      var recorded := RecordAndSubmit(image, submitOk);
      steps := steps + recorded;
      if !submitOk {
        return steps, Fatal;
      }

      var tail;
      tail, outcome := PresentFrame(image, present, samples);
      steps := steps + tail;
    }

    /** The middle of a frame: reset the slot's fence and command buffer,
        record and update, submit. A successful submission leaves the fence
        pending; a failed one leaves it reset. */
    method RecordAndSubmit(image: nat, submitOk: bool) returns (steps: seq<Step>)
      requires currentFrame < |fences|
      modifies this`fences
      ensures var slot := currentFrame;
              steps == [ResetFence(slot), ResetCommandBuffer(slot), RecordCommandBuffer(slot, image),
                        UpdateUniformBuffer(slot), Submit(slot)]
      ensures fences == old(fences)[currentFrame := if submitOk then Pending else Unsignalled]
    {
      var slot := currentFrame;
      fences := fences[slot := Unsignalled];
      steps := [ResetFence(slot), ResetCommandBuffer(slot), RecordCommandBuffer(slot, image), UpdateUniformBuffer(slot)];
      steps := steps + [Submit(slot)];
      if submitOk {
        fences := fences[slot := Pending];
      }
    }

    /** One tick on packed inputs, with the shape of a drawn tick: it
        waited on and recorded into the slot it started on, and moved to
        the next slot. */
    method Tick(t: TickInput) returns (steps: seq<Step>, outcome: TickOutcome)
      requires Valid()
      modifies this
      ensures steps == TickSteps(old(currentFrame), t.acquire, t.image, t.submitOk, t.present, old(framebufferResized), t.samples)
      ensures outcome == TickOutcomeOf(t.acquire, t.submitOk, t.present, old(framebufferResized), t.samples)
      ensures outcome == Drawn ==>
                && |steps| >= 7 && steps[0] == WaitForFence(old(currentFrame))
                && steps[4] == RecordCommandBuffer(old(currentFrame), t.image)
                && Valid() && currentFrame == (old(currentFrame) + 1) % MAX_FRAMES_IN_FLIGHT
    {
      ghost var slot, resized := currentFrame, framebufferResized;
      steps, outcome := OnUpdate(t.acquire, t.image, t.submitOk, t.present, t.samples);
      if outcome == Drawn {
        DrawnTickShape(slot, t, resized);
      }
    }

    /** Two ticks in a row, the second run only when the first drew
        (`None` otherwise). Two drawn ticks wait on and record into the two
        different slots, one after the other, and leave the slot where it
        started. */
    method TwoTicks(first: TickInput, second: TickInput)
      returns (steps1: seq<Step>, outcome1: TickOutcome, steps2: seq<Step>, outcome2: Option<TickOutcome>)
      requires Valid()
      modifies this
      ensures outcome1 == TickOutcomeOf(first.acquire, first.submitOk, first.present, old(framebufferResized), first.samples)
      ensures outcome2.Some? <==> outcome1 == Drawn
      ensures outcome2 == Some(Drawn) ==> |steps1| >= 7 && |steps2| >= 7
      ensures outcome2 == Some(Drawn) ==>
                && steps1[0] == WaitForFence(old(currentFrame))
                && steps1[4] == RecordCommandBuffer(old(currentFrame), first.image)
                && steps2[0] == WaitForFence((old(currentFrame) + 1) % MAX_FRAMES_IN_FLIGHT)
                && steps2[4] == RecordCommandBuffer((old(currentFrame) + 1) % MAX_FRAMES_IN_FLIGHT, second.image)
                && (old(currentFrame) + 1) % MAX_FRAMES_IN_FLIGHT != old(currentFrame)
                && currentFrame == old(currentFrame)
                && Valid()
    {
      steps1, outcome1 := Tick(first);
      if outcome1 != Drawn {
        return steps1, outcome1, [], None;
      }
      var o;
      steps2, o := Tick(second);
      outcome2 := Some(o);
    }

    /** The end of a submitted frame: present, rebuild when the swapchain is
        out of date, suboptimal or resized, and advance the slot. */
    method PresentFrame(image: nat, present: int, samples: seq<WindowSize>) returns (steps: seq<Step>, outcome: TickOutcome)
      requires Valid()
      modifies this
      ensures var rebuild := PresentNeedsRebuild(present, old(framebufferResized));
              && steps == [Present(old(currentFrame), image)] + (if rebuild then [ClearResized] + ReInitSteps(samples) else [])
              && outcome == (if rebuild then (if FirstUsable(samples, 0).Some? then Drawn else Minimised)
                             else if present != RESULT_SUCCESS then Fatal else Drawn)
      ensures outcome == Drawn ==> Valid() && currentFrame == (old(currentFrame) + 1) % MAX_FRAMES_IN_FLIGHT
      ensures outcome == Drawn && !PresentNeedsRebuild(present, old(framebufferResized)) ==>
                && fences == old(fences) && swapchainGeneration == old(swapchainGeneration)
                && commandBuffers == old(commandBuffers)
                && imageAvailable == old(imageAvailable) && renderFinished == old(renderFinished)
                && nextHandle == old(nextHandle) && framebufferResized == old(framebufferResized)
      ensures outcome == Drawn && PresentNeedsRebuild(present, old(framebufferResized)) ==>
                && AllSignalled() && swapchainGeneration == old(swapchainGeneration) + 1 && !framebufferResized
                && FreshSince(old(nextHandle))
    {
      steps := [Present(currentFrame, image)];
      if PresentNeedsRebuild(present, framebufferResized) {
        framebufferResized := false;
        var rebuild, restored := ReInitSwapchain(samples);
        steps := steps + [ClearResized] + rebuild;
        if !restored {
          return steps, Minimised;
        }
      } else if present != RESULT_SUCCESS {
        return steps, Fatal;
      }
      currentFrame := (currentFrame + 1) % MAX_FRAMES_IN_FLIGHT;
      outcome := Drawn;
    }
  }

}
