# sigma-engine core, modelled in Dafny

sigma-engine is a small Vulkan renderer. Most of it fills Vulkan structs and
calls the driver. Under that sit several pieces of deterministic logic, and
this project models those pieces and proves what they promise:

- **Vertex buffer layout** (`buffer_layout.dfy`, module `BufferLayouts`): a
  growable list of (attribute type, byte offset) with a running stride. It
  yields the binding and attribute descriptions and a positional type
  comparison.
- **Swapchain selection** (`swapchain.dfy`, module `Swapchains`): the
  preferred surface format, the present mode, extent clamping, the capped
  image count and the sharing mode, with the create info as written and
  corrected. Also the per-image view and framebuffer
  arrays, and the order in which teardown releases them.
- **Device and format queries** (`vulkan_util.dfy`, module `VulkanUtil`):
  - first-index queue family discovery and the "all names present" checks;
  - device suitability;
  - the bitmask memory-type search and the first-supported-format search;
  - the depth format chain and the stencil test.
- **Image layout transitions** (`layout_transition.dfy`, module
  `LayoutTransitions`): the three-row barrier table of `TransitionImageLayout`.
- **ECS registry** (`registry.dfy`, module `Ecs`):
  - an append-only byte buffer of (header, component) records;
  - a fixed-stride scan filtered by a type hash;
  - an entity ID counter;
  - the wrap-around string hash.
- **Layer stack** (`layer_stack.dfy`, module `Layers`): a deque of layers.
  Updates go front to back. Events go back to front and stop at the first
  layer that handles them.
- **Scene** (`scene.dfy`, module `Scenes`): drawables stored in the
  registry. Descriptor planning deduplicates textures in the binding list but
  not in the per-frame write lists. Also pipeline assignment and teardown.
- **OBJ loader** (`obj_loader.dfy`, module `ObjFile`): the subset of
  Wavefront OBJ that `LoadOBJFile` reads. It takes `v x y z` vertices and
  `f a b c` triangle faces.
- **Frame loop** (`frame_loop.dfy`, module `FrameLoop`): the two frame
  slots with their fences and command buffers, and one tick of `OnUpdate`
  with the swapchain rebuild.

`vk.dfy` (module `Vk`) holds the shared Vulkan constants, `Option`, the
32-bit unsigned type and bit-mask predicates.

Driver and window queries are plain inputs to the model. These are memory
types, queue families, format properties, surface formats, present modes,
the framebuffer size, and acquire, submit and present results. The fatal
macros `SGE_ASSERTM`/`SGE_DEBUG_BREAKM` take their debug-build meaning.
Where the source relies on the caller, they become a precondition. Where
the input decides whether they fire, they become an error result (`None`, `Fatal`,
`CannotOpen`, `ok == false`).

## Model

| member | source | states |
|---|---|---|
| BufferLayouts.SizeofAttribute | engine/src/vulkan/BufferLayout.cpp:5-18 | float is 4 bytes, vec2 8, vec3 12, any other value 0; the size is nonzero exactly for those three types |
| BufferLayouts.ZeroTypesHaveNoSize | engine/src/vulkan/BufferLayout.cpp:15-17 | a list of attribute types none of which is float, vec2 or vec3 contributes nothing to the stride |
| BufferLayouts.AppendKeepsLaidOut | engine/src/vulkan/BufferLayout.cpp:31-35 | appending an attribute at offset `stride` and growing the stride by its size keeps every offset equal to the total size of the attributes before it |
| BufferLayouts.Resized | engine/src/vulkan/BufferLayout.h:34 | resizing gives exactly `n` attributes, keeps the surviving prefix and adds zero-valued attributes |
| BufferLayouts.BufferLayout.constructor | engine/src/vulkan/BufferLayout.cpp:20-21 | a default layout has no attributes and stride 0 |
| BufferLayouts.BufferLayout.FromTypes | engine/src/vulkan/BufferLayout.cpp:23-29 | one attribute per listed type, in order; offset i is the size of types 0..i-1; the stride is the total size |
| BufferLayouts.BufferLayout.AddAttribute | engine/src/vulkan/BufferLayout.cpp:31-35 | appends one attribute at the old stride, leaves earlier attributes unchanged, and grows the stride by the new type's size |
| BufferLayouts.BufferLayout.GetBindingDescription | engine/src/vulkan/BufferLayout.cpp:37-45 | binding 0, per-vertex input rate, stride equal to the layout's total attribute size, truncated to 32 bits |
| BufferLayouts.BufferLayout.GetAttributeDescriptions | engine/src/vulkan/BufferLayout.cpp:47-60 | one description per attribute: binding 0, location i, format equal to the type, offset equal to the size of the attributes before it |
| BufferLayouts.BufferLayout.Equals | engine/src/vulkan/BufferLayout.cpp:62-71 | true iff every attribute type of this layout equals the type at the same index of the other; it requires the other to be at least as long; offsets and extra length are ignored |
| BufferLayouts.BufferLayout.Resize | engine/src/vulkan/BufferLayout.h:34 | the attribute list becomes `Resized(old, n)` and the stride is left as it was |
| BufferLayouts.PrefixStrideBounded | engine/src/vulkan/BufferLayout.cpp:31-35 | the size of any prefix of a layout is at most the size of the whole |
| BufferLayouts.PositionNormalLayout | engine/src/renderer/Mesh.cpp:102 | the position-plus-normal layout has stride 24, with the normal at offset 12 |
| VulkanUtil.FirstIndexIsLeast | engine/src/vulkan/Util.cpp:137-150 | a "set once" scan yields the least index whose flag holds, and nothing iff no flag holds |
| VulkanUtil.QueueFamiliesCompleteIff | engine/src/vulkan/Util.h:18-21 | the indices are complete iff some family has the graphics bit and some family supports present |
| VulkanUtil.FindQueueFamilies | engine/src/vulkan/Util.cpp:127-153 | the graphics family is the least index with the graphics bit and the present family the least with present support; each is absent iff no family qualifies |
| VulkanUtil.ContainsName | engine/src/vulkan/Util.cpp:101-108 | the inner search finds a name iff the available list contains it |
| VulkanUtil.CheckDeviceExtensionSupport | engine/src/vulkan/Util.cpp:91-112 | true iff every requested extension name occurs among the available ones |
| VulkanUtil.ValidationLayersSupported | engine/src/vulkan/Util.cpp:51-76 | true iff every requested layer name occurs among the available layers |
| VulkanUtil.IsSuitablePhysicalDevice | engine/src/vulkan/Util.cpp:156-179 | true iff the queue indices are complete, the extensions are supported, formats and present modes are both non-empty and sampler anisotropy is available; the out-parameter is written only when true |
| VulkanUtil.FindMemoryType | engine/src/vulkan/Util.cpp:277-289 | the least index whose filter bit is set and whose property flags contain the requested ones; `None` (the fatal path) iff no index qualifies |
| VulkanUtil.EmptyFilterFindsNothing | engine/src/vulkan/Util.cpp:282-288 | with an empty type filter no memory type fits |
| VulkanUtil.FirstSupportedIsFirst | engine/src/vulkan/Util.cpp:291-306 | the chosen format supports the features for the tiling and no earlier candidate does; `None` iff no candidate does |
| VulkanUtil.FindSupportedFormat | engine/src/vulkan/Util.cpp:291-306 | the loop returns the first candidate whose linear or optimal feature set (per tiling) contains the requested features, or the fatal `None` |
| VulkanUtil.FindDepthFormat | engine/src/vulkan/Util.cpp:308-312 | prefers D32_SFLOAT_S8_UINT, then D24_UNORM_S8_UINT, then D32_SFLOAT with optimal tiling and depth-stencil support; the result has a stencil part iff it is not D32_SFLOAT |
| VulkanUtil.HasStencilComponent | engine/src/vulkan/Util.cpp:314-317 | true exactly for D32_SFLOAT_S8_UINT and D24_UNORM_S8_UINT; the depth-only D32_SFLOAT has no stencil part |
| LayoutTransitions.TransitionBarrierAsWritten | engine/src/vulkan/Util.cpp:370-408 | the table as written: a barrier for exactly the three supported pairs, with the masks the source sets, including TRANSFER_READ for the shader-read row |
| LayoutTransitions.ShaderReadTransitionAsWrittenIsInvalid | engine/src/vulkan/Util.cpp:391-398 | the as-written shader-read barrier names an access the fragment-shader stage cannot perform |
| LayoutTransitions.TransitionBarrier | engine/src/vulkan/Util.cpp:370-408 | a barrier exists iff the pair is one of the three rows; the aspect is depth (plus stencil when the format has one) for the depth layout and colour otherwise; every destination access is one its stage supports |
| LayoutTransitions.TransitionImageLayout | engine/src/vulkan/Util.cpp:355-413 | the corrected transition, whose as-written partner is `TransitionBarrierAsWritten`: the field-by-field barrier fill, in the engine's order, equals the corrected table (SHADER_READ where the engine writes TRANSFER_READ); any other pair is the fatal `None` |
| LayoutTransitions.TextureUploadTransitionsSupported | engine/src/vulkan/Texture.cpp:38-43 | both transitions that texture upload requests are rows of the table |
| Swapchains.ChooseSurfaceFormat | engine/src/vulkan/Swapchain.cpp:101-110 | with a non-empty list, the search returns `SurfaceFormatFor`: the preferred sRGB format iff it is available, and otherwise the first entry |
| Swapchains.ChoosePresentMode | engine/src/vulkan/Swapchain.cpp:112-121 | the search returns `PresentModeFor`: mailbox iff it is available, otherwise FIFO; no other mode is returned |
| Swapchains.Clamp | engine/src/vulkan/Swapchain.cpp:135-136 | the clamped value lies in [lo, hi]; it is the input when the input is in range, lo when below, hi when above |
| Swapchains.ClampIsNearest | engine/src/vulkan/Swapchain.cpp:135-136 | no value in [lo, hi] is closer to the input than the clamped one |
| Swapchains.ChooseExtent | engine/src/vulkan/Swapchain.cpp:123-139 | the current extent is returned unchanged unless its width is UINT32_MAX; otherwise each window dimension (cast to uint32) is kept when within the surface's range, raised to the minimum when below it and lowered to the maximum when above it |
| Swapchains.ChooseExtentExample | engine/src/vulkan/Swapchain.cpp:128-138 | a 50x5000 window with bounds 100x100 to 4000x3000 gives 100x3000 |
| Swapchains.RequestedImageCountInRange | engine/src/vulkan/Swapchain.cpp:16-18 | the request is at least the minimum and, when the maximum is nonzero, at most the maximum; it exceeds the minimum iff the maximum leaves room |
| Swapchains.RequestedImageCountWraps | engine/src/vulkan/Swapchain.cpp:16 | the 32-bit `minImageCount + 1` wraps to 0 when the minimum is UINT32_MAX and there is no maximum |
| Swapchains.SharingAsWritten | engine/src/vulkan/Swapchain.cpp:29-35 | the sharing block as written: concurrent iff the graphics and present families differ, otherwise exclusive, and the index list is never filled in |
| Swapchains.SharingAsWrittenMissesIndices | engine/src/vulkan/Swapchain.cpp:29-33 | with distinct families, the as-written block gives a count of 2 with no indices |
| Swapchains.SharingFor | engine/src/vulkan/Swapchain.cpp:29-35 | same mode and count as written; concurrent sharing lists the graphics family and then the present family |
| Swapchains.CreateInfoAsWrittenRequestsNoImages | engine/src/vulkan/Swapchain.cpp:16-40 | the create info as written never stores the computed image count, so minImageCount stays 0, below every surface's minimum of at least 1, and the create info is invalid |
| Swapchains.CreateInfoForValid | engine/src/vulkan/Swapchain.cpp:16-35 | for any surface Vulkan can report and complete queue indices, the corrected create info has an image count within the surface's range and well-formed sharing, and differs from the one as written only in those two fields |
| Swapchains.Swapchain.constructor | engine/src/vulkan/Swapchain.cpp:8-50 | the create info is the corrected `CreateInfoFor`, not the engine's `CreateInfoAsWritten`: the preferred format if offered, else the first; mailbox if offered, else FIFO; the chosen extent; the computed image count stored as minImageCount (the engine leaves it 0); the corrected `SharingFor` (the engine omits the index array). The images are the driver's; resized is false; there are no views or framebuffers yet |
| Swapchains.Swapchain.InitImageViews | engine/src/vulkan/Swapchain.cpp:71-77 | one view per image, view i built from image i in the swapchain format; nothing else changes |
| Swapchains.Swapchain.InitFramebuffers | engine/src/vulkan/Swapchain.cpp:79-99 | one framebuffer per view, each with exactly view i and the shared depth view, sized to the extent |
| Swapchains.Swapchain.Destroy | engine/src/vulkan/Swapchain.cpp:52-69 | releases follow `ReleaseOrder`: all framebuffers, then the swapchain, then all image views |
| Swapchains.ReleaseOrderIsFramebuffersSwapchainViews | engine/src/vulkan/Swapchain.cpp:52-69 | in the release order every framebuffer comes before the swapchain handle and every view after it, each exactly once |
| Swapchains.Swapchain.SetFramebufferResized | engine/src/vulkan/Swapchain.h:45 | sets the resized flag and nothing else |
| Swapchains.Swapchain.GetImageCount | engine/src/vulkan/Swapchain.h:46 | the number of images, as a 32-bit count |
| Swapchains.InitViewsAndFramebuffers | engine/src/vulkan/Swapchain.cpp:71-99 | after both initialisations, views, framebuffers and images have the same length and entry i of each belongs together |
| Ecs.CharWord | engine/src/ecs/Registry.cpp:28 | a (signed) char widened to 32 bits: itself below 128, sign-extended otherwise |
| Ecs.HashStep | engine/src/ecs/Registry.cpp:27-28 | one 32-bit accumulation step equals the unbounded sum reduced mod 2^32 |
| Ecs.HashString | engine/src/ecs/Registry.cpp:23-31 | the loop computes the sum of i times the widened char i, mod 2^32 |
| Ecs.HashSumIgnoresFirstByte | engine/src/ecs/Registry.cpp:27-28 | the character at index 0 is multiplied by 0, so it never changes the sum |
| Ecs.HashOfIgnoresFirstByte | engine/src/ecs/Registry.cpp:23-31 | strings that differ only in the first character hash alike |
| Ecs.HashCollisionExample | engine/src/ecs/Registry.cpp:23-31 | the empty string and every one-character string hash to 0; "Ab" and "Cb" collide |
| Ecs.AppendContiguous | engine/src/ecs/Registry.h:53-67 | a record placed at the old end keeps the buffer contiguous and moves the end past its header and component |
| Ecs.OffsetsIncrease | engine/src/ecs/Registry.h:53-64 | in a contiguous buffer, record offsets strictly increase in insertion order |
| Ecs.IdAtFindsRecord | engine/src/ecs/Registry.h:78-80 | reading a header at a record's own offset yields that record's class ID |
| Ecs.PayloadAtFindsRecord | engine/src/ecs/Registry.h:79-81 | the bytes right after a record's header are its component |
| Ecs.AlignedScanFrom | engine/src/ecs/Registry.h:76-83 | when all records share one class, the fixed-stride scan from record j lands on each later record's header and visits its component |
| Ecs.MixedClassesSkipComponent | engine/src/ecs/Registry.h:76-83 | with classes of different sizes, the scan steps by the requested class's size and misses a record of that class that follows a larger record |
| Ecs.Registry.constructor | engine/src/ecs/Registry.cpp:5-8 | a fresh registry has next ID 0, size 0, no records and no buffer |
| Ecs.Registry.NewEntityID | engine/src/ecs/Registry.cpp:16-21 | returns the counter and increments it mod 2^32; the n-th call returns n-1, and before wrap-around the ID was never issued |
| Ecs.Registry.AddComponent | engine/src/ecs/Registry.h:47-68 | the size grows by header plus component; on success the one new record (entity, class hash, component) sits at the old size and earlier records are unchanged; a failed reallocation leaves them as they were |
| Ecs.Registry.ForEach | engine/src/ecs/Registry.h:70-84 | the visits are the fixed-stride scan from offset 0: in increasing offset, only where the header's ID equals the class hash |
| Ecs.SingleClassForEachVisitsAll | engine/src/ecs/Registry.h:53-83 | when every record has one class, the scan visits every component exactly once, in insertion order |
| Ecs.Registry.Destroy | engine/src/ecs/Registry.cpp:10-14 | the buffer is freed iff one was allocated, which is iff a record was added |
| Layers.LayerStack.constructor | engine/src/Layer.h:23 | a new stack is empty |
| Layers.LayerStack.PushFront | engine/src/Layer.cpp:28-31 | the layer becomes position 0 and the others follow in their old order |
| Layers.LayerStack.PushBack | engine/src/Layer.cpp:33-36 | the layer is appended and the others stay in place |
| Layers.LayerStack.OnUpdate | engine/src/Layer.cpp:11-15 | every layer is updated exactly once, front to back |
| Layers.LayerStack.OnEvent | engine/src/Layer.cpp:17-26 | layers are offered the event from back to front, up to and including the first that handles it; the event is handled iff some layer handles it; if none does, each is offered it once |
| Layers.LayerStack.Destroy | engine/src/Layer.cpp:5-9 | every held layer is deleted exactly once, front to back, and none remains held |
| Scenes.DedupProperties | engine/src/renderer/Scene.cpp:47-63 | the deduplicated texture list has no repeats, holds exactly the same textures, is no longer than its input, and has the same length iff the input had no repeats |
| Scenes.WritesCoverBindings | engine/src/renderer/Scene.cpp:43-96 | each frame's writes are at least as many as the bindings, with equality iff no texture is used twice |
| Scenes.SharedTextureExample | engine/src/renderer/Scene.cpp:47-96 | two drawables sharing one albedo give two bindings but three writes per frame |
| Scenes.FreedByReleasesEachReference | engine/src/renderer/Scene.cpp:31-39 | teardown releases each drawable's mesh and shader and every texture reference it holds, with no deduplication |
| Scenes.Scene.constructor | engine/src/renderer/Scene.cpp:8-10 | a new scene has an empty registry |
| Scenes.Scene.AddModel | engine/src/renderer/Scene.cpp:12-29 | one fresh entity ID is issued and, on success, exactly one drawable is appended for it |
| Scenes.LayoutBindings | engine/src/renderer/Scene.cpp:43-63 | the binding list is the uniform-buffer binding followed by one texture binding per distinct texture, in first-seen order, albedo before normal map |
| Scenes.AddDrawable | engine/src/renderer/Scene.cpp:49-62 | one callback's work: the bindings and the seen-set after a drawable match the deduplicated textures seen so far |
| Scenes.AddTexture | engine/src/renderer/Scene.cpp:52-56 | a texture not yet seen adds one binding and joins the set; a seen one changes nothing |
| Scenes.FrameWrites | engine/src/renderer/Scene.cpp:69-96 | a frame's writes are its uniform-buffer write and then one image write per texture reference, not deduplicated, each with its own info |
| Scenes.Scene.InitDescriptorSets | engine/src/renderer/Scene.cpp:41-104 | bindings are planned once; for every frame below MAX_FRAMES_IN_FLIGHT the writes are planned, applied (never empty) and every info freed |
| Scenes.Scene.Destroy | engine/src/renderer/Scene.cpp:31-39 | the releases are those of every drawable, in registry order |
| Scenes.Scene.InitPipelines | engine/src/renderer/Scene.cpp:106-115 | each drawable asks for a pipeline for its shader and layout, in order, and stores the returned index as a signed int. Every record keeps its offset, header (entity and class ID) and class size; the registry's size, ID counter and buffer flag are unchanged |
| ObjFile.FirstLead | engine/src/FileUtil.cpp:27-35 | the first line at or after `from` with the given leading character, or `None` iff there is none |
| ObjFile.ZeroBased | engine/src/FileUtil.cpp:73 | a 1-based index becomes 0-based; 0 wraps to UINT32_MAX |
| ObjFile.ParseAsWritten | engine/src/FileUtil.cpp:62-74 | the `eof` loop as written: the same result as the corrected parse except that a trailing newline appends the last face once more |
| ObjFile.VerticesOfLength | engine/src/FileUtil.cpp:38-59 | the vertex array has floatsPerVertex floats per vertex record |
| ObjFile.FacesOfShape | engine/src/FileUtil.cpp:62-74 | the index array has three entries per face, entry 3k+i being index i of face k, 0-based |
| ObjFile.LoadedShape | engine/src/FileUtil.cpp:38-74 | a loaded mesh has floatsPerVertex x (vertex records) floats and 3 x (face records) indices, a multiple of 3 |
| ObjFile.AsWrittenRepeatsLastFace | engine/src/FileUtil.cpp:69-74 | with a trailing newline, the as-written index array is the corrected one plus the last face again |
| ObjFile.TrailingNewlineDuplicatesFace | engine/src/FileUtil.cpp:69-74 | a one-triangle file ending in a newline gives indices [0,1,2,0,1,2] as written, [0,1,2] corrected |
| ObjFile.LoadOBJFile | engine/src/FileUtil.cpp:12-79 | the corrected loader, whose as-written partner is `ParseAsWritten`: an unopened file is the fatal `CannotOpen`; otherwise the engine's loops, with the face loop stopping at the first record it cannot extract, compute `Parse`, which never repeats a face |
| ObjFile.SkipToVertex | engine/src/FileUtil.cpp:27-35 | lines are skipped up to the first one starting with 'v' |
| ObjFile.ReadVertices | engine/src/FileUtil.cpp:38-59 | every line up to the first 'f' line is read as a vertex (x, -y, z, zero padding) |
| ObjFile.PushVertex | engine/src/FileUtil.cpp:53-58 | appends x, -y, z and floatsPerVertex - 3 zeros |
| ObjFile.ReadFaces | engine/src/FileUtil.cpp:62-74 | from the first 'f' line on, each line adds its three indices minus one |
| ObjFile.ParseEmitRoundTrip | engine/src/FileUtil.cpp:12-79 | writing positions and faces as `v`/`f` lines and loading them gives back the positions (y negated, padded) and the 0-based faces |
| ObjFile.NoFacesNoMesh | engine/src/FileUtil.cpp:46-59 | a file with vertices but no face line yields no mesh |
| FrameLoop.FirstUsable | engine/src/vulkan/Instance.cpp:285-291 | the first window sample with both dimensions nonzero, or `None` iff there is none |
| FrameLoop.TickOrdersFenceAndCommandBuffer | engine/src/vulkan/Instance.cpp:102-118 | each tick waits on its slot's fence and then acquires; the fence is reset iff the acquire succeeded, and the command buffer is reset and recorded right after it |
| FrameLoop.TeardownOnlyWhenRestored | engine/src/vulkan/Instance.cpp:282-296 | the rebuild reaches device-idle and teardown iff some window sample has both dimensions nonzero |
| FrameLoop.DrawnIff | engine/src/vulkan/Instance.cpp:107-152 | a tick draws iff the acquire succeeded, the submit succeeded, and the present succeeded or led to a rebuild that finished |
| FrameLoop.DrawnTickShape | engine/src/vulkan/Instance.cpp:104-118 | a drawn tick first waits on its slot's fence and records into that slot's command buffer |
| FrameLoop.Instance.constructor | engine/src/vulkan/Instance.cpp:10-59 | frame 0, two command buffers, two semaphore pairs and two signalled fences |
| FrameLoop.Instance.InitCommandBuffers | engine/src/vulkan/Instance.cpp:423-435 | exactly MAX_FRAMES_IN_FLIGHT new, distinct command buffers |
| FrameLoop.Instance.InitSyncObjects | engine/src/vulkan/Instance.cpp:478-498 | exactly MAX_FRAMES_IN_FLIGHT new semaphore pairs and fences, every fence signalled |
| FrameLoop.Instance.ReInitSwapchain | engine/src/vulkan/Instance.cpp:282-327 | waits for a usable window, then rebuilds in the source's order. Once restored: a new swapchain generation with the resized flag clear, every command buffer and semaphore created after the old handles, every fence signalled, the slot kept. Without a usable sample nothing changes |
| FrameLoop.Instance.PresentFrame | engine/src/vulkan/Instance.cpp:145-154 | after a submit: present. An out-of-date or suboptimal result or a set resized flag clears the flag and rebuilds: new generation, fresh handles, fences signalled. Any other non-success result is fatal. A drawn frame advances the slot by one mod 2; without a rebuild it keeps fences, command buffers, semaphores, the handle counter and the resized flag as they were |
| FrameLoop.Instance.RecordAndSubmit | engine/src/vulkan/Instance.cpp:115-136 | resets the slot's fence and command buffer, records, updates the uniform buffer and submits, in that order; the fence ends pending iff the submit succeeded, and no other field changes |
| FrameLoop.Instance.OnUpdate | engine/src/vulkan/Instance.cpp:102-155 | the tick's steps and outcome. An out-of-date acquire rebuilds without advancing: new generation, resized flag clear, fresh handles. A drawn tick advances the slot by one mod 2. Without a rebuild, only the slot's fence changes (to pending), and command buffers, semaphores, the handle counter and the resized flag stay; with one, the rebuild's new state holds |
| FrameLoop.Instance.Tick | engine/src/vulkan/Instance.cpp:102-155 | one tick; when it draws, it waited on and recorded into the slot it started on, and the slot moved on by one mod 2 |
| FrameLoop.Instance.TwoTicks | engine/src/vulkan/Instance.cpp:104-154 | two drawn ticks in a row wait on and record into the two different slots in turn, and the slot returns to where it started |

## Left out

- Vulkan object creation and destruction (instance, device, render pass, pipeline, buffers, textures, shaders) are foreign driver calls. The model keeps only their order, as `Step` values and fresh handle numbers.
- `RecordCommandBuffer`'s contents and the uniform buffer's matrix maths are driver calls and floating point.
- `CalculateNormals`, `MakePerspective` and the glm rotations are floating-point maths spread over threads.
- Mesh binary cache, materials, renderer forwarding, UI, windowing and logging are glue around driver and file I/O.
- `CreatePipeline` is declared in `engine/src/vulkan/Instance.h:107` but is not part of this model. `Scenes.Scene.InitPipelines` takes the indices it returns as an input.
- `Instance.cpp` and `Instance.h` disagree about fields and about `InitFramebuffers`' arity. The frame loop follows the `.cpp`'s control flow.
- `FrameLoop.Instance.ReInitSwapchain`: the old command pool, vertex buffer and sync objects that the source re-creates without destroying are not tracked as leaks.
- `FrameLoop.Instance.ReInitSwapchain`: `glfwGetFramebufferSize`/`glfwWaitEvents` become a finite sequence of window samples. A wait that never ends is the `Minimised` outcome.
- ObjFile.LoadOBJFile: a line is a leading character plus its numbers.
  - Stream extraction is not modelled character by character.
  - A line that is not three numbers stands for a failed extraction (`Malformed`).
  - Trailing whitespace is the `trailingNewline` flag of the as-written parse.
  - Files with no vertex or no face line make the source's unguarded loops spin forever. The model reports them as `NoVertexRecord` and `NoFaceRecord`.
- Ecs.Registry.ForEach: when it reads a header at an offset that is not a record's start, it reads bytes of some other record. An oracle (`misread`) stands for the ID it would find.
- Ecs.Registry.AddComponent: `typeid(C).name()` and `sizeof(C)` are parameters. Component bytes are kept as a value, not as raw memory.
- VulkanUtil.FindQueueFamilies requires fewer than 2^31 families, because the source counts them in an `int`.
- Swapchains.ChooseSurfaceFormat requires a non-empty list. The source reads entry 0 unguarded, and device selection ensures the list is not empty.
- The frame loop's handles are numbers from a counter. Driver failures while creating objects are not modelled, apart from the submit result.

## Findings

| source | as written | input that shows it | evidently intended | confidence | as-written member | corrected member |
|---|---|---|---|---|---|---|
| engine/src/FileUtil.cpp:69-74 | `while (!file.eof())` reads a face, then appends its three indices whether or not the read succeeded | a file `v 0 0 0` ×3 then `f 1 2 3` followed by a newline: the read after the last face fails but the old indices are appended again, giving [0,1,2,0,1,2] | each face's indices appended once, giving [0,1,2] | not executed | ObjFile.TrailingNewlineDuplicatesFace | ObjFile.LoadOBJFile |
| engine/src/vulkan/Util.cpp:391-398 | TRANSFER_DST → SHADER_READ_ONLY sets the destination access to TRANSFER_READ with destination stage FRAGMENT_SHADER | any format with the pair (TRANSFER_DST_OPTIMAL, SHADER_READ_ONLY_OPTIMAL), as texture upload uses it | SHADER_READ access, which the fragment-shader stage supports | not executed | LayoutTransitions.ShaderReadTransitionAsWrittenIsInvalid | LayoutTransitions.TransitionImageLayout |
| engine/src/vulkan/Swapchain.cpp:29-35 | concurrent sharing sets the family count to 2 but never sets the family index array | graphics family 0, present family 1 | the array holds the graphics and present family indices | not executed | Swapchains.SharingAsWrittenMissesIndices | Swapchains.SharingFor |
| engine/src/vulkan/Swapchain.cpp:16-47 | the image count computed at lines 16-18 is never stored in `createInfo.minImageCount`, which stays 0 from the `= {}` initialisation; the count only serves as the in/out count of `vkGetSwapchainImagesKHR` | any surface, since Vulkan reports a minimum of at least 1: with minimum 2 and maximum 8 the swapchain is requested with 0 images | `createInfo.minImageCount = imageCount`, 3 in that case | not executed | Swapchains.CreateInfoAsWrittenRequestsNoImages | Swapchains.CreateInfoForValid |
