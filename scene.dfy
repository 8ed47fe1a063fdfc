/** The scene: drawables stored as components of an ECS registry, and the
    descriptor planning done from them: one layout binding for the uniform
    buffer plus one per distinct texture, then for every frame in flight one
    write for the uniform buffer plus one per texture reference. Textures,
    shaders and mesh layouts are identities; null pointers are None. */
module Scenes {
  import opened Vk
  import opened Ecs

  type TexId = nat

  /** The parts of a DrawableComponent the scene reads or writes: its mesh
      and the mesh's vertex layout, and its material's shader, textures and
      pipeline index. */
  datatype Drawable = Drawable(mesh: nat, layout: nat, shader: nat, albedo: Option<TexId>, normalMap: Option<TexId>, pipelineIndex: int)

  /** A material's pipeline index before InitPipelines. */
  const NO_PIPELINE: int := -1

  datatype Binding = UniformBufferBinding | TextureBinding(texture: TexId)

  datatype Write = BufferWrite(buffer: nat, frame: nat) | ImageWrite(texture: TexId, frame: nat)

  /** The heap-allocated info a write points to. */
  datatype Info = BufferInfo(buffer: nat) | ImageInfo(texture: TexId)

  /** What one frame of InitDescriptorSets does: the writes it collects,
      whether it submits them, and the infos it frees afterwards. */
  datatype FrameUpdate = FrameUpdate(writes: seq<Write>, applied: bool, freed: seq<Info>)

  // ---------------------------------------------------------------------
  // Specification of the descriptor plan

  /** The non-null textures of one drawable: albedo first, then normal map. */
  function TexturesOfOne(d: Drawable): seq<TexId>
  {
    (if d.albedo.Some? then [d.albedo.value] else []) + (if d.normalMap.Some? then [d.normalMap.value] else [])
  }

  /** Every texture reference of the drawables, in order, repeats included. */
  function TexturesOf(ds: seq<Drawable>): seq<TexId>
  {
    if ds == [] then [] else TexturesOf(ds[..|ds| - 1]) + TexturesOfOne(ds[|ds| - 1])
  }

  /** The textures in order of first appearance, each once. */
  function Dedup(s: seq<TexId>): seq<TexId>
  {
    if s == [] then []
    else if s[|s| - 1] in s[..|s| - 1] then Dedup(s[..|s| - 1])
    else Dedup(s[..|s| - 1]) + [s[|s| - 1]]
  }

  lemma TexturesOfStep(ds: seq<Drawable>, k: nat)
    requires k < |ds|
    ensures TexturesOf(ds[..k + 1]) == TexturesOf(ds[..k]) + TexturesOfOne(ds[k])
  {
    assert ds[..k + 1][..k] == ds[..k];
  }

  lemma DedupStep(s: seq<TexId>, t: TexId)
    ensures Dedup(s + [t]) == if t in s then Dedup(s) else Dedup(s) + [t]
  {
    assert (s + [t])[..|s|] == s;
  }

  predicate NoDuplicates(s: seq<TexId>)
  {
    forall i, j :: 0 <= i < j < |s| ==> s[i] != s[j]
  }

  /** Dedup keeps exactly the elements of its input, each once, and is no
      longer than its input, equally long exactly when nothing repeats. */
  lemma {:induction false} DedupProperties(s: seq<TexId>)
    ensures NoDuplicates(Dedup(s))
    ensures forall t :: t in Dedup(s) <==> t in s
    ensures |Dedup(s)| <= |s|
    ensures |Dedup(s)| == |s| <==> NoDuplicates(s)
  {
    if s != [] {
      var p := s[..|s| - 1];
      var t := s[|s| - 1];
      DedupProperties(p);
      assert s == p + [t];
      if t in p {
        var j :| 0 <= j < |p| && p[j] == t;
        assert s[j] == s[|s| - 1];
      } else {
        assert NoDuplicates(s) <==> NoDuplicates(p) by {
          if NoDuplicates(p) {
            forall i, j | 0 <= i < j < |s|
              ensures s[i] != s[j]
            {
              if j == |s| - 1 {
                assert s[i] == p[i];
              } else {
                assert s[i] == p[i] && s[j] == p[j];
              }
            }
          }
          if NoDuplicates(s) {
            assert forall i, j :: 0 <= i < j < |p| ==> p[i] == s[i] && p[j] == s[j];
          }
        }
      }
    }
  }

  function TextureBindings(ts: seq<TexId>): (bs: seq<Binding>)
    ensures |bs| == |ts|
    ensures forall i :: 0 <= i < |ts| ==> bs[i] == TextureBinding(ts[i])
  {
    seq(|ts|, i requires 0 <= i < |ts| => TextureBinding(ts[i]))
  }

  /** The layout bindings for a list of drawables. */
  function BindingsFor(ds: seq<Drawable>): seq<Binding>
  {
    [UniformBufferBinding] + TextureBindings(Dedup(TexturesOf(ds)))
  }

  function ImageWrites(ts: seq<TexId>, frame: nat): (ws: seq<Write>)
    ensures |ws| == |ts|
    ensures forall i :: 0 <= i < |ts| ==> ws[i] == ImageWrite(ts[i], frame)
  {
    seq(|ts|, i requires 0 <= i < |ts| => ImageWrite(ts[i], frame))
  }

  /** The descriptor writes of one frame. */
  function WritesFor(ds: seq<Drawable>, buffer: nat, frame: nat): seq<Write>
  {
    [BufferWrite(buffer, frame)] + ImageWrites(TexturesOf(ds), frame)
  }

  function InfoOf(w: Write): Info
  {
    match w
    case BufferWrite(b, _) => BufferInfo(b)
    case ImageWrite(t, _) => ImageInfo(t)
  }

  function InfosOf(ws: seq<Write>): (infos: seq<Info>)
    ensures |infos| == |ws|
    ensures forall i :: 0 <= i < |ws| ==> infos[i] == InfoOf(ws[i])
  {
    seq(|ws|, i requires 0 <= i < |ws| => InfoOf(ws[i]))
  }

  /** Every frame writes at least as many descriptors as there are layout
      bindings; exactly as many when no texture is referenced twice, more
      when a texture is shared. */
  lemma WritesCoverBindings(ds: seq<Drawable>, buffer: nat, frame: nat)
    ensures |WritesFor(ds, buffer, frame)| >= |BindingsFor(ds)|
    ensures |WritesFor(ds, buffer, frame)| == |BindingsFor(ds)| <==> NoDuplicates(TexturesOf(ds))
  {
    DedupProperties(TexturesOf(ds));
  }

  /** Two drawables sharing one albedo: one texture binding, but two image
      writes per frame. */
  lemma SharedTextureExample()
    ensures var ds := [Drawable(0, 0, 0, Some(7), None, NO_PIPELINE), Drawable(0, 0, 0, Some(7), None, NO_PIPELINE)];
            BindingsFor(ds) == [UniformBufferBinding, TextureBinding(7)]
            && WritesFor(ds, 3, 0) == [BufferWrite(3, 0), ImageWrite(7, 0), ImageWrite(7, 0)]
  {
    var d := Drawable(0, 0, 0, Some(7), None, NO_PIPELINE);
    var ds := [d, d];
    assert ds[..1] == [d] && ds[..1][..0] == [];
    assert TexturesOf([d]) == [7];
    assert TexturesOf(ds) == [7, 7];
    assert [7, 7][..1] == [7] && [7][..0] == [];
    assert Dedup([7]) == [7];
  }

  /** What Scene::Destroy releases, in order. */
  datatype Freed = FreedMesh(mesh: nat) | FreedShader(shader: nat) | FreedTexture(texture: TexId)

  /** Per drawable: the mesh, then the material's shader, albedo and normal map. */
  function FreedByOne(d: Drawable): seq<Freed>
  {
    [FreedMesh(d.mesh), FreedShader(d.shader)]
    + (if d.albedo.Some? then [FreedTexture(d.albedo.value)] else [])
    + (if d.normalMap.Some? then [FreedTexture(d.normalMap.value)] else [])
  }

  function FreedBy(ds: seq<Drawable>): seq<Freed>
  {
    if ds == [] then [] else FreedBy(ds[..|ds| - 1]) + FreedByOne(ds[|ds| - 1])
  }

  /** The textures among a release sequence, in order. */
  function FreedTextures(fs: seq<Freed>): seq<TexId>
  {
    if fs == [] then []
    else FreedTextures(fs[..|fs| - 1]) + (if fs[|fs| - 1].FreedTexture? then [fs[|fs| - 1].texture] else [])
  }

  lemma {:induction false} FreedTexturesConcat(a: seq<Freed>, b: seq<Freed>)
    ensures FreedTextures(a + b) == FreedTextures(a) + FreedTextures(b)
    decreases |b|
  {
    if b == [] {
      assert a + b == a;
    } else {
      assert (a + b)[..|a + b| - 1] == a + b[..|b| - 1];
      FreedTexturesConcat(a, b[..|b| - 1]);
    }
  }

  /** Destroying the scene releases every drawable's mesh and shader once,
      and every texture once per reference: a texture that two materials
      shared would be released twice. */
  lemma {:induction false} FreedByReleasesEachReference(ds: seq<Drawable>)
    ensures FreedTextures(FreedBy(ds)) == TexturesOf(ds)
    ensures |FreedBy(ds)| == 2 * |ds| + |TexturesOf(ds)|
  {
    if ds != [] {
      var p := ds[..|ds| - 1];
      var d := ds[|ds| - 1];
      FreedByReleasesEachReference(p);
      FreedTexturesConcat(FreedBy(p), FreedByOne(d));
      var one := FreedByOne(d);
      assert FreedTextures(one) == TexturesOfOne(d) by {
        var two := [FreedMesh(d.mesh), FreedShader(d.shader)];
        assert FreedTextures([FreedMesh(d.mesh)]) == [] by {
          assert [FreedMesh(d.mesh)][..0] == [];
        }
        assert two[..1] == [FreedMesh(d.mesh)];
        assert FreedTextures(two) == [];
        var a := if d.albedo.Some? then [FreedTexture(d.albedo.value)] else [];
        var n := if d.normalMap.Some? then [FreedTexture(d.normalMap.value)] else [];
        FreedTexturesConcat(two, a);
        FreedTexturesConcat(two + a, n);
        if d.albedo.Some? {
          assert FreedTextures(a) == [d.albedo.value] by { assert a[..0] == []; }
        }
        if d.normalMap.Some? {
          assert FreedTextures(n) == [d.normalMap.value] by { assert n[..0] == []; }
        }
      }
    }
  }

  /** int conversion of a uint32 (two's complement wrap above INT_MAX). */
  function I32(x: u32): int
  {
    if x < 0x8000_0000 then x else x - U32_MODULUS
  }

  // ---------------------------------------------------------------------
  // The scene

  class Scene {
    const registry: Registry<Drawable>
    /** The compiler's name for the drawable component class, and its size. */
    const className: seq<Byte>
    const classSize: nat

    ghost predicate Valid()
      reads this, registry
    {
      registry.Valid() && SingleClass(registry.records, HashOf(className), classSize)
    }

    /** The drawables in insertion order. */
    function Drawables(): (ds: seq<Drawable>)
      reads this, registry
      ensures |ds| == |registry.records|
    {
      seq(|registry.records|, k requires 0 <= k < |registry.records| reads this, registry => registry.records[k].component)
    }

    constructor (className: seq<Byte>, classSize: nat)
      ensures Valid() && fresh(registry)
      ensures Drawables() == []
      ensures this.className == className && this.classSize == classSize
    {
      this.className := className;
      this.classSize := classSize;
      registry := new Registry<Drawable>();
    }

    /** A fresh entity ID with one drawable component for it. Both mesh
        sources (a named mesh or vertex and index arrays) reduce to the
        drawable passed in. `ok` is false when the registry's reallocation
        failed (fatal). */
    method AddModel(drawable: Drawable, reallocSucceeds: bool) returns (entity: u32, ok: bool)
      requires Valid()
      modifies registry
      ensures entity == old(registry.availableEntityID)
      ensures registry.issued == old(registry.issued) + [entity]
      ensures ok == reallocSucceeds
      ensures ok ==> Valid() && Drawables() == old(Drawables()) + [drawable]
      ensures ok ==> registry.records[|registry.records| - 1].info.entity == entity
    {
      entity := registry.NewEntityID();
      ok := registry.AddComponent(entity, className, classSize, drawable, reallocSucceeds);
      if ok {
        assert registry.records[..|registry.records| - 1] == old(registry.records);
      }
    }

    /** Plans the descriptor sets from the drawables: the layout bindings
        (uniform buffer, then each distinct texture in first-seen order),
        then for every frame in flight that frame's writes, which are always
        submitted, and the infos freed once the frame is done. */
    method InitDescriptorSets(uniformBuffers: seq<nat>) returns (bindings: seq<Binding>, frames: seq<FrameUpdate>)
      requires Valid()
      requires |uniformBuffers| == MAX_FRAMES_IN_FLIGHT
      ensures bindings == BindingsFor(Drawables())
      ensures |frames| == MAX_FRAMES_IN_FLIGHT
      ensures forall f :: 0 <= f < MAX_FRAMES_IN_FLIGHT ==>
                && frames[f].writes == WritesFor(Drawables(), uniformBuffers[f], f)
                && frames[f].applied
                && frames[f].freed == InfosOf(frames[f].writes)
    {
      ghost var ds := Drawables();
      var components := DrawableComponents();
      bindings := LayoutBindings(components);

      frames := [];
      var frameIndex := 0;
      while frameIndex < MAX_FRAMES_IN_FLIGHT
        invariant 0 <= frameIndex <= MAX_FRAMES_IN_FLIGHT
        invariant |frames| == frameIndex
        invariant forall f :: 0 <= f < frameIndex ==>
                    && frames[f].writes == WritesFor(components, uniformBuffers[f], f)
                    && frames[f].applied
                    && frames[f].freed == InfosOf(frames[f].writes)
      {
        var writes, infos := FrameWrites(components, uniformBuffers[frameIndex], frameIndex);
        var applied := false;
        if writes != [] {
          applied := true;
        }
        frames := frames + [FrameUpdate(writes, applied, infos)];
        frameIndex := frameIndex + 1;
      }
    }

    /** The drawable components, in the order ForEach visits them. */
    method DrawableComponents() returns (components: seq<Drawable>)
      requires Valid()
      ensures components == Drawables()
    {
      var visits := registry.ForEach(className, classSize, _ => 0);
      SingleClassForEachVisitsAll(registry.records, registry.size, HashOf(className), classSize, _ => 0);
      components := [];
      var k := 0;
      while k < |visits|
        invariant 0 <= k <= |visits| == |registry.records|
        invariant components == Drawables()[..k]
      {
        components := components + [visits[k].component.value];
        k := k + 1;
      }
    }

    /** Destroys every drawable's mesh and material, in insertion order;
        returns what was released. */
    method Destroy() returns (freed: seq<Freed>)
      requires Valid()
      ensures freed == FreedBy(Drawables())
    {
      var components := DrawableComponents();
      freed := [];
      var k := 0;
      while k < |components|
        invariant 0 <= k <= |components|
        invariant freed == FreedBy(components[..k])
      {
        assert components[..k + 1][..k] == components[..k];
        var d := components[k];
        freed := freed + [FreedMesh(d.mesh), FreedShader(d.shader)];
        if d.albedo.Some? {
          freed := freed + [FreedTexture(d.albedo.value)];
        }
        if d.normalMap.Some? {
          freed := freed + [FreedTexture(d.normalMap.value)];
        }
        k := k + 1;
      }
      assert components[..k] == components;
    }

    /** Stores in each drawable's material the pipeline index CreatePipeline
        returns for its shader and mesh layout; `returned[k]` is the index
        the k-th call returns. Returns the (shader, layout) of each call. */
    method InitPipelines(returned: seq<u32>) returns (calls: seq<(nat, nat)>)
      requires Valid()
      requires |returned| == |registry.records|
      modifies registry
      ensures Valid()
      ensures |Drawables()| == |old(Drawables())| == |calls|
      ensures forall k :: 0 <= k < |calls| ==>
                && calls[k] == (old(Drawables())[k].shader, old(Drawables())[k].layout)
                && Drawables()[k] == old(Drawables())[k].(pipelineIndex := I32(returned[k]))
      ensures registry.size == old(registry.size) && registry.issued == old(registry.issued)
      ensures registry.availableEntityID == old(registry.availableEntityID)
      ensures registry.hasBuffer == old(registry.hasBuffer)
      ensures |registry.records| == |old(registry.records)|
      ensures forall j :: 0 <= j < |registry.records| ==>
                && registry.records[j].offset == old(registry.records[j].offset)
                && registry.records[j].info == old(registry.records[j].info)
                && registry.records[j].classSize == old(registry.records[j].classSize)
    {
      var components := DrawableComponents();
      calls := [];
      var k := 0;
      while k < |components|
        invariant 0 <= k <= |components| == |registry.records|
        invariant components == old(Drawables())
        invariant Valid()
        invariant registry.size == old(registry.size) && registry.issued == old(registry.issued)
        invariant registry.availableEntityID == old(registry.availableEntityID)
        invariant registry.hasBuffer == old(registry.hasBuffer)
        invariant |calls| == k
        invariant forall j :: 0 <= j < |registry.records| ==>
                    registry.records[j].offset == old(registry.records[j].offset)
                    && registry.records[j].info == old(registry.records[j].info)
                    && registry.records[j].classSize == old(registry.records[j].classSize)
        invariant forall j :: 0 <= j < k ==>
                    calls[j] == (components[j].shader, components[j].layout)
                    && registry.records[j].component == components[j].(pipelineIndex := I32(returned[j]))
        invariant forall j :: k <= j < |registry.records| ==> registry.records[j] == old(registry.records[j])
      {
        var d := components[k];
        calls := calls + [(d.shader, d.layout)];
        var r := registry.records[k];
        registry.records := registry.records[k := r.(component := d.(pipelineIndex := I32(returned[k])))];
        k := k + 1;
      }
    }
  }

  /** The layout bindings: the uniform buffer's, then one per texture the
      first time it is referenced; a set of seen textures skips repeats. */
  method LayoutBindings(ds: seq<Drawable>) returns (bindings: seq<Binding>)
    ensures bindings == BindingsFor(ds)
  {
    bindings := [UniformBufferBinding];
    var assets: set<TexId> := {};
    ghost var seen: seq<TexId> := [];
    var k := 0;
    while k < |ds|
      invariant 0 <= k <= |ds|
      invariant seen == TexturesOf(ds[..k])
      invariant bindings == [UniformBufferBinding] + TextureBindings(Dedup(seen))
      invariant forall t :: t in assets <==> t in seen
    {
      TexturesOfStep(ds, k);
      bindings, assets := AddDrawable(bindings, assets, seen, ds[k]);
      seen := seen + TexturesOfOne(ds[k]);
      k := k + 1;
    }
    assert ds[..k] == ds;
  }

  /** One drawable's textures, albedo then normal map. */
  method AddDrawable(bindings: seq<Binding>, assets: set<TexId>, ghost seen: seq<TexId>, d: Drawable)
    returns (bindings': seq<Binding>, assets': set<TexId>)
    requires bindings == [UniformBufferBinding] + TextureBindings(Dedup(seen))
    requires forall u :: u in assets <==> u in seen
    ensures bindings' == [UniformBufferBinding] + TextureBindings(Dedup(seen + TexturesOfOne(d)))
    ensures forall u :: u in assets' <==> u in seen + TexturesOfOne(d)
  {
    bindings', assets' := bindings, assets;
    ghost var seen' := seen;
    if d.albedo.Some? {
      bindings', assets' := AddTexture(bindings', assets', seen', d.albedo.value);
      seen' := seen' + [d.albedo.value];
    }
    if d.normalMap.Some? {
      bindings', assets' := AddTexture(bindings', assets', seen', d.normalMap.value);
      seen' := seen' + [d.normalMap.value];
    }
    assert seen' == seen + TexturesOfOne(d);
  }

  /** One texture reference: a binding for it unless it was already seen. */
  method AddTexture(bindings: seq<Binding>, assets: set<TexId>, ghost seen: seq<TexId>, t: TexId)
    returns (bindings': seq<Binding>, assets': set<TexId>)
    requires bindings == [UniformBufferBinding] + TextureBindings(Dedup(seen))
    requires forall u :: u in assets <==> u in seen
    ensures bindings' == [UniformBufferBinding] + TextureBindings(Dedup(seen + [t]))
    ensures forall u :: u in assets' <==> u in seen + [t]
  {
    DedupStep(seen, t);
    if t !in assets {
      bindings' := bindings + [TextureBinding(t)];
      assets' := assets + {t};
    } else {
      bindings', assets' := bindings, assets;
    }
  }

  /** One frame's writes and infos: the uniform buffer's first, then each
      drawable's albedo and normal map in order, with no deduplication. */
  method FrameWrites(ds: seq<Drawable>, buffer: nat, frame: nat) returns (writes: seq<Write>, infos: seq<Info>)
    ensures writes == WritesFor(ds, buffer, frame)
    ensures infos == InfosOf(writes)
  {
    writes := [BufferWrite(buffer, frame)];
    infos := [BufferInfo(buffer)];
    var k := 0;
    while k < |ds|
      invariant 0 <= k <= |ds|
      invariant writes == WritesFor(ds[..k], buffer, frame)
      invariant infos == InfosOf(writes)
    {
      assert ds[..k + 1][..k] == ds[..k];
      var d := ds[k];
      if d.albedo.Some? {
        writes := writes + [ImageWrite(d.albedo.value, frame)];
        infos := infos + [ImageInfo(d.albedo.value)];
      }
      if d.normalMap.Some? {
        writes := writes + [ImageWrite(d.normalMap.value, frame)];
        infos := infos + [ImageInfo(d.normalMap.value)];
      }
      k := k + 1;
    }
    assert ds[..k] == ds;
  }
}
