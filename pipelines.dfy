/**
 * The two mesh pipelines and the pass that records them.
 *
 * `ColorPipeline` (src/renderer/pipeline/color.rs) keeps its meshes in a
 * `Vec`, in insertion order; `TexturePipeline`
 * (src/renderer/pipeline/texture.rs) keeps them in a `LiteMap` keyed by a
 * `u64` id, that is a vector of entries sorted by strictly increasing key;
 * `Pipelines` (src/renderer/pipeline/mod.rs) records the background pass,
 * then the colour pass, then the texture pass into one render pass.
 *
 * The wgpu device is modelled as a recorder of the buffers and bind groups
 * created on it, each named by its position; a render pass is a recorder of
 * the commands issued to it. `Replay` gives those commands their meaning:
 * for every draw, the pipeline, bind groups and buffers bound when it was
 * issued.
 */
module Pipelines {
  import opened Common

  /** 2^32: `len() as u32` keeps the low 32 bits of a length. */
  const U32: nat := 0x1_0000_0000

  function AsU32(n: nat): (r: nat)
    ensures r < U32
    ensures n < U32 ==> r == n
  {
    n % U32
  }

  type U16 = x: nat | x < 0x1_0000

  /** `ColoredVertex`: position, colour and normal, three floats each. */
  datatype ColoredVertex = ColoredVertex(position: seq<real>, color: seq<real>, normal: seq<real>)

  /** `TexturedVertex`: position (3 floats), texture coordinates (2) and normal (3). */
  datatype TexturedVertex = TexturedVertex(position: seq<real>, texCoords: seq<real>, normal: seq<real>)

  /** What `create_buffer_init` was given. */
  datatype BufferContents =
    | ColoredVertices(colored: seq<ColoredVertex>)
    | TexturedVertices(textured: seq<TexturedVertex>)
    | Indices(indices: seq<U16>)
    | Instances(instances: seq<InstanceRaw>)

  /** Handles: positions in the device's records. */
  type BufferId = nat
  type BindGroupId = nat
  /** A loaded texture (its sampler and view), as an opaque handle. */
  type TextureId = nat

  /** The wgpu device, as far as the pipelines use it. */
  class Device {
    var buffers: seq<BufferContents>
    /** The texture each `texture_bind_group` was created for. */
    var bindGroups: seq<TextureId>

    constructor ()
      ensures buffers == [] && bindGroups == []
    {
      buffers := [];
      bindGroups := [];
    }

    /** `create_buffer_init`: a new buffer holding `contents`. */
    method CreateBufferInit(contents: BufferContents) returns (id: BufferId)
      modifies this
      ensures buffers == old(buffers) + [contents] && id == |old(buffers)|
      ensures bindGroups == old(bindGroups)
    {
      id := |buffers|;
      buffers := buffers + [contents];
    }

    /** `create_bind_group` over a texture's sampler and view. */
    method CreateBindGroup(texture: TextureId) returns (id: BindGroupId)
      modifies this
      ensures bindGroups == old(bindGroups) + [texture] && id == |old(bindGroups)|
      ensures buffers == old(buffers)
    {
      id := |bindGroups|;
      bindGroups := bindGroups + [texture];
    }
  }

  // ---------------------------------------------------------------------
  // Render-pass commands and their meaning
  // ---------------------------------------------------------------------

  datatype PipelineKind = Background | Color | Texture

  /**
   * The `RenderPass` calls the pipelines make. Every range they draw starts
   * at 0 and every indexed draw has base vertex 0, so only the ends are kept;
   * index buffers are always `IndexFormat::Uint16`.
   */
  datatype Command =
    | SetPipeline(pipeline: PipelineKind)
    | SetBindGroup(index: nat, group: BindGroupId)
    | SetVertexBuffer(slot: nat, buffer: BufferId)
    | SetIndexBuffer(buffer: BufferId)
    | Draw(vertexCount: nat, instanceCount: nat)
    | DrawIndexed(indexCount: nat, instanceCount: nat)

  /** `&mut wgpu::RenderPass`: the commands recorded so far. */
  class RenderPass {
    var commands: seq<Command>

    constructor ()
      ensures commands == []
    {
      commands := [];
    }

    method Record(c: Command)
      modifies this
      ensures commands == old(commands) + [c]
    {
      commands := commands + [c];
    }
  }

  /** One draw and everything bound when it was issued (the shaders use groups 0-1 and slots 0-1). */
  datatype DrawCall = DrawCall(pipeline: Option<PipelineKind>,
                               group0: Option<BindGroupId>, group1: Option<BindGroupId>,
                               vertex0: Option<BufferId>, vertex1: Option<BufferId>,
                               index: Option<BufferId>, indexed: bool,
                               count: nat, instanceCount: nat)

  datatype PassState = PassState(pipeline: Option<PipelineKind>,
                                 groups: map<nat, BindGroupId>,
                                 vertexBuffers: map<nat, BufferId>,
                                 index: Option<BufferId>,
                                 draws: seq<DrawCall>)

  /** A render pass as `begin_render_pass` on the encoder opens it: nothing bound, nothing drawn. */
  const EmptyPass := PassState(None, map[], map[], None, [])

  function Bound<V>(m: map<nat, V>, k: nat): Option<V>
  {
    if k in m then Some(m[k]) else None
  }

  function Sees(s: PassState, indexed: bool, count: nat, instanceCount: nat): DrawCall
  {
    DrawCall(s.pipeline, Bound(s.groups, 0), Bound(s.groups, 1),
             Bound(s.vertexBuffers, 0), Bound(s.vertexBuffers, 1), s.index, indexed, count, instanceCount)
  }

  /** The effect of one command: a binding replaces the previous one in its slot; a draw is logged. */
  function Step(s: PassState, c: Command): PassState
  {
    match c
    case SetPipeline(p) => s.(pipeline := Some(p))
    case SetBindGroup(i, g) => s.(groups := s.groups[i := g])
    case SetVertexBuffer(slot, b) => s.(vertexBuffers := s.vertexBuffers[slot := b])
    case SetIndexBuffer(b) => s.(index := Some(b))
    case Draw(n, m) => s.(draws := s.draws + [Sees(s, false, n, m)])
    case DrawIndexed(n, m) => s.(draws := s.draws + [Sees(s, true, n, m)])
  }

  function Replay(s: PassState, cmds: seq<Command>): PassState
    decreases |cmds|
  {
    if cmds == [] then s else Replay(Step(s, cmds[0]), cmds[1..])
  }

  lemma {:induction false} ReplayAppend(s: PassState, a: seq<Command>, b: seq<Command>)
    ensures Replay(s, a + b) == Replay(Replay(s, a), b)
    decreases |a|
  {
    if a == [] {
      assert a + b == b;
    } else {
      assert (a + b)[0] == a[0] && (a + b)[1..] == a[1..] + b;
      ReplayAppend(Step(s, a[0]), a[1..], b);
    }
  }

  /** The commands `block` gives each element, concatenated in order. */
  function Blocks<T>(xs: seq<T>, block: T -> seq<Command>): seq<Command>
  {
    if xs == [] then [] else Blocks(xs[..|xs| - 1], block) + block(xs[|xs| - 1])
  }

  // ---------------------------------------------------------------------
  // The background pass (src/renderer/pipeline/background.rs)
  // ---------------------------------------------------------------------

  /** One full-screen triangle: three vertices, one instance. */
  function BackgroundPass(): seq<Command>
  {
    [SetPipeline(Background), Draw(3, 1)]
  }

  // ---------------------------------------------------------------------
  // The colour pipeline (src/renderer/pipeline/color.rs)
  // ---------------------------------------------------------------------

  datatype ColorMesh = ColorMesh(vertexBuffer: BufferId, indexBuffer: BufferId, indexCount: nat,
                                 instanceBuffer: BufferId, instancesLen: nat)

  /** Per mesh: vertices in slot 0, instances in slot 1, the index buffer, one indexed draw. */
  function ColorMeshCommands(m: ColorMesh): seq<Command>
  {
    [SetVertexBuffer(0, m.vertexBuffer), SetVertexBuffer(1, m.instanceBuffer),
     SetIndexBuffer(m.indexBuffer), DrawIndexed(m.indexCount, m.instancesLen)]
  }

  /** The colour pass: the pipeline, camera in group 0 and light in group 1 once, then every mesh in order. */
  function ColorPass(meshes: seq<ColorMesh>, camera: BindGroupId, light: BindGroupId): seq<Command>
  {
    [SetPipeline(Color), SetBindGroup(0, camera), SetBindGroup(1, light)] + Blocks(meshes, ColorMeshCommands)
  }

  /** What the draw of colour mesh `m` sees under `pipeline` and `groups`. */
  function ColorDraw(pipeline: Option<PipelineKind>, groups: map<nat, BindGroupId>, m: ColorMesh): DrawCall
  {
    DrawCall(pipeline, Bound(groups, 0), Bound(groups, 1), Some(m.vertexBuffer), Some(m.instanceBuffer),
             Some(m.indexBuffer), true, m.indexCount, m.instancesLen)
  }

  /** A mesh's buffers exist and hold coloured vertices, `indexCount` indices and `instancesLen` instances. */
  ghost predicate ColorMeshBacked(m: ColorMesh, buffers: seq<BufferContents>)
  {
    && m.vertexBuffer < |buffers| && buffers[m.vertexBuffer].ColoredVertices?
    && m.indexBuffer < |buffers| && buffers[m.indexBuffer].Indices?
    && m.indexCount == AsU32(|buffers[m.indexBuffer].indices|)
    && m.instanceBuffer < |buffers| && buffers[m.instanceBuffer].Instances?
    && m.instancesLen == AsU32(|buffers[m.instanceBuffer].instances|)
  }

  ghost predicate ColorBacked(meshes: seq<ColorMesh>, buffers: seq<BufferContents>)
  {
    forall k :: 0 <= k < |meshes| ==> ColorMeshBacked(meshes[k], buffers)
  }

  class ColorPipeline {
    var meshes: seq<ColorMesh>

    /** `ColorPipeline::new`: no meshes. */
    constructor ()
      ensures meshes == []
    {
      meshes := [];
    }

    /**
     * `add_mesh`: upload vertices, indices and instances, then append one
     * entry recording both lengths as `u32`; nothing is keyed or merged.
     */
    method AddMesh(device: Device, vertices: seq<ColoredVertex>, indices: seq<U16>, instances: seq<InstanceRaw>)
      requires ColorBacked(meshes, device.buffers)
      modifies this, device
      ensures ColorBacked(meshes, device.buffers)
      ensures var n := |old(device.buffers)|;
              device.buffers == old(device.buffers) + [ColoredVertices(vertices), Indices(indices), Instances(instances)] &&
              meshes == old(meshes) + [ColorMesh(n, n + 1, AsU32(|indices|), n + 2, AsU32(|instances|))]
      ensures device.bindGroups == old(device.bindGroups)
    {
      var vertexBuffer := device.CreateBufferInit(ColoredVertices(vertices));
      var indexBuffer := device.CreateBufferInit(Indices(indices));
      var instanceBuffer := device.CreateBufferInit(Instances(instances));
      meshes := meshes + [ColorMesh(vertexBuffer, indexBuffer, AsU32(|indices|), instanceBuffer, AsU32(|instances|))];
      forall k | 0 <= k < |meshes|
        ensures ColorMeshBacked(meshes[k], device.buffers)
      {
        if k < |meshes| - 1 {
          assert ColorMeshBacked(old(meshes)[k], old(device.buffers));
        }
      }
    }

    /** `begin_render_pass`: records `ColorPass` after what the pass already holds. */
    method BeginRenderPass(pass: RenderPass, camera: BindGroupId, light: BindGroupId)
      modifies pass
      ensures pass.commands == old(pass.commands) + ColorPass(meshes, camera, light)
    {
      pass.Record(SetPipeline(Color));
      pass.Record(SetBindGroup(0, camera));
      pass.Record(SetBindGroup(1, light));
      ghost var start := pass.commands;
      for i := 0 to |meshes|
        invariant pass.commands == start + Blocks(meshes[..i], ColorMeshCommands)
      {
        RecordColorMesh(pass, meshes[i]);
        assert meshes[..i + 1][..i] == meshes[..i];
      }
      assert meshes[..|meshes|] == meshes;
    }
  }

  /** The body of the loop in `ColorPipeline::begin_render_pass`: one mesh's bindings and draw. */
  method RecordColorMesh(pass: RenderPass, m: ColorMesh)
    modifies pass
    ensures pass.commands == old(pass.commands) + ColorMeshCommands(m)
  {
    pass.Record(SetVertexBuffer(0, m.vertexBuffer));
    pass.Record(SetVertexBuffer(1, m.instanceBuffer));
    pass.Record(SetIndexBuffer(m.indexBuffer));
    pass.Record(DrawIndexed(m.indexCount, m.instancesLen));
  }

  lemma ColorBlockReplay(s: PassState, m: ColorMesh)
    ensures var r := Replay(s, ColorMeshCommands(m));
            r.pipeline == s.pipeline && r.groups == s.groups &&
            r.draws == s.draws + [ColorDraw(s.pipeline, s.groups, m)]
  {
    var c := ColorMeshCommands(m);
    var t1 := Step(s, c[0]);
    var t2 := Step(t1, c[1]);
    var t3 := Step(t2, c[2]);
    var t4 := Step(t3, c[3]);
    assert Replay(t4, c[4..]) == t4;
    assert Replay(t3, c[3..]) == t4 by { assert c[3..][1..] == c[4..]; }
    assert Replay(t2, c[2..]) == t4 by { assert c[2..][1..] == c[3..]; }
    assert Replay(t1, c[1..]) == t4 by { assert c[1..][1..] == c[2..]; }
  }

  /** Replaying the colour meshes appends one draw per mesh, in order, each seeing its own buffers. */
  lemma {:induction false} ColorBlocksReplay(s: PassState, meshes: seq<ColorMesh>)
    ensures var r := Replay(s, Blocks(meshes, ColorMeshCommands));
            && r.pipeline == s.pipeline && r.groups == s.groups
            && |r.draws| == |s.draws| + |meshes|
            && (forall i :: 0 <= i < |s.draws| ==> r.draws[i] == s.draws[i])
            && (forall k :: 0 <= k < |meshes| ==> r.draws[|s.draws| + k] == ColorDraw(s.pipeline, s.groups, meshes[k]))
  {
    if meshes != [] {
      var init := meshes[..|meshes| - 1];
      var last := meshes[|meshes| - 1];
      ColorBlocksReplay(s, init);
      var mid := Replay(s, Blocks(init, ColorMeshCommands));
      ReplayAppend(s, Blocks(init, ColorMeshCommands), ColorMeshCommands(last));
      ColorBlockReplay(mid, last);
      var r := Replay(mid, ColorMeshCommands(last));
      assert r.draws == mid.draws + [ColorDraw(s.pipeline, s.groups, last)];
      forall k | 0 <= k < |meshes|
        ensures r.draws[|s.draws| + k] == ColorDraw(s.pipeline, s.groups, meshes[k])
      {
        if k < |init| {
          assert meshes[k] == init[k];
        }
      }
    }
  }

  // ---------------------------------------------------------------------
  // The texture pipeline (src/renderer/pipeline/texture.rs)
  // ---------------------------------------------------------------------

  /**
   * The `(Mesh, BindGroup)` value `add_mesh` stores: the mesh's buffers, its
   * index count, its instance capacity and CPU mirror of the instances, and
   * the bind group of its texture.
   */
  datatype TexturedMesh = TexturedMesh(vertexBuffer: BufferId, indexBuffer: BufferId, indexCount: nat,
                                       instanceBuffer: BufferId, instanceCapacity: nat,
                                       instances: seq<InstanceRaw>, bindGroup: BindGroupId)

  type Entry = (U64Key, TexturedMesh)
  type U64Key = k: nat | k < U64

  /** The `LiteMap` invariant: keys strictly increase along the vector. */
  ghost predicate Sorted(entries: seq<Entry>)
  {
    forall i :: 0 <= i < |entries| - 1 ==> entries[i].0 < entries[i + 1].0
  }

  /** `LiteMap::get`. */
  function Find(entries: seq<Entry>, key: U64Key): Option<TexturedMesh>
  {
    if entries == [] then None
    else if entries[0].0 == key then Some(entries[0].1)
    else Find(entries[1..], key)
  }

  /**
   * `LiteMap::insert`: replace the value of an existing key, else insert
   * the entry before the first greater key.
   */
  function Insert(entries: seq<Entry>, key: U64Key, value: TexturedMesh): (r: seq<Entry>)
    ensures |r| > 0 && (r[0].0 == key || (entries != [] && r[0].0 == entries[0].0))
    ensures Sorted(entries) ==> Sorted(r)
  {
    if entries == [] then [(key, value)]
    else if entries[0].0 == key then [(key, value)] + entries[1..]
    else if key < entries[0].0 then [(key, value)] + entries
    else
      var rest := Insert(entries[1..], key, value);
      assert Sorted(entries) ==> Sorted(entries[1..]);
      [entries[0]] + rest
  }

  /** After an insert, `key` finds the new value and every other key what it found before. */
  lemma {:induction false} InsertFind(entries: seq<Entry>, key: U64Key, value: TexturedMesh, other: U64Key)
    ensures Find(Insert(entries, key, value), other) == if other == key then Some(value) else Find(entries, other)
  {
    var r := Insert(entries, key, value);
    if entries == [] {
    } else if entries[0].0 == key {
      assert r[1..] == entries[1..];
    } else if key < entries[0].0 {
      assert r[1..] == entries;
    } else {
      InsertFind(entries[1..], key, value, other);
      assert r[1..] == Insert(entries[1..], key, value);
    }
  }

  /** Adjacent order gives the order of every pair: `values()` visits the keys in increasing order. */
  lemma {:induction false} SortedIncreasing(entries: seq<Entry>, i: nat, j: nat)
    requires Sorted(entries) && i < j < |entries|
    ensures entries[i].0 < entries[j].0
  {
    if i + 1 < j {
      SortedIncreasing(entries, i, j - 1);
    }
  }

  /** Per mesh: its texture in group 1, vertices in slot 0, instances in slot 1, indices, one draw. */
  function TextureMeshCommands(e: Entry): seq<Command>
  {
    var m := e.1;
    [SetBindGroup(1, m.bindGroup), SetVertexBuffer(0, m.vertexBuffer), SetVertexBuffer(1, m.instanceBuffer),
     SetIndexBuffer(m.indexBuffer), DrawIndexed(m.indexCount, AsU32(|m.instances|))]
  }

  /** The texture pass: the pipeline, then every entry in key order. Group 0 is left as the pass had it. */
  function TexturePass(entries: seq<Entry>): seq<Command>
  {
    [SetPipeline(Texture)] + Blocks(entries, TextureMeshCommands)
  }

  /** What the draw of textured mesh `m` sees under `pipeline` and `group0`. */
  function TextureDraw(pipeline: Option<PipelineKind>, group0: Option<BindGroupId>, m: TexturedMesh): DrawCall
  {
    DrawCall(pipeline, group0, Some(m.bindGroup), Some(m.vertexBuffer), Some(m.instanceBuffer),
             Some(m.indexBuffer), true, m.indexCount, AsU32(|m.instances|))
  }

  /**
   * A mesh's buffers exist, its instance buffer holds exactly the mirror and
   * has room for exactly that many records, and its bind group exists.
   */
  ghost predicate TextureMeshBacked(m: TexturedMesh, buffers: seq<BufferContents>, bindGroups: seq<TextureId>)
  {
    && m.vertexBuffer < |buffers| && buffers[m.vertexBuffer].TexturedVertices?
    && m.indexBuffer < |buffers| && buffers[m.indexBuffer].Indices?
    && m.indexCount == AsU32(|buffers[m.indexBuffer].indices|)
    && m.instanceBuffer < |buffers| && buffers[m.instanceBuffer] == Instances(m.instances)
    && m.instanceCapacity == AsU32(|m.instances|)
    && m.bindGroup < |bindGroups|
  }

  ghost predicate TextureBacked(entries: seq<Entry>, buffers: seq<BufferContents>, bindGroups: seq<TextureId>)
  {
    forall k :: 0 <= k < |entries| ==> TextureMeshBacked(entries[k].1, buffers, bindGroups)
  }

  /** Every value of an insert is the new value or one that was there. */
  lemma {:induction false} InsertValues(entries: seq<Entry>, key: U64Key, value: TexturedMesh, k: nat)
    requires k < |Insert(entries, key, value)|
    ensures var v := Insert(entries, key, value)[k].1;
            v == value || exists j :: 0 <= j < |entries| && entries[j].1 == v
  {
    var r := Insert(entries, key, value);
    if entries == [] || entries[0].0 == key || key < entries[0].0 {
      if k > 0 && entries[0].0 == key {
        assert r[k].1 == entries[k].1;
      } else if k > 0 {
        assert r[k].1 == entries[k - 1].1;
      }
    } else if k > 0 {
      InsertValues(entries[1..], key, value, k - 1);
      var v := r[k].1;
      if v != value {
        var j :| 0 <= j < |entries[1..]| && entries[1..][j].1 == v;
        assert entries[j + 1].1 == v;
      }
    } else {
      assert r[0].1 == entries[0].1;
    }
  }

  class TexturePipeline {
    var meshes: seq<Entry>

    ghost predicate Valid()
      reads this
    {
      Sorted(meshes)
    }

    /** `TexturePipeline::new`: an empty `LiteMap`. */
    constructor ()
      ensures Valid() && meshes == []
    {
      meshes := [];
    }

    /**
     * `add_mesh`: upload vertices, indices and instances, create the
     * texture's bind group, and store the mesh under `id`, replacing any
     * mesh already stored there.
     */
    method AddMesh(device: Device, id: U64Key, texture: TextureId, vertices: seq<TexturedVertex>,
                   indices: seq<U16>, instances: seq<InstanceRaw>)
      requires Valid() && TextureBacked(meshes, device.buffers, device.bindGroups)
      modifies this, device
      ensures Valid() && TextureBacked(meshes, device.buffers, device.bindGroups)
      ensures var n := |old(device.buffers)|;
              && device.buffers == old(device.buffers) + [TexturedVertices(vertices), Indices(indices), Instances(instances)]
              && device.bindGroups == old(device.bindGroups) + [texture]
              && meshes == Insert(old(meshes), id, TexturedMesh(n, n + 1, AsU32(|indices|), n + 2, AsU32(|instances|),
                                                                instances, |old(device.bindGroups)|))
    {
      var vertexBuffer := device.CreateBufferInit(TexturedVertices(vertices));
      var indexBuffer := device.CreateBufferInit(Indices(indices));
      var instanceBuffer := device.CreateBufferInit(Instances(instances));
      var bindGroup := device.CreateBindGroup(texture);
      var mesh := TexturedMesh(vertexBuffer, indexBuffer, AsU32(|indices|), instanceBuffer, AsU32(|instances|),
                               instances, bindGroup);
      InsertKeepsBacked(meshes, id, mesh, old(device.buffers), old(device.bindGroups), device.buffers, device.bindGroups);
      meshes := Insert(meshes, id, mesh);
    }

    /** `begin_render_pass`: records `TexturePass` after what the pass already holds. */
    method BeginRenderPass(pass: RenderPass)
      modifies pass
      ensures pass.commands == old(pass.commands) + TexturePass(meshes)
    {
      pass.Record(SetPipeline(Texture));
      ghost var start := pass.commands;
      for i := 0 to |meshes|
        invariant pass.commands == start + Blocks(meshes[..i], TextureMeshCommands)
      {
        RecordTexturedMesh(pass, meshes[i]);
        assert meshes[..i + 1][..i] == meshes[..i];
      }
      assert meshes[..|meshes|] == meshes;
    }
  }

  /** The body of the loop in `TexturePipeline::begin_render_pass`: one mesh's bindings and draw. */
  method RecordTexturedMesh(pass: RenderPass, e: Entry)
    modifies pass
    ensures pass.commands == old(pass.commands) + TextureMeshCommands(e)
  {
    var m := e.1;
    pass.Record(SetBindGroup(1, m.bindGroup));
    pass.Record(SetVertexBuffer(0, m.vertexBuffer));
    pass.Record(SetVertexBuffer(1, m.instanceBuffer));
    pass.Record(SetIndexBuffer(m.indexBuffer));
    pass.Record(DrawIndexed(m.indexCount, AsU32(|m.instances|)));
  }

  /** Growing the device keeps old meshes backed, and the inserted mesh is backed in the grown device. */
  lemma InsertKeepsBacked(entries: seq<Entry>, key: U64Key, value: TexturedMesh,
                          buffers: seq<BufferContents>, bindGroups: seq<TextureId>,
                          buffers': seq<BufferContents>, bindGroups': seq<TextureId>)
    requires TextureBacked(entries, buffers, bindGroups)
    requires |buffers| <= |buffers'| && buffers'[..|buffers|] == buffers && |bindGroups| <= |bindGroups'|
    requires TextureMeshBacked(value, buffers', bindGroups')
    ensures TextureBacked(Insert(entries, key, value), buffers', bindGroups')
  {
    var r := Insert(entries, key, value);
    forall k | 0 <= k < |r|
      ensures TextureMeshBacked(r[k].1, buffers', bindGroups')
    {
      InsertValues(entries, key, value, k);
      if r[k].1 != value {
        var j :| 0 <= j < |entries| && entries[j].1 == r[k].1;
        var m := entries[j].1;
        assert TextureMeshBacked(m, buffers, bindGroups);
        assert buffers'[m.vertexBuffer] == buffers[m.vertexBuffer];
        assert buffers'[m.indexBuffer] == buffers[m.indexBuffer];
        assert buffers'[m.instanceBuffer] == buffers[m.instanceBuffer];
      }
    }
  }

  lemma TextureBlockReplay(s: PassState, e: Entry)
    ensures var r := Replay(s, TextureMeshCommands(e));
            r.pipeline == s.pipeline && Bound(r.groups, 0) == Bound(s.groups, 0) &&
            r.draws == s.draws + [TextureDraw(s.pipeline, Bound(s.groups, 0), e.1)]
  {
    var c := TextureMeshCommands(e);
    var t1 := Step(s, c[0]);
    var t2 := Step(t1, c[1]);
    var t3 := Step(t2, c[2]);
    var t4 := Step(t3, c[3]);
    var t5 := Step(t4, c[4]);
    assert Replay(t5, c[5..]) == t5;
    assert Replay(t4, c[4..]) == t5 by { assert c[4..][1..] == c[5..]; }
    assert Replay(t3, c[3..]) == t5 by { assert c[3..][1..] == c[4..]; }
    assert Replay(t2, c[2..]) == t5 by { assert c[2..][1..] == c[3..]; }
    assert Replay(t1, c[1..]) == t5 by { assert c[1..][1..] == c[2..]; }
  }

  /** Replaying the texture entries appends one draw per entry, in key order, each seeing its own texture and buffers. */
  lemma {:induction false} TextureBlocksReplay(s: PassState, entries: seq<Entry>)
    ensures var r := Replay(s, Blocks(entries, TextureMeshCommands));
            && r.pipeline == s.pipeline && Bound(r.groups, 0) == Bound(s.groups, 0)
            && |r.draws| == |s.draws| + |entries|
            && (forall i :: 0 <= i < |s.draws| ==> r.draws[i] == s.draws[i])
            && (forall k :: 0 <= k < |entries| ==>
                  r.draws[|s.draws| + k] == TextureDraw(s.pipeline, Bound(s.groups, 0), entries[k].1))
  {
    if entries != [] {
      var init := entries[..|entries| - 1];
      var last := entries[|entries| - 1];
      TextureBlocksReplay(s, init);
      var mid := Replay(s, Blocks(init, TextureMeshCommands));
      ReplayAppend(s, Blocks(init, TextureMeshCommands), TextureMeshCommands(last));
      TextureBlockReplay(mid, last);
      var r := Replay(mid, TextureMeshCommands(last));
      assert r.draws == mid.draws + [TextureDraw(s.pipeline, Bound(s.groups, 0), last.1)];
      forall k | 0 <= k < |entries|
        ensures r.draws[|s.draws| + k] == TextureDraw(s.pipeline, Bound(s.groups, 0), entries[k].1)
      {
        if k < |init| {
          assert entries[k] == init[k];
        }
      }
    }
  }

  // ---------------------------------------------------------------------
  // The composite pass (src/renderer/pipeline/mod.rs)
  // ---------------------------------------------------------------------

  /** The frame `Pipelines::begin_render_pass` records: background, colour, texture. */
  function FramePass(meshes: seq<ColorMesh>, entries: seq<Entry>, camera: BindGroupId, light: BindGroupId): seq<Command>
  {
    BackgroundPass() + ColorPass(meshes, camera, light) + TexturePass(entries)
  }

  /** The bind groups the colour pass leaves bound: the camera in group 0, the light in group 1. */
  function ColorGroups(camera: BindGroupId, light: BindGroupId): map<nat, BindGroupId>
  {
    map[0 := camera, 1 := light]
  }

  /** The background pass and the colour pass's bindings leave one draw, the colour pipeline, camera and light. */
  lemma OpeningReplay(camera: BindGroupId, light: BindGroupId)
    ensures var s2 := Replay(Replay(EmptyPass, BackgroundPass()),
                             [SetPipeline(Color), SetBindGroup(0, camera), SetBindGroup(1, light)]);
            && s2.pipeline == Some(Color) && s2.groups == ColorGroups(camera, light)
            && s2.draws == [DrawCall(Some(Background), None, None, None, None, None, false, 3, 1)]
  {
    var b := BackgroundPass();
    var header := [SetPipeline(Color), SetBindGroup(0, camera), SetBindGroup(1, light)];
    var s1 := Replay(EmptyPass, b);
    assert s1 == Step(Step(EmptyPass, b[0]), b[1]) by {
      assert b[1..][1..] == [];
    }
    var h1 := Step(s1, header[0]);
    var h2 := Step(h1, header[1]);
    var h3 := Step(h2, header[2]);
    assert Replay(h3, header[3..]) == h3;
    assert Replay(h2, header[2..]) == h3 by { assert header[2..][1..] == header[3..]; }
    assert Replay(h1, header[1..]) == h3 by { assert header[1..][1..] == header[2..]; }
  }

  /** The first two passes: the background draw, then one draw per colour mesh, with camera and light left bound. */
  lemma BackgroundColorReplay(meshes: seq<ColorMesh>, camera: BindGroupId, light: BindGroupId)
    ensures var s3 := Replay(EmptyPass, BackgroundPass() + ColorPass(meshes, camera, light));
            && s3.groups == ColorGroups(camera, light)
            && |s3.draws| == 1 + |meshes|
            && s3.draws[0] == DrawCall(Some(Background), None, None, None, None, None, false, 3, 1)
            && (forall k :: 0 <= k < |meshes| ==> s3.draws[1 + k] == ColorDraw(Some(Color), ColorGroups(camera, light), meshes[k]))
  {
    var b := BackgroundPass();
    var header := [SetPipeline(Color), SetBindGroup(0, camera), SetBindGroup(1, light)];
    var colorBlocks := Blocks(meshes, ColorMeshCommands);
    var s1 := Replay(EmptyPass, b);
    var s2 := Replay(s1, header);
    OpeningReplay(camera, light);
    ColorBlocksReplay(s2, meshes);
    ReplayAppend(EmptyPass, b, header + colorBlocks);
    ReplayAppend(s1, header, colorBlocks);
  }

  /**
   * A frame, replayed from a fresh pass: the background triangle, then one
   * draw per colour mesh in insertion order under the camera and light, then
   * one draw per textured mesh in key order under its own texture and, in
   * group 0, the camera the colour pass left bound.
   */
  lemma FrameReplay(meshes: seq<ColorMesh>, entries: seq<Entry>, camera: BindGroupId, light: BindGroupId)
    ensures var d := Replay(EmptyPass, FramePass(meshes, entries, camera, light)).draws;
            && |d| == 1 + |meshes| + |entries|
            && d[0] == DrawCall(Some(Background), None, None, None, None, None, false, 3, 1)
            && (forall k :: 0 <= k < |meshes| ==> d[1 + k] == ColorDraw(Some(Color), ColorGroups(camera, light), meshes[k]))
            && (forall k :: 0 <= k < |entries| ==> d[1 + |meshes| + k] == TextureDraw(Some(Texture), Some(camera), entries[k].1))
  {
    var first := BackgroundPass() + ColorPass(meshes, camera, light);
    var textureBlocks := Blocks(entries, TextureMeshCommands);
    BackgroundColorReplay(meshes, camera, light);
    var s3 := Replay(EmptyPass, first);
    var s4 := Step(s3, SetPipeline(Texture));
    assert Replay(s3, [SetPipeline(Texture)]) == s4;
    TextureBlocksReplay(s4, entries);
    ReplayAppend(EmptyPass, first, [SetPipeline(Texture)] + textureBlocks);
    ReplayAppend(s3, [SetPipeline(Texture)], textureBlocks);
    assert Bound(s4.groups, 0) == Some(camera);
  }

  /** A draw covers exactly what was uploaded: all indices of its index buffer and all records of its instance buffer. */
  ghost predicate Covers(d: DrawCall, buffers: seq<BufferContents>)
  {
    && d.index.Some? && d.index.value < |buffers| && buffers[d.index.value].Indices?
    && d.count == AsU32(|buffers[d.index.value].indices|)
    && d.vertex1.Some? && d.vertex1.value < |buffers| && buffers[d.vertex1.value].Instances?
    && d.instanceCount == AsU32(|buffers[d.vertex1.value].instances|)
  }

  /**
   * Every mesh draw of a frame covers exactly its mesh's uploaded indices
   * and instances, when the registries are backed by the device's buffers.
   */
  lemma FrameDrawsCover(meshes: seq<ColorMesh>, entries: seq<Entry>, camera: BindGroupId, light: BindGroupId,
                        buffers: seq<BufferContents>, bindGroups: seq<TextureId>)
    requires ColorBacked(meshes, buffers) && TextureBacked(entries, buffers, bindGroups)
    ensures var d := Replay(EmptyPass, FramePass(meshes, entries, camera, light)).draws;
            |d| == 1 + |meshes| + |entries| && forall k :: 1 <= k < |d| ==> Covers(d[k], buffers)
  {
    FrameReplay(meshes, entries, camera, light);
    var d := Replay(EmptyPass, FramePass(meshes, entries, camera, light)).draws;
    forall k | 1 <= k < |d|
      ensures Covers(d[k], buffers)
    {
      if k < 1 + |meshes| {
        assert ColorMeshBacked(meshes[k - 1], buffers);
      } else {
        assert TextureMeshBacked(entries[k - 1 - |meshes|].1, buffers, bindGroups);
      }
    }
  }

  /**
   * `Pipelines`: the HDR target (whose pipeline, src/renderer/pipeline/hdr.rs,
   * is not part of this model, so only its size is kept), the stateless
   * background pipeline, and the two mesh pipelines.
   */
  class Pipelines {
    var hdrWidth: nat
    var hdrHeight: nat
    const color: ColorPipeline
    const texture: TexturePipeline

    /** `Pipelines::new`: an HDR target of the window's size and two empty mesh pipelines. */
    constructor (width: nat, height: nat)
      ensures hdrWidth == width && hdrHeight == height
      ensures fresh(color) && fresh(texture) && color.meshes == [] && texture.meshes == [] && texture.Valid()
    {
      hdrWidth := width;
      hdrHeight := height;
      color := new ColorPipeline();
      texture := new TexturePipeline();
    }

    /** `resize`: only the HDR target takes the new size; both mesh registries are untouched. */
    method Resize(width: nat, height: nat)
      modifies this
      ensures hdrWidth == width && hdrHeight == height
      ensures color.meshes == old(color.meshes) && texture.meshes == old(texture.meshes)
    {
      hdrWidth := width;
      hdrHeight := height;
    }

    /** `begin_render_pass`: background, then colour, then texture. */
    method BeginRenderPass(pass: RenderPass, camera: BindGroupId, light: BindGroupId)
      modifies pass
      ensures pass.commands == old(pass.commands) + FramePass(color.meshes, texture.meshes, camera, light)
    {
      pass.Record(SetPipeline(Background));
      pass.Record(Draw(3, 1));
      color.BeginRenderPass(pass, camera, light);
      texture.BeginRenderPass(pass);
    }
  }
}
