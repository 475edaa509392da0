/**
 * The glTF ingestion fold: `Scene::add_node` / `Scene::add_primitive`
 * (src/scene.rs) and the identical loop inlined in `Game::add_gltf`
 * (src/game.rs), followed by the upload step of `Game::add_gltf` that gives
 * every geometry mesh its grouped instances or one identity instance.
 *
 * The glTF reader is abstract: a node carries its (optional) mesh and the
 * instance record its transform yields; a primitive carries what each
 * accessor read returns (`None` when the attribute is absent). Normal
 * generation (`Renderer::compute_normals`) and image decoding are
 * uninterpreted parameters.
 */
module Ingest {
  import opened Common

  /** 2^16: `v as u16` keeps an index modulo this. */
  const U16: nat := 0x1_0000

  datatype Vec2 = Vec2(x: real, y: real)
  datatype Vec3 = Vec3(x: real, y: real, z: real)
  datatype Rgba = Rgba(r: real, g: real, b: real, a: real)

  /** Where a texture's image lives: a view into the binary blob, or elsewhere (a URI). */
  datatype ImageSource = View(offset: nat, length: nat) | Uri

  datatype Material = Material(baseColorFactor: Rgba, baseColorTexture: Option<ImageSource>)

  /** What the accessor reader yields for one primitive; indices are the `u32` values. */
  datatype Primitive = Primitive(indices: Option<seq<nat>>, positions: Option<seq<Vec3>>,
                                 normals: Option<seq<Vec3>>, texCoords: Option<seq<Vec2>>,
                                 colors: Option<seq<Rgba>>, material: Material)

  datatype GltfMesh = GltfMesh(name: Option<string>, primitives: seq<Primitive>)

  /**
   * A scene node: its mesh, if any, and the `InstanceRaw` its transform gives
   * (the model matrix and the inverse-transpose normal matrix, computed in
   * floating point outside the model).
   */
  datatype Node = Node(mesh: Option<GltfMesh>, instance: InstanceRaw)

  datatype TexturedVertex = TexturedVertex(position: Vec3, texCoords: Vec2, normal: Vec3)
  datatype ColoredVertex = ColoredVertex(position: Vec3, color: Vec3, normal: Vec3)

  datatype TexturedMesh = TexturedMesh(vertices: seq<TexturedVertex>, indices: seq<nat>, image: seq<bv8>)
  datatype ColoredMesh = ColoredMesh(vertices: seq<ColoredVertex>, indices: seq<nat>, baseColor: Rgba)
  datatype ColliderMesh = ColliderMesh(positions: seq<Vec3>, indices: seq<nat>)

  /** What one primitive contributes. */
  datatype Outcome =
    | Skipped
    | Panicked
    | Textured(textured: TexturedMesh, collider: ColliderMesh)
    | Colored(colored: ColoredMesh, collider: ColliderMesh)

  /** The four maps the fold fills, keyed by mesh name. */
  datatype Collected = Collected(instances: map<string, seq<InstanceRaw>>, textured: map<string, TexturedMesh>,
                                 colored: map<string, ColoredMesh>, colliders: map<string, ColliderMesh>)

  function EmptyCollected(): Collected
  {
    Collected(map[], map[], map[], map[])
  }

  // ---------------------------------------------------------------------
  // Names: `str::split_once('.')`
  // ---------------------------------------------------------------------

  /** The position of the first `c` in `s`, if any. */
  function FirstIndex(s: string, c: char): (r: Option<nat>)
    ensures r.None? <==> c !in s
    ensures r.Some? ==> r.value < |s| && s[r.value] == c && c !in s[..r.value]
  {
    if s == [] then None
    else if s[0] == c then Some(0)
    else match FirstIndex(s[1..], c)
      case None => assert s == [s[0]] + s[1..]; None
      case Some(i) => assert s[..i + 1] == [s[0]] + s[1..][..i]; Some(i + 1)
  }

  /** `s.split_once(c)`: the text before the first `c` and the text after it. */
  function SplitOnce(s: string, c: char): (r: Option<(string, string)>)
    ensures r.None? <==> c !in s
    ensures r.Some? ==> s == r.value.0 + [c] + r.value.1 && c !in r.value.0
  {
    match FirstIndex(s, c)
    case None => None
    case Some(i) => assert s == s[..i] + [c] + s[i + 1..]; Some((s[..i], s[i + 1..]))
  }

  lemma {:induction false} FirstIndexAfter(a: string, c: char, b: string)
    requires c !in a
    ensures FirstIndex(a + [c] + b, c) == Some(|a|)
  {
    if a != [] {
      assert (a + [c] + b)[1..] == a[1..] + [c] + b;
      FirstIndexAfter(a[1..], c, b);
    }
  }

  /** The converse of `SplitOnce`'s contract: splitting `a + c + b` at the first `c` gives back `a` and `b` whenever `a` has no `c`. */
  lemma SplitOnceExact(a: string, c: char, b: string)
    requires c !in a
    ensures SplitOnce(a + [c] + b, c) == Some((a, b))
  {
    FirstIndexAfter(a, c, b);
    var s := a + [c] + b;
    assert s[..|a|] == a && s[|a| + 1..] == b;
  }

  // ---------------------------------------------------------------------
  // Vertex construction: `v as u16` and `zip`/`map`/`collect`
  // ---------------------------------------------------------------------

  /** `map(|v| v as u16)` over the indices: each keeps its low 16 bits. */
  function AsU16(vs: seq<nat>): (r: seq<nat>)
    ensures |r| == |vs|
    ensures forall k :: 0 <= k < |r| ==> r[k] < U16 && vs[k] == r[k] + U16 * (vs[k] / U16)
    ensures forall k :: 0 <= k < |r| && vs[k] < U16 ==> r[k] == vs[k]
  {
    seq(|vs|, k requires 0 <= k < |vs| => vs[k] % U16)
  }

  function Min3(a: nat, b: nat, c: nat): (m: nat)
    ensures m <= a && m <= b && m <= c && (m == a || m == b || m == c)
  {
    if a <= b && a <= c then a else if b <= c then b else c
  }

  /** `a.iter().zip(b).zip(c).map(f)`: stops at the shortest input. */
  function Zip3<A, B, C, R>(a: seq<A>, b: seq<B>, c: seq<C>, f: (A, B, C) -> R): (r: seq<R>)
    ensures |r| == Min3(|a|, |b|, |c|)
    ensures forall k :: 0 <= k < |r| ==> r[k] == f(a[k], b[k], c[k])
  {
    if a == [] || b == [] || c == [] then []
    else [f(a[0], b[0], c[0])] + Zip3(a[1..], b[1..], c[1..], f)
  }

  function Rgb(c: Rgba): Vec3
  {
    Vec3(c.r, c.g, c.b)
  }

  /**
   * The per-vertex colours: the RGB of the vertex colours when the
   * primitive has them, else the material's base-colour RGB, `n` times.
   */
  function VertexColors(p: Primitive, n: nat): (r: seq<Vec3>)
    ensures p.colors.Some? ==>
              |r| == |p.colors.value| && forall k :: 0 <= k < |r| ==> r[k] == Rgb(p.colors.value[k])
    ensures p.colors.None? ==> |r| == n && forall k :: 0 <= k < n ==> r[k] == Rgb(p.material.baseColorFactor)
  {
    match p.colors
    case Some(cs) => seq(|cs|, k requires 0 <= k < |cs| => Rgb(cs[k]))
    case None => seq(n, _ => Rgb(p.material.baseColorFactor))
  }

  /** The normals: read from the primitive, or generated from positions and (truncated) indices. */
  function Normals(p: Primitive, computeNormals: (seq<Vec3>, seq<nat>) -> seq<Vec3>): seq<Vec3>
    requires p.indices.Some? && p.positions.Some?
  {
    if p.normals.Some? then p.normals.value else computeNormals(p.positions.value, AsU16(p.indices.value))
  }

  /** Texture coordinates, a base-colour texture, and an image stored in a buffer view. */
  predicate WantsTexture(p: Primitive)
  {
    p.texCoords.Some? && p.material.baseColorTexture.Some? && p.material.baseColorTexture.value.View?
  }

  /** The image's buffer view lies inside the blob, so slicing it does not panic. */
  predicate ViewInBlob(p: Primitive, blob: seq<bv8>)
    requires WantsTexture(p)
  {
    var v := p.material.baseColorTexture.value;
    v.offset + v.length <= |blob|
  }

  // ---------------------------------------------------------------------
  // `add_primitive`
  // ---------------------------------------------------------------------

  /**
   * What one primitive contributes: nothing without indices or with empty
   * positions; a panic when positions are missing (`unwrap`) or the image
   * view runs past the blob; a textured mesh when it has texture
   * coordinates and a base-colour texture stored in a buffer view; a
   * coloured mesh in every other case. Either mesh comes with a collider of
   * its positions and its indices truncated to `u16`.
   */
  function ClassifyPrimitive(p: Primitive, blob: seq<bv8>, computeNormals: (seq<Vec3>, seq<nat>) -> seq<Vec3>): (o: Outcome)
    ensures o.Skipped? <==> p.indices.None? || p.positions == Some([])
    ensures o.Panicked? <==>
              p.indices.Some? && (p.positions.None? || (p.positions.value != [] && WantsTexture(p) && !ViewInBlob(p, blob)))
    ensures o.Textured? <==>
              p.indices.Some? && p.positions.Some? && p.positions.value != [] && WantsTexture(p) && ViewInBlob(p, blob)
    ensures (o.Textured? || o.Colored?) ==>
              o.collider == ColliderMesh(p.positions.value, AsU16(p.indices.value)) && o.collider.positions != []
    ensures o.Textured? ==>
              var v := p.material.baseColorTexture.value;
              var normals := Normals(p, computeNormals);
              && o.textured.indices == AsU16(p.indices.value)
              && o.textured.image == blob[v.offset..v.offset + v.length]
              && |o.textured.vertices| == Min3(|p.positions.value|, |p.texCoords.value|, |normals|)
              && forall k :: 0 <= k < |o.textured.vertices| ==>
                   o.textured.vertices[k] == TexturedVertex(p.positions.value[k], p.texCoords.value[k], normals[k])
    ensures o.Colored? ==>
              var normals := Normals(p, computeNormals);
              var colors := VertexColors(p, |p.positions.value|);
              && o.colored.indices == AsU16(p.indices.value)
              && o.colored.baseColor == p.material.baseColorFactor
              && |o.colored.vertices| == Min3(|p.positions.value|, |colors|, |normals|)
              && forall k :: 0 <= k < |o.colored.vertices| ==>
                   o.colored.vertices[k] == ColoredVertex(p.positions.value[k], colors[k], normals[k])
    ensures o.Colored? && p.colors.None? ==>
              forall k :: 0 <= k < |o.colored.vertices| ==> o.colored.vertices[k].color == Rgb(p.material.baseColorFactor)
  {
    if p.indices.None? then Skipped
    else if p.positions.None? then Panicked
    else if p.positions.value == [] then Skipped
    else
      var indices := AsU16(p.indices.value);
      var positions := p.positions.value;
      var normals := Normals(p, computeNormals);
      var collider := ColliderMesh(positions, indices);
      if WantsTexture(p) then
        var v := p.material.baseColorTexture.value;
        if v.offset + v.length > |blob| then Panicked
        else
          var vertices := Zip3(positions, p.texCoords.value, normals, (pos, uv, n) => TexturedVertex(pos, uv, n));
          Textured(TexturedMesh(vertices, indices, blob[v.offset..v.offset + v.length]), collider)
      else
        var colors := VertexColors(p, |positions|);
        var vertices := Zip3(positions, colors, normals, (pos, col, n) => ColoredVertex(pos, col, n));
        Colored(ColoredMesh(vertices, indices, p.material.baseColorFactor), collider)
  }

  /** `map.insert(name, v)` when there is a value to insert. */
  function Put<T>(m: map<string, T>, name: string, v: Option<T>): map<string, T>
  {
    if v.Some? then m[name := v.value] else m
  }

  function TexturedOf(o: Outcome): Option<TexturedMesh>
  {
    if o.Textured? then Some(o.textured) else None
  }

  function ColoredOf(o: Outcome): Option<ColoredMesh>
  {
    if o.Colored? then Some(o.colored) else None
  }

  function ColliderOf(o: Outcome): Option<ColliderMesh>
  {
    if o.Textured? || o.Colored? then Some(o.collider) else None
  }

  /** Files an outcome under `name`: the collider map and the textured or coloured map. */
  function Record(c: Collected, name: string, o: Outcome): Collected
  {
    c.(textured := Put(c.textured, name, TexturedOf(o)),
       colored := Put(c.colored, name, ColoredOf(o)),
       colliders := Put(c.colliders, name, ColliderOf(o)))
  }

  /**
   * Collected geometry is filed under names without a `'.'`, every
   * collider is non-empty and its indices fit in `u16`, a name has a
   * collider exactly when it has a textured or a coloured mesh, and every
   * instance list is non-empty and filed under a name without a `'.'`.
   */
  ghost predicate Wellformed(c: Collected)
  {
    && (forall n :: n in c.colliders <==> n in c.textured || n in c.colored)
    && (forall n :: n in c.colliders ==>
          '.' !in n && c.colliders[n].positions != [] &&
          forall k :: 0 <= k < |c.colliders[n].indices| ==> c.colliders[n].indices[k] < U16)
    && (forall n :: n in c.instances ==> '.' !in n && c.instances[n] != [])
  }

  /**
   * `add_primitive(primitive, name, ...)`: a panic, nothing, or the
   * primitive's mesh and collider stored under `name`, replacing whatever
   * an earlier primitive stored there in the same map. Instances are never
   * touched.
   */
  function AddPrimitive(c: Collected, name: string, p: Primitive, blob: seq<bv8>,
                        computeNormals: (seq<Vec3>, seq<nat>) -> seq<Vec3>): (r: Option<Collected>)
    ensures r.None? <==> ClassifyPrimitive(p, blob, computeNormals).Panicked?
    ensures r.Some? ==> r.value.instances == c.instances
    ensures Wellformed(c) && '.' !in name && r.Some? ==> Wellformed(r.value)
  {
    var o := ClassifyPrimitive(p, blob, computeNormals);
    if o.Panicked? then None else Some(Record(c, name, o))
  }

  /** The primitives of a mesh named `name`, added in order; the first panic ends the fold. */
  function FoldPrimitives(c: Collected, name: string, ps: seq<Primitive>, blob: seq<bv8>,
                          computeNormals: (seq<Vec3>, seq<nat>) -> seq<Vec3>): (r: Option<Collected>)
    ensures r.Some? ==> r.value.instances == c.instances
    ensures Wellformed(c) && '.' !in name && r.Some? ==> Wellformed(r.value)
    decreases |ps|
  {
    if ps == [] then Some(c)
    else match FoldPrimitives(c, name, ps[..|ps| - 1], blob, computeNormals)
      case None => None
      case Some(c') => AddPrimitive(c', name, ps[|ps| - 1], blob, computeNormals)
  }

  // ---------------------------------------------------------------------
  // `add_node`
  // ---------------------------------------------------------------------

  /** The base name a node adds an instance under: the text before the first `'.'` of its mesh's name. */
  function InstanceBase(node: Node): Option<string>
  {
    if node.mesh.Some? && node.mesh.value.name.Some? && SplitOnce(node.mesh.value.name.value, '.').Some?
    then Some(SplitOnce(node.mesh.value.name.value, '.').value.0)
    else None
  }

  /** The name a node files geometry under: its mesh's name, when that has no `'.'`. */
  function GeometryName(node: Node): Option<string>
  {
    if node.mesh.Some? && node.mesh.value.name.Some? && '.' !in node.mesh.value.name.value
    then node.mesh.value.name
    else None
  }

  /** `entry(key).or_default().push(x)`. */
  function Push(m: map<string, seq<InstanceRaw>>, key: string, x: InstanceRaw): (r: map<string, seq<InstanceRaw>>)
    ensures r.Keys == m.Keys + {key}
    ensures r[key] == (if key in m then m[key] else []) + [x]
    ensures forall k :: k in m && k != key ==> r[k] == m[k]
  {
    m[key := (if key in m then m[key] else []) + [x]]
  }

  /**
   * `add_node`: a node without a mesh or mesh name adds nothing; a mesh
   * name with a `'.'` adds the node's instance under the text before the
   * first `'.'` and reads no geometry; any other name adds its primitives.
   */
  function NodeStep(c: Collected, node: Node, blob: seq<bv8>,
                    computeNormals: (seq<Vec3>, seq<nat>) -> seq<Vec3>): (r: Option<Collected>)
    ensures InstanceBase(node).Some? ==>
              r == Some(c.(instances := Push(c.instances, InstanceBase(node).value, node.instance)))
    ensures GeometryName(node).Some? ==>
              r == FoldPrimitives(c, GeometryName(node).value, node.mesh.value.primitives, blob, computeNormals)
    ensures InstanceBase(node).None? && GeometryName(node).None? ==> r == Some(c)
    ensures Wellformed(c) && r.Some? ==> Wellformed(r.value)
  {
    match node.mesh
    case None => Some(c)
    case Some(mesh) =>
      match mesh.name
      case None => Some(c)
      case Some(name) =>
        match SplitOnce(name, '.')
        case Some((base, _)) => Some(c.(instances := Push(c.instances, base, node.instance)))
        case None => FoldPrimitives(c, name, mesh.primitives, blob, computeNormals)
  }

  /** The nodes, visited in order; the first panic ends the fold. */
  function FoldNodes(c: Collected, nodes: seq<Node>, blob: seq<bv8>,
                     computeNormals: (seq<Vec3>, seq<nat>) -> seq<Vec3>): (r: Option<Collected>)
    ensures Wellformed(c) && r.Some? ==> Wellformed(r.value)
    decreases |nodes|
  {
    if nodes == [] then Some(c)
    else match FoldNodes(c, nodes[..|nodes| - 1], blob, computeNormals)
      case None => None
      case Some(c') => NodeStep(c', nodes[|nodes| - 1], blob, computeNormals)
  }

  // ---------------------------------------------------------------------
  // Reference descriptions of the fold's result
  // ---------------------------------------------------------------------

  /** The instances of the nodes whose base name is `base`, in node order. */
  function Grouped(nodes: seq<Node>, base: string): seq<InstanceRaw>
  {
    if nodes == [] then []
    else Grouped(nodes[..|nodes| - 1], base) +
         (if InstanceBase(nodes[|nodes| - 1]) == Some(base) then [nodes[|nodes| - 1].instance] else [])
  }

  function Lookup(m: map<string, seq<InstanceRaw>>, k: string): seq<InstanceRaw>
  {
    if k in m then m[k] else []
  }

  /** Every primitive of a mesh named `name`, with its outcome, in order. */
  function PrimitiveOutcomes(name: string, ps: seq<Primitive>, blob: seq<bv8>,
                             computeNormals: (seq<Vec3>, seq<nat>) -> seq<Vec3>): (r: seq<(string, Outcome)>)
    ensures |r| == |ps|
  {
    if ps == [] then []
    else PrimitiveOutcomes(name, ps[..|ps| - 1], blob, computeNormals) +
         [(name, ClassifyPrimitive(ps[|ps| - 1], blob, computeNormals))]
  }

  /** Every geometry primitive of `nodes`, with the name it is filed under and its outcome, in visiting order. */
  function Outcomes(nodes: seq<Node>, blob: seq<bv8>,
                    computeNormals: (seq<Vec3>, seq<nat>) -> seq<Vec3>): seq<(string, Outcome)>
  {
    if nodes == [] then []
    else
      var node := nodes[|nodes| - 1];
      Outcomes(nodes[..|nodes| - 1], blob, computeNormals) +
      (if GeometryName(node).Some?
       then PrimitiveOutcomes(GeometryName(node).value, node.mesh.value.primitives, blob, computeNormals)
       else [])
  }

  predicate AnyPanicked(outs: seq<(string, Outcome)>)
  {
    exists k :: 0 <= k < |outs| && outs[k].1.Panicked?
  }

  /** The maps' inserts replayed over a list of outcomes. */
  function PutAll<T>(m: map<string, T>, outs: seq<(string, Outcome)>, pick: Outcome -> Option<T>): map<string, T>
  {
    if outs == [] then m
    else Put(PutAll(m, outs[..|outs| - 1], pick), outs[|outs| - 1].0, pick(outs[|outs| - 1].1))
  }

  /** The value the last outcome filed under `name` carries, if any. */
  function LastOf<T>(outs: seq<(string, Outcome)>, name: string, pick: Outcome -> Option<T>): Option<T>
  {
    if outs == [] then None
    else if outs[|outs| - 1].0 == name && pick(outs[|outs| - 1].1).Some? then pick(outs[|outs| - 1].1)
    else LastOf(outs[..|outs| - 1], name, pick)
  }

  function Find<T>(m: map<string, T>, k: string): Option<T>
  {
    if k in m then Some(m[k]) else None
  }

  /** `b` when it holds a value, else `a`. */
  function Override<T>(a: Option<T>, b: Option<T>): Option<T>
  {
    if b.Some? then b else a
  }

  lemma {:induction false} PutAllAppend<T>(m: map<string, T>, a: seq<(string, Outcome)>, b: seq<(string, Outcome)>,
                                           pick: Outcome -> Option<T>)
    ensures PutAll(m, a + b, pick) == PutAll(PutAll(m, a, pick), b, pick)
    decreases |b|
  {
    if b != [] {
      assert (a + b)[..|a + b| - 1] == a + b[..|b| - 1];
      PutAllAppend(m, a, b[..|b| - 1], pick);
    } else {
      assert a + b == a;
    }
  }

  /** A map built by replaying inserts holds, for each name, the last value filed under it (or its old entry). */
  lemma {:induction false} PutAllFind<T>(m: map<string, T>, outs: seq<(string, Outcome)>, pick: Outcome -> Option<T>, name: string)
    ensures Find(PutAll(m, outs, pick), name) == Override(Find(m, name), LastOf(outs, name, pick))
    decreases |outs|
  {
    if outs != [] {
      PutAllFind(m, outs[..|outs| - 1], pick, name);
    }
  }

  lemma {:induction false} AnyPanickedAppend(a: seq<(string, Outcome)>, b: seq<(string, Outcome)>)
    ensures AnyPanicked(a + b) <==> AnyPanicked(a) || AnyPanicked(b)
  {
    if AnyPanicked(a) {
      var k :| 0 <= k < |a| && a[k].1.Panicked?;
      assert (a + b)[k] == a[k];
    }
    if AnyPanicked(a + b) {
      var k :| 0 <= k < |a + b| && (a + b)[k].1.Panicked?;
      if k >= |a| {
        assert b[k - |a|] == (a + b)[k];
      }
    }
    if AnyPanicked(b) {
      var k :| 0 <= k < |b| && b[k].1.Panicked?;
      assert (a + b)[|a| + k] == b[k];
    }
  }

  /** Folding primitives is replaying their outcomes' inserts, and panics exactly when one of them panics. */
  lemma {:induction false} FoldPrimitivesReplays(c: Collected, name: string, ps: seq<Primitive>, blob: seq<bv8>,
                                                 computeNormals: (seq<Vec3>, seq<nat>) -> seq<Vec3>)
    ensures var outs := PrimitiveOutcomes(name, ps, blob, computeNormals);
            var r := FoldPrimitives(c, name, ps, blob, computeNormals);
            && (r.None? <==> AnyPanicked(outs))
            && (r.Some? ==> r.value.textured == PutAll(c.textured, outs, TexturedOf) &&
                            r.value.colored == PutAll(c.colored, outs, ColoredOf) &&
                            r.value.colliders == PutAll(c.colliders, outs, ColliderOf))
    decreases |ps|
  {
    if ps != [] {
      var init := ps[..|ps| - 1];
      var last := (name, ClassifyPrimitive(ps[|ps| - 1], blob, computeNormals));
      FoldPrimitivesReplays(c, name, init, blob, computeNormals);
      AnyPanickedAppend(PrimitiveOutcomes(name, init, blob, computeNormals), [last]);
      assert [last][0] == last;
    }
  }

  /** Folding nodes is replaying their geometry outcomes' inserts, and panics exactly when one of them panics. */
  lemma {:induction false} FoldNodesReplays(c: Collected, nodes: seq<Node>, blob: seq<bv8>,
                                            computeNormals: (seq<Vec3>, seq<nat>) -> seq<Vec3>)
    ensures var outs := Outcomes(nodes, blob, computeNormals);
            var r := FoldNodes(c, nodes, blob, computeNormals);
            && (r.None? <==> AnyPanicked(outs))
            && (r.Some? ==> r.value.textured == PutAll(c.textured, outs, TexturedOf) &&
                            r.value.colored == PutAll(c.colored, outs, ColoredOf) &&
                            r.value.colliders == PutAll(c.colliders, outs, ColliderOf))
    decreases |nodes|
  {
    if nodes != [] {
      var init := nodes[..|nodes| - 1];
      var node := nodes[|nodes| - 1];
      var before := Outcomes(init, blob, computeNormals);
      FoldNodesReplays(c, init, blob, computeNormals);
      var mine := if GeometryName(node).Some?
                  then PrimitiveOutcomes(GeometryName(node).value, node.mesh.value.primitives, blob, computeNormals)
                  else [];
      AnyPanickedAppend(before, mine);
      match FoldNodes(c, init, blob, computeNormals)
      case None =>
      case Some(c') =>
        PutAllAppend(c.textured, before, mine, TexturedOf);
        PutAllAppend(c.colored, before, mine, ColoredOf);
        PutAllAppend(c.colliders, before, mine, ColliderOf);
        if GeometryName(node).Some? {
          FoldPrimitivesReplays(c', GeometryName(node).value, node.mesh.value.primitives, blob, computeNormals);
        }
    }
  }

  /**
   * The fold's result, as the source promises it: it panics exactly when
   * some geometry primitive panics; otherwise each name's textured,
   * coloured and collider entry is the one the last primitive filed under
   * that name in that map, and names no primitive filed keep their entry.
   */
  lemma LastWriterWins(c: Collected, nodes: seq<Node>, blob: seq<bv8>,
                       computeNormals: (seq<Vec3>, seq<nat>) -> seq<Vec3>)
    ensures FoldNodes(c, nodes, blob, computeNormals).None? <==> AnyPanicked(Outcomes(nodes, blob, computeNormals))
    ensures var r := FoldNodes(c, nodes, blob, computeNormals);
            var outs := Outcomes(nodes, blob, computeNormals);
            r.Some? ==> forall name ::
              && Find(r.value.textured, name) == Override(Find(c.textured, name), LastOf(outs, name, TexturedOf))
              && Find(r.value.colored, name) == Override(Find(c.colored, name), LastOf(outs, name, ColoredOf))
              && Find(r.value.colliders, name) == Override(Find(c.colliders, name), LastOf(outs, name, ColliderOf))
  {
    FoldNodesReplays(c, nodes, blob, computeNormals);
    var outs := Outcomes(nodes, blob, computeNormals);
    forall name
      ensures Find(PutAll(c.textured, outs, TexturedOf), name) == Override(Find(c.textured, name), LastOf(outs, name, TexturedOf))
      ensures Find(PutAll(c.colored, outs, ColoredOf), name) == Override(Find(c.colored, name), LastOf(outs, name, ColoredOf))
      ensures Find(PutAll(c.colliders, outs, ColliderOf), name) == Override(Find(c.colliders, name), LastOf(outs, name, ColliderOf))
    {
      PutAllFind(c.textured, outs, TexturedOf, name);
      PutAllFind(c.colored, outs, ColoredOf, name);
      PutAllFind(c.colliders, outs, ColliderOf, name);
    }
  }

  lemma NodeStepGroups(c: Collected, node: Node, blob: seq<bv8>,
                       computeNormals: (seq<Vec3>, seq<nat>) -> seq<Vec3>)
    ensures var r := NodeStep(c, node, blob, computeNormals);
            r.Some? ==> forall base ::
              Lookup(r.value.instances, base) ==
              Lookup(c.instances, base) + (if InstanceBase(node) == Some(base) then [node.instance] else [])
  {
  }

  /**
   * Instances are grouped by base name: after the fold, each base name's
   * list is its old list followed by the instances of the nodes with that
   * base name, in node order.
   */
  lemma {:induction false} FoldGroupsInstances(c: Collected, nodes: seq<Node>, blob: seq<bv8>,
                                               computeNormals: (seq<Vec3>, seq<nat>) -> seq<Vec3>)
    ensures var r := FoldNodes(c, nodes, blob, computeNormals);
            r.Some? ==> forall base ::
              Lookup(r.value.instances, base) == Lookup(c.instances, base) + Grouped(nodes, base)
    decreases |nodes|
  {
    if nodes != [] {
      var init := nodes[..|nodes| - 1];
      var node := nodes[|nodes| - 1];
      FoldGroupsInstances(c, init, blob, computeNormals);
      match FoldNodes(c, init, blob, computeNormals)
      case None =>
      case Some(c') =>
        NodeStepGroups(c', node, blob, computeNormals);
        forall base
          ensures Lookup(c.instances, base) + Grouped(init, base) + (if InstanceBase(node) == Some(base) then [node.instance] else []) ==
                  Lookup(c.instances, base) + Grouped(nodes, base)
        {
        }
    }
  }

  // ---------------------------------------------------------------------
  // The loops
  // ---------------------------------------------------------------------

  lemma {:induction false} FoldPrimitivesStaysPanicked(c: Collected, name: string, ps: seq<Primitive>, i: nat, blob: seq<bv8>,
                                                       computeNormals: (seq<Vec3>, seq<nat>) -> seq<Vec3>)
    requires i <= |ps| && FoldPrimitives(c, name, ps[..i], blob, computeNormals).None?
    ensures FoldPrimitives(c, name, ps, blob, computeNormals).None?
    decreases |ps|
  {
    if i < |ps| {
      assert ps[..|ps| - 1][..i] == ps[..i];
      FoldPrimitivesStaysPanicked(c, name, ps[..|ps| - 1], i, blob, computeNormals);
    } else {
      assert ps[..i] == ps;
    }
  }

  lemma {:induction false} FoldNodesStaysPanicked(c: Collected, nodes: seq<Node>, i: nat, blob: seq<bv8>,
                                                  computeNormals: (seq<Vec3>, seq<nat>) -> seq<Vec3>)
    requires i <= |nodes| && FoldNodes(c, nodes[..i], blob, computeNormals).None?
    ensures FoldNodes(c, nodes, blob, computeNormals).None?
    decreases |nodes|
  {
    if i < |nodes| {
      assert nodes[..|nodes| - 1][..i] == nodes[..i];
      FoldNodesStaysPanicked(c, nodes[..|nodes| - 1], i, blob, computeNormals);
    } else {
      assert nodes[..i] == nodes;
    }
  }

  /** The `for primitive in mesh.primitives()` loop of `add_node`. */
  method AddPrimitives(c: Collected, name: string, ps: seq<Primitive>, blob: seq<bv8>,
                       computeNormals: (seq<Vec3>, seq<nat>) -> seq<Vec3>)
    returns (r: Option<Collected>)
    ensures r == FoldPrimitives(c, name, ps, blob, computeNormals)
  {
    var current := c;
    var i := 0;
    while i < |ps|
      invariant i <= |ps|
      invariant FoldPrimitives(c, name, ps[..i], blob, computeNormals) == Some(current)
    {
      assert ps[..i + 1][..i] == ps[..i];
      var next := AddPrimitive(current, name, ps[i], blob, computeNormals);
      if next.None? {
        FoldPrimitivesStaysPanicked(c, name, ps, i + 1, blob, computeNormals);
        return None;
      }
      current := next.value;
      i := i + 1;
    }
    assert ps[..i] == ps;
    r := Some(current);
  }

  /** `add_node`. */
  method AddNode(c: Collected, node: Node, blob: seq<bv8>,
                 computeNormals: (seq<Vec3>, seq<nat>) -> seq<Vec3>)
    returns (r: Option<Collected>)
    ensures r == NodeStep(c, node, blob, computeNormals)
  {
    if node.mesh.None? || node.mesh.value.name.None? {
      return Some(c);
    }
    var name := node.mesh.value.name.value;
    var split := SplitOnce(name, '.');
    if split.Some? {
      return Some(c.(instances := Push(c.instances, split.value.0, node.instance)));
    }
    r := AddPrimitives(c, name, node.mesh.value.primitives, blob, computeNormals);
  }

  /** The `for node in gltf.nodes()` loop. */
  method CollectNodes(nodes: seq<Node>, blob: seq<bv8>, computeNormals: (seq<Vec3>, seq<nat>) -> seq<Vec3>)
    returns (r: Option<Collected>)
    ensures r == FoldNodes(EmptyCollected(), nodes, blob, computeNormals)
    ensures r.Some? ==> Wellformed(r.value)
  {
    var current := EmptyCollected();
    var i := 0;
    while i < |nodes|
      invariant i <= |nodes|
      invariant FoldNodes(EmptyCollected(), nodes[..i], blob, computeNormals) == Some(current)
    {
      assert nodes[..i + 1][..i] == nodes[..i];
      var next := AddNode(current, nodes[i], blob, computeNormals);
      if next.None? {
        FoldNodesStaysPanicked(EmptyCollected(), nodes, i + 1, blob, computeNormals);
        return None;
      }
      current := next.value;
      i := i + 1;
    }
    assert nodes[..i] == nodes;
    r := Some(current);
  }

  /** `Scene::add_gltf`'s collection: a file without a binary blob collects nothing. */
  method CollectForScene(nodes: seq<Node>, blob: Option<seq<bv8>>, computeNormals: (seq<Vec3>, seq<nat>) -> seq<Vec3>)
    returns (r: Option<Collected>)
    ensures blob.None? ==> r == Some(EmptyCollected())
    ensures blob.Some? ==> r == FoldNodes(EmptyCollected(), nodes, blob.value, computeNormals)
    ensures r.Some? ==> Wellformed(r.value)
  {
    if blob.None? {
      return Some(EmptyCollected());
    }
    r := CollectNodes(nodes, blob.value, computeNormals);
  }

  /** `Game::add_gltf`'s collection: a file without a binary blob panics (`unwrap`). */
  method CollectForGame(nodes: seq<Node>, blob: Option<seq<bv8>>, computeNormals: (seq<Vec3>, seq<nat>) -> seq<Vec3>)
    returns (r: Option<Collected>)
    ensures blob.None? ==> r.None?
    ensures blob.Some? ==> r == FoldNodes(EmptyCollected(), nodes, blob.value, computeNormals)
    ensures r.Some? ==> Wellformed(r.value)
  {
    if blob.None? {
      return None;
    }
    r := CollectNodes(nodes, blob.value, computeNormals);
  }

  // ---------------------------------------------------------------------
  // Upload with the identity-instance default (`Game::add_gltf`)
  // ---------------------------------------------------------------------

  /** The instance list a mesh is uploaded with: its own, or one identity instance when it has none. */
  function OrIdentity(list: seq<InstanceRaw>): (r: seq<InstanceRaw>)
    ensures r != []
    ensures list != [] ==> r == list
  {
    if list == [] then [IdentityInstance()] else list
  }

  datatype ColorUpload = ColorUpload(name: string, mesh: ColoredMesh, instances: seq<InstanceRaw>)
  datatype TextureUpload = TextureUpload(name: string, mesh: TexturedMesh, instances: seq<InstanceRaw>)

  /** `order` lists each of `keys` exactly once: a `HashMap`'s iteration order. */
  ghost predicate Enumerates(order: seq<string>, keys: set<string>)
  {
    Lists(order, keys) && forall n :: n in keys ==> n in order
  }

  /** `order` lists distinct members of `keys`. */
  ghost predicate Lists(order: seq<string>, keys: set<string>)
  {
    (forall k :: 0 <= k < |order| ==> order[k] in keys) && Distinct(order)
  }

  lemma EnumeratesMembers(order: seq<string>, keys: set<string>)
    requires Enumerates(order, keys)
    ensures forall n :: n in order <==> n in keys
  {
    forall n | n in order
      ensures n in keys
    {
      var k :| 0 <= k < |order| && order[k] == n;
    }
  }

  predicate Distinct(order: seq<string>)
  {
    forall j, k :: 0 <= j < k < |order| ==> order[j] != order[k]
  }

  /** The upload a coloured mesh gets: its grouped instances, or one identity instance. */
  function ColorUploadFor(c: Collected, name: string): ColorUpload
    requires name in c.colored
  {
    ColorUpload(name, c.colored[name], OrIdentity(Lookup(c.instances, name)))
  }

  /**
   * The upload a textured mesh gets: its grouped instances, or one identity
   * instance; a coloured mesh of the same name has already taken them.
   */
  function TextureUploadFor(c: Collected, name: string): TextureUpload
    requires name in c.textured
  {
    TextureUpload(name, c.textured[name], OrIdentity(if name in c.colored then [] else Lookup(c.instances, name)))
  }

  /**
   * `instances.remove(&name).unwrap_or_default()` for the next name of
   * `order`, on a map that has lost exactly the names before it.
   */
  method TakeInstances(left: map<string, seq<InstanceRaw>>, ghost all: map<string, seq<InstanceRaw>>,
                       order: seq<string>, i: nat)
    returns (list: seq<InstanceRaw>, left': map<string, seq<InstanceRaw>>)
    requires i < |order| && Distinct(order)
    requires forall n :: Lookup(left, n) == if n in order[..i] then [] else Lookup(all, n)
    ensures list == Lookup(all, order[i])
    ensures forall n :: Lookup(left', n) == if n in order[..i + 1] then [] else Lookup(all, n)
  {
    assert order[..i + 1] == order[..i] + [order[i]];
    list := Lookup(left, order[i]);
    left' := left - {order[i]};
  }

  /**
   * The colour upload loop of `Game::add_gltf`: each coloured mesh, in the
   * map's iteration order, takes its instance list out of the instance map
   * (`remove`) and is uploaded with it, or with one identity instance when
   * it has none. Afterwards the instance map has lost exactly the coloured
   * names.
   */
  method UploadColored(c: Collected, colorOrder: seq<string>)
    returns (colors: seq<ColorUpload>, instances: map<string, seq<InstanceRaw>>)
    requires Lists(colorOrder, c.colored.Keys)
    ensures |colors| == |colorOrder|
    ensures forall k :: 0 <= k < |colors| ==>
              colors[k] == ColorUploadFor(c, colorOrder[k])
    ensures forall n :: Lookup(instances, n) == if n in colorOrder then [] else Lookup(c.instances, n)
  {
    instances := c.instances;
    colors := [];
    var i := 0;
    while i < |colorOrder|
      invariant i <= |colorOrder| && |colors| == i
      invariant forall n :: Lookup(instances, n) == if n in colorOrder[..i] then [] else Lookup(c.instances, n)
      invariant forall k :: 0 <= k < i ==>
                  colors[k] == ColorUploadFor(c, colorOrder[k])
    {
      var name := colorOrder[i];
      var list;
      list, instances := TakeInstances(instances, c.instances, colorOrder, i);
      colors := colors + [ColorUpload(name, c.colored[name], OrIdentity(list))];
      i := i + 1;
    }
    assert colorOrder[..i] == colorOrder;
  }

  /**
   * The texture upload loop of `Game::add_gltf`, run on the instance map
   * the colour loop left: each textured mesh takes its list out (`remove`)
   * and is uploaded with it or with one identity instance, so a name that
   * also had a coloured mesh gets only the identity instance. A texture
   * whose image does not decode panics (`unwrap`).
   */
  method UploadTextured(c: Collected, instances: map<string, seq<InstanceRaw>>, textureOrder: seq<string>,
                        decodes: seq<bv8> -> bool)
    returns (textures: seq<TextureUpload>, panicked: bool)
    requires Lists(textureOrder, c.textured.Keys)
    requires forall n :: Lookup(instances, n) == if n in c.colored then [] else Lookup(c.instances, n)
    ensures panicked <==> exists k :: 0 <= k < |textureOrder| && !decodes(c.textured[textureOrder[k]].image)
    ensures !panicked ==> |textures| == |textureOrder|
    ensures !panicked ==> forall k :: 0 <= k < |textures| ==>
              textures[k] == TextureUploadFor(c, textureOrder[k])
  {
    var left := instances;
    textures := [];
    var j := 0;
    while j < |textureOrder|
      invariant j <= |textureOrder| && |textures| == j
      invariant forall n :: Lookup(left, n) == if n in textureOrder[..j] then [] else Lookup(instances, n)
      invariant forall k :: 0 <= k < j ==>
                  decodes(c.textured[textureOrder[k]].image) && textures[k] == TextureUploadFor(c, textureOrder[k])
    {
      var name := textureOrder[j];
      var list;
      list, left := TakeInstances(left, instances, textureOrder, j);
      if !decodes(c.textured[name].image) {
        return textures, true;
      }
      textures := textures + [TextureUpload(name, c.textured[name], OrIdentity(list))];
      j := j + 1;
    }
    panicked := false;
  }

  /**
   * The two upload loops of `Game::add_gltf`: every coloured mesh, then
   * every textured mesh, is uploaded with its grouped instances or with one
   * identity instance; instances are taken out of the map as they are
   * used, so a textured mesh whose name also has a coloured mesh gets only
   * the identity instance.
   */
  method UploadMeshes(c: Collected, colorOrder: seq<string>, textureOrder: seq<string>, decodes: seq<bv8> -> bool)
    returns (colors: seq<ColorUpload>, textures: seq<TextureUpload>, panicked: bool)
    requires Enumerates(colorOrder, c.colored.Keys) && Enumerates(textureOrder, c.textured.Keys)
    ensures |colors| == |colorOrder|
    ensures forall k :: 0 <= k < |colors| ==>
              colors[k] == ColorUploadFor(c, colorOrder[k])
    ensures panicked <==> exists k :: 0 <= k < |textureOrder| && !decodes(c.textured[textureOrder[k]].image)
    ensures !panicked ==> |textures| == |textureOrder|
    ensures !panicked ==> forall k :: 0 <= k < |textures| ==>
              textures[k] == TextureUploadFor(c, textureOrder[k])
  {
    var instances;
    colors, instances := UploadColored(c, colorOrder);
    EnumeratesMembers(colorOrder, c.colored.Keys);
    textures, panicked := UploadTextured(c, instances, textureOrder, decodes);
  }
}
