/**
 * The GPU vertex-buffer layouts of `TexturedVertex::desc`
 * (src/renderer/pipeline/texture.rs), `ColoredVertex::desc`
 * (src/renderer/pipeline/color.rs) and `InstanceRaw::desc`
 * (src/renderer/pipeline/mod.rs). Each struct is `#[repr(C)]` and made only
 * of `f32` arrays, so its size is the sum of its fields' sizes; each layout
 * is written out by hand in the source, and the model shows it equals the
 * layout derived from the struct's fields: attributes packed back to back
 * from offset 0, shader locations consecutive, the last attribute ending at
 * the stride.
 */
module Layout {

  /** `size_of::<f32>()`. */
  const F32Size: nat := 4

  datatype VertexFormat = Float32x2 | Float32x3 | Float32x4

  function Components(f: VertexFormat): nat
  {
    match f
    case Float32x2 => 2
    case Float32x3 => 3
    case Float32x4 => 4
  }

  /** The bytes one attribute of format `f` occupies. */
  function FormatSize(f: VertexFormat): nat
  {
    F32Size * Components(f)
  }

  datatype StepMode = PerVertex | PerInstance

  datatype VertexAttribute = VertexAttribute(offset: nat, shaderLocation: nat, format: VertexFormat)

  datatype VertexBufferLayout = VertexBufferLayout(arrayStride: nat, stepMode: StepMode, attributes: seq<VertexAttribute>)

  /** `size_of` a `#[repr(C)]` struct whose fields are `f32` arrays of these formats' widths (no padding). */
  function StructSize(fields: seq<VertexFormat>): nat
  {
    if fields == [] then 0 else StructSize(fields[..|fields| - 1]) + FormatSize(fields[|fields| - 1])
  }

  /**
   * The attributes a struct's fields give, numbered from `location`: field
   * `k` sits at the size of the fields before it.
   */
  function FieldAttributes(fields: seq<VertexFormat>, location: nat): (r: seq<VertexAttribute>)
    ensures |r| == |fields|
    ensures forall k :: 0 <= k < |r| ==>
              r[k] == VertexAttribute(StructSize(fields[..k]), location + k, fields[k])
  {
    if fields == [] then []
    else
      var init := fields[..|fields| - 1];
      var r := FieldAttributes(init, location) +
               [VertexAttribute(StructSize(init), location + |init|, fields[|fields| - 1])];
      assert forall k :: 0 <= k < |init| ==> fields[..k] == init[..k];
      r
  }

  /**
   * Attributes are chained when the first is at offset 0, each further one
   * starts where the previous one ends, and the shader locations count up
   * from `location`.
   */
  ghost predicate Chained(a: seq<VertexAttribute>, location: nat)
  {
    && (|a| > 0 ==> a[0].offset == 0)
    && (forall k :: 0 < k < |a| ==> a[k].offset == a[k - 1].offset + FormatSize(a[k - 1].format))
    && (forall k :: 0 <= k < |a| ==> a[k].shaderLocation == location + k)
  }

  /** A layout is packed when its attributes are chained and the last one ends at the stride. */
  ghost predicate Packed(l: VertexBufferLayout, location: nat)
  {
    var a := l.attributes;
    |a| > 0 && Chained(a, location) && a[|a| - 1].offset + FormatSize(a[|a| - 1].format) == l.arrayStride
  }

  lemma StructSizeStep(fields: seq<VertexFormat>, k: nat)
    requires 0 < k <= |fields|
    ensures StructSize(fields[..k]) == StructSize(fields[..k - 1]) + FormatSize(fields[k - 1])
  {
    assert fields[..k][..k - 1] == fields[..k - 1];
  }

  /** Every layout derived from a non-empty struct is packed. */
  lemma DerivedLayoutPacked(fields: seq<VertexFormat>, mode: StepMode, location: nat)
    requires fields != []
    ensures Packed(VertexBufferLayout(StructSize(fields), mode, FieldAttributes(fields, location)), location)
  {
    var a := FieldAttributes(fields, location);
    forall k | 0 < k < |a|
      ensures a[k].offset == a[k - 1].offset + FormatSize(a[k - 1].format)
    {
      StructSizeStep(fields, k);
    }
    StructSizeStep(fields, |fields|);
    assert fields[..|fields|] == fields;
  }

  lemma {:induction false} ChainedOffset(a: seq<VertexAttribute>, fields: seq<VertexFormat>, location: nat, k: nat)
    requires |a| == |fields| && Chained(a, location) && k < |a|
    requires forall j :: 0 <= j < |a| ==> a[j].format == fields[j]
    ensures a[k].offset == StructSize(fields[..k])
  {
    if k > 0 {
      ChainedOffset(a, fields, location, k - 1);
      assert fields[..k][..k - 1] == fields[..k - 1];
    }
  }

  /** The converse: chained attributes with the fields' formats are exactly the derived ones. */
  lemma ChainedIsDerived(a: seq<VertexAttribute>, fields: seq<VertexFormat>, location: nat)
    requires |a| == |fields| && Chained(a, location)
    requires forall j :: 0 <= j < |a| ==> a[j].format == fields[j]
    ensures a == FieldAttributes(fields, location)
  {
    var d := FieldAttributes(fields, location);
    forall k | 0 <= k < |a|
      ensures a[k] == d[k]
    {
      ChainedOffset(a, fields, location, k);
    }
  }

  /** `TexturedVertex`: position `[f32; 3]`, tex_coords `[f32; 2]`, normal `[f32; 3]`. */
  const TexturedVertexFields: seq<VertexFormat> := [Float32x3, Float32x2, Float32x3]

  /** `ColoredVertex`: position, color and normal, each `[f32; 3]`. */
  const ColoredVertexFields: seq<VertexFormat> := [Float32x3, Float32x3, Float32x3]

  /** `InstanceRaw`: four model columns `[f32; 4]`, then three normal columns `[f32; 3]`. */
  const InstanceRawFields: seq<VertexFormat> :=
    [Float32x4, Float32x4, Float32x4, Float32x4, Float32x3, Float32x3, Float32x3]

  /** `TexturedVertex::desc`: per-vertex, locations 0-2, packed, stride 32 bytes. */
  function TexturedVertexDesc(): (l: VertexBufferLayout)
    ensures l == VertexBufferLayout(StructSize(TexturedVertexFields), PerVertex, FieldAttributes(TexturedVertexFields, 0))
    ensures Packed(l, 0) && l.arrayStride == F32Size * (3 + 2 + 3)
  {
    var attributes := [VertexAttribute(0, 0, Float32x3),
                      VertexAttribute(F32Size * 3, 1, Float32x2),
                      VertexAttribute(F32Size * 5, 2, Float32x3)];
    ChainedIsDerived(attributes, TexturedVertexFields, 0);
    DerivedLayoutPacked(TexturedVertexFields, PerVertex, 0);
    VertexBufferLayout(StructSize(TexturedVertexFields), PerVertex, attributes)
  }

  /** `ColoredVertex::desc`: per-vertex, locations 0-2, packed, stride 36 bytes. */
  function ColoredVertexDesc(): (l: VertexBufferLayout)
    ensures l == VertexBufferLayout(StructSize(ColoredVertexFields), PerVertex, FieldAttributes(ColoredVertexFields, 0))
    ensures Packed(l, 0) && l.arrayStride == F32Size * (3 + 3 + 3)
  {
    var attributes := [VertexAttribute(0, 0, Float32x3),
                      VertexAttribute(F32Size * 3, 1, Float32x3),
                      VertexAttribute(F32Size * 6, 2, Float32x3)];
    ChainedIsDerived(attributes, ColoredVertexFields, 0);
    DerivedLayoutPacked(ColoredVertexFields, PerVertex, 0);
    VertexBufferLayout(StructSize(ColoredVertexFields), PerVertex, attributes)
  }

  lemma InstanceAttributesChained(a: seq<VertexAttribute>)
    requires a == [VertexAttribute(0, 5, Float32x4), VertexAttribute(16, 6, Float32x4),
                   VertexAttribute(32, 7, Float32x4), VertexAttribute(48, 8, Float32x4),
                   VertexAttribute(64, 9, Float32x3), VertexAttribute(76, 10, Float32x3),
                   VertexAttribute(88, 11, Float32x3)]
    ensures Chained(a, 5) && forall j :: 0 <= j < |a| ==> a[j].format == InstanceRawFields[j]
  {
    forall k | 0 < k < |a|
      ensures a[k].offset == a[k - 1].offset + FormatSize(a[k - 1].format)
    {
      if k <= 4 {
        assert a[k].offset == 16 * k && a[k - 1].format == Float32x4;
      } else {
        assert a[k].offset == 64 + 12 * (k - 4) && a[k - 1].format == Float32x3;
      }
    }
  }

  /**
   * `InstanceRaw::desc`: stepped per instance, locations 5-11, packed, the
   * model columns at 0, 16, 32, 48 and the normal columns at 64, 76, 88,
   * stride 100 bytes (16 + 9 floats).
   */
  function InstanceRawDesc(): (l: VertexBufferLayout)
    ensures l == VertexBufferLayout(StructSize(InstanceRawFields), PerInstance, FieldAttributes(InstanceRawFields, 5))
    ensures Packed(l, 5) && l.arrayStride == F32Size * (16 + 9)
  {
    var attributes := [VertexAttribute(0, 5, Float32x4),
                      VertexAttribute(F32Size * 4, 6, Float32x4),
                      VertexAttribute(F32Size * 8, 7, Float32x4),
                      VertexAttribute(F32Size * 12, 8, Float32x4),
                      VertexAttribute(F32Size * 16, 9, Float32x3),
                      VertexAttribute(F32Size * 19, 10, Float32x3),
                      VertexAttribute(F32Size * 22, 11, Float32x3)];
    InstanceAttributesChained(attributes);
    ChainedIsDerived(attributes, InstanceRawFields, 5);
    DerivedLayoutPacked(InstanceRawFields, PerInstance, 5);
    VertexBufferLayout(StructSize(InstanceRawFields), PerInstance, attributes)
  }
}
