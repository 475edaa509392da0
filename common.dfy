/**
 * Types shared by every part of the model: the per-instance GPU record, the
 * integer widths the source packs identifiers into, and an Option type.
 */
module Common {

  /** 2^64: one past the largest `u64` (mesh keys) and `usize` (slot indices). */
  const U64: nat := 0x1_0000_0000_0000_0000

  /** A mesh key: the `u64` a mesh name hashes to. */
  type MeshKey = k: nat | k < U64

  datatype Option<T> = None | Some(value: T)

  /**
   * `InstanceRaw`: a 4x4 model matrix (16 floats, column-major, so entries
   * 12..14 are the translation column) followed by a 3x3 normal matrix
   * (9 floats). Floats are modelled as reals; nothing in the model computes
   * with them.
   */
  datatype InstanceRaw = InstanceRaw(model: seq<real>, normal: seq<real>)

  /**
   * `Mat4::IDENTITY` / `Mat3::IDENTITY` in column-major order: entry `i`
   * of an n x n matrix is row `i % n` of column `i / n`, and it is one
   * exactly on the diagonal.
   */
  function IdentityInstance(): (r: InstanceRaw)
    ensures |r.model| == 16 && |r.normal| == 9
    ensures forall i :: 0 <= i < 16 ==> r.model[i] == if i / 4 == i % 4 then 1.0 else 0.0
    ensures forall i :: 0 <= i < 9 ==> r.normal[i] == if i / 3 == i % 3 then 1.0 else 0.0
  {
    InstanceRaw(seq(16, i => if i % 5 == 0 then 1.0 else 0.0),
                seq(9, i => if i % 4 == 0 then 1.0 else 0.0))
  }

  /** `InstanceRaw { model: Default::default(), normal: Default::default() }`: all zeros. */
  function ZeroInstance(): InstanceRaw
  {
    InstanceRaw(seq(16, _ => 0.0), seq(9, _ => 0.0))
  }
}
