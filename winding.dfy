/**
 * The collision-triangle handling of the static collider loop in
 * `src/scene.rs`: the in-place winding flip applied to the index list of a
 * mirrored instance (`chunks_exact_mut(3)` + `swap(1, 2)`), and the grouping
 * of indices into triangles (`chunks_exact(3)`, which drops an incomplete
 * trailing chunk).
 */
module Winding {

  datatype Triangle = Triangle(a: nat, b: nat, c: nat)

  /** Every complete triple of `s` with its last two indices swapped; a trailing partial chunk untouched. */
  function Flipped(s: seq<nat>): (r: seq<nat>)
    ensures |r| == |s|
  {
    if |s| < 3 then s else [s[0], s[2], s[1]] + Flipped(s[3..])
  }

  /** `chunks_exact(3)` read as triangles. */
  function Triangles(s: seq<nat>): (r: seq<Triangle>)
    ensures |r| == |s| / 3
  {
    if |s| < 3 then [] else [Triangle(s[0], s[1], s[2])] + Triangles(s[3..])
  }

  /**
   * The flip keeps the triangle count and, triangle by triangle, keeps the
   * first corner and exchanges the other two.
   */
  lemma {:induction false} FlippedTriangles(s: seq<nat>)
    ensures |Triangles(Flipped(s))| == |Triangles(s)|
    ensures forall t :: 0 <= t < |Triangles(s)| ==>
              Triangles(Flipped(s))[t] ==
              Triangle(Triangles(s)[t].a, Triangles(s)[t].c, Triangles(s)[t].b)
  {
    if |s| >= 3 {
      FlippedTriangles(s[3..]);
      assert Flipped(s)[3..] == Flipped(s[3..]);
    }
  }

  /** Flipping twice restores the original index list. */
  lemma {:induction false} FlippedInvolution(s: seq<nat>)
    ensures Flipped(Flipped(s)) == s
  {
    if |s| >= 3 {
      FlippedInvolution(s[3..]);
      assert Flipped(s)[3..] == Flipped(s[3..]);
      assert s == s[..3] + s[3..];
    }
  }

  /** The flip of a list splits at any multiple of three. */
  lemma {:induction false} FlippedSplit(s: seq<nat>, i: nat)
    requires i <= |s| && i % 3 == 0
    ensures Flipped(s) == Flipped(s[..i]) + Flipped(s[i..])
  {
    if i > 0 {
      assert s[..i][3..] == s[3..][..i - 3];
      assert s[3..][i - 3..] == s[i..];
      FlippedSplit(s[3..], i - 3);
    }
  }

  /** Inside a complete chunk starting at a multiple of three, the flip swaps its last two corners. */
  lemma FlippedChunk(s: seq<nat>, i: nat)
    requires i % 3 == 0 && i + 3 <= |s|
    ensures Flipped(s)[i] == s[i] && Flipped(s)[i + 1] == s[i + 2] && Flipped(s)[i + 2] == s[i + 1]
  {
    FlippedSplit(s, i);
    assert s[i..][3..] == s[i + 3..];
  }

  /** Past the last complete chunk, the flip changes nothing. */
  lemma FlippedTail(s: seq<nat>, i: nat)
    requires i % 3 == 0 && i <= |s| < i + 3
    ensures forall k :: i <= k < |s| ==> Flipped(s)[k] == s[k]
  {
    FlippedSplit(s, i);
  }

  /**
   * The loop over `final_indices.chunks_exact_mut(3)` swapping positions 1
   * and 2 of every chunk, done in place.
   */
  method FlipWindingInPlace(a: array<nat>)
    modifies a
    ensures a[..] == Flipped(old(a[..]))
  {
    ghost var s := a[..];
    var i := 0;
    while i + 3 <= a.Length
      invariant i <= a.Length && i % 3 == 0
      invariant forall k :: 0 <= k < i ==> a[k] == Flipped(s)[k]
      invariant forall k :: i <= k < a.Length ==> a[k] == s[k]
    {
      FlippedChunk(s, i);
      a[i + 1], a[i + 2] := a[i + 2], a[i + 1];
      i := i + 3;
    }
    FlippedTail(s, i);
  }
}
