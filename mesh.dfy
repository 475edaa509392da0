/**
 * The per-mesh instance store of `src/renderer/mesh.rs`: a CPU mirror
 * (`instances`) of the live prefix of a GPU instance buffer that has room for
 * `capacity` records. The GPU buffer is an array of `capacity` records and a
 * `queue.write_buffer` lands immediately.
 *
 * Slot invariant (`Valid`): `|instances| <= capacity` and the first
 * `|instances|` records of the buffer are exactly `instances`.
 */
module InstanceStore {
  import opened Common

  // ---------------------------------------------------------------------
  // Sequence operations the store performs on its mirror
  // ---------------------------------------------------------------------

  /** `Vec::swap_remove`-style removal: the last element takes slot `i`. */
  function SwapRemove<T>(s: seq<T>, i: nat): (r: seq<T>)
    requires i < |s|
    ensures |r| == |s| - 1
    ensures forall j :: 0 <= j < |r| && j != i ==> r[j] == s[j]
    ensures i < |r| ==> r[i] == s[|s| - 1]
  {
    if i == |s| - 1 then s[..|s| - 1] else s[i := s[|s| - 1]][..|s| - 1]
  }

  /** Swap-removal drops exactly the element at `i` and keeps every other one. */
  lemma SwapRemoveMultiset<T>(s: seq<T>, i: nat)
    requires i < |s|
    ensures multiset(SwapRemove(s, i)) == multiset(s) - multiset{s[i]}
  {
    var n := |s| - 1;
    if i == n {
      assert s == s[..n] + [s[n]];
    } else {
      OverwriteDropLastMultiset(s, i);
    }
  }

  /** Overwriting slot `i` with the last element and dropping the last slot loses only `s[i]`. */
  lemma OverwriteDropLastMultiset<T>(s: seq<T>, i: nat)
    requires i < |s| - 1
    ensures multiset(s[i := s[|s| - 1]][..|s| - 1]) == multiset(s) - multiset{s[i]}
  {
    var n, t := |s| - 1, s[i := s[|s| - 1]];
    calc {
      multiset(t[..n]);
    == { assert t == t[..n] + [s[n]]; }
      multiset(t) - multiset{s[n]};
    ==
      multiset(s) - multiset{s[i]} + multiset{s[n]} - multiset{s[n]};
    ==
      multiset(s) - multiset{s[i]};
    }
  }

  /** Positions `p < n` that do not occur in `indices`, ascending. */
  function KeptPositions(n: nat, indices: seq<nat>): (r: seq<nat>)
    ensures |r| <= n
    ensures forall k :: 0 <= k < |r| ==> r[k] < n
  {
    if n == 0 then [] else KeptPositions(n - 1, indices) + (if n - 1 in indices then [] else [n - 1])
  }

  /**
   * The mirror after `remove_instances_batch`: the elements of `s` whose
   * position is not listed in `indices`, in their original order.
   */
  function Unlisted<T>(s: seq<T>, indices: seq<nat>): (r: seq<T>)
    ensures |r| <= |s|
  {
    if s == [] then []
    else Unlisted(s[..|s| - 1], indices) + (if |s| - 1 in indices then [] else [s[|s| - 1]])
  }

  /** A position is kept exactly when it is in range and not listed; kept positions ascend. */
  lemma {:induction false} KeptPositionsExact(n: nat, indices: seq<nat>)
    ensures forall p: nat :: p in KeptPositions(n, indices) <==> p < n && p !in indices
    ensures forall a, b :: 0 <= a < b < |KeptPositions(n, indices)| ==>
              KeptPositions(n, indices)[a] < KeptPositions(n, indices)[b]
  {
    if n > 0 {
      KeptPositionsExact(n - 1, indices);
      var tail := if n - 1 in indices then [] else [n - 1];
      assert KeptPositions(n, indices) == KeptPositions(n - 1, indices) + tail;
      forall p: nat ensures p in KeptPositions(n, indices) <==> p < n && p !in indices {
        assert p in KeptPositions(n, indices) <==> p in KeptPositions(n - 1, indices) || p in tail;
      }
    }
  }

  /** The batch-removed mirror is `s` read at the kept positions. */
  lemma {:induction false} UnlistedAtKept<T>(s: seq<T>, indices: seq<nat>)
    ensures |Unlisted(s, indices)| == |KeptPositions(|s|, indices)|
    ensures forall k :: 0 <= k < |Unlisted(s, indices)| ==>
              Unlisted(s, indices)[k] == s[KeptPositions(|s|, indices)[k]]
  {
    if s != [] {
      var n := |s| - 1;
      UnlistedAtKept(s[..n], indices);
    }
  }

  /**
   * Duplicate and out-of-range indices have no extra effect: two index lists
   * that agree on which positions of `s` they name remove the same elements.
   */
  lemma {:induction false} UnlistedOnlyNamesMatter<T>(s: seq<T>, indices: seq<nat>, other: seq<nat>)
    requires forall p :: 0 <= p < |s| ==> (p in indices <==> p in other)
    ensures Unlisted(s, indices) == Unlisted(s, other)
  {
    if s != [] {
      UnlistedOnlyNamesMatter(s[..|s| - 1], indices, other);
    }
  }

  // ---------------------------------------------------------------------
  // The mesh
  // ---------------------------------------------------------------------

  class Mesh {
    /** `index_count`: the number of `u16` indices of the mesh. */
    const indexCount: nat
    /** `instances`: the CPU mirror of the live instances. */
    var instances: seq<InstanceRaw>
    /** `instance_capacity`: how many records `buffer` has room for. */
    var capacity: nat
    /** `instance_buffer`: the GPU buffer, one element per record. */
    var buffer: array<InstanceRaw>

    /** The slot invariant. */
    ghost predicate Valid()
      reads this, buffer
    {
      buffer.Length == capacity &&
      |instances| <= capacity &&
      buffer[..|instances|] == instances
    }

    /** The mesh built by `add_mesh`: buffer sized to the initial instances, filled with them. */
    constructor (indexCount: nat, initial: seq<InstanceRaw>)
      ensures Valid() && fresh(buffer)
      ensures this.indexCount == indexCount && instances == initial && capacity == |initial|
    {
      this.indexCount := indexCount;
      instances := initial;
      capacity := |initial|;
      buffer := new InstanceRaw[|initial|](i requires 0 <= i < |initial| => initial[i]);
    }

    /** `queue.write_buffer` at record offset `offset`: only the written records change. */
    method WriteBuffer(offset: nat, data: seq<InstanceRaw>)
      requires offset + |data| <= buffer.Length
      modifies buffer
      ensures forall j :: 0 <= j < buffer.Length ==>
                buffer[j] == if offset <= j < offset + |data| then data[j - offset] else old(buffer[j])
    {
      forall j | 0 <= j < |data| {
        buffer[offset + j] := data[j];
      }
    }

    /**
     * `resize_instance_buffer`: a fresh buffer of `newCapacity` records into
     * which the live prefix of the old buffer is copied.
     */
    method ResizeInstanceBuffer(newCapacity: nat)
      requires Valid()
      requires |instances| <= newCapacity
      modifies this
      ensures Valid() && fresh(buffer)
      ensures instances == old(instances) && capacity == newCapacity
      ensures buffer[..|instances|] == old(buffer[..|instances|])
    {
      var newBuffer := new InstanceRaw[newCapacity];
      if |instances| > 0 {
        forall j | 0 <= j < |instances| {
          newBuffer[j] := buffer[j];
        }
      }
      assert newBuffer[..|instances|] == buffer[..|instances|];
      buffer := newBuffer;
      capacity := newCapacity;
    }

    /**
     * `add_instance`: grow to `max(2 * capacity, 1)` when full, then append
     * the record and write it to slot `|instances| - 1`.
     */
    method AddInstance(instance: InstanceRaw)
      requires Valid()
      modifies this, buffer
      ensures Valid() && (buffer == old(buffer) || fresh(buffer))
      ensures instances == old(instances) + [instance]
      ensures old(|instances|) >= old(capacity) ==>
                capacity == (if 2 * old(capacity) > 1 then 2 * old(capacity) else 1)
      ensures old(|instances|) < old(capacity) ==> capacity == old(capacity) && buffer == old(buffer)
      ensures buffer[|instances| - 1] == instance
    {
      if |instances| >= capacity {
        var newCapacity := if capacity * 2 > 1 then capacity * 2 else 1;
        ResizeInstanceBuffer(newCapacity);
      }
      instances := instances + [instance];
      WriteBuffer(|instances| - 1, [instance]);
      assert buffer[..|instances|] == instances;
    }

    /**
     * `remove_instance`: panics unless `index < |instances|`; the last slot is
     * popped, any other slot receives the last record in mirror and buffer.
     */
    method RemoveInstance(index: nat)
      requires Valid()
      requires index < |instances|
      modifies this, buffer
      ensures Valid() && buffer == old(buffer) && capacity == old(capacity)
      ensures instances == SwapRemove(old(instances), index)
      ensures forall j :: 0 <= j < buffer.Length && j != index ==> buffer[j] == old(buffer[j])
      ensures index == old(|instances|) - 1 ==> buffer[..] == old(buffer[..])
    {
      var lastIndex := |instances| - 1;
      if index == lastIndex {
        instances := instances[..lastIndex];
        return;
      }
      var lastInstance := instances[lastIndex];
      instances := instances[index := lastInstance];
      instances := instances[..lastIndex];
      WriteBuffer(index, [lastInstance]);
      assert buffer[..|instances|] == instances;
    }

    /**
     * `remove_instances_batch`: keep the records whose position is not listed,
     * rewrite the live prefix when anything is left, capacity unchanged.
     */
    method RemoveInstancesBatch(indices: seq<nat>)
      requires Valid()
      modifies this, buffer
      ensures Valid() && buffer == old(buffer) && capacity == old(capacity)
      ensures instances == Unlisted(old(instances), indices)
    {
      var kept: seq<InstanceRaw> := [];
      var i := 0;
      while i < |instances|
        invariant 0 <= i <= |instances|
        invariant kept == Unlisted(instances[..i], indices)
      {
        assert instances[..i + 1][..i] == instances[..i];
        if i !in indices {
          kept := kept + [instances[i]];
        }
        i := i + 1;
      }
      assert instances[..i] == instances;
      if |kept| > 0 {
        WriteBuffer(0, kept);
      }
      instances := kept;
      assert buffer[..|instances|] == instances;
    }

    /** `update_instance`: overwrite slot `index` when it is live, otherwise change nothing. */
    method UpdateInstance(index: nat, instance: InstanceRaw)
      requires Valid()
      modifies this, buffer
      ensures Valid() && buffer == old(buffer) && capacity == old(capacity)
      ensures instances == if index < old(|instances|) then old(instances)[index := instance] else old(instances)
      ensures index >= old(|instances|) ==> buffer[..] == old(buffer[..])
    {
      if index < |instances| {
        instances := instances[index := instance];
        WriteBuffer(index, [instance]);
        assert buffer[..|instances|] == instances;
      }
    }

    /**
     * `update_all_instances`: grow to exactly `|newInstances|` when that
     * exceeds the capacity (never shrink), write them, replace the mirror.
     */
    method UpdateAllInstances(newInstances: seq<InstanceRaw>)
      requires Valid()
      modifies this, buffer
      ensures Valid() && (buffer == old(buffer) || fresh(buffer))
      ensures instances == newInstances
      ensures capacity == if |newInstances| > old(capacity) then |newInstances| else old(capacity)
    {
      if |newInstances| > capacity {
        ResizeInstanceBuffer(|newInstances|);
      }
      if |newInstances| > 0 {
        WriteBuffer(0, newInstances);
      }
      instances := newInstances;
      assert buffer[..|instances|] == instances;
    }
  }
}
