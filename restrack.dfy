/**
 * The descriptor-slot shadow table of the D3D12 resource tracker: one
 * HeapInfo per descriptor heap the game creates, holding a ResourceInfo
 * record per descriptor slot, and the process-wide reverse index
 * `_trackedResources` from a resource to the slots that describe it.
 *
 * A slot reference `&info[index]` is modelled as SlotRef(heapId, index),
 * where heapId stands for the identity of the heap's `info` array. A
 * resource pointer is a nat with 0 for nullptr.
 */
module ResTrack {
  import opened Wrappers
  import opened Machine

  /** An `ID3D12Resource*`; 0 is nullptr. */
  type ResourcePtr = nat

  const NULL_RESOURCE: ResourcePtr := 0

  /** The fields of ResourceInfo that the shadow table reads or writes. */
  datatype ResourceInfo = ResourceInfo(buffer: ResourcePtr, width: nat, height: nat, format: nat, lastUsedFrame: nat)

  /** `&info[slot]` of the heap whose `info` array has identity heapId. */
  datatype SlotRef = SlotRef(heapId: nat, slot: nat)

  /** `_trackedResources`: resource -> list of slot references. */
  type TrackedResources = map<ResourcePtr, seq<SlotRef>>

  /**
   * `(handle - start) / increment` with SIZE_T operands: the subtraction
   * wraps modulo 2^64, so a handle below `start` maps to a huge index.
   */
  function SlotIndex(handle: u64, start: u64, increment: nat): (r: nat)
    requires increment > 0
    ensures start <= handle ==> r == (handle - start) / increment
    ensures handle < start ==> r == (U64 - (start - handle)) / increment
  {
    if start <= handle then
      Wrap64(handle - start) / increment
    else
      assert Wrap64(handle - start) == U64 - (start - handle) by {
        assert handle - start + U64 == U64 - (start - handle);
        assert 0 <= U64 - (start - handle) < U64;
      }
      Wrap64(handle - start) / increment
  }

  lemma {:induction false} WrapShift(s: u64, k: nat)
    ensures Wrap64(Wrap64(s + k) - s) == k % U64
  {
    var q := (s + k) / U64;
    assert Wrap64(s + k) == s + k - q * U64;
    var d := k - q * U64;
    assert Wrap64(s + k) - s == d;
    assert d % U64 == k % U64 by {
      assert k == d + q * U64;
    }
  }

  /**
   * The CPU and the GPU view of a heap address the same slot: the handle
   * `cpuStart + k` and the handle `gpuStart + k` (both as SIZE_T) give the
   * same index.
   */
  lemma CpuGpuSameSlot(cpuStart: u64, gpuStart: u64, increment: nat, k: nat)
    requires increment > 0
    ensures SlotIndex(Wrap64(cpuStart + k), cpuStart, increment)
         == SlotIndex(Wrap64(gpuStart + k), gpuStart, increment)
    ensures SlotIndex(Wrap64(cpuStart + k), cpuStart, increment) == (k % U64) / increment
  {
    WrapShift(cpuStart, k);
    WrapShift(gpuStart, k);
  }

  /** `vector.erase` of the first element equal to `x`, if any. */
  function RemoveFirst<T(==)>(s: seq<T>, x: T): seq<T>
  {
    if s == [] then []
    else if s[0] == x then s[1..]
    else [s[0]] + RemoveFirst(s[1..], x)
  }

  /** When the first `x` sits at `i`, RemoveFirst erases exactly position `i`. */
  lemma {:induction false} RemoveFirstAt<T>(s: seq<T>, x: T, i: nat)
    requires i < |s| && s[i] == x
    requires forall j :: 0 <= j < i ==> s[j] != x
    ensures RemoveFirst(s, x) == s[..i] + s[i + 1..]
  {
    if i > 0 {
      RemoveFirstAt(s[1..], x, i - 1);
      assert s[1..][..i - 1] == s[1..i];
      assert s[1..][i..] == s[i + 1..];
      assert [s[0]] + s[1..i] == s[..i];
    }
  }

  /** Without an `x` in the list, RemoveFirst changes nothing. */
  lemma {:induction false} RemoveFirstAbsent<T>(s: seq<T>, x: T)
    requires x !in s
    ensures RemoveFirst(s, x) == s
  {
    if s != [] {
      RemoveFirstAbsent(s[1..], x);
    }
  }

  /** RemoveFirst takes away one copy of `x` when there is one, and nothing else. */
  lemma {:induction false} RemoveFirstMultiset<T>(s: seq<T>, x: T)
    ensures x in s ==> multiset(RemoveFirst(s, x)) == multiset(s) - multiset{x}
    ensures x in s ==> |RemoveFirst(s, x)| == |s| - 1
    ensures x !in s ==> RemoveFirst(s, x) == s
  {
    if s == [] {
    } else if s[0] == x {
      assert s == [s[0]] + s[1..];
    } else {
      RemoveFirstMultiset(s[1..], x);
      assert s == [s[0]] + s[1..];
    }
  }

  /** Every element other than `x` survives RemoveFirst. */
  lemma {:induction false} RemoveFirstKeepsOthers<T>(s: seq<T>, x: T, y: T)
    requires y != x
    ensures y in RemoveFirst(s, x) <==> y in s
  {
    if s != [] && s[0] != x {
      RemoveFirstKeepsOthers(s[1..], x, y);
    }
  }

  /** Set: the reference is appended to the list of `buffer`, which is created if absent. */
  function Track(tracked: TrackedResources, buffer: ResourcePtr, r: SlotRef): (t: TrackedResources)
    ensures buffer in t && t[buffer] == (if buffer in tracked then tracked[buffer] else []) + [r]
    ensures forall b :: b != buffer ==> (b in t <==> b in tracked)
    ensures forall b :: b != buffer && b in tracked ==> t[b] == tracked[b]
  {
    if buffer in tracked then tracked[buffer := tracked[buffer] + [r]] else tracked[buffer := [r]]
  }

  /** Clear: the first reference to the slot is erased from the list of a non-null `buffer`. */
  function Untrack(tracked: TrackedResources, buffer: ResourcePtr, r: SlotRef): (t: TrackedResources)
    ensures t.Keys == tracked.Keys
    ensures forall b :: b in tracked && b != buffer ==> t[b] == tracked[b]
    ensures buffer == NULL_RESOURCE ==> t == tracked
  {
    if buffer != NULL_RESOURCE && buffer in tracked then tracked[buffer := RemoveFirst(tracked[buffer], r)] else tracked
  }

  /** The slot record a Clear leaves behind. */
  function Cleared(r: ResourceInfo): ResourceInfo
  {
    r.(buffer := NULL_RESOURCE, lastUsedFrame := 0)
  }

  /**
   * Every occupied slot of the heap is listed under the resource it holds,
   * which is what lets a resource release find the slots describing it.
   */
  ghost predicate Covered(slots: seq<ResourceInfo>, tracked: TrackedResources, heapId: nat)
  {
    forall i :: 0 <= i < |slots| && slots[i].buffer != NULL_RESOURCE ==>
      slots[i].buffer in tracked && SlotRef(heapId, i) in tracked[slots[i].buffer]
  }

  /** Set keeps every occupied slot listed. */
  lemma SetKeepsCovered(slots: seq<ResourceInfo>, tracked: TrackedResources, heapId: nat, k: nat, r: ResourceInfo)
    requires k < |slots| && Covered(slots, tracked, heapId)
    ensures Covered(slots[k := r], Track(tracked, r.buffer, SlotRef(heapId, k)), heapId)
  {
    var t := Track(tracked, r.buffer, SlotRef(heapId, k));
    forall i | 0 <= i < |slots| && slots[k := r][i].buffer != NULL_RESOURCE
      ensures slots[k := r][i].buffer in t && SlotRef(heapId, i) in t[slots[k := r][i].buffer]
    {
      if i != k && slots[i].buffer == r.buffer {
        assert SlotRef(heapId, i) in tracked[r.buffer];
      }
    }
  }

  /** Clear keeps every occupied slot listed: it only erases a reference to the slot it empties. */
  lemma ClearKeepsCovered(slots: seq<ResourceInfo>, tracked: TrackedResources, heapId: nat, k: nat)
    requires k < |slots| && Covered(slots, tracked, heapId)
    ensures Covered(slots[k := Cleared(slots[k])], Untrack(tracked, slots[k].buffer, SlotRef(heapId, k)), heapId)
  {
    var b := slots[k].buffer;
    var t := Untrack(tracked, b, SlotRef(heapId, k));
    var s' := slots[k := Cleared(slots[k])];
    forall i | 0 <= i < |s'| && s'[i].buffer != NULL_RESOURCE
      ensures s'[i].buffer in t && SlotRef(heapId, i) in t[s'[i].buffer]
    {
      assert i != k && s'[i] == slots[i];
      if slots[i].buffer == b {
        RemoveFirstKeepsOthers(tracked[b], SlotRef(heapId, k), SlotRef(heapId, i));
      }
    }
  }

  /**
   * The reverse index is not exact: after the slot is overwritten with a
   * second resource, the first resource's list still names the slot.
   */
  lemma StaleReferenceAfterOverwrite(slots: seq<ResourceInfo>, tracked: TrackedResources, heapId: nat, k: nat,
                                     a: ResourceInfo, b: ResourceInfo)
    requires k < |slots| && a.buffer != b.buffer
    ensures var t := Track(Track(tracked, a.buffer, SlotRef(heapId, k)), b.buffer, SlotRef(heapId, k));
            slots[k := a][k := b][k].buffer == b.buffer &&
            a.buffer in t && SlotRef(heapId, k) in t[a.buffer]
  {
    var t1 := Track(tracked, a.buffer, SlotRef(heapId, k));
    assert t1[a.buffer][|t1[a.buffer]| - 1] == SlotRef(heapId, k);
  }

  /** Setting the same slot twice lists it twice: Set does not de-duplicate. */
  lemma RepeatedSetDuplicates(tracked: TrackedResources, heapId: nat, k: nat, buffer: ResourcePtr)
    requires buffer !in tracked
    ensures Track(Track(tracked, buffer, SlotRef(heapId, k)), buffer, SlotRef(heapId, k))[buffer]
         == [SlotRef(heapId, k), SlotRef(heapId, k)]
  {
  }

  /** `_trackedResources`, the reverse index shared by every heap. */
  class ResourceIndex {
    var tracked: TrackedResources

    constructor ()
      ensures tracked == map[]
    {
      tracked := map[];
    }
  }

  /** The shadow of one descriptor heap. */
  class HeapInfo {
    const heapId: nat
    const heap: nat
    const cpuStart: u64
    const cpuEnd: u64
    const gpuStart: u64
    const gpuEnd: u64
    const numDescriptors: u32
    const increment: u32
    const heapType: u32
    const info: array<ResourceInfo>
    var lastOffset: u32
    const mutexIndex: u32

    predicate Valid()
    {
      info.Length == numDescriptors && increment > 0
    }

    /** Allocates one record per descriptor and empties every slot. */
    constructor (heapId: nat, heap: nat, cpuStart: u64, cpuEnd: u64, gpuStart: u64, gpuEnd: u64,
                 numResources: u32, increment: u32, heapType: u32, mutexIndex: u32)
      requires increment > 0
      ensures Valid() && fresh(info)
      ensures this.heapId == heapId && this.heap == heap
      ensures this.cpuStart == cpuStart && this.cpuEnd == cpuEnd
      ensures this.gpuStart == gpuStart && this.gpuEnd == gpuEnd
      ensures numDescriptors == numResources && this.increment == increment
      ensures this.heapType == heapType && this.mutexIndex == mutexIndex && lastOffset == 0
      ensures forall i :: 0 <= i < info.Length ==> info[i].buffer == NULL_RESOURCE
    {
      this.heapId := heapId;
      this.heap := heap;
      this.cpuStart := cpuStart;
      this.cpuEnd := cpuEnd;
      this.gpuStart := gpuStart;
      this.gpuEnd := gpuEnd;
      numDescriptors := numResources;
      this.increment := increment;
      this.heapType := heapType;
      this.mutexIndex := mutexIndex;
      lastOffset := 0;
      var a := new ResourceInfo[numResources];
      var i := 0;
      while i < numResources
        invariant 0 <= i <= numResources
        invariant forall j :: 0 <= j < i ==> a[j].buffer == NULL_RESOURCE
      {
        a[i] := a[i].(buffer := NULL_RESOURCE);
        i := i + 1;
      }
      info := a;
    }

    /** Get on an index: the slot when it is in range and occupied. */
    function GetAt(index: nat): (r: Option<nat>)
      requires Valid()
      reads info
      ensures r.Some? <==> index < numDescriptors && info[index].buffer != NULL_RESOURCE
      ensures r.Some? ==> r.value == index
    {
      if index >= numDescriptors then None
      else if info[index].buffer == NULL_RESOURCE then None
      else Some(index)
    }

    /** The slot a CPU handle names, if it is in range and occupied. */
    function GetByCpuHandle(cpuHandle: u64): (r: Option<nat>)
      requires Valid()
      reads info
      ensures r.Some? <==> SlotIndex(cpuHandle, cpuStart, increment) < numDescriptors
                           && info[SlotIndex(cpuHandle, cpuStart, increment)].buffer != NULL_RESOURCE
      ensures r.Some? ==> r.value == SlotIndex(cpuHandle, cpuStart, increment)
    {
      GetAt(SlotIndex(cpuHandle, cpuStart, increment))
    }

    /** The slot a GPU handle names, if it is in range and occupied. */
    function GetByGpuHandle(gpuHandle: u64): (r: Option<nat>)
      requires Valid()
      reads info
      ensures r.Some? <==> SlotIndex(gpuHandle, gpuStart, increment) < numDescriptors
                           && info[SlotIndex(gpuHandle, gpuStart, increment)].buffer != NULL_RESOURCE
      ensures r.Some? ==> r.value == SlotIndex(gpuHandle, gpuStart, increment)
    {
      GetAt(SlotIndex(gpuHandle, gpuStart, increment))
    }

    /** Set on an index: overwrite the slot and append it to the new resource's list. */
    method SetAt(index: nat, setInfo: ResourceInfo, resources: ResourceIndex)
      requires Valid()
      modifies info, resources
      ensures index >= numDescriptors ==> info[..] == old(info[..]) && resources.tracked == old(resources.tracked)
      ensures index < numDescriptors ==>
                info[..] == old(info[..])[index := setInfo] &&
                resources.tracked == Track(old(resources.tracked), setInfo.buffer, SlotRef(heapId, index))
    {
      if index >= numDescriptors {
        return;
      }
      info[index] := setInfo;
      var ref := SlotRef(heapId, index);
      if setInfo.buffer in resources.tracked {
        resources.tracked := resources.tracked[setInfo.buffer := resources.tracked[setInfo.buffer] + [ref]];
      } else {
        resources.tracked := resources.tracked[setInfo.buffer := [ref]];
      }
    }

    method SetByCpuHandle(cpuHandle: u64, setInfo: ResourceInfo, resources: ResourceIndex)
      requires Valid()
      modifies info, resources
      ensures var k := SlotIndex(cpuHandle, cpuStart, increment);
              if k >= numDescriptors then
                info[..] == old(info[..]) && resources.tracked == old(resources.tracked)
              else
                info[..] == old(info[..])[k := setInfo] &&
                resources.tracked == Track(old(resources.tracked), setInfo.buffer, SlotRef(heapId, k))
    {
      SetAt(SlotIndex(cpuHandle, cpuStart, increment), setInfo, resources);
    }

    method SetByGpuHandle(gpuHandle: u64, setInfo: ResourceInfo, resources: ResourceIndex)
      requires Valid()
      modifies info, resources
      ensures var k := SlotIndex(gpuHandle, gpuStart, increment);
              if k >= numDescriptors then
                info[..] == old(info[..]) && resources.tracked == old(resources.tracked)
              else
                info[..] == old(info[..])[k := setInfo] &&
                resources.tracked == Track(old(resources.tracked), setInfo.buffer, SlotRef(heapId, k))
    {
      SetAt(SlotIndex(gpuHandle, gpuStart, increment), setInfo, resources);
    }

    /**
     * Clear on an index: erase the first reference to the slot from its
     * resource's list (searching the list front to back), then empty the
     * slot. Width, height and format are left as they were.
     */
    method ClearAt(index: nat, resources: ResourceIndex)
      requires Valid()
      modifies info, resources
      ensures index >= numDescriptors ==> info[..] == old(info[..]) && resources.tracked == old(resources.tracked)
      ensures index < numDescriptors ==>
                info[..] == old(info[..])[index := Cleared(old(info[index]))] &&
                resources.tracked == Untrack(old(resources.tracked), old(info[index]).buffer, SlotRef(heapId, index))
    {
      if index >= numDescriptors {
        return;
      }
      var ref := SlotRef(heapId, index);
      var buffer := info[index].buffer;
      if buffer != NULL_RESOURCE && buffer in resources.tracked {
        var list := resources.tracked[buffer];
        var i := 0;
        while i < |list|
          invariant 0 <= i <= |list|
          invariant forall j :: 0 <= j < i ==> list[j] != ref
          invariant resources.tracked == old(resources.tracked)
        {
          if list[i] == ref {
            RemoveFirstAt(list, ref, i);
            resources.tracked := resources.tracked[buffer := list[..i] + list[i + 1..]];
            break;
          }
          i := i + 1;
        }
        if i == |list| {
          RemoveFirstAbsent(list, ref);
        }
      }
      info[index] := Cleared(info[index]);
    }

    method ClearByCpuHandle(cpuHandle: u64, resources: ResourceIndex)
      requires Valid()
      modifies info, resources
      ensures var k := SlotIndex(cpuHandle, cpuStart, increment);
              if k >= numDescriptors then
                info[..] == old(info[..]) && resources.tracked == old(resources.tracked)
              else
                info[..] == old(info[..])[k := Cleared(old(info[k]))] &&
                resources.tracked == Untrack(old(resources.tracked), old(info[k]).buffer, SlotRef(heapId, k))
    {
      ClearAt(SlotIndex(cpuHandle, cpuStart, increment), resources);
    }

    method ClearByGpuHandle(gpuHandle: u64, resources: ResourceIndex)
      requires Valid()
      modifies info, resources
      ensures var k := SlotIndex(gpuHandle, gpuStart, increment);
              if k >= numDescriptors then
                info[..] == old(info[..]) && resources.tracked == old(resources.tracked)
              else
                info[..] == old(info[..])[k := Cleared(old(info[k]))] &&
                resources.tracked == Untrack(old(resources.tracked), old(info[k]).buffer, SlotRef(heapId, k))
    {
      ClearAt(SlotIndex(gpuHandle, gpuStart, increment), resources);
    }
  }
}
