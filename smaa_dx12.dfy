/**
 * SMAA_Dx12: the Direct3D 12 SMAA pass (edge detection, blend weights,
 * neighbourhood blending). Modelled: the tracked state of every texture and
 * the barriers TransitionResource records, the reuse rule for the
 * intermediate and output textures, the lookup textures, the CPU and GPU
 * descriptor handles each pass's heap hands out, and Dispatch's guards,
 * group counts and final states. Device calls are success booleans and
 * the identities of the objects they would create.
 */
module SmaaDx12 {
  import opened Wrappers
  import opened Machine
  import opened Dxgi
  import opened Smaa

  /** Descriptor heaps, one per pass; each holds four SRVs then one UAV. */
  const PASS_COUNT: nat := 3
  const SRV_COUNT: nat := 4

  /** A texture pointer together with the state the helper tracks for it. */
  datatype Tracked = Tracked(texture: Res, state: ResourceState)

  /** A lookup texture, its upload buffer (an id) and its tracked state. */
  datatype Lookup = Lookup(texture: Res, upload: Option<nat>, state: ResourceState)

  /** Barriers recorded by one TransitionResource and the state it leaves. */
  datatype Transitioned = Transitioned(barriers: seq<Command>, state: ResourceState)

  function Transition(resource: Res, current: ResourceState, target: ResourceState): Transitioned
  {
    if resource.Null? || current == target then Transitioned([], current)
    else Transitioned([Barrier(resource, current, target)], target)
  }

  /**
   * No barrier for a null resource or one already in the target state;
   * otherwise exactly one barrier from the current to the target state,
   * after which the tracked state is the target. A second transition to the
   * same target records nothing.
   */
  lemma TransitionMeaning(resource: Res, current: ResourceState, target: ResourceState)
    ensures var t := Transition(resource, current, target);
            (t.barriers == [] <==> resource.Null? || current == target) &&
            (t.barriers != [] ==> t.barriers == [Barrier(resource, current, target)]) &&
            (resource.Res? ==> t.state == target) &&
            (resource.Null? ==> t.state == current) &&
            Transition(resource, t.state, target).barriers == []
  {
  }

  /** Every barrier in `cmds` changes the state of its resource. */
  predicate NoRedundantBarrier(cmds: seq<Command>)
  {
    forall i :: 0 <= i < |cmds| && cmds[i].Barrier? ==> cmds[i].before != cmds[i].after
  }

  /** The dispatches among the recorded commands, in order. */
  function Dispatches(cmds: seq<Command>): seq<Command>
  {
    if cmds == [] then []
    else (if cmds[0].Dispatch? then [cmds[0]] else []) + Dispatches(cmds[1..])
  }

  lemma {:induction false} DispatchesAppend(a: seq<Command>, b: seq<Command>)
    ensures Dispatches(a + b) == Dispatches(a) + Dispatches(b)
  {
    if a == [] {
      assert a + b == b;
    } else {
      var head := if a[0].Dispatch? then [a[0]] else [];
      assert (a + b)[0] == a[0];
      assert (a + b)[1..] == a[1..] + b;
      assert Dispatches(a + b) == head + Dispatches(a[1..] + b);
      assert Dispatches(a) == head + Dispatches(a[1..]);
      DispatchesAppend(a[1..], b);
      assert head + (Dispatches(a[1..]) + Dispatches(b)) == (head + Dispatches(a[1..])) + Dispatches(b);
    }
  }

  lemma NoRedundantAppend(a: seq<Command>, b: seq<Command>)
    requires NoRedundantBarrier(a) && NoRedundantBarrier(b)
    ensures NoRedundantBarrier(a + b)
  {
    forall i | 0 <= i < |a + b| && (a + b)[i].Barrier?
      ensures (a + b)[i].before != (a + b)[i].after
    {
      if i < |a| {
        assert (a + b)[i] == a[i];
      } else {
        assert (a + b)[i] == b[i - |a|];
      }
    }
  }

  /** The tail of `Transition` recorded during Dispatch never has a redundant barrier or a dispatch. */
  lemma TransitionIsClean(resource: Res, current: ResourceState, target: ResourceState)
    ensures NoRedundantBarrier(Transition(resource, current, target).barriers)
    ensures Dispatches(Transition(resource, current, target).barriers) == []
  {
    var t := Transition(resource, current, target);
    if t.barriers != [] {
      assert t.barriers[1..] == [];
    }
  }

  /** The width, height and format checks createTexture reuses a texture on. */
  predicate Matches(t: Res, width: nat, height: nat, format: Format)
  {
    t.Res? && t.desc.width == width && t.desc.height == height && t.desc.format == format
  }

  /**
   * The createTexture lambda of EnsureTextures: keep a matching texture,
   * otherwise release it and create a UAV-capable one in the
   * UNORDERED_ACCESS state. A failed creation leaves the texture null and
   * the tracked state as it was.
   */
  function TextureAfter(t: Tracked, width: nat, height: nat, format: Format, createOk: bool, newId: nat): (bool, Tracked)
  {
    if Matches(t.texture, width, height, format) then (true, t)
    else if !createOk then (false, Tracked(Null, t.state))
    else (true, Tracked(Res(newId, TexDesc(width, height, format, FLAG_ALLOW_UNORDERED_ACCESS)), UNORDERED_ACCESS))
  }

  /**
   * A texture is kept, untouched, exactly when it matches; a success always
   * leaves a matching texture, and a replaced one is tracked as
   * UNORDERED_ACCESS.
   */
  lemma TextureReuse(t: Tracked, width: nat, height: nat, format: Format, createOk: bool, newId: nat)
    ensures var (ok, r) := TextureAfter(t, width, height, format, createOk, newId);
            (ok <==> Matches(t.texture, width, height, format) || createOk) &&
            (Matches(t.texture, width, height, format) ==> r == t) &&
            (ok ==> Matches(r.texture, width, height, format)) &&
            (ok && r != t ==> r.state == UNORDERED_ACCESS && r.texture.desc.flags == FLAG_ALLOW_UNORDERED_ACCESS) &&
            (!ok ==> r.texture.Null? && r.state == t.state)
  {
  }

  /** The outcomes of the device calls one EnsureTextures makes. */
  datatype TextureNative = TextureNative(edgeOk: bool, blendOk: bool, outputOk: bool,
                                         queryOk: bool, storeBit: bool,
                                         edgeId: nat, blendId: nat, outputId: nat)

  /** The output texture's format for an input format, with the device's typed-store answer. */
  function OutputFormatFor(device: bool, input: Format, n: TextureNative): Format
  {
    OutputTextureFormat(input, SupportsTypedUavStore(device, ResolveFormat(input), n.queryOk, n.storeBit))
  }

  /**
   * EnsureTextures always records a known output format, so the
   * `_outputTextureFormat == DXGI_FORMAT_UNKNOWN` fallback of
   * PopulateDescriptors never applies after it.
   */
  lemma OutputFormatKnown(device: bool, input: Format, n: TextureNative)
    ensures OutputFormatFor(device, input, n) != UNKNOWN
  {
    OutputFormatFallback(input, SupportsTypedUavStore(device, ResolveFormat(input), n.queryOk, n.storeBit));
  }

  /** The three textures EnsureTextures manages and the recorded output format. */
  datatype TextureSet = TextureSet(edge: Tracked, blend: Tracked, output: Tracked, outputFormat: Format)

  /**
   * EnsureTextures on a texture set: the edge (R16G16_FLOAT), blend
   * (R16G16B16A16_FLOAT) and output textures in that order, stopping at the
   * first failure, with the output format recorded once the first two
   * succeeded.
   */
  function TexturesAfter(t: TextureSet, device: bool, input: Res, n: TextureNative): (bool, TextureSet)
  {
    if input.Null? then (false, t)
    else
      var w, h := input.desc.width, input.desc.height;
      var (eOk, e) := TextureAfter(t.edge, w, h, R16G16_FLOAT, n.edgeOk, n.edgeId);
      if !eOk then (false, t.(edge := e))
      else
        var (bOk, b) := TextureAfter(t.blend, w, h, R16G16B16A16_FLOAT, n.blendOk, n.blendId);
        if !bOk then (false, t.(edge := e, blend := b))
        else
          var f := OutputFormatFor(device, input.desc.format, n);
          var (oOk, o) := TextureAfter(t.output, w, h, f, n.outputOk, n.outputId);
          (oOk, TextureSet(e, b, o, f))
  }

  /**
   * EnsureTextures succeeds exactly when there is an input and each of the
   * three textures already matches or can be created; on success all three
   * have the input's size, in their formats, and the recorded output
   * format is the known one chosen for the input.
   */
  lemma TexturesMeaning(t: TextureSet, device: bool, input: Res, n: TextureNative)
    ensures var (ok, r) := TexturesAfter(t, device, input, n);
            var w := if input.Res? then input.desc.width else 0;
            var h := if input.Res? then input.desc.height else 0;
            var f := if input.Res? then OutputFormatFor(device, input.desc.format, n) else UNKNOWN;
            (ok <==> input.Res? && (Matches(t.edge.texture, w, h, R16G16_FLOAT) || n.edgeOk) &&
                     (Matches(t.blend.texture, w, h, R16G16B16A16_FLOAT) || n.blendOk) &&
                     (Matches(t.output.texture, w, h, f) || n.outputOk)) &&
            (ok ==> Matches(r.edge.texture, w, h, R16G16_FLOAT) && Matches(r.blend.texture, w, h, R16G16B16A16_FLOAT) &&
                    Matches(r.output.texture, w, h, r.outputFormat) && r.outputFormat == f && f != UNKNOWN)
  {
    if input.Res? {
      var w, h := input.desc.width, input.desc.height;
      var f := OutputFormatFor(device, input.desc.format, n);
      TextureReuse(t.edge, w, h, R16G16_FLOAT, n.edgeOk, n.edgeId);
      TextureReuse(t.blend, w, h, R16G16B16A16_FLOAT, n.blendOk, n.blendId);
      TextureReuse(t.output, w, h, f, n.outputOk, n.outputId);
      OutputFormatKnown(device, input.desc.format, n);
    }
  }

  /** The outcomes of the device calls one createLookup makes. */
  datatype LookupNative = LookupNative(textureOk: bool, uploadOk: bool, textureId: nat, uploadId: nat)
  datatype LookupSize = LookupSize(width: nat, height: nat)

  /**
   * The createLookup lambda: create the texture (in COPY_DEST) and the
   * upload buffer when missing, then record the upload and a transition
   * to NON_PIXEL_SHADER_RESOURCE.
   */
  function LookupAfter(l: Lookup, format: Format, size: LookupSize, n: LookupNative): (bool, Lookup, seq<Command>)
  {
    if l.texture.Null? && !n.textureOk then (false, l, [])
    else
      var t := if l.texture.Null? then Res(n.textureId, TexDesc(size.width, size.height, format, FLAG_NONE)) else l.texture;
      var s := if l.texture.Null? then COPY_DEST else l.state;
      if l.upload.None? && !n.uploadOk then (false, Lookup(t, None, s), [])
      else
        var u := if l.upload.None? then n.uploadId else l.upload.value;
        var tr := Transition(t, s, NON_PIXEL_SHADER_RESOURCE);
        (true, Lookup(t, Some(u), tr.state), [Upload(t, u)] + tr.barriers)
  }

  /**
   * createLookup succeeds iff the missing objects could be created; an
   * existing texture or upload buffer is kept; on success the data was
   * uploaded and the texture is tracked as NON_PIXEL_SHADER_RESOURCE, and a
   * freshly created one was in COPY_DEST before that.
   */
  lemma LookupMeaning(l: Lookup, format: Format, size: LookupSize, n: LookupNative)
    ensures var (ok, r, cmds) := LookupAfter(l, format, size, n);
            (ok <==> (l.texture.Res? || n.textureOk) && (l.upload.Some? || n.uploadOk)) &&
            (l.texture.Res? ==> r.texture == l.texture) &&
            (l.upload.Some? ==> r.upload == l.upload) &&
            (ok ==> r.texture.Res? && r.upload.Some? && r.state == NON_PIXEL_SHADER_RESOURCE &&
                    cmds[0] == Upload(r.texture, r.upload.value)) &&
            (ok && l.texture.Null? ==> cmds == [Upload(r.texture, r.upload.value),
                                                Barrier(r.texture, COPY_DEST, NON_PIXEL_SHADER_RESOURCE)]) &&
            (!ok ==> cmds == [] && (l.texture.Res? ==> r.state == l.state)) &&
            NoRedundantBarrier(cmds) && Dispatches(cmds) == []
  {
    var (ok, r, cmds) := LookupAfter(l, format, size, n);
    if ok {
      var t := r.texture;
      var s := if l.texture.Null? then COPY_DEST else l.state;
      var tr := Transition(t, s, NON_PIXEL_SHADER_RESOURCE);
      TransitionIsClean(t, s, NON_PIXEL_SHADER_RESOURCE);
      assert cmds == [Upload(t, r.upload.value)] + tr.barriers;
      assert NoRedundantBarrier([Upload(t, r.upload.value)]);
      NoRedundantAppend([Upload(t, r.upload.value)], tr.barriers);
      DispatchesAppend([Upload(t, r.upload.value)], tr.barriers);
    }
  }

  /**
   * A lookup texture whose upload buffer could not be created stays
   * without data and in COPY_DEST; because EnsureLookupTextures returns
   * early once both textures exist, a later call does not upload it again.
   */
  lemma FailedUploadLeavesTextureEmpty(format: Format, size: LookupSize, n: LookupNative)
    requires n.textureOk && !n.uploadOk
    ensures var (ok, r, cmds) := LookupAfter(Lookup(Null, None, COMMON), format, size, n);
            !ok && r.texture.Res? && r.upload.None? && r.state == COPY_DEST && cmds == []
  {
  }

  /**
   * When EnsureLookupTextures succeeds: with a device, either both lookup
   * textures exist already, or there is a command list and each lookup's
   * missing texture and upload buffer can be created.
   */
  predicate LookupsReady(area: Lookup, search: Lookup, device: bool, cmdList: bool, an: LookupNative, sn: LookupNative)
  {
    device &&
    ((area.texture.Res? && search.texture.Res?) ||
     (cmdList && (area.texture.Res? || an.textureOk) && (area.upload.Some? || an.uploadOk) &&
      (search.texture.Res? || sn.textureOk) && (search.upload.Some? || sn.uploadOk)))
  }

  /** With no redundant barrier so far, appending a transition keeps it so and adds no dispatch. */
  lemma AppendTransition(cmds: seq<Command>, resource: Res, current: ResourceState, target: ResourceState)
    requires NoRedundantBarrier(cmds)
    ensures var b := Transition(resource, current, target).barriers;
            NoRedundantBarrier(cmds + b) && Dispatches(cmds + b) == Dispatches(cmds)
  {
    var b := Transition(resource, current, target).barriers;
    TransitionIsClean(resource, current, target);
    NoRedundantAppend(cmds, b);
    DispatchesAppend(cmds, b);
  }

  lemma AppendDispatch(cmds: seq<Command>, x: nat, y: nat, z: nat)
    requires NoRedundantBarrier(cmds)
    ensures NoRedundantBarrier(cmds + [Dispatch(x, y, z)])
    ensures Dispatches(cmds + [Dispatch(x, y, z)]) == Dispatches(cmds) + [Dispatch(x, y, z)]
  {
    assert Dispatches([Dispatch(x, y, z)]) == [Dispatch(x, y, z)] by {
      assert [Dispatch(x, y, z)][1..] == [];
    }
    NoRedundantAppend(cmds, [Dispatch(x, y, z)]);
    DispatchesAppend(cmds, [Dispatch(x, y, z)]);
  }

  /**
   * Descriptor handle `index` of a heap: `start.ptr + _descriptorSize * index`,
   * where the product is taken in UINT and the sum in 64 bits.
   */
  function Handle(start: nat, size: u32, index: nat): nat
  {
    Wrap64(start + Wrap32(size * index))
  }

  lemma MulBound(size: nat, k: nat, n: nat)
    requires k <= n
    ensures size * k <= size * n
  {
  }

  /**
   * When neither the products nor the sums wrap, the five handles of a
   * heap are `start + k * size`, consecutive and, for a nonzero increment,
   * pairwise distinct: the UAV follows the fourth SRV.
   */
  lemma HandlesConsecutive(start: nat, size: u32)
    requires size * SRV_COUNT < U32 && start + size * SRV_COUNT < U64
    ensures forall k :: 0 <= k <= SRV_COUNT ==> Handle(start, size, k) == start + size * k
    ensures size > 0 ==> forall j, k :: 0 <= j < k <= SRV_COUNT ==> Handle(start, size, j) < Handle(start, size, k)
  {
    forall k | 0 <= k <= SRV_COUNT
      ensures Handle(start, size, k) == start + size * k
    {
      MulBound(size, k, SRV_COUNT);
    }
    if size > 0 {
      forall j, k | 0 <= j < k <= SRV_COUNT
        ensures Handle(start, size, j) < Handle(start, size, k)
      {
        assert size * j < size * k;
      }
    }
  }

  /** The outcome of one CreateDescriptorHeap and the heap's CPU and GPU start handles. */
  datatype HeapNative = HeapNative(ok: bool, cpuStart: u64, gpuStart: u64)

  /**
   * Whether pass `p` has a descriptor heap after the heap loop of
   * createBufferResources: it had one, or every pass up to and including it
   * had one or got one, since the loop stops at the first failure.
   */
  predicate HeapReady(had: seq<bool>, hn: seq<HeapNative>, p: nat)
    requires p < |had| && |had| == |hn|
  {
    had[p] || forall q :: 0 <= q <= p ==> had[q] || hn[q].ok
  }

  /**
   * When the heap loop stops at pass `i` (every pass before it had or got
   * a heap and pass `i` got none, or `i` is past the last pass), the passes
   * before `i` have a heap and the others keep what they had.
   */
  lemma HeapsStopAt(had: seq<bool>, hn: seq<HeapNative>, i: nat)
    requires |had| == |hn| && i <= |had|
    requires forall q :: 0 <= q < i ==> had[q] || hn[q].ok
    requires i < |had| ==> !had[i] && !hn[i].ok
    ensures forall p :: 0 <= p < |had| ==> (HeapReady(had, hn, p) <==> p < i || had[p])
  {
    forall p | 0 <= p < |had|
      ensures HeapReady(had, hn, p) <==> p < i || had[p]
    {
      if i <= p && !had[p] {
        assert !(had[i] || hn[i].ok);
      }
    }
  }

  class SmaaDx12 {
    const device: bool
    /** GetDescriptorHandleIncrementSize for CBV/SRV/UAV heaps; 0 without a device. */
    const descriptorSize: u32
    var init: bool

    var edge: Tracked
    var blend: Tracked
    var output: Tracked
    var outputTextureFormat: Format
    var area: Lookup
    var search: Lookup

    function Textures(): TextureSet
      reads this
    {
      TextureSet(edge, blend, output, outputTextureFormat)
    }

    /** `_descriptorHeaps[p] != nullptr`. */
    const heaps: array<bool>
    const cpuSrv: array2<nat>
    const cpuUav: array<nat>
    const gpuSrv: array2<nat>
    const gpuUav: array<nat>

    predicate Valid()
      reads this
    {
      heaps.Length == PASS_COUNT && cpuUav.Length == PASS_COUNT && gpuUav.Length == PASS_COUNT &&
      cpuSrv.Length0 == PASS_COUNT && cpuSrv.Length1 == SRV_COUNT &&
      gpuSrv.Length0 == PASS_COUNT && gpuSrv.Length1 == SRV_COUNT &&
      cpuSrv != gpuSrv && cpuUav != gpuUav
    }

    /** The handles EnsureDescriptorHeap gives pass `p` when it creates its heap from `n`. */
    predicate HeapHandlesFrom(p: nat, n: HeapNative)
      requires Valid() && p < PASS_COUNT
      reads this, cpuSrv, cpuUav, gpuSrv, gpuUav
    {
      cpuUav[p] == Handle(n.cpuStart, descriptorSize, SRV_COUNT) &&
      gpuUav[p] == Handle(n.gpuStart, descriptorSize, SRV_COUNT) &&
      forall k :: 0 <= k < SRV_COUNT ==>
        cpuSrv[p, k] == Handle(n.cpuStart, descriptorSize, k) && gpuSrv[p, k] == Handle(n.gpuStart, descriptorSize, k)
    }

    /**
     * The constructor: without a device nothing is created; otherwise the
     * root signature and then the three pipelines, and `_init` records
     * whether all of them were created.
     */
    constructor(deviceGiven: bool, increment: u32, rootSignatureOk: bool, pipelinesOk: bool)
      ensures Valid() && fresh(heaps) && fresh(cpuSrv) && fresh(cpuUav) && fresh(gpuSrv) && fresh(gpuUav)
      ensures device == deviceGiven && descriptorSize == (if deviceGiven then increment else 0)
      ensures init == (deviceGiven && rootSignatureOk && pipelinesOk)
      ensures edge == blend == output == Tracked(Null, COMMON) && outputTextureFormat == UNKNOWN
      ensures area == search == Lookup(Null, None, COMMON)
      ensures forall p :: 0 <= p < PASS_COUNT ==> !heaps[p]
    {
      device := deviceGiven;
      descriptorSize := if deviceGiven then increment else 0;
      edge, blend, output := Tracked(Null, COMMON), Tracked(Null, COMMON), Tracked(Null, COMMON);
      outputTextureFormat := UNKNOWN;
      area, search := Lookup(Null, None, COMMON), Lookup(Null, None, COMMON);
      heaps := new bool[PASS_COUNT](_ => false);
      cpuUav := new nat[PASS_COUNT](_ => 0);
      gpuUav := new nat[PASS_COUNT](_ => 0);
      cpuSrv := new nat[PASS_COUNT, SRV_COUNT]((_, _) => 0);
      gpuSrv := new nat[PASS_COUNT, SRV_COUNT]((_, _) => 0);
      init := deviceGiven && rootSignatureOk && pipelinesOk;
    }

    /** TransitionResource on a tracked state passed by reference. */
    method TransitionResource(resource: Res, currentState: ResourceState, targetState: ResourceState)
      returns (barriers: seq<Command>, newState: ResourceState)
      ensures Transitioned(barriers, newState) == Transition(resource, currentState, targetState)
    {
      if resource.Null? || currentState == targetState {
        return [], currentState;
      }
      barriers := [Barrier(resource, currentState, targetState)];
      newState := targetState;
    }

    /**
     * EnsureDescriptorHeap: a heap that exists is kept as it is; otherwise
     * a new one gets SRV handle i at `start + i * size` and the UAV handle
     * at `start + 4 * size`, on the CPU and on the GPU. Other passes'
     * handles are untouched.
     */
    method EnsureDescriptorHeap(passIndex: nat, n: HeapNative) returns (ok: bool)
      requires Valid() && passIndex < PASS_COUNT
      modifies heaps, cpuSrv, cpuUav, gpuSrv, gpuUav
      ensures old(heaps[passIndex]) || !n.ok ==>
                ok == old(heaps[passIndex]) &&
                unchanged(heaps) && unchanged(cpuSrv) && unchanged(cpuUav) && unchanged(gpuSrv) && unchanged(gpuUav)
      ensures !old(heaps[passIndex]) && n.ok ==>
                ok && heaps[..] == old(heaps[..])[passIndex := true] &&
                (forall k :: 0 <= k < SRV_COUNT ==>
                   cpuSrv[passIndex, k] == Handle(n.cpuStart, descriptorSize, k) &&
                   gpuSrv[passIndex, k] == Handle(n.gpuStart, descriptorSize, k)) &&
                cpuUav[..] == old(cpuUav[..])[passIndex := Handle(n.cpuStart, descriptorSize, SRV_COUNT)] &&
                gpuUav[..] == old(gpuUav[..])[passIndex := Handle(n.gpuStart, descriptorSize, SRV_COUNT)] &&
                (forall p, k :: 0 <= p < PASS_COUNT && p != passIndex && 0 <= k < SRV_COUNT ==>
                   cpuSrv[p, k] == old(cpuSrv[p, k]) && gpuSrv[p, k] == old(gpuSrv[p, k]))
    {
      if heaps[passIndex] {
        return true;
      }
      if !n.ok {
        return false;
      }
      heaps[passIndex] := true;
      var i := 0;
      while i < SRV_COUNT
        modifies cpuSrv
        invariant 0 <= i <= SRV_COUNT
        invariant forall k :: 0 <= k < i ==> cpuSrv[passIndex, k] == Handle(n.cpuStart, descriptorSize, k)
        invariant forall p, k :: 0 <= p < PASS_COUNT && 0 <= k < SRV_COUNT && (p != passIndex || k >= i) ==>
                    cpuSrv[p, k] == old(cpuSrv[p, k])
      {
        cpuSrv[passIndex, i] := Handle(n.cpuStart, descriptorSize, i);
        i := i + 1;
      }
      cpuUav[passIndex] := Handle(n.cpuStart, descriptorSize, SRV_COUNT);
      i := 0;
      while i < SRV_COUNT
        modifies gpuSrv
        invariant 0 <= i <= SRV_COUNT
        invariant forall k :: 0 <= k < i ==> gpuSrv[passIndex, k] == Handle(n.gpuStart, descriptorSize, k)
        invariant forall p, k :: 0 <= p < PASS_COUNT && 0 <= k < SRV_COUNT && (p != passIndex || k >= i) ==>
                    gpuSrv[p, k] == old(gpuSrv[p, k])
      {
        gpuSrv[passIndex, i] := Handle(n.gpuStart, descriptorSize, i);
        i := i + 1;
      }
      gpuUav[passIndex] := Handle(n.gpuStart, descriptorSize, SRV_COUNT);
      ok := true;
    }

    /**
     * EnsureTextures: the edge (R16G16_FLOAT), blend (R16G16B16A16_FLOAT)
     * and output textures are ensured in that order, stopping at the first
     * failure; the output format is recorded once the first two succeeded.
     */
    method EnsureTextures(input: Res, n: TextureNative) returns (ok: bool)
      modifies this
      ensures input.Null? ==> !ok && unchanged(this)
      ensures (ok, Textures()) == TexturesAfter(old(Textures()), device, input, n)
      ensures ok ==> Matches(edge.texture, input.desc.width, input.desc.height, R16G16_FLOAT) &&
                     Matches(blend.texture, input.desc.width, input.desc.height, R16G16B16A16_FLOAT) &&
                     Matches(output.texture, input.desc.width, input.desc.height, outputTextureFormat) &&
                     outputTextureFormat != UNKNOWN
      ensures init == old(init) && area == old(area) && search == old(search)
    {
      if input.Null? {
        return false;
      }
      var w, h := input.desc.width, input.desc.height;
      TextureReuse(edge, w, h, R16G16_FLOAT, n.edgeOk, n.edgeId);
      var r := TextureAfter(edge, w, h, R16G16_FLOAT, n.edgeOk, n.edgeId);
      edge := r.1;
      if !r.0 {
        return false;
      }
      TextureReuse(blend, w, h, R16G16B16A16_FLOAT, n.blendOk, n.blendId);
      r := TextureAfter(blend, w, h, R16G16B16A16_FLOAT, n.blendOk, n.blendId);
      blend := r.1;
      if !r.0 {
        return false;
      }
      outputTextureFormat := OutputFormatFor(device, input.desc.format, n);
      OutputFormatKnown(device, input.desc.format, n);
      TextureReuse(output, w, h, outputTextureFormat, n.outputOk, n.outputId);
      r := TextureAfter(output, w, h, outputTextureFormat, n.outputOk, n.outputId);
      output := r.1;
      ok := r.0;
    }

    /**
     * EnsureLookupTextures: with a device and both lookup textures present
     * it does nothing; otherwise, given a command list, it runs createLookup
     * for the area (R8G8_UNORM) and the search (R8_UNORM) texture, both of
     * them whatever the first returned.
     */
    method EnsureLookupTextures(cmdList: bool, areaSize: LookupSize, searchSize: LookupSize,
                                an: LookupNative, sn: LookupNative) returns (ok: bool, cmds: seq<Command>)
      modifies this
      ensures var present := old(area).texture.Res? && old(search).texture.Res?;
              !device || present || !cmdList ==> ok == (device && present) && cmds == [] && unchanged(this)
      ensures device && !(old(area).texture.Res? && old(search).texture.Res?) && cmdList ==>
                var (aOk, a, aCmds) := LookupAfter(old(area), R8G8_UNORM, areaSize, an);
                var (sOk, s, sCmds) := LookupAfter(old(search), R8_UNORM, searchSize, sn);
                area == a && search == s && cmds == aCmds + sCmds && ok == (aOk && sOk)
      ensures ok ==> area.texture.Res? && search.texture.Res?
      ensures ok && cmds != [] ==> area.state == NON_PIXEL_SHADER_RESOURCE && search.state == NON_PIXEL_SHADER_RESOURCE
      ensures ok == LookupsReady(old(area), old(search), device, cmdList, an, sn)
      ensures NoRedundantBarrier(cmds) && Dispatches(cmds) == []
      ensures init == old(init) && edge == old(edge) && blend == old(blend) && output == old(output) &&
              outputTextureFormat == old(outputTextureFormat)
    {
      if !device {
        return false, [];
      }
      if area.texture.Res? && search.texture.Res? {
        return true, [];
      }
      if !cmdList {
        return false, [];
      }
      LookupMeaning(area, R8G8_UNORM, areaSize, an);
      LookupMeaning(search, R8_UNORM, searchSize, sn);
      var a := LookupAfter(area, R8G8_UNORM, areaSize, an);
      var s := LookupAfter(search, R8_UNORM, searchSize, sn);
      area, search := a.1, s.1;
      cmds := a.2 + s.2;
      NoRedundantAppend(a.2, s.2);
      DispatchesAppend(a.2, s.2);
      ok := a.0 && s.0;
    }

    /**
     * One compute pass of Dispatch on its target texture: a transition to
     * UNORDERED_ACCESS, the dispatch, a transition to
     * NON_PIXEL_SHADER_RESOURCE. Root-signature, heap and constant setup
     * is not recorded here.
     */
    method RunPass(t: Tracked, gx: nat, gy: nat) returns (pass: seq<Command>, after: Tracked)
      ensures after.texture == t.texture
      ensures t.texture.Res? ==> after.state == NON_PIXEL_SHADER_RESOURCE
      ensures NoRedundantBarrier(pass) && Dispatches(pass) == [Command.Dispatch(gx, gy, 1)]
    {
      var b, s := TransitionResource(t.texture, t.state, UNORDERED_ACCESS);
      AppendTransition([], t.texture, t.state, UNORDERED_ACCESS);
      assert [] + b == b;
      pass := b;
      AppendDispatch(pass, gx, gy, 1);
      pass := pass + [Command.Dispatch(gx, gy, 1)];
      var b2, s2 := TransitionResource(t.texture, s, NON_PIXEL_SHADER_RESOURCE);
      AppendTransition(pass, t.texture, s, NON_PIXEL_SHADER_RESOURCE);
      pass := pass + b2;
      after := Tracked(t.texture, s2);
    }

    /**
     * CreateBufferResources: refuses when not initialised or without a
     * colour resource; otherwise ensures the textures, then the three
     * descriptor heaps in order, and (with both lookup textures present)
     * fills the descriptors, which are not modelled.
     */
    /**
     * The heap loop of createBufferResources: EnsureDescriptorHeap for each
     * pass in turn, stopping at the first failure. A pass has a heap
     * afterwards exactly as HeapReady says; a heap created here has the
     * handles EnsureDescriptorHeap gives it, and every other pass keeps its
     * handles.
     */
    method EnsureDescriptorHeaps(hn: seq<HeapNative>) returns (ok: bool)
      requires Valid() && |hn| == PASS_COUNT
      modifies heaps, cpuSrv, cpuUav, gpuSrv, gpuUav
      ensures ok <==> forall p :: 0 <= p < PASS_COUNT ==> old(heaps[p]) || hn[p].ok
      ensures forall p :: 0 <= p < PASS_COUNT ==>
                heaps[p] == HeapReady(old(heaps[..]), hn, p) &&
                if !old(heaps[p]) && heaps[p] then HeapHandlesFrom(p, hn[p])
                else cpuUav[p] == old(cpuUav[p]) && gpuUav[p] == old(gpuUav[p]) &&
                     forall k :: 0 <= k < SRV_COUNT ==> cpuSrv[p, k] == old(cpuSrv[p, k]) && gpuSrv[p, k] == old(gpuSrv[p, k])
    {
      var i := 0;
      while i < PASS_COUNT
        modifies heaps, cpuSrv, cpuUav, gpuSrv, gpuUav
        invariant 0 <= i <= PASS_COUNT
        invariant forall p :: 0 <= p < i ==> heaps[p] && (old(heaps[p]) || hn[p].ok)
        invariant forall p :: i <= p < PASS_COUNT ==> heaps[p] == old(heaps[p])
        invariant forall p :: 0 <= p < PASS_COUNT ==>
                    if !old(heaps[p]) && heaps[p] then HeapHandlesFrom(p, hn[p])
                    else cpuUav[p] == old(cpuUav[p]) && gpuUav[p] == old(gpuUav[p]) &&
                         forall k :: 0 <= k < SRV_COUNT ==>
                           cpuSrv[p, k] == old(cpuSrv[p, k]) && gpuSrv[p, k] == old(gpuSrv[p, k])
      {
        var created := EnsureDescriptorHeap(i, hn[i]);
        if !created {
          HeapsStopAt(old(heaps[..]), hn, i);
          return false;
        }
        i := i + 1;
      }
      HeapsStopAt(old(heaps[..]), hn, PASS_COUNT);
      ok := true;
    }

    method CreateBufferResources(color: Res, tn: TextureNative, hn: seq<HeapNative>) returns (ok: bool)
      requires Valid() && |hn| == PASS_COUNT
      modifies this, heaps, cpuSrv, cpuUav, gpuSrv, gpuUav
      ensures !old(init) || color.Null? ==>
                !ok && unchanged(this) && unchanged(heaps) && unchanged(cpuSrv) && unchanged(cpuUav) &&
                unchanged(gpuSrv) && unchanged(gpuUav)
      ensures old(init) && color.Res? ==>
                var (texturesOk, t) := TexturesAfter(old(Textures()), device, color, tn);
                Textures() == t &&
                (ok <==> texturesOk && forall p :: 0 <= p < PASS_COUNT ==> old(heaps[p]) || hn[p].ok) &&
                (!texturesOk ==>
                   unchanged(heaps) && unchanged(cpuSrv) && unchanged(cpuUav) && unchanged(gpuSrv) && unchanged(gpuUav))
      ensures old(init) && color.Res? && TexturesAfter(old(Textures()), device, color, tn).0 ==>
                forall p :: 0 <= p < PASS_COUNT ==>
                  heaps[p] == HeapReady(old(heaps[..]), hn, p) &&
                  if !old(heaps[p]) && heaps[p] then HeapHandlesFrom(p, hn[p])
                  else cpuUav[p] == old(cpuUav[p]) && gpuUav[p] == old(gpuUav[p]) &&
                       forall k :: 0 <= k < SRV_COUNT ==> cpuSrv[p, k] == old(cpuSrv[p, k]) && gpuSrv[p, k] == old(gpuSrv[p, k])
      ensures ok ==> old(init) && color.Res? && (forall p :: 0 <= p < PASS_COUNT ==> heaps[p]) &&
                     Matches(edge.texture, color.desc.width, color.desc.height, R16G16_FLOAT) &&
                     Matches(blend.texture, color.desc.width, color.desc.height, R16G16B16A16_FLOAT) &&
                     Matches(output.texture, color.desc.width, color.desc.height, outputTextureFormat) &&
                     outputTextureFormat == OutputFormatFor(device, color.desc.format, tn)
      ensures init == old(init) && area == old(area) && search == old(search)
    {
      if !init || color.Null? {
        return false;
      }
      ok := EnsureTextures(color, tn);
      TexturesMeaning(old(Textures()), device, color, tn);
      if !ok {
        return false;
      }
      ok := EnsureDescriptorHeaps(hn);
      if !ok {
        return false;
      }
      // PopulateDescriptors falls back to the colour format for an UNKNOWN
      // output format, which EnsureTextures never leaves (OutputFormatKnown).
      return true;
    }

    /**
     * Dispatch: refuses, recording nothing, when not initialised, without
     * a command list or without a colour resource; then needs the lookup
     * textures and the buffer resources; then moves the lookup textures to
     * NON_PIXEL_SHADER_RESOURCE and runs the three passes with
     * `(w + 7) / 8 x (h + 7) / 8` groups each.
     */
    method Dispatch(cmdList: bool, color: Res, areaSize: LookupSize, searchSize: LookupSize,
                    an: LookupNative, sn: LookupNative, tn: TextureNative, hn: seq<HeapNative>)
      returns (ok: bool, cmds: seq<Command>)
      requires Valid() && |hn| == PASS_COUNT
      modifies this, heaps, cpuSrv, cpuUav, gpuSrv, gpuUav
      ensures !old(init) || !cmdList || color.Null? ==>
                !ok && cmds == [] && unchanged(this) && unchanged(heaps) && unchanged(cpuSrv) &&
                unchanged(cpuUav) && unchanged(gpuSrv) && unchanged(gpuUav)
      ensures ok ==> edge.state == NON_PIXEL_SHADER_RESOURCE && blend.state == NON_PIXEL_SHADER_RESOURCE &&
                     output.state == NON_PIXEL_SHADER_RESOURCE && area.state == NON_PIXEL_SHADER_RESOURCE &&
                     search.state == NON_PIXEL_SHADER_RESOURCE
      ensures ok ==> color.Res? && (forall p :: 0 <= p < PASS_COUNT ==> heaps[p]) &&
                     Matches(output.texture, color.desc.width, color.desc.height, outputTextureFormat)
      ensures ok ==> var gx, gy := DispatchGroups(color.desc.width), DispatchGroups(color.desc.height);
                     Dispatches(cmds) == [Command.Dispatch(gx, gy, 1), Command.Dispatch(gx, gy, 1), Command.Dispatch(gx, gy, 1)]
      ensures !ok ==> Dispatches(cmds) == []
      ensures NoRedundantBarrier(cmds)
      ensures init == old(init)
      ensures old(init) && cmdList && color.Res? ==>
                var lookupsOk := LookupsReady(old(area), old(search), device, true, an, sn);
                var (texturesOk, t) := TexturesAfter(old(Textures()), device, color, tn);
                (ok <==> lookupsOk && texturesOk && forall p :: 0 <= p < PASS_COUNT ==> old(heaps[p]) || hn[p].ok) &&
                (!lookupsOk || !texturesOk ==>
                   unchanged(heaps) && unchanged(cpuSrv) && unchanged(cpuUav) && unchanged(gpuSrv) && unchanged(gpuUav)) &&
                (!lookupsOk ==> Textures() == old(Textures())) &&
                (lookupsOk ==> edge.texture == t.edge.texture && blend.texture == t.blend.texture &&
                               output.texture == t.output.texture && outputTextureFormat == t.outputFormat) &&
                (lookupsOk && texturesOk ==>
                   forall p :: 0 <= p < PASS_COUNT ==>
                     heaps[p] == HeapReady(old(heaps[..]), hn, p) &&
                     if !old(heaps[p]) && heaps[p] then HeapHandlesFrom(p, hn[p])
                     else cpuUav[p] == old(cpuUav[p]) && gpuUav[p] == old(gpuUav[p]) &&
                          forall k :: 0 <= k < SRV_COUNT ==>
                            cpuSrv[p, k] == old(cpuSrv[p, k]) && gpuSrv[p, k] == old(gpuSrv[p, k]))
    {
      if !init || !cmdList || color.Null? {
        return false, [];
      }
      var lookupOk;
      lookupOk, cmds := EnsureLookupTextures(cmdList, areaSize, searchSize, an, sn);
      if !lookupOk {
        return false, cmds;
      }
      var buffersOk := CreateBufferResources(color, tn, hn);
      if !buffersOk {
        return false, cmds;
      }
      var gx, gy := DispatchGroups(color.desc.width), DispatchGroups(color.desc.height);
      var passes := RecordPasses(gx, gy);
      NoRedundantAppend(cmds, passes);
      DispatchesAppend(cmds, passes);
      cmds := cmds + passes;
      ok := true;
    }

    /**
     * The recording half of Dispatch once every guard passed: the lookup
     * textures move to NON_PIXEL_SHADER_RESOURCE, then the edge, blend and
     * output passes run.
     */
    method RecordPasses(gx: nat, gy: nat) returns (cmds: seq<Command>)
      modifies this
      ensures edge.texture == old(edge.texture) && blend.texture == old(blend.texture) &&
              output.texture == old(output.texture) && area.texture == old(area.texture) &&
              search.texture == old(search.texture) && area.upload == old(area.upload) &&
              search.upload == old(search.upload)
      ensures edge.texture.Res? ==> edge.state == NON_PIXEL_SHADER_RESOURCE
      ensures blend.texture.Res? ==> blend.state == NON_PIXEL_SHADER_RESOURCE
      ensures output.texture.Res? ==> output.state == NON_PIXEL_SHADER_RESOURCE
      ensures area.texture.Res? ==> area.state == NON_PIXEL_SHADER_RESOURCE
      ensures search.texture.Res? ==> search.state == NON_PIXEL_SHADER_RESOURCE
      ensures Dispatches(cmds) == [Command.Dispatch(gx, gy, 1), Command.Dispatch(gx, gy, 1), Command.Dispatch(gx, gy, 1)]
      ensures NoRedundantBarrier(cmds)
      ensures init == old(init) && outputTextureFormat == old(outputTextureFormat)
    {
      var b, s := TransitionResource(area.texture, area.state, NON_PIXEL_SHADER_RESOURCE);
      AppendTransition([], area.texture, area.state, NON_PIXEL_SHADER_RESOURCE);
      assert [] + b == b;
      cmds := b;
      area := area.(state := s);
      b, s := TransitionResource(search.texture, search.state, NON_PIXEL_SHADER_RESOURCE);
      AppendTransition(cmds, search.texture, search.state, NON_PIXEL_SHADER_RESOURCE);
      cmds := cmds + b;
      search := search.(state := s);
      var pass;
      pass, edge := RunPass(edge, gx, gy);
      NoRedundantAppend(cmds, pass);
      DispatchesAppend(cmds, pass);
      cmds := cmds + pass;
      pass, blend := RunPass(blend, gx, gy);
      NoRedundantAppend(cmds, pass);
      DispatchesAppend(cmds, pass);
      cmds := cmds + pass;
      pass, output := RunPass(output, gx, gy);
      NoRedundantAppend(cmds, pass);
      DispatchesAppend(cmds, pass);
      cmds := cmds + pass;
    }
  }
}
