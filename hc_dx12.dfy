/**
 * The hudless compare pass of HC_Dx12.cpp: it copies the current swap chain
 * back buffer into one of two read buffers (a ping-pong selected by
 * `_counter`) and draws a full-screen triangle that compares it with the
 * hudless image. The model keeps the counter, the two read buffers with
 * their tracked states and the three lazily filled descriptor handle
 * tables; the descriptor writes and the submitted command list are the
 * observable results of Dispatch.
 */
module HcDx12 {
  import opened Wrappers
  import opened Machine
  import opened Dxgi
  import Smaa

  /** ToSRGB: the sRGB mapping is commented out, every format maps to itself. */
  function ToSRGB(f: Format): Format
  {
    f
  }

  /** The eight typeless formats TranslateTypelessFormats gives a typed meaning to. */
  predicate Typeless(f: Format)
  {
    Smaa.Resolvable(f) || f == R16G16_TYPELESS || f == R32G32_TYPELESS
  }

  function TranslateTypelessFormats(f: Format): (r: Format)
    ensures r != f <==> Typeless(f)
    ensures !Typeless(r)
  {
    if f == R32G32B32A32_TYPELESS then R32G32B32A32_FLOAT
    else if f == R32G32B32_TYPELESS then R32G32B32_FLOAT
    else if f == R16G16B16A16_TYPELESS then R16G16B16A16_FLOAT
    else if f == R10G10B10A2_TYPELESS then R10G10B10A2_UNORM
    else if f == R8G8B8A8_TYPELESS then R8G8B8A8_UNORM
    else if f == B8G8R8A8_TYPELESS then B8G8R8A8_UNORM
    else if f == R16G16_TYPELESS then R16G16_FLOAT
    else if f == R32G32_TYPELESS then R32G32_FLOAT
    else f
  }

  /** The format every view and the pipeline's render target are created with. */
  function ViewFormat(f: Format): Format
  {
    TranslateTypelessFormats(ToSRGB(f))
  }

  /**
   * The view format is the translated format itself (ToSRGB adds nothing),
   * translation is idempotent, and it agrees with SMAA's ResolveFormat on the
   * six formats both know, going beyond it on exactly the two-channel ones.
   */
  lemma ViewFormatMeaning(f: Format)
    ensures ViewFormat(f) == TranslateTypelessFormats(f)
    ensures TranslateTypelessFormats(TranslateTypelessFormats(f)) == TranslateTypelessFormats(f)
    ensures Smaa.Resolvable(f) ==> TranslateTypelessFormats(f) == Smaa.ResolveFormat(f)
    ensures TranslateTypelessFormats(f) != Smaa.ResolveFormat(f) <==> f == R16G16_TYPELESS || f == R32G32_TYPELESS
  {
  }

  /** The flags CreateBufferResource adds to the source's: render target, UAV and simultaneous access. */
  const READ_BUFFER_FLAGS: ResourceFlags :=
    FLAG_ALLOW_RENDER_TARGET | FLAG_ALLOW_UNORDERED_ACCESS | FLAG_ALLOW_SIMULTANEOUS_ACCESS

  /** Width, height and format: what decides whether a read buffer can be kept. */
  predicate SameShape(a: TexDesc, b: TexDesc)
  {
    a.width == b.width && a.height == b.height && a.format == b.format
  }

  /** The outcome of the device calls inside CreateBufferResource. */
  datatype BufferNative = BufferNative(heapPropsOk: bool, createOk: bool, newId: nat)

  /**
   * CreateBufferResource on one read buffer slot (buffer, state): the result,
   * the slot's buffer and its tracked state afterwards.
   */
  function BufferAfter(device: bool, buffer: Res, state: ResourceState, source: Res,
                       inState: ResourceState, n: BufferNative): (bool, Res, ResourceState)
  {
    if !device || source.Null? then (false, buffer, state)
    else if buffer.Res? && SameShape(buffer.desc, source.desc) then (true, buffer, state)
    else if !n.heapPropsOk || !n.createOk then (false, Null, state)
    else (true, Res(n.newId, source.desc.(flags := source.desc.flags | READ_BUFFER_FLAGS)), inState)
  }

  /**
   * A buffer of the source's shape is kept as it is; any other buffer is
   * released, and then either replaced by a new one of the source's shape,
   * with the three extra flags, tracked in the requested state, or the slot
   * is left empty. A success always leaves a buffer of the source's shape.
   */
  lemma BufferReuse(device: bool, buffer: Res, state: ResourceState, source: Res,
                    inState: ResourceState, n: BufferNative)
    ensures var r := BufferAfter(device, buffer, state, source, inState, n);
            (r.0 ==> r.1.Res? && SameShape(r.1.desc, source.desc)) &&
            (device && source.Res? && buffer.Res? && SameShape(buffer.desc, source.desc) ==>
               r == (true, buffer, state)) &&
            (r.0 && r.1 != buffer ==>
               r.2 == inState && r.1.desc.flags & READ_BUFFER_FLAGS == READ_BUFFER_FLAGS &&
               r.1.desc.flags & source.desc.flags == source.desc.flags) &&
            (!r.0 && device && source.Res? ==> r.1 == Null) &&
            (r.0 <==> device && source.Res? &&
                      ((buffer.Res? && SameShape(buffer.desc, source.desc)) || (n.heapPropsOk && n.createOk)))
  {
    if device && source.Res? && !(buffer.Res? && SameShape(buffer.desc, source.desc)) &&
       n.heapPropsOk && n.createOk {
      ReadBufferFlagsAdded(source.desc.flags);
    }
  }

  /** OR-ing in the three flags keeps every flag of the source and sets all three. */
  lemma ReadBufferFlagsAdded(flags: ResourceFlags)
    ensures (flags | READ_BUFFER_FLAGS) & READ_BUFFER_FLAGS == READ_BUFFER_FLAGS
    ensures (flags | READ_BUFFER_FLAGS) & flags == flags
  {
  }

  /**
   * The k-th handle of a table filled by copying the previous handle and
   * adding `size` to its SIZE_T / UINT64 pointer, starting at `start`.
   */
  function Offset(start: nat, size: nat, k: nat): nat
  {
    if k == 0 then start else Wrap64(Offset(start, size, k - 1) + size)
  }

  /** While nothing wraps, the k-th handle sits exactly k increments past the start. */
  lemma {:induction false} OffsetNoWrap(start: nat, size: nat, k: nat)
    requires start + k * size < U64
    ensures Offset(start, size, k) == start + k * size
  {
    if k > 0 {
      assert (k - 1) * size + size == k * size;
      OffsetNoWrap(start, size, k - 1);
    }
  }

  lemma MulMonotone(j: nat, k: nat, size: nat)
    requires j <= k
    ensures j * size <= k * size
    ensures j < k && size > 0 ==> j * size < k * size
  {
  }

  /** With a nonzero increment and no wrap-around, the first `count` handles are consecutive and distinct. */
  lemma OffsetsConsecutive(start: nat, size: nat, count: nat)
    requires start + count * size < U64
    ensures forall k :: 0 < k < count ==> Offset(start, size, k) == Offset(start, size, k - 1) + size
    ensures size > 0 ==> forall j, k :: 0 <= j < k < count ==> Offset(start, size, j) < Offset(start, size, k)
  {
    forall k | 0 <= k < count
      ensures Offset(start, size, k) == start + k * size
    {
      MulMonotone(k, count, size);
      OffsetNoWrap(start, size, k);
    }
    forall k | 0 < k < count
      ensures Offset(start, size, k) == Offset(start, size, k - 1) + size
    {
      assert (k - 1) * size + size == k * size;
    }
    forall j, k | 0 <= j < k < count && size > 0
      ensures Offset(start, size, j) < Offset(start, size, k)
    {
      MulMonotone(j, k, size);
    }
  }

  /**
   * A handle table filled from a heap starting at `start`: the first handle
   * is the start and each later one the previous plus the increment.
   */
  ghost predicate Filled(a: seq<nat>, start: nat, size: nat)
  {
    (|a| > 0 ==> a[0] == start) && forall k :: 0 < k < |a| ==> a[k] == Wrap64(a[k - 1] + size)
  }

  /** The k-th handle of a filled table is the k-th offset from the start. */
  lemma {:induction false} FilledOffsets(a: seq<nat>, start: nat, size: nat, k: nat)
    requires Filled(a, start, size) && k < |a|
    ensures a[k] == Offset(start, size, k)
  {
    if k > 0 {
      FilledOffsets(a, start, size, k - 1);
    }
  }

  /**
   * A filled table of the shader-visible heap puts srv0[0], srv0[1],
   * srv1[0], srv1[1], cbv0[0] and cbv0[1] at offsets 0 to 5 increments
   * from the heap start, when the heap does not reach the top of the
   * address space.
   */
  lemma {:induction false} HandleLayout(a: seq<nat>, start: nat, size: nat)
    requires |a| == 6 && Filled(a, start, size) && start + 6 * size < U64
    ensures forall k :: 0 <= k < 6 ==> a[k] == start + k * size
  {
    forall k | 0 <= k < 6
      ensures a[k] == start + k * size
    {
      assert k * size <= 6 * size;
      FilledOffsets(a, start, size, k);
      OffsetNoWrap(start, size, k);
    }
  }

  /** A handle table is either still zero-initialised or filled. */
  ghost predicate Lazy(a: seq<nat>, start: nat, size: nat)
  {
    (forall k :: 0 <= k < |a| ==> a[k] == 0) || Filled(a, start, size)
  }

  /**
   * Writes the six handles of a CBV/SRV/UAV heap, each one the previous
   * plus the increment, as the first and third `ptr == NULL` blocks do.
   */
  method FillTable(a: array<nat>, start: u64, size: u32)
    requires a.Length == 6
    modifies a
    ensures Filled(a[..], start, size)
  {
    var hs := TableHandles(start, size);
    a[0], a[1], a[2], a[3], a[4], a[5] := hs[0], hs[1], hs[2], hs[3], hs[4], hs[5];
    assert a[..] == hs;
  }

  /** The six handles FillTable writes, each the previous plus the increment. */
  method TableHandles(start: u64, size: u32) returns (hs: seq<nat>)
    ensures |hs| == 6 && Filled(hs, start, size)
  {
    hs := [start];
    hs := Extended(hs, start, size);
    hs := Extended(hs, start, size);
    hs := Extended(hs, start, size);
    hs := Extended(hs, start, size);
    hs := Extended(hs, start, size);
  }

  /** One more handle: the last one plus the increment. */
  method Extended(a: seq<nat>, start: u64, size: u32) returns (b: seq<nat>)
    requires |a| > 0 && Filled(a, start, size)
    ensures |b| == |a| + 1 && Filled(b, start, size)
    ensures b[..|a|] == a
  {
    b := a + [Wrap64(a[|a| - 1] + size)];
    assert b[..|a|] == a;
  }

  /** The swap chain as Dispatch sees it: its description and its current back buffer. */
  datatype SwapChain = SwapChain(descOk: bool, width: nat, height: nat, format: Format,
                                 bufferOk: bool, backBuffer: Res)

  /** Does a texture have the swap chain's width, height and format? */
  predicate FitsSwapChain(d: TexDesc, sc: SwapChain)
  {
    d.width == sc.width && d.height == sc.height && d.format == sc.format
  }

  /** The outcome of the device calls in the constructor, in the order they are made. */
  datatype CtorNative = CtorNative(descOk: bool, rootSignatureOk: bool, pipelineOk: bool, constantBufferOk: bool,
                                   commandListsOk: bool, srvHeapOk: bool, rtvHeapOk: bool)

  /** The outcome of the device calls in Dispatch after the checks that keep `_counter`. */
  datatype DispatchNative = DispatchNative(buffer: BufferNative, allocatorResetOk: bool, listResetOk: bool,
                                           mapOk: bool, mapNonNull: bool)

  /**
   * The read buffer slot after Dispatch's own check: a buffer of the swap
   * chain's shape is kept, anything else goes through CreateBufferResource
   * from the back buffer into COPY_DEST.
   */
  function ReadBufferFor(buffer: Res, state: ResourceState, sc: SwapChain, n: BufferNative): (bool, Res, ResourceState)
  {
    if buffer.Res? && FitsSwapChain(buffer.desc, sc) then (true, buffer, state)
    else BufferAfter(true, buffer, state, sc.backBuffer, COPY_DEST, n)
  }

  /**
   * The command list Dispatch submits for read buffer `b` in tracked state
   * `s`: the copy of the back buffer into it, between the transitions.
   */
  function CompareCommands(b: Res, s: ResourceState, back: Res, hudless: Res, state: ResourceState): seq<Command>
  {
    BeforeCopy(b, s, back) + [Copy(b, back)] + AfterCopy(b, back, hudless, state)
  }

  /** What Dispatch records before the copy: the read buffer to COPY_DEST, the back buffer to COPY_SOURCE. */
  function BeforeCopy(b: Res, s: ResourceState, back: Res): seq<Command>
  {
    StateChange(b, s, COPY_DEST) + [Barrier(back, PRESENT, COPY_SOURCE)]
  }
  /**
   * What it records after the copy: the back buffer to RENDER_TARGET, the
   * read buffer and the hudless image to PIXEL_SHADER_RESOURCE, the
   * full-screen triangle, and the back buffer and hudless image back.
   */
  function AfterCopy(b: Res, back: Res, hudless: Res, state: ResourceState): seq<Command>
  {
    [Barrier(back, COPY_SOURCE, RENDER_TARGET),
     Barrier(b, COPY_DEST, PIXEL_SHADER_RESOURCE), Barrier(hudless, state, PIXEL_SHADER_RESOURCE),
     Draw(3), Barrier(back, RENDER_TARGET, PRESENT), Barrier(hudless, PIXEL_SHADER_RESOURCE, state)]
  }
  /** Before the copy the read buffer is in COPY_DEST and the back buffer in COPY_SOURCE. */
  lemma BeforeCopyStates(b: Res, s: ResourceState, back: Res, hudless: Res, state: ResourceState)
    requires b != back && b != hudless && back != hudless
    ensures Replay(BeforeCopy(b, s, back), b, Some(s)) == Some(COPY_DEST)
    ensures Replay(BeforeCopy(b, s, back), back, Some(PRESENT)) == Some(COPY_SOURCE)
    ensures Replay(BeforeCopy(b, s, back), hudless, Some(state)) == Some(state)
  {
    var p0 := StateChange(b, s, COPY_DEST);
    var p1 := [Barrier(back, PRESENT, COPY_SOURCE)];
    ReplayAppend(p0, p1, b, Some(s));
    ReplayAppend(p0, p1, back, Some(PRESENT));
    ReplayAppend(p0, p1, hudless, Some(state));
  }
  lemma AfterCopyRead(b: Res, back: Res, hudless: Res, state: ResourceState)
    requires b != back && b != hudless && back != hudless
    ensures Replay(AfterCopy(b, back, hudless, state), b, Some(COPY_DEST)) == Some(PIXEL_SHADER_RESOURCE)
  {
    var t6: seq<Command> := [];
    var t5 := [Barrier(hudless, PIXEL_SHADER_RESOURCE, state)] + t6;
    var t4 := [Barrier(back, RENDER_TARGET, PRESENT)] + t5;
    var t3 := [Draw(3)] + t4;
    var t2 := [Barrier(hudless, state, PIXEL_SHADER_RESOURCE)] + t3;
    var t1 := [Barrier(b, COPY_DEST, PIXEL_SHADER_RESOURCE)] + t2;
    var t0 := [Barrier(back, COPY_SOURCE, RENDER_TARGET)] + t1;
    assert AfterCopy(b, back, hudless, state) == t0;
    var s0 := Some(COPY_DEST);
    var s1 := Step(Barrier(back, COPY_SOURCE, RENDER_TARGET), b, s0);
    ReplayCons(Barrier(back, COPY_SOURCE, RENDER_TARGET), t1, b, s0);
    var s2 := Step(Barrier(b, COPY_DEST, PIXEL_SHADER_RESOURCE), b, s1);
    ReplayCons(Barrier(b, COPY_DEST, PIXEL_SHADER_RESOURCE), t2, b, s1);
    var s3 := Step(Barrier(hudless, state, PIXEL_SHADER_RESOURCE), b, s2);
    ReplayCons(Barrier(hudless, state, PIXEL_SHADER_RESOURCE), t3, b, s2);
    var s4 := Step(Draw(3), b, s3);
    ReplayCons(Draw(3), t4, b, s3);
    var s5 := Step(Barrier(back, RENDER_TARGET, PRESENT), b, s4);
    ReplayCons(Barrier(back, RENDER_TARGET, PRESENT), t5, b, s4);
    var s6 := Step(Barrier(hudless, PIXEL_SHADER_RESOURCE, state), b, s5);
    ReplayCons(Barrier(hudless, PIXEL_SHADER_RESOURCE, state), t6, b, s5);
  }

  lemma AfterCopyBack(b: Res, back: Res, hudless: Res, state: ResourceState)
    requires b != back && b != hudless && back != hudless
    ensures Replay(AfterCopy(b, back, hudless, state), back, Some(COPY_SOURCE)) == Some(PRESENT)
  {
    var t6: seq<Command> := [];
    var t5 := [Barrier(hudless, PIXEL_SHADER_RESOURCE, state)] + t6;
    var t4 := [Barrier(back, RENDER_TARGET, PRESENT)] + t5;
    var t3 := [Draw(3)] + t4;
    var t2 := [Barrier(hudless, state, PIXEL_SHADER_RESOURCE)] + t3;
    var t1 := [Barrier(b, COPY_DEST, PIXEL_SHADER_RESOURCE)] + t2;
    var t0 := [Barrier(back, COPY_SOURCE, RENDER_TARGET)] + t1;
    assert AfterCopy(b, back, hudless, state) == t0;
    var s0 := Some(COPY_SOURCE);
    var s1 := Step(Barrier(back, COPY_SOURCE, RENDER_TARGET), back, s0);
    ReplayCons(Barrier(back, COPY_SOURCE, RENDER_TARGET), t1, back, s0);
    var s2 := Step(Barrier(b, COPY_DEST, PIXEL_SHADER_RESOURCE), back, s1);
    ReplayCons(Barrier(b, COPY_DEST, PIXEL_SHADER_RESOURCE), t2, back, s1);
    var s3 := Step(Barrier(hudless, state, PIXEL_SHADER_RESOURCE), back, s2);
    ReplayCons(Barrier(hudless, state, PIXEL_SHADER_RESOURCE), t3, back, s2);
    var s4 := Step(Draw(3), back, s3);
    ReplayCons(Draw(3), t4, back, s3);
    var s5 := Step(Barrier(back, RENDER_TARGET, PRESENT), back, s4);
    ReplayCons(Barrier(back, RENDER_TARGET, PRESENT), t5, back, s4);
    var s6 := Step(Barrier(hudless, PIXEL_SHADER_RESOURCE, state), back, s5);
    ReplayCons(Barrier(hudless, PIXEL_SHADER_RESOURCE, state), t6, back, s5);
  }

  lemma AfterCopyHudless(b: Res, back: Res, hudless: Res, state: ResourceState)
    requires b != back && b != hudless && back != hudless
    ensures Replay(AfterCopy(b, back, hudless, state), hudless, Some(state)) == Some(state)
  {
    var t6: seq<Command> := [];
    var t5 := [Barrier(hudless, PIXEL_SHADER_RESOURCE, state)] + t6;
    var t4 := [Barrier(back, RENDER_TARGET, PRESENT)] + t5;
    var t3 := [Draw(3)] + t4;
    var t2 := [Barrier(hudless, state, PIXEL_SHADER_RESOURCE)] + t3;
    var t1 := [Barrier(b, COPY_DEST, PIXEL_SHADER_RESOURCE)] + t2;
    var t0 := [Barrier(back, COPY_SOURCE, RENDER_TARGET)] + t1;
    assert AfterCopy(b, back, hudless, state) == t0;
    var s0 := Some(state);
    var s1 := Step(Barrier(back, COPY_SOURCE, RENDER_TARGET), hudless, s0);
    ReplayCons(Barrier(back, COPY_SOURCE, RENDER_TARGET), t1, hudless, s0);
    var s2 := Step(Barrier(b, COPY_DEST, PIXEL_SHADER_RESOURCE), hudless, s1);
    ReplayCons(Barrier(b, COPY_DEST, PIXEL_SHADER_RESOURCE), t2, hudless, s1);
    var s3 := Step(Barrier(hudless, state, PIXEL_SHADER_RESOURCE), hudless, s2);
    ReplayCons(Barrier(hudless, state, PIXEL_SHADER_RESOURCE), t3, hudless, s2);
    var s4 := Step(Draw(3), hudless, s3);
    ReplayCons(Draw(3), t4, hudless, s3);
    var s5 := Step(Barrier(back, RENDER_TARGET, PRESENT), hudless, s4);
    ReplayCons(Barrier(back, RENDER_TARGET, PRESENT), t5, hudless, s4);
    var s6 := Step(Barrier(hudless, PIXEL_SHADER_RESOURCE, state), hudless, s5);
    ReplayCons(Barrier(hudless, PIXEL_SHADER_RESOURCE, state), t6, hudless, s5);
  }

  /**
   * The submitted list is consistent for each of the three resources when
   * they are distinct: the back buffer leaves PRESENT and returns to it, the
   * hudless image returns to the caller's state, the read buffer ends up
   * readable by the pixel shader; and at the copy the read buffer is in
   * COPY_DEST and the back buffer in COPY_SOURCE.
   */
  lemma CompareCommandsBalanced(b: Res, s: ResourceState, back: Res, hudless: Res, state: ResourceState)
    requires b != back && b != hudless && back != hudless
    ensures var cmds := CompareCommands(b, s, back, hudless, state);
            Replay(cmds, back, Some(PRESENT)) == Some(PRESENT) &&
            Replay(cmds, hudless, Some(state)) == Some(state) &&
            Replay(cmds, b, Some(s)) == Some(PIXEL_SHADER_RESOURCE)
    ensures Replay(BeforeCopy(b, s, back), b, Some(s)) == Some(COPY_DEST) &&
            Replay(BeforeCopy(b, s, back), back, Some(PRESENT)) == Some(COPY_SOURCE)
  {
    var pre := BeforeCopy(b, s, back);
    var post := AfterCopy(b, back, hudless, state);
    var copy := [Copy(b, back)];
    BeforeCopyStates(b, s, back, hudless, state);
    AfterCopyRead(b, back, hudless, state);
    AfterCopyBack(b, back, hudless, state);
    AfterCopyHudless(b, back, hudless, state);
    ReplayAppend(pre + copy, post, back, Some(PRESENT));
    ReplayAppend(pre, copy, back, Some(PRESENT));
    ReplayCons(Copy(b, back), [], back, Some(COPY_SOURCE));
    ReplayAppend(pre + copy, post, hudless, Some(state));
    ReplayAppend(pre, copy, hudless, Some(state));
    ReplayCons(Copy(b, back), [], hudless, Some(state));
    ReplayAppend(pre + copy, post, b, Some(s));
    ReplayAppend(pre, copy, b, Some(s));
    ReplayCons(Copy(b, back), [], b, Some(COPY_DEST));
  }

  /** A descriptor written into one of the heaps. */
  datatype ViewWrite =
    | SrvWrite(handle: nat, res: Res, format: Format)
    | CbvWrite(handle: nat)
    | RtvWrite(handle: nat, res: Res, format: Format)

  class HcDx12 {
    /** `_init`; `_device` is set exactly when the constructor succeeds, so it is this flag too. */
    var init: bool
    /** The render target format the pipeline state was created with, when it was. */
    const pipelineFormat: Option<Format>
    /** The descriptor increments of the CBV/SRV/UAV and RTV heap types. */
    const srvSize: u32
    const rtvSize: u32
    /** The CPU and GPU starts of the 6-entry shader-visible heap and the CPU start of the 2-entry RTV heap. */
    const srvCpuStart: u64
    const srvGpuStart: u64
    const rtvStart: u64
    /** `_counter`: which of the two read buffers, command lists and descriptor pairs is in use. */
    var counter: nat
    /** `_buffer[2]` and `_bufferState[2]`. */
    const buffer: array<Res>
    const bufferState: array<ResourceState>
    /**
     * The CPU handles srv0[0], srv0[1], srv1[0], srv1[1], cbv0[0], cbv0[1],
     * the GPU handles in the same order, and the two RTV handles.
     */
    const cpuHandles: array<nat>
    const gpuHandles: array<nat>
    const rtvHandles: array<nat>

    ghost predicate Valid()
      reads this, cpuHandles, gpuHandles, rtvHandles
    {
      buffer.Length == 2 && bufferState.Length == 2 &&
      cpuHandles.Length == 6 && gpuHandles.Length == 6 && rtvHandles.Length == 2 &&
      cpuHandles != gpuHandles && cpuHandles != rtvHandles && gpuHandles != rtvHandles &&
      buffer as object != bufferState as object &&
      buffer as object != cpuHandles as object && buffer as object != gpuHandles as object &&
      buffer as object != rtvHandles as object &&
      bufferState as object != cpuHandles as object && bufferState as object != gpuHandles as object &&
      bufferState as object != rtvHandles as object &&
      counter < 2 &&
      Lazy(cpuHandles[..], srvCpuStart, srvSize) && Lazy(gpuHandles[..], srvGpuStart, srvSize) &&
      Lazy(rtvHandles[..], rtvStart, rtvSize)
    }

    /** The CPU handle of the `i`-th hudless SRV (register t0). */
    function Srv0(i: nat): nat
      requires Valid() && i < 2
      reads this, cpuHandles, gpuHandles, rtvHandles
    {
      cpuHandles[i]
    }

    /** The CPU handle of the `i`-th read buffer SRV (register t1). */
    function Srv1(i: nat): nat
      requires Valid() && i < 2
      reads this, cpuHandles, gpuHandles, rtvHandles
    {
      cpuHandles[2 + i]
    }

    /** The CPU handle of the `i`-th constant buffer view (register b0). */
    function Cbv0(i: nat): nat
      requires Valid() && i < 2
      reads this, cpuHandles, gpuHandles, rtvHandles
    {
      cpuHandles[4 + i]
    }

    /**
     * The constructor creates, in order, the root signature, the pipeline
     * (whose render target format is the swap chain's, translated), the
     * constant buffer, two command allocators and lists, and the two heaps;
     * the first failure stops it and only a complete run initialises it.
     */
    constructor(scFormat: Format, n: CtorNative, srvIncrement: u32, rtvIncrement: u32,
                srvCpu: u64, srvGpu: u64, rtv: u64)
      ensures Valid() && fresh(buffer) && fresh(bufferState) && fresh(cpuHandles) && fresh(gpuHandles) && fresh(rtvHandles)
      ensures init <==> n.descOk && n.rootSignatureOk && n.pipelineOk && n.constantBufferOk &&
                        n.commandListsOk && n.srvHeapOk && n.rtvHeapOk
      ensures pipelineFormat == (if n.descOk && n.rootSignatureOk && n.pipelineOk
                                 then Some(ViewFormat(scFormat)) else None)
      ensures counter == 0
      ensures buffer[..] == [Null, Null] && bufferState[..] == [COMMON, COMMON]
      ensures cpuHandles[..] == [0, 0, 0, 0, 0, 0] && gpuHandles[..] == [0, 0, 0, 0, 0, 0] && rtvHandles[..] == [0, 0]
      ensures srvSize == srvIncrement && rtvSize == rtvIncrement
      ensures srvCpuStart == srvCpu && srvGpuStart == srvGpu && rtvStart == rtv
    {
      init := n.descOk && n.rootSignatureOk && n.pipelineOk && n.constantBufferOk &&
              n.commandListsOk && n.srvHeapOk && n.rtvHeapOk;
      pipelineFormat := if n.descOk && n.rootSignatureOk && n.pipelineOk then Some(ViewFormat(scFormat)) else None;
      srvSize := srvIncrement;
      rtvSize := rtvIncrement;
      srvCpuStart := srvCpu;
      srvGpuStart := srvGpu;
      rtvStart := rtv;
      counter := 0;
      buffer := new Res[2](_ => Null);
      bufferState := new ResourceState[2](_ => COMMON);
      cpuHandles := new nat[6](_ => 0);
      gpuHandles := new nat[6](_ => 0);
      rtvHandles := new nat[2](_ => 0);
    }

    /** SetBufferState: records a barrier and tracks the new state unless the buffer is already in it. */
    method SetBufferState(index: nat, target: ResourceState) returns (cmds: seq<Command>)
      requires Valid() && index < 2
      modifies bufferState
      ensures Valid()
      ensures cmds == StateChange(buffer[index], old(bufferState[index]), target)
      ensures bufferState[index] == target
      ensures bufferState[1 - index] == old(bufferState[1 - index])
    {
      if bufferState[index] == target {
        return [];
      }
      cmds := [Barrier(buffer[index], bufferState[index], target)];
      bufferState[index] := target;
    }

    /** CreateBufferResource: keep, or release and recreate, read buffer `index` after `source`. */
    method CreateBufferResource(index: nat, device: bool, source: Res, inState: ResourceState, n: BufferNative)
      returns (ok: bool)
      requires Valid() && index < 2
      modifies buffer, bufferState
      ensures Valid()
      ensures (ok, buffer[index], bufferState[index]) ==
              BufferAfter(device, old(buffer[index]), old(bufferState[index]), source, inState, n)
      ensures buffer[1 - index] == old(buffer[1 - index]) && bufferState[1 - index] == old(bufferState[1 - index])
    {
      if !device || source.Null? {
        return false;
      }
      if buffer[index].Res? {
        if !SameShape(buffer[index].desc, source.desc) {
          buffer[index] := Null;
        } else {
          return true;
        }
      }
      if !n.heapPropsOk || !n.createOk {
        buffer[index] := Null;
        return false;
      }
      buffer[index] := Res(n.newId, source.desc.(flags := source.desc.flags | READ_BUFFER_FLAGS));
      bufferState[index] := inState;
      ok := true;
    }

    /** The three `ptr == NULL` blocks of Dispatch: fill each handle table the first time it is needed. */
    method FillHandles()
      requires Valid()
      modifies cpuHandles, gpuHandles, rtvHandles
      ensures Valid()
      ensures Filled(cpuHandles[..], srvCpuStart, srvSize) && Filled(gpuHandles[..], srvGpuStart, srvSize) &&
              Filled(rtvHandles[..], rtvStart, rtvSize)
      ensures old(cpuHandles[0]) != 0 ==> cpuHandles[..] == old(cpuHandles[..])
      ensures old(gpuHandles[0]) != 0 ==> gpuHandles[..] == old(gpuHandles[..])
      ensures old(rtvHandles[0]) != 0 ==> rtvHandles[..] == old(rtvHandles[..])
    {
      if cpuHandles[0] == 0 {
        FillTable(cpuHandles, srvCpuStart, srvSize);
      }
      if rtvHandles[0] == 0 {
        rtvHandles[0] := rtvStart;
        rtvHandles[1] := Wrap64(rtvHandles[0] + rtvSize);
      }
      if gpuHandles[0] == 0 {
        FillTable(gpuHandles, srvGpuStart, srvSize);
      }
    }

    /**
     * The checks Dispatch makes before `_counter` advances: a swap chain, a
     * hudless resource and a successful constructor; the swap chain's
     * description and back buffer; a hudless image of the swap chain's
     * width, height and format.
     */
    predicate Checked(sc: Option<SwapChain>, hudless: Res)
      reads this
    {
      init && sc.Some? && hudless.Res? && sc.value.descOk && sc.value.bufferOk &&
      FitsSwapChain(hudless.desc, sc.value)
    }

    /** Dispatch: compare the hudless image with the current back buffer. */
    method Dispatch(sc: Option<SwapChain>, hudless: Res, state: ResourceState, n: DispatchNative)
      returns (ok: bool, writes: seq<ViewWrite>, submitted: seq<Command>)
      requires Valid()
      modifies this, buffer, bufferState, cpuHandles, gpuHandles, rtvHandles
      ensures Valid()
      ensures !ok ==> submitted == []
      ensures !Checked(sc, hudless) ==>
                !ok && writes == [] && counter == old(counter) &&
                unchanged(buffer, bufferState, cpuHandles, gpuHandles, rtvHandles)
      ensures Checked(sc, hudless) ==> counter == (old(counter) + 1) % 2
      ensures old(cpuHandles[0]) != 0 ==> cpuHandles[..] == old(cpuHandles[..])
      ensures old(gpuHandles[0]) != 0 ==> gpuHandles[..] == old(gpuHandles[..])
      ensures old(rtvHandles[0]) != 0 ==> rtvHandles[..] == old(rtvHandles[..])
      ensures Checked(sc, hudless) ==>
                var r := ReadBufferFor(old(buffer[..])[counter], old(bufferState[..])[counter], sc.value, n.buffer);
                var back := sc.value.backBuffer;
                buffer[1 - counter] == old(buffer[..])[1 - counter] &&
                bufferState[1 - counter] == old(bufferState[..])[1 - counter] &&
                (ok <==> r.0 && n.allocatorResetOk && n.listResetOk && n.mapOk && n.mapNonNull) &&
                buffer[counter] == r.1 &&
                (!(r.0 && n.allocatorResetOk && n.listResetOk) ==>
                   writes == [] && bufferState[counter] == r.2 &&
                   cpuHandles[..] == old(cpuHandles[..]) && gpuHandles[..] == old(gpuHandles[..]) &&
                   rtvHandles[..] == old(rtvHandles[..])) &&
                (r.0 && n.allocatorResetOk && n.listResetOk && !(n.mapOk && n.mapNonNull) ==> |writes| == 4) &&
                (r.0 && n.allocatorResetOk && n.listResetOk ==>
                   bufferState[counter] == PIXEL_SHADER_RESOURCE &&
                   Filled(cpuHandles[..], srvCpuStart, srvSize) && Filled(gpuHandles[..], srvGpuStart, srvSize) &&
                   Filled(rtvHandles[..], rtvStart, rtvSize) &&
                   |writes| >= 4 && writes[..4] == [SrvWrite(Srv0(counter), hudless, ViewFormat(hudless.desc.format)),
                                   SrvWrite(Srv1(counter), r.1, ViewFormat(sc.value.format)),
                                   CbvWrite(Cbv0(counter)),
                                   RtvWrite(rtvHandles[counter], back, ViewFormat(sc.value.format))]) &&
                (ok ==> |writes| == 5 && writes[4] == CbvWrite(Cbv0(counter)) &&
                        submitted == CompareCommands(r.1, r.2, back, hudless, state))
    {
      if sc.None? || hudless.Null? || !init {
        return false, [], [];
      }
      var swapChain := sc.value;
      if !swapChain.descOk || !swapChain.bufferOk || !FitsSwapChain(hudless.desc, swapChain) {
        return false, [], [];
      }
      counter := (counter + 1) % 2;
      ok, writes, submitted := Compare(counter, swapChain, hudless, state, n);
    }

    /** The check of read buffer `c` against the swap chain, recreating it when it does not fit. */
    method EnsureReadBuffer(c: nat, sc: SwapChain, n: BufferNative) returns (ok: bool)
      requires Valid() && c < 2
      modifies buffer, bufferState
      ensures Valid()
      ensures (ok, buffer[c], bufferState[c]) == ReadBufferFor(old(buffer[c]), old(bufferState[c]), sc, n)
      ensures buffer[1 - c] == old(buffer[1 - c]) && bufferState[1 - c] == old(bufferState[1 - c])
    {
      ok := true;
      if buffer[c].Null? || !FitsSwapChain(buffer[c].desc, sc) {
        ok := CreateBufferResource(c, true, sc.backBuffer, COPY_DEST, n);
      }
    }

    /** Dispatch once `_counter` has advanced to `c`: the read buffer, the recorded copy and draw, the views. */
    method Compare(c: nat, sc: SwapChain, hudless: Res, state: ResourceState, n: DispatchNative)
      returns (ok: bool, writes: seq<ViewWrite>, submitted: seq<Command>)
      requires Valid() && c == counter && hudless.Res?
      modifies buffer, bufferState, cpuHandles, gpuHandles, rtvHandles
      ensures Valid()
      ensures !ok ==> submitted == []
      ensures old(cpuHandles[0]) != 0 ==> cpuHandles[..] == old(cpuHandles[..])
      ensures old(gpuHandles[0]) != 0 ==> gpuHandles[..] == old(gpuHandles[..])
      ensures old(rtvHandles[0]) != 0 ==> rtvHandles[..] == old(rtvHandles[..])
      ensures
                var r := ReadBufferFor(old(buffer[c]), old(bufferState[c]), sc, n.buffer);
                var back := sc.backBuffer;
                buffer[1 - c] == old(buffer[1 - c]) &&
                bufferState[1 - c] == old(bufferState[1 - c]) &&
                (ok <==> r.0 && n.allocatorResetOk && n.listResetOk && n.mapOk && n.mapNonNull) &&
                buffer[c] == r.1 &&
                (!(r.0 && n.allocatorResetOk && n.listResetOk) ==>
                   writes == [] && bufferState[c] == r.2 &&
                   cpuHandles[..] == old(cpuHandles[..]) && gpuHandles[..] == old(gpuHandles[..]) &&
                   rtvHandles[..] == old(rtvHandles[..])) &&
                (r.0 && n.allocatorResetOk && n.listResetOk && !(n.mapOk && n.mapNonNull) ==> |writes| == 4) &&
                (r.0 && n.allocatorResetOk && n.listResetOk ==>
                   bufferState[c] == PIXEL_SHADER_RESOURCE &&
                   Filled(cpuHandles[..], srvCpuStart, srvSize) && Filled(gpuHandles[..], srvGpuStart, srvSize) &&
                   Filled(rtvHandles[..], rtvStart, rtvSize) &&
                   |writes| >= 4 && writes[..4] == [SrvWrite(Srv0(c), hudless, ViewFormat(hudless.desc.format)),
                                   SrvWrite(Srv1(c), r.1, ViewFormat(sc.format)),
                                   CbvWrite(Cbv0(c)),
                                   RtvWrite(rtvHandles[c], back, ViewFormat(sc.format))]) &&
                (ok ==> |writes| == 5 && writes[4] == CbvWrite(Cbv0(c)) &&
                        submitted == CompareCommands(r.1, r.2, back, hudless, state))
    {
      var back := sc.backBuffer;
      var ready := EnsureReadBuffer(c, sc, n.buffer);
      if !ready {
        return false, [], [];
      }
      if !n.allocatorResetOk || !n.listResetOk {
        return false, [], [];
      }
      var recorded := RecordCopy(c, back, hudless, state);

      FillHandles();
      writes := [SrvWrite(cpuHandles[c], hudless, ViewFormat(hudless.desc.format)),
                 SrvWrite(cpuHandles[2 + c], buffer[c], ViewFormat(sc.format)),
                 CbvWrite(cpuHandles[4 + c]),
                 RtvWrite(rtvHandles[c], back, ViewFormat(sc.format))];
      if !n.mapOk || !n.mapNonNull {
        return false, writes, [];
      }
      writes := writes + [CbvWrite(cpuHandles[4 + c])];
      submitted := recorded + [Draw(3), Barrier(back, RENDER_TARGET, PRESENT), Barrier(hudless, PIXEL_SHADER_RESOURCE, state)];
      ok := true;
    }

    /** The copy of the back buffer into read buffer `c` and the transitions before the draw. */
    method RecordCopy(c: nat, back: Res, hudless: Res, state: ResourceState) returns (cmds: seq<Command>)
      requires Valid() && c < 2
      modifies bufferState
      ensures Valid()
      ensures bufferState[c] == PIXEL_SHADER_RESOURCE && bufferState[1 - c] == old(bufferState[1 - c])
      ensures cmds + [Draw(3), Barrier(back, RENDER_TARGET, PRESENT), Barrier(hudless, PIXEL_SHADER_RESOURCE, state)] ==
              CompareCommands(buffer[c], old(bufferState[c]), back, hudless, state)
    {
      var toCopy := SetBufferState(c, COPY_DEST);
      var toRead := SetBufferState(c, PIXEL_SHADER_RESOURCE);
      cmds := toCopy + [Barrier(back, PRESENT, COPY_SOURCE), Copy(buffer[c], back),
                        Barrier(back, COPY_SOURCE, RENDER_TARGET)] + toRead +
              [Barrier(hudless, state, PIXEL_SHADER_RESOURCE)];
    }
  }

}
