/**
 * The Direct3D 11 CMAA2 anti-aliasing pass: the format rules that choose
 * the views of the colour buffer, the sizes of the intermediate buffers, the
 * cache that decides when those buffers are rebuilt, the shader-macro
 * choice and the dispatch sequence.
 *
 * Device objects are reduced to what the code compares: the source texture
 * is an identity (0 for null), views record their format, buffers their
 * description. The outcome of each device call is a parameter.
 */
module Cmaa2Dx11 {
  import opened Wrappers
  import opened Machine
  import opened Dxgi

  // ---- format helpers ----

  /** The seven typeless formats TranslateTypelessFormat resolves. */
  predicate ResolvedTypeless(f: Format)
  {
    f == R32G32B32A32_TYPELESS || f == R32G32_TYPELESS || f == R16G16B16A16_TYPELESS || f == R16G16_TYPELESS ||
    f == R10G10B10A2_TYPELESS || f == R8G8B8A8_TYPELESS || f == B8G8R8A8_TYPELESS
  }

  function TranslateTypelessFormat(f: Format): (r: Format)
  {
    if f == R32G32B32A32_TYPELESS then R32G32B32A32_FLOAT
    else if f == R32G32_TYPELESS then R32G32_FLOAT
    else if f == R16G16B16A16_TYPELESS then R16G16B16A16_FLOAT
    else if f == R16G16_TYPELESS then R16G16_FLOAT
    else if f == R11G11B10_FLOAT then R11G11B10_FLOAT
    else if f == R10G10B10A2_TYPELESS then R10G10B10A2_UNORM
    else if f == R8G8B8A8_TYPELESS then R8G8B8A8_UNORM
    else if f == B8G8R8A8_TYPELESS then B8G8R8A8_UNORM
    else f
  }

  /**
   * TranslateTypelessFormat changes exactly the seven resolved typeless
   * formats, never yields one of them, and is therefore idempotent.
   */
  lemma TranslateTypelessExactly(f: Format)
    ensures TranslateTypelessFormat(f) != f <==> ResolvedTypeless(f)
    ensures !ResolvedTypeless(TranslateTypelessFormat(f))
    ensures TranslateTypelessFormat(TranslateTypelessFormat(f)) == TranslateTypelessFormat(f)
  {
  }

  predicate IsSRGB(f: Format)
  {
    f == R8G8B8A8_UNORM_SRGB || f == B8G8R8A8_UNORM_SRGB || f == B8G8R8X8_UNORM_SRGB
  }

  /** StripSRGB changes exactly the sRGB formats and never yields one. */
  function StripSRGB(f: Format): (r: Format)
    ensures r != f <==> IsSRGB(f)
    ensures !IsSRGB(r)
  {
    if f == R8G8B8A8_UNORM_SRGB then R8G8B8A8_UNORM
    else if f == B8G8R8A8_UNORM_SRGB then B8G8R8A8_UNORM
    else if f == B8G8R8X8_UNORM_SRGB then B8G8R8X8_UNORM
    else f
  }

  /** The float formats of this pass; unlike the SMAA helpers it counts R11G11B10 and not R32G32B32. */
  predicate IsFloatFormat(f: Format)
  {
    f == R16G16B16A16_FLOAT || f == R11G11B10_FLOAT || f == R32G32B32A32_FLOAT
  }

  // ---- input views ----

  /** CMAA2_Dx11::ShaderConfig. */
  datatype ShaderConfig = ShaderConfig(
    colorFormat: Format, srvFormat: Format, uavFormat: Format,
    typedStore: bool, typedStoreIsUnorm: bool, convertToSRGB: bool, hdrInput: bool,
    untypedStoreMode: u32, sampleCount: u32)

  /** `ShaderConfig{}`. */
  const DEFAULT_CONFIG := ShaderConfig(UNKNOWN, UNKNOWN, UNKNOWN, false, false, false, false, 0, 1)

  /** The configuration UpdateInputViews writes and whether it accepts the format. */
  datatype ViewChoice = ViewChoice(config: ShaderConfig, ok: bool)

  /**
   * CheckUAVTypedStoreFormatSupport: UNKNOWN is never supported; for any
   * other format the device answers (both the typed-UAV and the
   * typed-store capability bits).
   */
  predicate TypedStoreSupported(uavFormat: Format, deviceSupports: bool)
  {
    uavFormat != UNKNOWN && deviceSupports
  }

  /** The format decision of UpdateInputViews for a colour buffer of `format`. */
  function ChooseViews(format: Format, sampleCount: u32, deviceSupports: bool): ViewChoice
  {
    var srv := TranslateTypelessFormat(format);
    var isSrgb := IsSRGB(srv);
    var uav := if isSrgb then StripSRGB(srv) else srv;
    var base := DEFAULT_CONFIG.(colorFormat := format, sampleCount := sampleCount);
    if TypedStoreSupported(uav, deviceSupports) then
      ViewChoice(base.(typedStore := true, convertToSRGB := false, typedStoreIsUnorm := !IsFloatFormat(uav),
                       hdrInput := IsFloatFormat(srv), srvFormat := srv, uavFormat := uav), true)
    else
      var partial := base.(typedStore := false, convertToSRGB := isSrgb);
      var stripped := StripSRGB(srv);
      if stripped == R8G8B8A8_UNORM then
        ViewChoice(partial.(untypedStoreMode := 1, hdrInput := IsFloatFormat(srv), srvFormat := srv, uavFormat := R32_UINT), true)
      else if stripped == R10G10B10A2_UNORM then
        ViewChoice(partial.(untypedStoreMode := 2, hdrInput := IsFloatFormat(srv), srvFormat := srv, uavFormat := R32_UINT), true)
      else
        ViewChoice(partial, false)
  }

  /**
   * With typed UAV stores the UAV uses the resolved format without sRGB,
   * the store is unorm exactly when that format is not float, and no sRGB
   * conversion is done in the shader.
   */
  lemma TypedStorePath(format: Format, sampleCount: u32, deviceSupports: bool)
    requires TypedStoreSupported(StripSRGB(TranslateTypelessFormat(format)), deviceSupports)
    ensures var c := ChooseViews(format, sampleCount, deviceSupports);
            var srv := TranslateTypelessFormat(format);
            c.ok && c.config.typedStore && !c.config.convertToSRGB &&
            c.config.srvFormat == srv && c.config.uavFormat == StripSRGB(srv) && !IsSRGB(c.config.uavFormat) &&
            c.config.typedStoreIsUnorm == !IsFloatFormat(StripSRGB(srv)) &&
            c.config.untypedStoreMode == 0 && c.config.hdrInput == IsFloatFormat(srv) &&
            c.config.colorFormat == format && c.config.sampleCount == sampleCount
  {
  }

  /**
   * Without typed UAV stores the UAV is R32_UINT and the shader packs the
   * colour itself: mode 1 for RGBA8, mode 2 for RGB10A2 (after stripping
   * sRGB), converting to sRGB when the source was sRGB; every other format
   * is refused.
   */
  lemma UntypedStorePath(format: Format, sampleCount: u32, deviceSupports: bool)
    requires !TypedStoreSupported(StripSRGB(TranslateTypelessFormat(format)), deviceSupports)
    ensures var c := ChooseViews(format, sampleCount, deviceSupports);
            var srv := TranslateTypelessFormat(format);
            (c.ok <==> StripSRGB(srv) == R8G8B8A8_UNORM || StripSRGB(srv) == R10G10B10A2_UNORM) &&
            !c.config.typedStore && c.config.convertToSRGB == IsSRGB(srv) &&
            (c.ok ==> c.config.uavFormat == R32_UINT && c.config.srvFormat == srv &&
                      c.config.hdrInput == IsFloatFormat(srv) &&
                      c.config.untypedStoreMode == (if StripSRGB(srv) == R8G8B8A8_UNORM then 1 else 2))
  {
  }

  /** An sRGB RGBA8 buffer on a device without typed stores is packed as mode 1 and converted. */
  lemma SrgbWithoutTypedStore(sampleCount: u32)
    ensures var c := ChooseViews(R8G8B8A8_UNORM_SRGB, sampleCount, false);
            c.ok && c.config.untypedStoreMode == 1 && c.config.convertToSRGB && !c.config.hdrInput
  {
  }

  // ---- buffers and their views ----

  const MISC_DRAWINDIRECT_ARGS: bv32 := 0x10
  const MISC_BUFFER_ALLOW_RAW_VIEWS: bv32 := 0x20
  const MISC_BUFFER_STRUCTURED: bv32 := 0x40
  const BUFFER_UAV_FLAG_RAW: bv32 := 0x1

  /** The fields of D3D11_BUFFER_DESC the pass sets (usage and bind flags are fixed). */
  datatype BufferDesc = BufferDesc(byteWidth: u32, miscFlags: bv32, stride: u32)

  /** A buffer together with its UAV's format, flags and element count. */
  datatype BufferView = BufferView(desc: BufferDesc, uavFormat: Format, uavFlags: bv32, elements: nat)

  predicate Raw(d: BufferDesc) { d.miscFlags & MISC_BUFFER_ALLOW_RAW_VIEWS != 0 }
  predicate Structured(d: BufferDesc) { d.miscFlags & MISC_BUFFER_STRUCTURED != 0 }

  /** A structured buffer (that is not also raw) is divided by its stride, which must be nonzero. */
  predicate Viewable(d: BufferDesc)
  {
    Raw(d) || !Structured(d) || d.stride > 0
  }

  /** The UAV CreateBufferAndViews describes for a buffer. */
  function ViewOf(d: BufferDesc, uavFlags: bv32): (v: BufferView)
    requires Viewable(d)
    ensures v.desc == d
  {
    if Raw(d) then BufferView(d, R32_TYPELESS, BUFFER_UAV_FLAG_RAW | uavFlags, d.byteWidth / 4)
    else if Structured(d) then BufferView(d, UNKNOWN, uavFlags, d.byteWidth / d.stride)
    else BufferView(d, R32_UINT, uavFlags, d.byteWidth / 4)
  }

  /** The element size the view divides by: 4 bytes, or the structure stride. */
  function ElementSize(d: BufferDesc): nat
    requires Viewable(d)
  {
    if !Raw(d) && Structured(d) then d.stride else 4
  }

  /**
   * The view covers every whole element of the buffer and nothing past
   * its end; a raw view is always flagged raw.
   */
  lemma ViewCoversBuffer(d: BufferDesc, uavFlags: bv32)
    requires Viewable(d)
    ensures var v := ViewOf(d, uavFlags);
            v.elements * ElementSize(d) <= d.byteWidth < (v.elements + 1) * ElementSize(d)
    ensures Raw(d) ==> ViewOf(d, uavFlags).uavFlags & BUFFER_UAV_FLAG_RAW != 0
  {
    var v := ViewOf(d, uavFlags);
    var e := ElementSize(d);
    assert v.elements == d.byteWidth / e;
    DivBounds(d.byteWidth, e);
  }

  lemma DivBounds(a: nat, b: nat)
    requires b > 0
    ensures (a / b) * b <= a < (a / b + 1) * b
  {
  }

  /**
   * CreateBufferAndViews: the buffer and its view are assigned to the
   * outputs only when both device calls succeed; otherwise the outputs
   * keep what they held.
   */
  function CreateBufferAndViews(d: BufferDesc, uavFlags: bv32, bufferOk: bool, viewOk: bool,
                                prior: Option<BufferView>): (r: Option<BufferView>)
    requires Viewable(d)
    ensures r == prior || (bufferOk && viewOk)
    ensures bufferOk && viewOk ==> r.Some? && r.value.desc == d
  {
    if bufferOk && viewOk then Some(ViewOf(d, uavFlags)) else prior
  }

  // ---- intermediate resources ----

  datatype Texture2D = Texture2D(width: u32, height: u32, format: Format)

  /** The seven intermediate resources, in creation order. */
  datatype Layout = Layout(
    edges: Texture2D, heads: Texture2D,
    candidates: BufferDesc, deferredItems: BufferDesc, deferredLocation: BufferDesc,
    dispatchArgs: BufferDesc, control: BufferDesc)

  function Max1(x: nat): (r: nat)
    ensures r >= 1 && r >= x && (x >= 1 ==> r == x)
  {
    if x < 1 then 1 else x
  }

  /**
   * The sizes EnsureIntermediateResources requests, in 32-bit UINT
   * arithmetic. `packHalfWidth` is the shader's
   * CMAA_PACK_SINGLE_SAMPLE_EDGE_TO_HALF_WIDTH switch.
   */
  function IntermediateLayout(w: u32, h: u32, sampleCount: u32, packHalfWidth: bool): (l: Layout)
    ensures Viewable(l.candidates) && Viewable(l.deferredItems) && Viewable(l.deferredLocation)
    ensures Raw(l.dispatchArgs) && Raw(l.control)
  {
    var packed := if packHalfWidth && sampleCount == 1 then Wrap32(w + 1) / 2 else w;
    var wh := Wrap32(w * h);
    var candidatePixels := Max1(wh / 4);
    var deferredApply := Max1(wh / 2);
    var listHeads := Max1(Wrap32(wh + 3) / 6);
    Layout(
      Texture2D(packed, h, R8_UINT),
      Texture2D(Wrap32(w + 1) / 2, Wrap32(h + 1) / 2, R32_UINT),
      BufferDesc(Wrap32(Max1(candidatePixels) * 4), MISC_BUFFER_STRUCTURED, 4),
      BufferDesc(Wrap32(Max1(deferredApply) * 4 * 2), MISC_BUFFER_STRUCTURED, 8),
      BufferDesc(Wrap32(Max1(listHeads) * 4), MISC_BUFFER_STRUCTURED, 4),
      BufferDesc(16, MISC_BUFFER_ALLOW_RAW_VIEWS | MISC_DRAWINDIRECT_ARGS, 0),
      BufferDesc(16, MISC_BUFFER_ALLOW_RAW_VIEWS, 0))
  }

  lemma HalfUp(x: nat)
    requires x + 1 < U32
    ensures Wrap32(x + 1) / 2 == (x + 1) / 2 && 2 * ((x + 1) / 2) >= x
  {
  }

  lemma WorkingBufferBytes(wh: nat)
    requires 4 * wh + 8 < U32
    ensures Wrap32(Max1(Max1(wh / 4)) * 4) == 4 * Max1(wh / 4)
    ensures Wrap32(Max1(Max1(wh / 2)) * 4 * 2) == 8 * Max1(wh / 2)
    ensures Wrap32(Max1(Max1(Wrap32(wh + 3) / 6)) * 4) == 4 * Max1((wh + 3) / 6)
  {
    assert Max1(wh / 4) <= wh + 1;
    assert Max1(wh / 2) <= wh + 1;
    assert Wrap32(wh + 3) == wh + 3;
    assert Max1((wh + 3) / 6) <= wh + 1;
  }

  /**
   * For a buffer whose sizes do not wrap: the heads texture is the
   * half-size rounded up, and the three working buffers hold at least one
   * element and exactly max(1, wh/4) UINTs, max(1, wh/2) 8-byte items and
   * max(1, (wh+3)/6) UINTs.
   */
  lemma LayoutSizes(w: u32, h: u32, sampleCount: u32, packHalfWidth: bool)
    requires w + 1 < U32 && h + 1 < U32 && 4 * (w * h) + 8 < U32
    ensures var l := IntermediateLayout(w, h, sampleCount, packHalfWidth);
            l.heads.width == (w + 1) / 2 && 2 * l.heads.width >= w && l.heads.height == (h + 1) / 2 &&
            l.candidates.byteWidth == 4 * Max1(w * h / 4) &&
            l.deferredItems.byteWidth == 8 * Max1(w * h / 2) &&
            l.deferredLocation.byteWidth == 4 * Max1((w * h + 3) / 6) &&
            l.dispatchArgs.byteWidth == 16 && l.control.byteWidth == 16
  {
    HalfUp(w);
    HalfUp(h);
    var wh := w * h;
    assert Wrap32(w * h) == wh;
    WorkingBufferBytes(wh);
  }

  /** Every element count of the working buffers is at least one. */
  lemma LayoutViewsNonEmpty(w: u32, h: u32, sampleCount: u32, packHalfWidth: bool)
    requires w + 1 < U32 && h + 1 < U32 && 4 * (w * h) + 8 < U32
    ensures var l := IntermediateLayout(w, h, sampleCount, packHalfWidth);
            ViewOf(l.candidates, 0).elements >= 1 && ViewOf(l.deferredItems, 0).elements >= 1 &&
            ViewOf(l.deferredLocation, 0).elements >= 1 &&
            ViewOf(l.dispatchArgs, BUFFER_UAV_FLAG_RAW).elements == 4 && ViewOf(l.control, BUFFER_UAV_FLAG_RAW).elements == 4
  {
    LayoutSizes(w, h, sampleCount, packHalfWidth);
  }

  // ---- shaders ----

  datatype Kernel = EdgesColor2x2 | ProcessCandidates | DeferredColorApply2x2 | ComputeDispatchArgs | DebugDrawEdges

  /** The kernels, in the order CompileShaders compiles them. */
  const KERNELS: seq<Kernel> := [EdgesColor2x2, ProcessCandidates, DeferredColorApply2x2, ComputeDispatchArgs, DebugDrawEdges]

  /** The kernels that exist after the first `n` compilations succeed (the chain stops at a failure). */
  function CompiledKernels(n: nat): (ks: set<Kernel>)
    ensures n >= |KERNELS| ==> ks == set k | k in KERNELS
    ensures forall k :: k in ks <==> exists i :: 0 <= i < n && i < |KERNELS| && KERNELS[i] == k
  {
    set i | 0 <= i < n && i < |KERNELS| :: KERNELS[i]
  }

  function DecimalString(n: nat): string
  {
    if n < 10 then [('0' as int + n) as char] else DecimalString(n / 10) + [('0' as int + n % 10) as char]
  }

  function Flag(b: bool): string { if b then "1" else "0" }

  const COMMON_MACROS: seq<(string, string)> :=
    [("CMAA2_STATIC_QUALITY_PRESET", "2"), ("CMAA2_EXTRA_SHARPNESS", "0"), ("CMAA_MSAA_SAMPLE_COUNT", "1")]

  function StoreMacros(c: ShaderConfig): seq<(string, string)>
  {
    if c.typedStore then
      [("CMAA2_UAV_STORE_TYPED", "1"), ("CMAA2_UAV_STORE_TYPED_UNORM_FLOAT", Flag(c.typedStoreIsUnorm)),
       ("CMAA2_UAV_STORE_CONVERT_TO_SRGB", "0")]
    else
      [("CMAA2_UAV_STORE_TYPED", "0"), ("CMAA2_UAV_STORE_CONVERT_TO_SRGB", Flag(c.convertToSRGB)),
       ("CMAA2_UAV_STORE_TYPED_UNORM_FLOAT", "0"), ("CMAA2_UAV_STORE_UNTYPED_FORMAT", DecimalString(c.untypedStoreMode))]
  }

  function TailMacros(c: ShaderConfig): seq<(string, string)>
  {
    [("CMAA2_SUPPORT_HDR_COLOR_RANGE", Flag(c.hdrInput)), ("CMAA2_EDGE_DETECTION_LUMA_PATH", "1")]
  }

  /** The preprocessor definitions CompileShaders passes, in order. */
  function Macros(c: ShaderConfig): seq<(string, string)>
  {
    COMMON_MACROS + StoreMacros(c) + TailMacros(c)
  }

  /** The value of the first definition of `name`. */
  function Lookup(ms: seq<(string, string)>, name: string): Option<string>
  {
    if ms == [] then None else if ms[0].0 == name then Some(ms[0].1) else Lookup(ms[1..], name)
  }

  lemma {:induction false} LookupAppend(a: seq<(string, string)>, b: seq<(string, string)>, name: string)
    ensures Lookup(a + b, name) == if Lookup(a, name).Some? then Lookup(a, name) else Lookup(b, name)
  {
    if a == [] {
      assert a + b == b;
    } else {
      assert (a + b)[0] == a[0];
      assert (a + b)[1..] == a[1..] + b;
      LookupAppend(a[1..], b, name);
    }
  }

  /** A name defined at none of the entries has no value. */
  lemma {:induction false} LookupAbsent(ms: seq<(string, string)>, name: string)
    requires forall i :: 0 <= i < |ms| ==> ms[i].0 != name
    ensures Lookup(ms, name).None?
  {
    if ms != [] {
      LookupAbsent(ms[1..], name);
    }
  }

  /** The first entry with the name gives its value. */
  lemma {:induction false} LookupAt(ms: seq<(string, string)>, name: string, k: nat)
    requires k < |ms| && ms[k].0 == name
    requires forall i :: 0 <= i < k ==> ms[i].0 != name
    ensures Lookup(ms, name) == Some(ms[k].1)
  {
    if k > 0 {
      LookupAt(ms[1..], name, k - 1);
    }
  }

  /** Lookup in the full list, from the lookups in its three parts. */
  lemma MacroLookup(c: ShaderConfig, name: string)
    ensures Lookup(Macros(c), name) ==
              if Lookup(COMMON_MACROS, name).Some? then Lookup(COMMON_MACROS, name)
              else if Lookup(StoreMacros(c), name).Some? then Lookup(StoreMacros(c), name)
              else Lookup(TailMacros(c), name)
  {
    LookupAppend(COMMON_MACROS + StoreMacros(c), TailMacros(c), name);
    LookupAppend(COMMON_MACROS, StoreMacros(c), name);
  }

  /** None of the store or HDR switches is among the common definitions. */
  lemma CommonLookups()
    ensures Lookup(COMMON_MACROS, "CMAA2_UAV_STORE_TYPED").None?
    ensures Lookup(COMMON_MACROS, "CMAA2_UAV_STORE_TYPED_UNORM_FLOAT").None?
    ensures Lookup(COMMON_MACROS, "CMAA2_UAV_STORE_CONVERT_TO_SRGB").None?
    ensures Lookup(COMMON_MACROS, "CMAA2_UAV_STORE_UNTYPED_FORMAT").None?
    ensures Lookup(COMMON_MACROS, "CMAA2_SUPPORT_HDR_COLOR_RANGE").None?
  {
    LookupAbsent(COMMON_MACROS, "CMAA2_UAV_STORE_TYPED");
    LookupAbsent(COMMON_MACROS, "CMAA2_UAV_STORE_TYPED_UNORM_FLOAT");
    LookupAbsent(COMMON_MACROS, "CMAA2_UAV_STORE_CONVERT_TO_SRGB");
    LookupAbsent(COMMON_MACROS, "CMAA2_UAV_STORE_UNTYPED_FORMAT");
    LookupAbsent(COMMON_MACROS, "CMAA2_SUPPORT_HDR_COLOR_RANGE");
  }

  /** The HDR switch is defined in the tail only, from the configuration. */
  lemma TailLookups(c: ShaderConfig)
    ensures Lookup(StoreMacros(c), "CMAA2_SUPPORT_HDR_COLOR_RANGE").None?
    ensures Lookup(TailMacros(c), "CMAA2_UAV_STORE_UNTYPED_FORMAT").None?
    ensures Lookup(TailMacros(c), "CMAA2_SUPPORT_HDR_COLOR_RANGE") == Some(Flag(c.hdrInput))
  {
    LookupAbsent(StoreMacros(c), "CMAA2_SUPPORT_HDR_COLOR_RANGE");
    LookupAbsent(TailMacros(c), "CMAA2_UAV_STORE_UNTYPED_FORMAT");
    LookupAt(TailMacros(c), "CMAA2_SUPPORT_HDR_COLOR_RANGE", 0);
  }

  /** The values the store definitions give for either store path. */
  lemma StoreLookups(c: ShaderConfig)
    ensures Lookup(StoreMacros(c), "CMAA2_UAV_STORE_TYPED") == Some(Flag(c.typedStore))
    ensures Lookup(StoreMacros(c), "CMAA2_UAV_STORE_TYPED_UNORM_FLOAT") == Some(Flag(c.typedStore && c.typedStoreIsUnorm))
    ensures Lookup(StoreMacros(c), "CMAA2_UAV_STORE_CONVERT_TO_SRGB") == Some(Flag(!c.typedStore && c.convertToSRGB))
    ensures Lookup(StoreMacros(c), "CMAA2_UAV_STORE_UNTYPED_FORMAT") ==
              if c.typedStore then None else Some(DecimalString(c.untypedStoreMode))
  {
    var s := StoreMacros(c);
    LookupAt(s, "CMAA2_UAV_STORE_TYPED", 0);
    if c.typedStore {
      LookupAt(s, "CMAA2_UAV_STORE_TYPED_UNORM_FLOAT", 1);
      LookupAt(s, "CMAA2_UAV_STORE_CONVERT_TO_SRGB", 2);
      LookupAbsent(s, "CMAA2_UAV_STORE_UNTYPED_FORMAT");
    } else {
      LookupAt(s, "CMAA2_UAV_STORE_CONVERT_TO_SRGB", 1);
      LookupAt(s, "CMAA2_UAV_STORE_TYPED_UNORM_FLOAT", 2);
      LookupAt(s, "CMAA2_UAV_STORE_UNTYPED_FORMAT", 3);
    }
  }

  /**
   * The store macros follow the configuration: typed store on exactly when
   * chosen, the unorm flag only with typed stores, sRGB conversion only
   * without, the untyped format defined only without typed stores, and HDR
   * from the input format.
   */
  lemma MacrosFollowConfig(c: ShaderConfig)
    ensures Lookup(Macros(c), "CMAA2_UAV_STORE_TYPED") == Some(Flag(c.typedStore))
    ensures Lookup(Macros(c), "CMAA2_UAV_STORE_TYPED_UNORM_FLOAT") == Some(Flag(c.typedStore && c.typedStoreIsUnorm))
    ensures Lookup(Macros(c), "CMAA2_UAV_STORE_CONVERT_TO_SRGB") == Some(Flag(!c.typedStore && c.convertToSRGB))
    ensures Lookup(Macros(c), "CMAA2_UAV_STORE_UNTYPED_FORMAT") ==
              if c.typedStore then None else Some(DecimalString(c.untypedStoreMode))
    ensures Lookup(Macros(c), "CMAA2_SUPPORT_HDR_COLOR_RANGE") == Some(Flag(c.hdrInput))
  {
    CommonLookups();
    TailLookups(c);
    StoreLookups(c);
    MacroLookup(c, "CMAA2_UAV_STORE_TYPED");
    MacroLookup(c, "CMAA2_UAV_STORE_TYPED_UNORM_FLOAT");
    MacroLookup(c, "CMAA2_UAV_STORE_CONVERT_TO_SRGB");
    MacroLookup(c, "CMAA2_UAV_STORE_UNTYPED_FORMAT");
    MacroLookup(c, "CMAA2_SUPPORT_HDR_COLOR_RANGE");
  }

  /** The untyped store modes the pass chooses are spelled "1" and "2". */
  lemma StoreModeSpelling()
    ensures DecimalString(0) == "0" && DecimalString(1) == "1" && DecimalString(2) == "2"
  {
  }

  // ---- the pass ----

  /** What the source texture's description reports. */
  datatype SourceDesc = SourceDesc(width: u32, height: u32, format: Format, sampleCount: u32)

  /** The resources CreateBufferResources builds; ReleaseIntermediates drops them all. */
  datatype Intermediates = Intermediates(
    inOutSRV: Option<Format>, inOutUAV: Option<Format>,
    edges: Option<Texture2D>, heads: Option<Texture2D>,
    candidates: Option<BufferView>, deferredItems: Option<BufferView>, deferredLocation: Option<BufferView>,
    dispatchArgs: Option<BufferView>, control: Option<BufferView>,
    kernels: set<Kernel>)

  const NO_INTERMEDIATES := Intermediates(None, None, None, None, None, None, None, None, None, {})

  /**
   * The intermediates after the first `n` of the seven creations succeed.
   * The five buffers go through CreateBufferAndViews; a buffer creation and
   * its view's count as one creation, so the k-th succeeds when `n > k`.
   */
  function Created(v: Intermediates, l: Layout, n: nat): Intermediates
    requires Viewable(l.candidates) && Viewable(l.deferredItems) && Viewable(l.deferredLocation)
    requires Raw(l.dispatchArgs) && Raw(l.control)
  {
    var v1 := if n > 0 then v.(edges := Some(l.edges)) else v;
    var v2 := if n > 1 then v1.(heads := Some(l.heads)) else v1;
    var v3 := v2.(candidates := CreateBufferAndViews(l.candidates, 0, n > 2, true, v2.candidates));
    var v4 := v3.(deferredItems := CreateBufferAndViews(l.deferredItems, 0, n > 3, true, v3.deferredItems));
    var v5 := v4.(deferredLocation := CreateBufferAndViews(l.deferredLocation, 0, n > 4, true, v4.deferredLocation));
    var v6 := v5.(dispatchArgs := CreateBufferAndViews(l.dispatchArgs, BUFFER_UAV_FLAG_RAW, n > 5, true, v5.dispatchArgs));
    v6.(control := CreateBufferAndViews(l.control, BUFFER_UAV_FLAG_RAW, n > 6, true, v6.control))
  }

  /** Outcomes of the device calls one CreateBufferResources makes. */
  datatype Cmaa2Native = Cmaa2Native(
    typedStoreSupported: bool, srvOk: bool, uavOk: bool,
    createdCount: nat, shaderFileExists: bool, compiledCount: nat)

  /** Whether the rebuild path succeeds end to end. */
  predicate RebuildSucceeds(d: SourceDesc, n: Cmaa2Native)
  {
    ChooseViews(d.format, d.sampleCount, n.typedStoreSupported).ok && n.srvOk && n.uavOk &&
    n.createdCount >= 7 && n.shaderFileExists && n.compiledCount >= |KERNELS|
  }

  /** One compute step of Dispatch: a direct dispatch with group counts or an indirect one. */
  datatype Groups = Direct(x: nat, y: nat, z: nat) | Indirect
  datatype Step = Step(kernel: Kernel, groups: Groups)

  /** `(size + 2k - 1) / (2k)` in UINT arithmetic, with k the kernel size minus its 2-pixel apron. */
  function GroupCount(size: u32, kernelSize: nat): nat
    requires Wrap32(Wrap32(kernelSize - 2) * 2) > 0
  {
    var k2 := Wrap32(Wrap32(kernelSize - 2) * 2);
    Wrap32(size + k2 - 1) / k2
  }

  /** Without wrap-around the group count is the ceiling of size / (2k). */
  lemma GroupCountIsCeiling(size: u32, kernelSize: nat)
    requires kernelSize >= 3 && 2 * (kernelSize - 2) < U32 && size + 2 * (kernelSize - 2) <= U32
    ensures var g := GroupCount(size, kernelSize);
            var k2 := 2 * (kernelSize - 2);
            g * k2 >= size && (g == 0 || (g - 1) * k2 < size)
  {
    var k2 := 2 * (kernelSize - 2);
    assert Wrap32(kernelSize - 2) == kernelSize - 2;
    assert Wrap32(size + k2 - 1) == size + k2 - 1;
    var g := (size + k2 - 1) / k2;
    DivBounds(size + k2 - 1, k2);
  }

  /** The intermediates a successful rebuild leaves for `desc`. */
  function Built(desc: SourceDesc, packHalfWidth: bool, c: ShaderConfig): Intermediates
  {
    var l := IntermediateLayout(desc.width, desc.height, desc.sampleCount, packHalfWidth);
    Intermediates(Some(c.srvFormat), Some(c.uavFormat), Some(l.edges), Some(l.heads),
                  Some(ViewOf(l.candidates, 0)), Some(ViewOf(l.deferredItems, 0)), Some(ViewOf(l.deferredLocation, 0)),
                  Some(ViewOf(l.dispatchArgs, BUFFER_UAV_FLAG_RAW)), Some(ViewOf(l.control, BUFFER_UAV_FLAG_RAW)),
                  set k | k in KERNELS)
  }

  /** Once all seven creations succeed, the views are those of Built but for the kernels. */
  lemma AllCreatedIsBuilt(desc: SourceDesc, packHalfWidth: bool, c: ShaderConfig, n: nat)
    requires n >= 7
    ensures Created(NO_INTERMEDIATES.(inOutSRV := Some(c.srvFormat), inOutUAV := Some(c.uavFormat)),
                    IntermediateLayout(desc.width, desc.height, desc.sampleCount, packHalfWidth), n)
            == Built(desc, packHalfWidth, c).(kernels := {})
  {
  }

  class Cmaa2Dx11 {
    var init: bool
    var device: bool
    var pointSampler: bool
    /** _inOutTexture, the texture the resources were built for (0 for none). */
    var inOutTexture: nat
    var views: Intermediates
    var width: u32
    var height: u32
    var format: Format
    var sampleCount: u32
    var shaderConfig: ShaderConfig
    var resourcesDirty: bool

    /** The state ReleaseIntermediates leaves. */
    predicate Released()
      reads this
    {
      inOutTexture == 0 && views == NO_INTERMEDIATES && width == 0 && height == 0 && format == UNKNOWN &&
      sampleCount == 1 && shaderConfig == DEFAULT_CONFIG && resourcesDirty
    }

    /** The constructor runs Initialize: it needs a device and a point sampler. */
    constructor(deviceGiven: bool, samplerOk: bool)
      ensures init == (deviceGiven && samplerOk) && device == deviceGiven && pointSampler == (deviceGiven && samplerOk)
      ensures Released()
    {
      inOutTexture := 0;
      views := NO_INTERMEDIATES;
      width, height, format, sampleCount := 0, 0, UNKNOWN, 1;
      shaderConfig := DEFAULT_CONFIG;
      resourcesDirty := true;
      device := deviceGiven;
      pointSampler := deviceGiven && samplerOk;
      init := deviceGiven && samplerOk;
    }

    method ReleaseIntermediates()
      modifies this`inOutTexture, this`views, this`width, this`height, this`format, this`sampleCount
      modifies this`shaderConfig, this`resourcesDirty
      ensures Released()
    {
      inOutTexture := 0;
      views := NO_INTERMEDIATES;
      width, height, format, sampleCount := 0, 0, UNKNOWN, 1;
      shaderConfig := DEFAULT_CONFIG;
      resourcesDirty := true;
    }

    method ReleaseResources()
      modifies this
      ensures Released() && !init && !device && !pointSampler
    {
      ReleaseIntermediates();
      pointSampler := false;
      device := false;
      init := false;
    }

    /**
     * UpdateInputViews on the recorded format and sample count; a view
     * whose creation fails is left null.
     */
    method UpdateInputViews(deviceSupports: bool, srvOk: bool, uavOk: bool) returns (ok: bool)
      modifies this`shaderConfig, this`views
      ensures var c := ChooseViews(old(format), old(sampleCount), deviceSupports);
              shaderConfig == c.config &&
              ok == (c.ok && srvOk && uavOk) &&
              views == (if !c.ok then old(views)
                        else if !srvOk then old(views).(inOutSRV := None)
                        else old(views).(inOutSRV := Some(c.config.srvFormat),
                                         inOutUAV := if uavOk then Some(c.config.uavFormat) else None))
    {
      var c := ChooseViews(format, sampleCount, deviceSupports);
      shaderConfig := c.config;
      if !c.ok {
        return false;
      }
      if !srvOk {
        views := views.(inOutSRV := None);
        return false;
      }
      views := views.(inOutSRV := Some(c.config.srvFormat));
      if !uavOk {
        views := views.(inOutUAV := None);
        return false;
      }
      views := views.(inOutUAV := Some(c.config.uavFormat));
      return true;
    }

    /** EnsureIntermediateResources: the creations stop at the first failure. */
    method EnsureIntermediateResources(packHalfWidth: bool, createdCount: nat) returns (ok: bool)
      modifies this`views
      ensures views == Created(old(views), IntermediateLayout(width, height, sampleCount, packHalfWidth), createdCount)
      ensures ok == (createdCount >= 7)
    {
      var l := IntermediateLayout(width, height, sampleCount, packHalfWidth);
      views := Created(views, l, createdCount);
      ok := createdCount >= 7;
    }

    /** CompileShaders: the shader file must exist; the five kernels compile in order until one fails. */
    method CompileShaders(shaderFileExists: bool, compiledCount: nat) returns (ok: bool)
      modifies this`views
      ensures ok == (shaderFileExists && compiledCount >= |KERNELS|)
      ensures views == (if shaderFileExists then old(views).(kernels := old(views).kernels + CompiledKernels(compiledCount))
                        else old(views))
    {
      if !shaderFileExists {
        return false;
      }
      views := views.(kernels := views.kernels + CompiledKernels(compiledCount));
      ok := compiledCount >= |KERNELS|;
    }

    /** The rebuild half of CreateBufferResources: everything is released, then recreated in order. */
    method Rebuild(source: nat, desc: SourceDesc, packHalfWidth: bool, n: Cmaa2Native) returns (ok: bool)
      modifies this`inOutTexture, this`views, this`width, this`height, this`format, this`sampleCount
      modifies this`shaderConfig, this`resourcesDirty
      ensures ok == RebuildSucceeds(desc, n)
      ensures ok ==> inOutTexture == source && width == desc.width && height == desc.height &&
                     format == desc.format && sampleCount == desc.sampleCount && !resourcesDirty &&
                     shaderConfig == ChooseViews(desc.format, desc.sampleCount, n.typedStoreSupported).config &&
                     views == Built(desc, packHalfWidth, shaderConfig)
      ensures !ok ==> Released()
    {
      ReleaseIntermediates();
      inOutTexture := source;
      width, height, format, sampleCount := desc.width, desc.height, desc.format, desc.sampleCount;
      ok := CreateViews(desc, packHalfWidth, n);
      if !ok {
        ReleaseIntermediates();
        return false;
      }
      resourcesDirty := false;
    }

    /**
     * The creations of the rebuild, from released views: the input views,
     * the intermediates, then the shaders, stopping at the first failure.
     */
    method CreateViews(desc: SourceDesc, packHalfWidth: bool, n: Cmaa2Native) returns (ok: bool)
      requires views == NO_INTERMEDIATES
      requires width == desc.width && height == desc.height && format == desc.format && sampleCount == desc.sampleCount
      modifies this`views, this`shaderConfig
      ensures ok == RebuildSucceeds(desc, n)
      ensures ok ==> shaderConfig == ChooseViews(desc.format, desc.sampleCount, n.typedStoreSupported).config &&
                     views == Built(desc, packHalfWidth, shaderConfig)
    {
      var c := ChooseViews(desc.format, desc.sampleCount, n.typedStoreSupported);
      ok := UpdateInputViews(n.typedStoreSupported, n.srvOk, n.uavOk);
      if !ok {
        return false;
      }
      assert views == NO_INTERMEDIATES.(inOutSRV := Some(c.config.srvFormat), inOutUAV := Some(c.config.uavFormat));
      ok := EnsureIntermediateResources(packHalfWidth, n.createdCount);
      if !ok {
        return false;
      }
      AllCreatedIsBuilt(desc, packHalfWidth, c.config, n.createdCount);
      ok := CompileShaders(n.shaderFileExists, n.compiledCount);
    }

    /**
     * CreateBufferResources. It refuses without a device, without a
     * texture and for multisampled textures; it keeps everything when the
     * texture and its description are unchanged and nothing is dirty;
     * otherwise it rebuilds, and any failure leaves the released state.
     */
    method CreateBufferResources(source: nat, desc: SourceDesc, packHalfWidth: bool, n: Cmaa2Native) returns (ok: bool)
      modifies this
      ensures !old(init) || !old(device) || source == 0 || desc.sampleCount > 1 ==>
                !ok && unchanged(this)
      ensures old(init) && old(device) && source != 0 && desc.sampleCount <= 1 &&
              source == old(inOutTexture) && desc == SourceDesc(old(width), old(height), old(format), old(sampleCount)) &&
              !old(resourcesDirty) ==>
                ok && unchanged(this)
      ensures old(init) && old(device) && source != 0 && desc.sampleCount <= 1 &&
              !(source == old(inOutTexture) && desc == SourceDesc(old(width), old(height), old(format), old(sampleCount)) &&
                !old(resourcesDirty)) ==>
                ok == RebuildSucceeds(desc, n) &&
                (ok ==> inOutTexture == source && width == desc.width && height == desc.height &&
                        format == desc.format && sampleCount == desc.sampleCount && !resourcesDirty &&
                        shaderConfig == ChooseViews(desc.format, desc.sampleCount, n.typedStoreSupported).config &&
                        views == Built(desc, packHalfWidth, shaderConfig))
      ensures !ok && old(init) && old(device) && source != 0 && desc.sampleCount <= 1 ==> Released()
      ensures init == old(init) && device == old(device) && pointSampler == old(pointSampler)
    {
      if !init || !device {
        return false;
      }
      if source == 0 {
        return false;
      }
      if desc.sampleCount > 1 {
        return false;
      }
      var sizeChanged := desc.width != width || desc.height != height || desc.format != format || desc.sampleCount != sampleCount;
      var textureChanged := inOutTexture != source;
      if !sizeChanged && !textureChanged && !resourcesDirty {
        return true;
      }
      ok := Rebuild(source, desc, packHalfWidth, n);
    }

    /**
     * Dispatch: refuses a texture other than the prepared one or a missing
     * kernel (the debug kernel is not needed); otherwise runs edges,
     * dispatch-args, process, dispatch-args and deferred-apply.
     * `kernelX` and `kernelY` are the shader's input kernel size.
     */
    method Dispatch(context: bool, source: nat, kernelX: nat, kernelY: nat) returns (ok: bool, steps: seq<Step>)
      requires Wrap32(Wrap32(kernelX - 2) * 2) > 0 && Wrap32(Wrap32(kernelY - 2) * 2) > 0
      ensures ok <==> context && source != 0 && source == inOutTexture &&
                      EdgesColor2x2 in views.kernels && ProcessCandidates in views.kernels &&
                      DeferredColorApply2x2 in views.kernels && ComputeDispatchArgs in views.kernels
      ensures !ok ==> steps == []
      ensures ok ==> steps == [Step(EdgesColor2x2, Direct(GroupCount(width, kernelX), GroupCount(height, kernelY), 1)),
                               Step(ComputeDispatchArgs, Direct(2, 1, 1)),
                               Step(ProcessCandidates, Indirect),
                               Step(ComputeDispatchArgs, Direct(1, 2, 1)),
                               Step(DeferredColorApply2x2, Indirect)]
    {
      steps := [];
      if !context || source == 0 || source != inOutTexture {
        return false, [];
      }
      if EdgesColor2x2 !in views.kernels || ProcessCandidates !in views.kernels ||
         DeferredColorApply2x2 !in views.kernels || ComputeDispatchArgs !in views.kernels {
        return false, [];
      }
      var gx := GroupCount(width, kernelX);
      var gy := GroupCount(height, kernelY);
      steps := steps + [Step(EdgesColor2x2, Direct(gx, gy, 1))];
      steps := steps + [Step(ComputeDispatchArgs, Direct(2, 1, 1))];
      steps := steps + [Step(ProcessCandidates, Indirect)];
      steps := steps + [Step(ComputeDispatchArgs, Direct(1, 2, 1))];
      steps := steps + [Step(DeferredColorApply2x2, Indirect)];
      ok := true;
    }
  }
}
