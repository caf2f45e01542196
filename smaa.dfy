/**
 * The format rules SMAA_Dx12.cpp and SMAA_Dx11.cpp share: both files carry
 * the same `ResolveFormat` and `IsFloatFormat` in an anonymous namespace
 * and pick the output texture's format the same way, so they are defined
 * once here. The dispatch group count `(width + 7) / 8` in UINT arithmetic
 * is shared too.
 */
module Smaa {
  import opened Machine
  import opened Dxgi

  /** The six typeless formats ResolveFormat gives a typed meaning to. */
  predicate Resolvable(f: Format)
  {
    f == R32G32B32A32_TYPELESS || f == R32G32B32_TYPELESS || f == R16G16B16A16_TYPELESS ||
    f == R10G10B10A2_TYPELESS || f == R8G8B8A8_TYPELESS || f == B8G8R8A8_TYPELESS
  }

  function ResolveFormat(f: Format): Format
  {
    if f == R32G32B32A32_TYPELESS then R32G32B32A32_FLOAT
    else if f == R32G32B32_TYPELESS then R32G32B32_FLOAT
    else if f == R16G16B16A16_TYPELESS then R16G16B16A16_FLOAT
    else if f == R10G10B10A2_TYPELESS then R10G10B10A2_UNORM
    else if f == R8G8B8A8_TYPELESS then R8G8B8A8_UNORM
    else if f == B8G8R8A8_TYPELESS then B8G8R8A8_UNORM
    else f
  }

  /** The formats the shaders treat as HDR input. */
  predicate IsFloatFormat(f: Format)
  {
    f == R16G16B16A16_FLOAT || f == R32G32B32_FLOAT || f == R32G32B32A32_FLOAT
  }

  /**
   * ResolveFormat changes exactly the six resolvable formats, keeps the
   * channel layout (a float typeless format resolves to float), never
   * yields a resolvable format and is therefore idempotent.
   */
  lemma ResolveFormatExactly(f: Format)
    ensures ResolveFormat(f) != f <==> Resolvable(f)
    ensures !Resolvable(ResolveFormat(f))
    ensures ResolveFormat(ResolveFormat(f)) == ResolveFormat(f)
    ensures Resolvable(f) ==>
              (IsFloatFormat(ResolveFormat(f)) <==>
                 f == R32G32B32A32_TYPELESS || f == R32G32B32_TYPELESS || f == R16G16B16A16_TYPELESS)
  {
  }

  /** A float format is never one ResolveFormat changes. */
  lemma FloatFormatsAreTyped(f: Format)
    requires IsFloatFormat(f)
    ensures ResolveFormat(f) == f && !Resolvable(f)
  {
  }

  /**
   * SupportsTypedUavStore: no device or an UNKNOWN format answers false
   * without asking; otherwise the answer is the device's, when the feature
   * query succeeds (`queryOk`) and reports typed UAV store (`storeBit`).
   */
  function SupportsTypedUavStore(device: bool, f: Format, queryOk: bool, storeBit: bool): (r: bool)
    ensures r <==> device && f != UNKNOWN && queryOk && storeBit
  {
    if !device || f == UNKNOWN then false
    else if !queryOk then false
    else storeBit
  }

  /**
   * The output texture's format: the resolved input format, replaced by
   * R16G16B16A16_FLOAT when the device cannot store it through a typed UAV
   * and it is not a float format.
   */
  function OutputTextureFormat(input: Format, typedStore: bool): Format
  {
    var f := ResolveFormat(input);
    if !typedStore && !IsFloatFormat(f) then R16G16B16A16_FLOAT else f
  }

  /**
   * The output format is the resolved input unless the fallback applies,
   * and it is always either a float format or one the device stores
   * through a typed UAV; with typed store it never differs from the input's
   * resolved format.
   */
  lemma OutputFormatFallback(input: Format, typedStore: bool)
    ensures var r := OutputTextureFormat(input, typedStore);
            (r == ResolveFormat(input) || r == R16G16B16A16_FLOAT) &&
            (r != ResolveFormat(input) <==> !typedStore && !IsFloatFormat(ResolveFormat(input))) &&
            (IsFloatFormat(r) || typedStore) &&
            !Resolvable(r)
  {
    ResolveFormatExactly(input);
  }

  /** `(width + 7) / 8` with the width cast to UINT and the addition in UINT. */
  function DispatchGroups(width: nat): (r: nat)
    ensures r <= (U32 - 1) / 8
  {
    Wrap32(Wrap32(width) + 7) / 8
  }

  /** Without wrap-around the group count is the ceiling of width / 8. */
  lemma DispatchGroupsIsCeiling(width: nat)
    requires width + 7 < U32
    ensures var g := DispatchGroups(width);
            8 * g >= width && (g == 0 || 8 * (g - 1) < width) && (width == 0 <==> g == 0)
  {
    assert Wrap32(width) == width;
    assert Wrap32(width + 7) == width + 7;
  }

  /** Near the top of the UINT range the addition wraps and no group is dispatched. */
  lemma DispatchGroupsWrap()
    ensures DispatchGroups(U32 - 1) == 0
  {
    assert Wrap32(U32 - 1) == U32 - 1;
    assert Wrap32(U32 - 1 + 7) == 6;
  }
}
