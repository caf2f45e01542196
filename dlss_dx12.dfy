/**
 * The bookkeeping DLSSFeature_Dx12.cpp does around the NGX evaluation: the
 * optional SMAA pass that replaces the Color input for one call, the debug
 * copy of that input shown in the menu, the restoring of the Output and
 * Color parameters and the frame counter. NGX itself, RCAS, the output
 * scaler and the menu are outcomes handed in as parameters.
 */
module DlssDx12 {
  import opened Wrappers
  import opened Dxgi
  import HcDx12

  /** The DLSS copy of TranslateTypelessFormats: the same eight formats, with R10G10B10A2 read as UINT. */
  function TranslateTypelessFormats(f: Format): (r: Format)
    ensures r != f <==> HcDx12.Typeless(f)
    ensures !HcDx12.Typeless(r)
  {
    if f == R32G32B32A32_TYPELESS then R32G32B32A32_FLOAT
    else if f == R32G32B32_TYPELESS then R32G32B32_FLOAT
    else if f == R16G16B16A16_TYPELESS then R16G16B16A16_FLOAT
    else if f == R10G10B10A2_TYPELESS then R10G10B10A2_UINT
    else if f == R8G8B8A8_TYPELESS then R8G8B8A8_UNORM
    else if f == B8G8R8A8_TYPELESS then B8G8R8A8_UNORM
    else if f == R16G16_TYPELESS then R16G16_FLOAT
    else if f == R32G32_TYPELESS then R32G32_FLOAT
    else f
  }

  /**
   * The DLSS and hudless compare tables agree on every format except
   * R10G10B10A2_TYPELESS, which one reads as unsigned integers and the
   * other as normalised values.
   */
  lemma TranslationsDifferOnlyOn10Bit(f: Format)
    ensures TranslateTypelessFormats(f) != HcDx12.TranslateTypelessFormats(f) <==> f == R10G10B10A2_TYPELESS
    ensures f == R10G10B10A2_TYPELESS ==>
              TranslateTypelessFormats(f) == R10G10B10A2_UINT &&
              HcDx12.TranslateTypelessFormats(f) == R10G10B10A2_UNORM
  {
  }

  /** The outcome of CreateCommittedResource for the debug texture. */
  datatype CreateNative = CreateNative(ok: bool, newId: nat)

  /**
   * EnsureDebugTexture on (texture, state): the result, the debug texture
   * and its tracked state afterwards.
   */
  function DebugTextureAfter(device: bool, texture: Res, state: ResourceState, source: Res, n: CreateNative)
    : (bool, Res, ResourceState)
  {
    if source.Null? || !device then (false, texture, state)
    else
      var format := TranslateTypelessFormats(source.desc.format);
      if texture.Res? && texture.desc.width == source.desc.width && texture.desc.height == source.desc.height &&
         texture.desc.format == format
      then (true, texture, state)
      else if !n.ok then (false, Null, state)
      else (true, Res(n.newId, TexDesc(source.desc.width, source.desc.height, format, FLAG_NONE)), COPY_DEST)
  }

  /**
   * No source or no device changes nothing; a texture of the source's size
   * and translated format is kept with its state; otherwise the old one is
   * released and a new one of that size and format is created in COPY_DEST,
   * or the slot is left empty with the state as it was.
   */
  lemma DebugTextureReuse(device: bool, texture: Res, state: ResourceState, source: Res, n: CreateNative)
    ensures var r := DebugTextureAfter(device, texture, state, source, n);
            (source.Null? || !device ==> r == (false, texture, state)) &&
            (r.0 ==> r.1.Res? && r.1.desc.width == source.desc.width && r.1.desc.height == source.desc.height &&
                     r.1.desc.format == TranslateTypelessFormats(source.desc.format) &&
                     !HcDx12.Typeless(r.1.desc.format)) &&
            (r.0 && r.1 != texture ==> r.2 == COPY_DEST && r.1.desc.flags == FLAG_NONE) &&
            (!r.0 && source.Res? && device ==> r.1 == Null && r.2 == state)
  {
  }

  /** What CopyDebugTexture records before the copy. */
  function BeforeDebugCopy(debug: Res, state: ResourceState, source: Res): seq<Command>
  {
    [Barrier(source, NON_PIXEL_SHADER_RESOURCE, COPY_SOURCE)] + StateChange(debug, state, COPY_DEST)
  }

  /** What it records after the copy: the debug texture to shader reads, the source back. */
  function AfterDebugCopy(debug: Res, source: Res): seq<Command>
  {
    [Barrier(debug, COPY_DEST, PIXEL_SHADER_RESOURCE), Barrier(source, COPY_SOURCE, NON_PIXEL_SHADER_RESOURCE)]
  }

  function DebugCopyCommands(debug: Res, state: ResourceState, source: Res): seq<Command>
  {
    BeforeDebugCopy(debug, state, source) + [Copy(debug, source)] + AfterDebugCopy(debug, source)
  }

  /**
   * For a debug texture other than the source: the copy happens with the
   * source in COPY_SOURCE and the debug texture in COPY_DEST, the source
   * ends where it started (NON_PIXEL_SHADER_RESOURCE) and the debug texture
   * in PIXEL_SHADER_RESOURCE, whatever state it was tracked in.
   */
  lemma DebugCopyBalanced(debug: Res, state: ResourceState, source: Res)
    requires debug != source
    ensures Replay(BeforeDebugCopy(debug, state, source), source, Some(NON_PIXEL_SHADER_RESOURCE)) == Some(COPY_SOURCE)
    ensures Replay(BeforeDebugCopy(debug, state, source), debug, Some(state)) == Some(COPY_DEST)
    ensures Replay(DebugCopyCommands(debug, state, source), source, Some(NON_PIXEL_SHADER_RESOURCE)) ==
            Some(NON_PIXEL_SHADER_RESOURCE)
    ensures Replay(DebugCopyCommands(debug, state, source), debug, Some(state)) == Some(PIXEL_SHADER_RESOURCE)
  {
    var first := Barrier(source, NON_PIXEL_SHADER_RESOURCE, COPY_SOURCE);
    var change := StateChange(debug, state, COPY_DEST);
    var pre := BeforeDebugCopy(debug, state, source);
    var copy := [Copy(debug, source)];
    var post := AfterDebugCopy(debug, source);
    StateChangeReaches(debug, state, COPY_DEST);
    ReplayCons(first, change, source, Some(NON_PIXEL_SHADER_RESOURCE));
    ReplayCons(first, change, debug, Some(state));
    ReplayAppend(pre + copy, post, source, Some(NON_PIXEL_SHADER_RESOURCE));
    ReplayAppend(pre, copy, source, Some(NON_PIXEL_SHADER_RESOURCE));
    ReplayCons(Copy(debug, source), [], source, Some(COPY_SOURCE));
    ReplayAppend(pre + copy, post, debug, Some(state));
    ReplayAppend(pre, copy, debug, Some(state));
    ReplayCons(Copy(debug, source), [], debug, Some(COPY_DEST));
    var b1 := Barrier(debug, COPY_DEST, PIXEL_SHADER_RESOURCE);
    var b2 := Barrier(source, COPY_SOURCE, NON_PIXEL_SHADER_RESOURCE);
    assert post == [b1] + [b2];
    ReplayCons(b1, [b2], source, Some(COPY_SOURCE));
    ReplayCons(b2, [], source, Some(COPY_SOURCE));
    ReplayCons(b1, [b2], debug, Some(COPY_DEST));
    ReplayCons(b2, [], debug, Some(PIXEL_SHADER_RESOURCE));
    assert [b2] + [] == [b2];
    assert [Copy(debug, source)] + [] == [Copy(debug, source)];
  }

  /** The NGX parameter block's Color and Output resources, which Evaluate rebinds and restores. */
  class NgxParameters {
    var color: Res
    var output: Res

    constructor(colorGiven: Res, outputGiven: Res)
      ensures color == colorGiven && output == outputGiven
    {
      color := colorGiven;
      output := outputGiven;
    }
  }

  /**
   * What Evaluate learns from outside the file: configuration, the SMAA
   * instance and its outcome, the NGX entry point and its result, the
   * resource the output scaler and RCAS leave bound as Output, and whether
   * the RCAS and output-scaling dispatches after the evaluation succeed.
   */
  datatype EvaluateNative = EvaluateNative(
    evaluatePresent: bool,
    smaaEnabled: bool, smaaInit: bool, buffersReady: bool, dispatchOk: bool, processed: Res,
    previewRequested: bool, debugCreate: CreateNative, menuPresent: bool,
    setBuffer: Res, evaluateOk: bool, postProcessOk: bool)

  /** Was SMAA applied to the Color input `color`? */
  predicate SmaaApplied(n: EvaluateNative, color: Res)
  {
    n.smaaEnabled && n.smaaInit && color.Res? && n.buffersReady && n.dispatchOk
  }

  class DlssDx12 {
    /** `Device != nullptr`. */
    const device: bool
    /** `_moduleLoaded` and IsInited(), as Init left them. */
    const moduleLoaded: bool
    const inited: bool
    var debugTexture: Res
    var debugState: ResourceState
    var frameCount: nat

    /** A feature after Init, with the header's initial debug texture and state. */
    constructor(deviceGiven: bool, loaded: bool, initResult: bool)
      ensures device == deviceGiven && moduleLoaded == loaded && inited == initResult
      ensures debugTexture == Null && debugState == COMMON && frameCount == 0
    {
      device := deviceGiven;
      moduleLoaded := loaded;
      inited := initResult;
      debugTexture := Null;
      debugState := COMMON;
      frameCount := 0;
    }

    method EnsureDebugTexture(source: Res, n: CreateNative) returns (ok: bool)
      modifies this
      ensures (ok, debugTexture, debugState) == DebugTextureAfter(device, old(debugTexture), old(debugState), source, n)
      ensures frameCount == old(frameCount)
    {
      if source.Null? || !device {
        return false;
      }
      var format := TranslateTypelessFormats(source.desc.format);
      if debugTexture.Res? {
        if debugTexture.desc.width == source.desc.width && debugTexture.desc.height == source.desc.height &&
           debugTexture.desc.format == format {
          return true;
        }
        debugTexture := Null;
      }
      if !n.ok {
        debugTexture := Null;
        return false;
      }
      debugTexture := Res(n.newId, TexDesc(source.desc.width, source.desc.height, format, FLAG_NONE));
      debugState := COPY_DEST;
      ok := true;
    }

    /** CopyDebugTexture: copy `source` into the debug texture, leaving it readable by the menu's shader. */
    method CopyDebugTexture(commandList: bool, source: Res) returns (cmds: seq<Command>)
      modifies this
      ensures !commandList || source.Null? || old(debugTexture).Null? ==>
                cmds == [] && debugState == old(debugState)
      ensures commandList && source.Res? && old(debugTexture).Res? ==>
                cmds == DebugCopyCommands(debugTexture, old(debugState), source) &&
                debugState == PIXEL_SHADER_RESOURCE
      ensures debugTexture == old(debugTexture) && frameCount == old(frameCount)
    {
      if !commandList || source.Null? || debugTexture.Null? {
        return [];
      }
      cmds := [Barrier(source, NON_PIXEL_SHADER_RESOURCE, COPY_SOURCE)];
      if debugState != COPY_DEST {
        cmds := cmds + [Barrier(debugTexture, debugState, COPY_DEST)];
      }
      cmds := cmds + [Copy(debugTexture, source)];
      cmds := cmds + [Barrier(debugTexture, COPY_DEST, PIXEL_SHADER_RESOURCE)];
      debugState := PIXEL_SHADER_RESOURCE;
      cmds := cmds + [Barrier(source, COPY_SOURCE, NON_PIXEL_SHADER_RESOURCE)];
    }

    /**
     * Evaluate: returns whether the frame was handed to DLSS. `preview` is
     * what the menu is told to show (None when it is not told anything) and
     * `cmds` what is recorded for the debug copy.
     */
    method Evaluate(commandList: bool, params: NgxParameters, n: EvaluateNative)
      returns (ok: bool, preview: Option<Res>, cmds: seq<Command>)
      modifies this, params
      ensures !moduleLoaded || !inited || !n.evaluatePresent ==>
                !ok && frameCount == old(frameCount) && debugTexture == old(debugTexture) &&
                debugState == old(debugState) && params.color == old(params.color) &&
                params.output == old(params.output) && cmds == []
      ensures moduleLoaded && inited && n.evaluatePresent ==>
                var applied := SmaaApplied(n, old(params.color));
                (ok <==> n.evaluateOk) &&
                (!n.previewRequested || !applied ==>
                   debugTexture == Null && cmds == [] &&
                   debugState == (if old(debugTexture).Res? then COMMON else old(debugState))) &&
                (ok && n.postProcessOk ==>
                   frameCount == old(frameCount) + 1 &&
                   params.output == old(params.output) && params.color == old(params.color)) &&
                (!(ok && n.postProcessOk) ==>
                   frameCount == old(frameCount) && params.output == n.setBuffer &&
                   params.color == (if applied then n.processed else old(params.color))) &&
                (n.previewRequested && applied ==>
                   var (ready, texture, state) :=
                     DebugTextureAfter(device, old(debugTexture), old(debugState), n.processed, n.debugCreate);
                   debugTexture == texture &&
                   debugState == (if ready && commandList then PIXEL_SHADER_RESOURCE else state) &&
                   cmds == (if ready && commandList then DebugCopyCommands(texture, state, n.processed) else []) &&
                   (n.menuPresent ==> preview == Some(if ready then texture else Null))) &&
                (preview.Some? <==> n.menuPresent) &&
                (preview.Some? && preview.value.Res? ==>
                   n.previewRequested && applied && preview.value == debugTexture &&
                   (commandList ==> debugState == PIXEL_SHADER_RESOURCE))
    {
      preview := None;
      cmds := [];
      if !moduleLoaded || !inited || !n.evaluatePresent {
        return false, preview, cmds;
      }
      var originalColor := Null;
      var smaaApplied := false;
      if n.smaaEnabled && n.smaaInit {
        originalColor := params.color;
        if originalColor.Res? && n.buffersReady && n.dispatchOk {
          params.color := n.processed;
          smaaApplied := true;
        }
      }

      if n.previewRequested && smaaApplied {
        DebugTextureReuse(device, debugTexture, debugState, n.processed, n.debugCreate);
        var ready := EnsureDebugTexture(n.processed, n.debugCreate);
        if ready {
          cmds := CopyDebugTexture(commandList, n.processed);
          if n.menuPresent {
            preview := Some(debugTexture);
          }
        } else if n.menuPresent {
          preview := Some(Null);
        }
      } else if n.menuPresent {
        preview := Some(Null);
      }

      if (!n.previewRequested || !smaaApplied) && debugTexture.Res? {
        debugTexture := Null;
        debugState := COMMON;
      }

      var paramOutput := params.output;
      params.output := n.setBuffer;
      if !n.evaluateOk {
        return false, preview, cmds;
      }
      if !n.postProcessOk {
        return true, preview, cmds;
      }
      params.output := paramOutput;
      if smaaApplied {
        params.color := originalColor;
      }
      frameCount := frameCount + 1;
      ok := true;
    }
  }
}
