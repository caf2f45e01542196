/**
 * SMAA_Dx11: the Direct3D 11 SMAA pass. Modelled: the shader and constant
 * buffer creation, the edge, blend and output textures with their views
 * (createTexture's reuse rule and release order), and Dispatch's guards,
 * group counts and the lifetime of the input SRV it creates. Device and
 * context calls are success booleans and the identities of the objects
 * they would create.
 */
module SmaaDx11 {
  import opened Wrappers
  import opened Machine
  import opened Dxgi
  import opened Smaa

  /** A shader resource or unordered access view: its texture's id and its format. */
  datatype View = View(texture: nat, format: Format)

  /** A texture pointer with the SRV and UAV pointers createTexture manages for it. */
  datatype Slot = Slot(texture: Res, srv: Option<View>, uav: Option<View>)

  const EMPTY_SLOT := Slot(Null, None, None)

  /** A Release call createTexture makes. */
  datatype Release = ReleaseSrv(view: View) | ReleaseUav(view: View) | ReleaseTexture(id: nat)

  /** The outcomes of CreateTexture2D and the view creations, and the new texture's id. */
  datatype SlotNative = SlotNative(textureOk: bool, srvOk: bool, uavOk: bool, id: nat)

  predicate Matches(t: Res, width: nat, height: nat, format: Format)
  {
    t.Res? && t.desc.width == width && t.desc.height == height && t.desc.format == format
  }

  /** What createTexture releases from a texture that does not match: its views, then the texture. */
  function Released(s: Slot, hasSrv: bool): seq<Release>
    requires s.texture.Res?
  {
    (if hasSrv && s.srv.Some? then [ReleaseSrv(s.srv.value)] else []) +
    (if s.uav.Some? then [ReleaseUav(s.uav.value)] else []) +
    [ReleaseTexture(s.texture.id)]
  }

  /**
   * The createTexture lambda of EnsureTextures. `hasSrv` is false for the
   * output texture, for which the lambda is given no SRV slot. A matching
   * texture is kept as it is; otherwise the old views and texture are
   * released, a new texture is created, then its SRV (when it has a slot)
   * and its UAV, stopping at the first failure.
   */
  function SlotAfter(s: Slot, hasSrv: bool, width: nat, height: nat, format: Format, n: SlotNative)
    : (bool, Slot, seq<Release>)
  {
    if Matches(s.texture, width, height, format) then (true, s, [])
    else
      var released := if s.texture.Res? then Released(s, hasSrv) else [];
      var cleared := if s.texture.Res? then Slot(Null, if hasSrv then None else s.srv, None) else s;
      if !n.textureOk then (false, cleared, released)
      else
        var t := Res(n.id, TexDesc(width, height, format, FLAG_NONE));
        if hasSrv && !n.srvOk then (false, Slot(t, None, cleared.uav), released)
        else
          var srv := if hasSrv then Some(View(n.id, format)) else cleared.srv;
          if !n.uavOk then (false, Slot(t, srv, None), released)
          else (true, Slot(t, srv, Some(View(n.id, format))), released)
  }

  /**
   * A matching texture is kept and nothing is released. Otherwise an
   * existing texture is released last, after its views, and nothing else
   * is released; a success leaves the requested texture with a UAV in its
   * format, and with an SRV when the slot has one. A failure is never
   * reported for a matching texture.
   */
  lemma SlotReuse(s: Slot, hasSrv: bool, width: nat, height: nat, format: Format, n: SlotNative)
    ensures var (ok, r, released) := SlotAfter(s, hasSrv, width, height, format, n);
            (Matches(s.texture, width, height, format) ==> ok && r == s && released == []) &&
            (!Matches(s.texture, width, height, format) && s.texture.Res? ==>
               |released| >= 1 && released[|released| - 1] == ReleaseTexture(s.texture.id) &&
               (forall i :: 0 <= i < |released| - 1 ==> !released[i].ReleaseTexture?)) &&
            (s.texture.Null? ==> released == []) &&
            (!Matches(s.texture, width, height, format) ==>
               (ok <==> n.textureOk && (hasSrv ==> n.srvOk) && n.uavOk)) &&
            (ok && !Matches(s.texture, width, height, format) ==>
               Matches(r.texture, width, height, format) &&
               r.uav == Some(View(r.texture.id, format)) &&
               (hasSrv ==> r.srv == Some(View(r.texture.id, format))))
  {
  }

  /**
   * The release order when both views exist: the SRV, then the UAV, then
   * the texture.
   */
  lemma ReleaseOrder(t: nat, d: TexDesc, srv: View, uav: View)
    ensures Released(Slot(Res(t, d), Some(srv), Some(uav)), true) ==
            [ReleaseSrv(srv), ReleaseUav(uav), ReleaseTexture(t)]
  {
  }

  /**
   * A texture that matches is reused even when one of its views is
   * missing, as after a view creation that failed on an earlier call.
   */
  lemma ReuseIgnoresMissingViews(t: nat, width: nat, height: nat, format: Format, n: SlotNative)
    ensures var s := Slot(Res(t, TexDesc(width, height, format, FLAG_NONE)), None, None);
            SlotAfter(s, true, width, height, format, n) == (true, s, [])
  {
  }

  /** The three compute shaders. */
  datatype Kernel = Edge | Blend | Neighborhood

  /** What Dispatch does with the input SRV and the device context. */
  datatype Step = InputSrvCreated(format: Format) | Pass(kernel: Kernel, x: nat, y: nat) | InputSrvReleased

  /** The outcomes of the device calls one EnsureTextures makes. */
  datatype TextureNative = TextureNative(edge: SlotNative, blend: SlotNative, output: SlotNative,
                                         queryOk: bool, storeBit: bool)

  function OutputFormatFor(device: bool, input: Format, n: TextureNative): Format
  {
    OutputTextureFormat(input, SupportsTypedUavStore(device, ResolveFormat(input), n.queryOk, n.storeBit))
  }

  /** The constant buffer and the three texture slots CreateBufferResources manages. */
  datatype BufferSet = BufferSet(constantBuffer: bool, edge: Slot, blend: Slot, output: Slot)

  /** Whether createTexture succeeds on one slot: it matches already, or every creation succeeds. */
  predicate SlotReady(s: Slot, hasSrv: bool, width: nat, height: nat, format: Format, n: SlotNative)
  {
    Matches(s.texture, width, height, format) || (n.textureOk && (hasSrv ==> n.srvOk) && n.uavOk)
  }

  /** EnsureTextures on a set of buffers: edge, blend, then output, stopping at the first failure. */
  function TexturesAfter(b: BufferSet, device: bool, color: Res, n: TextureNative): (bool, BufferSet, seq<Release>)
  {
    if color.Null? then (false, b, [])
    else
      var w, h := color.desc.width, color.desc.height;
      var (eOk, e, eRel) := SlotAfter(b.edge, true, w, h, R16G16_FLOAT, n.edge);
      if !eOk then (false, b.(edge := e), eRel)
      else
        var (bOk, bl, bRel) := SlotAfter(b.blend, true, w, h, R16G16_FLOAT, n.blend);
        if !bOk then (false, b.(edge := e, blend := bl), eRel + bRel)
        else
          var (oOk, o, oRel) := SlotAfter(b.output, false, w, h, OutputFormatFor(device, color.desc.format, n),
                                          n.output);
          (oOk, b.(edge := e, blend := bl, output := o), eRel + bRel + oRel)
  }

  /** CreateBufferResources on a set of buffers: initialised, then the constant buffer, then the textures. */
  function BuffersAfter(init: bool, b: BufferSet, device: bool, color: Res, bufferOk: bool, n: TextureNative)
    : (bool, BufferSet)
  {
    if !init then (false, b)
    else if !b.constantBuffer && !(device && bufferOk) then (false, b)
    else
      var t := TexturesAfter(b.(constantBuffer := true), device, color, n);
      (t.0, t.1)
  }

  /**
   * CreateBufferResources succeeds exactly when the feature is initialised,
   * the constant buffer exists or can be created, there is a colour
   * texture, and each of the three slots already matches or has all of its
   * creations succeed. On success the three textures have the colour's
   * size, the edge and blend ones in R16G16_FLOAT and the output one in the
   * output format. The textures are left alone when the constant buffer
   * fails.
   */
  lemma BuffersMeaning(init: bool, b: BufferSet, device: bool, color: Res, bufferOk: bool, n: TextureNative)
    ensures var (ok, r) := BuffersAfter(init, b, device, color, bufferOk, n);
            (ok <==> init && (b.constantBuffer || (device && bufferOk)) && color.Res? &&
                     SlotReady(b.edge, true, color.desc.width, color.desc.height, R16G16_FLOAT, n.edge) &&
                     SlotReady(b.blend, true, color.desc.width, color.desc.height, R16G16_FLOAT, n.blend) &&
                     SlotReady(b.output, false, color.desc.width, color.desc.height,
                               OutputFormatFor(device, color.desc.format, n), n.output)) &&
            (ok ==> r.constantBuffer &&
                    Matches(r.edge.texture, color.desc.width, color.desc.height, R16G16_FLOAT) &&
                    Matches(r.blend.texture, color.desc.width, color.desc.height, R16G16_FLOAT) &&
                    Matches(r.output.texture, color.desc.width, color.desc.height,
                            OutputFormatFor(device, color.desc.format, n))) &&
            (!init || (!b.constantBuffer && !(device && bufferOk)) ==> r == b)
  {
    if init && (b.constantBuffer || (device && bufferOk)) && color.Res? {
      var w, h := color.desc.width, color.desc.height;
      SlotReuse(b.edge, true, w, h, R16G16_FLOAT, n.edge);
      SlotReuse(b.blend, true, w, h, R16G16_FLOAT, n.blend);
      SlotReuse(b.output, false, w, h, OutputFormatFor(device, color.desc.format, n), n.output);
    }
  }

  /** The outcomes of the device and context calls one Dispatch makes. */
  datatype DispatchNative = DispatchNative(bufferOk: bool, textures: TextureNative, srvOk: bool, mapOk: bool)

  class SmaaDx11 {
    const device: bool
    var init: bool
    /** How many of the edge, blend and neighbourhood shaders exist, created in that order. */
    var shaders: nat
    var constantBuffer: bool
    var edge: Slot
    var blend: Slot
    var output: Slot

    function Buffers(): BufferSet
      reads this
    {
      BufferSet(constantBuffer, edge, blend, output)
    }

    /**
     * The constructor: without a device nothing is created; otherwise the
     * shaders and then the constant buffer, and `_init` records whether all
     * of them were created.
     */
    constructor(deviceGiven: bool, shadersCreated: nat, bufferOk: bool)
      ensures device == deviceGiven
      ensures init == (deviceGiven && shadersCreated >= 3 && bufferOk)
      ensures shaders == (if deviceGiven then (if shadersCreated < 3 then shadersCreated else 3) else 0)
      ensures constantBuffer == (deviceGiven && shadersCreated >= 3 && bufferOk)
      ensures edge == blend == output == EMPTY_SLOT
    {
      device := deviceGiven;
      shaders := 0;
      constantBuffer := false;
      edge, blend, output := EMPTY_SLOT, EMPTY_SLOT, EMPTY_SLOT;
      if deviceGiven {
        shaders := if shadersCreated < 3 then shadersCreated else 3;
        init := shadersCreated >= 3;
        if shadersCreated >= 3 {
          constantBuffer := bufferOk;
          init := bufferOk;
        }
      } else {
        init := false;
      }
    }

    /**
     * EnsureShaders: nothing to do when all three exist; otherwise, with a
     * device, the three are created again in order until one fails.
     */
    method EnsureShaders(created: nat) returns (ok: bool)
      modifies this
      ensures old(shaders) == 3 ==> ok && shaders == 3
      ensures old(shaders) != 3 && !device ==> !ok && shaders == old(shaders)
      ensures old(shaders) != 3 && device ==> ok == (created >= 3) && shaders == (if created < 3 then created else 3)
      ensures init == old(init) && constantBuffer == old(constantBuffer) &&
              edge == old(edge) && blend == old(blend) && output == old(output)
    {
      if shaders == 3 {
        return true;
      }
      if !device {
        return false;
      }
      shaders := if created < 3 then created else 3;
      ok := created >= 3;
    }

    /** EnsureConstantBuffer: idempotent once the buffer exists. */
    method EnsureConstantBuffer(bufferOk: bool) returns (ok: bool)
      modifies this
      ensures old(constantBuffer) ==> ok && constantBuffer
      ensures !old(constantBuffer) ==> ok == (device && bufferOk) && constantBuffer == ok
      ensures init == old(init) && shaders == old(shaders) &&
              edge == old(edge) && blend == old(blend) && output == old(output)
    {
      if constantBuffer {
        return true;
      }
      if !device {
        return false;
      }
      constantBuffer := bufferOk;
      ok := bufferOk;
    }

    /**
     * EnsureTextures: the edge and blend textures (both R16G16_FLOAT, with
     * an SRV and a UAV) and the output texture (UAV only, in the output
     * format) are ensured in that order, stopping at the first failure.
     */
    method EnsureTextures(color: Res, n: TextureNative) returns (ok: bool, released: seq<Release>)
      modifies this
      ensures color.Null? ==> !ok && released == [] && unchanged(this)
      ensures color.Res? ==>
                var w, h := color.desc.width, color.desc.height;
                var (eOk, e, eRel) := SlotAfter(old(edge), true, w, h, R16G16_FLOAT, n.edge);
                var (bOk, b, bRel) := SlotAfter(old(blend), true, w, h, R16G16_FLOAT, n.blend);
                var f := OutputFormatFor(device, color.desc.format, n);
                var (oOk, o, oRel) := SlotAfter(old(output), false, w, h, f, n.output);
                edge == e &&
                blend == (if eOk then b else old(blend)) &&
                output == (if eOk && bOk then o else old(output)) &&
                released == eRel + (if eOk then bRel else []) + (if eOk && bOk then oRel else []) &&
                ok == (eOk && bOk && oOk)
      ensures init == old(init) && shaders == old(shaders) && constantBuffer == old(constantBuffer)
      ensures (ok, Buffers(), released) == TexturesAfter(old(Buffers()), device, color, n)
    {
      if color.Null? {
        return false, [];
      }
      var w, h := color.desc.width, color.desc.height;
      var r := SlotAfter(edge, true, w, h, R16G16_FLOAT, n.edge);
      edge := r.1;
      released := r.2;
      if !r.0 {
        return false, released;
      }
      r := SlotAfter(blend, true, w, h, R16G16_FLOAT, n.blend);
      blend := r.1;
      released := released + r.2;
      if !r.0 {
        return false, released;
      }
      var f := OutputFormatFor(device, color.desc.format, n);
      r := SlotAfter(output, false, w, h, f, n.output);
      output := r.1;
      released := released + r.2;
      ok := r.0;
    }

    /** CreateBufferResources: initialised, then the constant buffer, then the textures. */
    method CreateBufferResources(color: Res, bufferOk: bool, n: TextureNative) returns (ok: bool)
      modifies this
      ensures !old(init) ==> !ok && unchanged(this)
      ensures ok ==> old(init) && constantBuffer && color.Res? &&
                     Matches(edge.texture, color.desc.width, color.desc.height, R16G16_FLOAT) &&
                     Matches(blend.texture, color.desc.width, color.desc.height, R16G16_FLOAT) &&
                     Matches(output.texture, color.desc.width, color.desc.height,
                             OutputFormatFor(device, color.desc.format, n))
      ensures init == old(init) && shaders == old(shaders)
      ensures (ok, Buffers()) == BuffersAfter(old(init), old(Buffers()), device, color, bufferOk, n)
    {
      if !init {
        return false;
      }
      ok := EnsureConstantBuffer(bufferOk);
      if !ok {
        return false;
      }
      BuffersMeaning(init, old(Buffers()), device, color, bufferOk, n);
      var released;
      ok, released := EnsureTextures(color, n);
    }

    /**
     * Dispatch: refuses, doing nothing, when not initialised, without a
     * context or without a colour texture; then needs the buffer
     * resources; then creates an SRV on the colour texture in its resolved
     * format, and releases it on every path after that: when mapping the
     * constant buffer fails and after the three passes, each over
     * `(w + 7) / 8 x (h + 7) / 8` groups.
     */
    method Dispatch(context: bool, color: Res, n: DispatchNative) returns (ok: bool, steps: seq<Step>)
      modifies this
      ensures !old(init) || !context || color.Null? ==> !ok && steps == [] && unchanged(this)
      ensures steps == [] || (|steps| >= 2 && steps[0].InputSrvCreated? && steps[|steps| - 1] == InputSrvReleased &&
                              forall i :: 0 < i < |steps| - 1 ==> steps[i].Pass?)
      ensures steps != [] ==> color.Res? && steps[0] == InputSrvCreated(ResolveFormat(color.desc.format))
      ensures ok <==> steps != [] && |steps| > 2
      ensures ok ==> var gx, gy := DispatchGroups(color.desc.width), DispatchGroups(color.desc.height);
                     steps == [InputSrvCreated(ResolveFormat(color.desc.format)),
                               Pass(Edge, gx, gy), Pass(Blend, gx, gy), Pass(Neighborhood, gx, gy),
                               InputSrvReleased]
      ensures ok ==> n.srvOk && n.mapOk
      ensures steps != [] && !n.mapOk ==> steps == [InputSrvCreated(ResolveFormat(color.desc.format)), InputSrvReleased]
      ensures init == old(init) && shaders == old(shaders)
      ensures old(init) && context && color.Res? ==>
                var (buffersOk, b) := BuffersAfter(true, old(Buffers()), device, color, n.bufferOk, n.textures);
                Buffers() == b &&
                (ok <==> buffersOk && n.srvOk && n.mapOk) &&
                (!buffersOk || !n.srvOk ==> steps == []) &&
                (buffersOk && n.srvOk && !n.mapOk ==>
                   steps == [InputSrvCreated(ResolveFormat(color.desc.format)), InputSrvReleased])
    {
      if !init || !context || color.Null? {
        return false, [];
      }
      var buffersOk := CreateBufferResources(color, n.bufferOk, n.textures);
      if !buffersOk {
        return false, [];
      }
      if !n.srvOk {
        return false, [];
      }
      steps := [InputSrvCreated(ResolveFormat(color.desc.format))];
      if !n.mapOk {
        steps := steps + [InputSrvReleased];
        return false, steps;
      }
      var gx, gy := DispatchGroups(color.desc.width), DispatchGroups(color.desc.height);
      steps := steps + [Pass(Edge, gx, gy)];
      steps := steps + [Pass(Blend, gx, gy)];
      steps := steps + [Pass(Neighborhood, gx, gy)];
      steps := steps + [InputSrvReleased];
      ok := true;
    }
  }
}
