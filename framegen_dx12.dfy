/**
 * The Direct3D 12 frame-generation backend on top of the frame-gate ring:
 * its gate setters and Present, and the per-slot recording of the velocity,
 * depth and hudless resources the game hands over, optionally through a
 * private copy that CreateBufferResource keeps alive across frames.
 *
 * Driver calls are parameters: `Native` says whether the device queried
 * through the global state is set, whether GetHeapProperties and
 * CreateCommittedResource succeed, and which id a new resource gets.
 */
module FrameGenDx12 {
  import opened Wrappers
  import opened Dxgi
  import opened FrameGen

  /** Entry i of `_paramVelocity`, `_paramVelocityCopy`, `_paramDepth`, `_paramDepthCopy`, `_paramHudless`, `_paramHudlessCopy`. */
  datatype SlotParams = SlotParams(velocity: Res, velocityCopy: Res, depth: Res, depthCopy: Res,
                                   hudless: Res, hudlessCopy: Res)

  const NO_PARAMS: SlotParams := SlotParams(Null, Null, Null, Null, Null, Null)

  datatype Native = Native(stateDeviceSet: bool, heapPropertiesOk: bool, createOk: bool, newId: nat)

  /** The outcome of CreateBufferResource: its result and the new value of `*target`. */
  datatype Created = Created(ok: bool, target: Res)

  /** The source description as CreateBufferResource adjusts it. */
  function AdjustedDesc(source: TexDesc, uav: bool, depth: bool): (d: TexDesc)
    ensures d.width == source.width && d.height == source.height
    ensures d.flags == (if uav then FLAG_ALLOW_UNORDERED_ACCESS else source.flags)
    ensures d.format == (if depth then R32_FLOAT else source.format)
  {
    var d1 := if uav then source.(flags := FLAG_ALLOW_UNORDERED_ACCESS) else source;
    if depth then d1.(format := R32_FLOAT) else d1
  }

  /**
   * CreateBufferResource: keep `target` when it already has the adjusted
   * description, otherwise release it and create a new committed resource.
   */
  function CreateBufferResource(deviceSet: bool, source: Res, target: Res, uav: bool, depth: bool,
                                heapPropertiesOk: bool, createOk: bool, newId: nat): (c: Created)
    ensures !deviceSet || source.Null? ==> c == Created(false, target)
    ensures deviceSet && source.Res? && target.Res? ==>
              (c.target == target <==> target.desc == AdjustedDesc(source.desc, uav, depth))
    ensures deviceSet && source.Res? && target.Res? && target.desc == AdjustedDesc(source.desc, uav, depth) ==> c.ok
    ensures c.ok ==> c.target.Res? && c.target.desc == AdjustedDesc(source.desc, uav, depth)
    ensures !c.ok && deviceSet && source.Res? ==> c.target.Null?
  {
    if !deviceSet || source.Null? then Created(false, target)
    else
      var want := AdjustedDesc(source.desc, uav, depth);
      if target.Res? && target.desc == want then Created(true, target)
      else if !heapPropertiesOk then Created(false, Null)
      else if !createOk then Created(false, Null)
      else Created(true, Res(newId, want))
  }

  /**
   * CreateBufferResourceWithSize: the same rule, with the kept or created
   * resource sized `width` x `height` instead of the source's size.
   */
  function CreateBufferResourceWithSize(deviceSet: bool, source: Res, target: Res, width: nat, height: nat,
                                        uav: bool, depth: bool, heapPropertiesOk: bool, createOk: bool,
                                        newId: nat): (c: Created)
    ensures !deviceSet || source.Null? ==> c == Created(false, target)
    ensures deviceSet && source.Res? && target.Res? ==>
              (c.target == target <==>
                 target.desc == AdjustedDesc(source.desc, uav, depth).(width := width, height := height))
    ensures c.ok ==> c.target.Res? && c.target.desc == AdjustedDesc(source.desc, uav, depth).(width := width, height := height)
  {
    if !deviceSet || source.Null? then Created(false, target)
    else
      var want := AdjustedDesc(source.desc, uav, depth).(width := width, height := height);
      if target.Res? && target.desc == want then Created(true, target)
      else if !heapPropertiesOk then Created(false, Null)
      else if !createOk then Created(false, Null)
      else Created(true, Res(newId, want))
  }

  /** The outcome of CopyResource: its result, the new `*target` and the recorded commands. */
  datatype Copied = Copied(ok: bool, target: Res, cmds: seq<Command>)

  /**
   * CopyResource: move the source to COPY_SOURCE, copy it into a buffer
   * kept or created in COPY_DEST through the global device, and move the
   * source back to `sourceState`.
   */
  function CopyResource(source: Res, target: Res, sourceState: ResourceState, n: Native): (c: Copied)
    ensures var made := CreateBufferResource(n.stateDeviceSet, source, target, false, false,
                                             n.heapPropertiesOk, n.createOk, n.newId);
            c.ok == made.ok && c.target == made.target
    ensures |c.cmds| >= 2
    ensures c.cmds[0] == Barrier(source, sourceState, COPY_SOURCE)
    ensures c.cmds[|c.cmds| - 1] == Barrier(source, COPY_SOURCE, sourceState)
    ensures c.ok <==> Copy(c.target, source) in c.cmds
  {
    var made := CreateBufferResource(n.stateDeviceSet, source, target, false, false,
                                     n.heapPropertiesOk, n.createOk, n.newId);
    var copy := if made.ok then [Copy(made.target, source)] else [];
    Copied(made.ok, made.target, [Barrier(source, sourceState, COPY_SOURCE)] + copy
                                 + [Barrier(source, COPY_SOURCE, sourceState)])
  }

  /** SetHudless on one slot: the slot's new parameters and the commands recorded. */
  function RecordHudless(p: SlotParams, cmdListSet: bool, hudless: Res, state: ResourceState, makeCopy: bool,
                         n: Native): (r: (SlotParams, seq<Command>))
  {
    if !cmdListSet || !makeCopy then (p.(hudless := hudless), [])
    else
      var c := CopyResource(hudless, p.hudlessCopy, state, n);
      (p.(hudlessCopy := c.target, hudless := if c.ok then c.target else hudless), c.cmds)
  }

  /**
   * What SetHudless records: the given resource without a command list or
   * without a copy request, otherwise the copy when CopyResource succeeded
   * and the given resource when it failed. The other parameters are kept.
   */
  lemma RecordHudlessChoice(p: SlotParams, cmdListSet: bool, hudless: Res, state: ResourceState, makeCopy: bool,
                            n: Native)
    ensures var r := RecordHudless(p, cmdListSet, hudless, state, makeCopy, n);
            var c := CopyResource(hudless, p.hudlessCopy, state, n);
            (!cmdListSet || !makeCopy ==> r.0.hudless == hudless && r.1 == []) &&
            (cmdListSet && makeCopy ==> r.0.hudless == (if c.ok then c.target else hudless)) &&
            r.0.velocity == p.velocity && r.0.depth == p.depth &&
            r.0.velocityCopy == p.velocityCopy && r.0.depthCopy == p.depthCopy
  {
  }

  /** The outcome of SetVelocity / SetDepth on one slot. */
  datatype Recorded = Recorded(params: SlotParams, flipCreated: bool, cmds: seq<Command>)

  /**
   * SetVelocity on one slot. `flip` and `makeCopy` are the FGResourceFlip
   * and FGMakeMVCopy settings; `flipInit` and `flipOk` are the flip
   * shader's IsInit and Dispatch results. The flip buffer (a UAV on
   * `_device`) and the FGMakeMVCopy copy (a plain buffer on the global
   * device) are separate creations, so each has its own outcome:
   * `flipBuf` and `copyBuf`.
   */
  function RecordVelocity(p: SlotParams, flipCreated: bool, deviceSet: bool, cmdListSet: bool, velocity: Res,
                          state: ResourceState, flip: bool, makeCopy: bool, flipInit: bool, flipOk: bool,
                          flipBuf: Native, copyBuf: Native): (r: Recorded)
  {
    if !cmdListSet then Recorded(p, flipCreated, [])
    else
      var p1 := p.(velocity := velocity);
      if flip && deviceSet then
        var made := FlipBuffer(velocity, p1.velocityCopy, false, flipBuf);
        var p2 := p1.(velocityCopy := made.target);
        if !made.ok then CopyVelocity(p2, flipCreated, velocity, state, makeCopy, copyBuf)
        else if !flipCreated then Recorded(p2, true, [])
        else if !flipInit then Recorded(p2, flipCreated, [])
        else
          Recorded(if flipOk then p2.(velocity := p2.velocityCopy) else p2, flipCreated,
                   [Barrier(p2.velocityCopy, COPY_DEST, UNORDERED_ACCESS),
                    Barrier(p2.velocityCopy, UNORDERED_ACCESS, COPY_DEST)])
      else CopyVelocity(p1, flipCreated, velocity, state, makeCopy, copyBuf)
  }

  /** The flip shader's target: a UAV-capable buffer on `_device`, kept or created in COPY_DEST. */
  function FlipBuffer(source: Res, target: Res, depth: bool, n: Native): Created
  {
    CreateBufferResource(true, source, target, true, depth, n.heapPropertiesOk, n.createOk, n.newId)
  }

  /** The FGMakeMVCopy tail of SetVelocity. */
  function CopyVelocity(p: SlotParams, flipCreated: bool, velocity: Res, state: ResourceState, makeCopy: bool,
                        n: Native): Recorded
  {
    if makeCopy then
      var c := CopyResource(velocity, p.velocityCopy, state, n);
      Recorded(p.(velocityCopy := c.target, velocity := if c.ok then c.target else velocity), flipCreated, c.cmds)
    else Recorded(p, flipCreated, [])
  }

  /**
   * SetVelocity's steps on one slot, in the order the code takes them: the
   * flip buffer first, the FGMakeMVCopy copy when the flip did not handle it.
   */
  method VelocitySteps(p0: SlotParams, flipCreated: bool, deviceSet: bool, cmdListSet: bool, velocity: Res,
                       state: ResourceState, flip: bool, makeCopy: bool, flipInit: bool, flipOk: bool,
                       flipBuf: Native, copyBuf: Native) returns (r: Recorded)
    ensures r == RecordVelocity(p0, flipCreated, deviceSet, cmdListSet, velocity, state, flip, makeCopy,
                                flipInit, flipOk, flipBuf, copyBuf)
  {
    var p := p0;
    var created := flipCreated;
    var cmds := [];
    if cmdListSet {
      p := p.(velocity := velocity);
      var handled := false;
      if flip && deviceSet {
        var made := FlipBuffer(velocity, p.velocityCopy, false, flipBuf);
        p := p.(velocityCopy := made.target);
        if made.ok {
          handled := true;
          if !created {
            created := true;
          } else if flipInit {
            cmds := [Barrier(p.velocityCopy, COPY_DEST, UNORDERED_ACCESS),
                     Barrier(p.velocityCopy, UNORDERED_ACCESS, COPY_DEST)];
            if flipOk {
              p := p.(velocity := p.velocityCopy);
            }
          }
        }
      }
      if !handled && makeCopy {
        var c := CopyResource(velocity, p.velocityCopy, state, copyBuf);
        p := p.(velocityCopy := c.target);
        cmds := c.cmds;
        if c.ok {
          p := p.(velocity := c.target);
        }
      }
    }
    r := Recorded(p, created, cmds);
  }

  /** SetDepth on one slot; FGMakeDepthCopy is `makeCopy`. */
  function RecordDepth(p: SlotParams, flipCreated: bool, deviceSet: bool, cmdListSet: bool, depth: Res,
                       state: ResourceState, flip: bool, makeCopy: bool, flipInit: bool, flipOk: bool,
                       n: Native): (r: Recorded)
  {
    if !cmdListSet then Recorded(p, flipCreated, [])
    else
      var p1 := p.(depth := depth);
      if flip && deviceSet then
        var made := FlipBuffer(depth, p1.depthCopy, true, n);
        var p2 := p1.(depthCopy := made.target);
        if !made.ok then Recorded(p2, flipCreated, [])
        else if !flipCreated then Recorded(p2, true, [])
        else if !flipInit then Recorded(p2, flipCreated, [])
        else
          Recorded(if flipOk then p2.(depth := p2.depthCopy) else p2, flipCreated,
                   [Barrier(p2.depthCopy, COPY_DEST, UNORDERED_ACCESS),
                    Barrier(p2.depthCopy, UNORDERED_ACCESS, COPY_DEST)])
      else if makeCopy then
        var c := CopyResource(depth, p1.depthCopy, state, n);
        Recorded(p1.(depthCopy := c.target, depth := if c.ok then c.target else depth), flipCreated, c.cmds)
      else Recorded(p1, flipCreated, [])
  }

  /** SetDepth's steps on one slot: the flip buffer, or else the FGMakeDepthCopy copy. */
  method DepthSteps(p0: SlotParams, flipCreated: bool, deviceSet: bool, cmdListSet: bool, depth: Res,
                    state: ResourceState, flip: bool, makeCopy: bool, flipInit: bool, flipOk: bool,
                    n: Native) returns (r: Recorded)
    ensures r == RecordDepth(p0, flipCreated, deviceSet, cmdListSet, depth, state, flip, makeCopy,
                             flipInit, flipOk, n)
  {
    var p := p0;
    var created := flipCreated;
    var cmds := [];
    if cmdListSet {
      p := p.(depth := depth);
      if flip && deviceSet {
        var made := FlipBuffer(depth, p.depthCopy, true, n);
        p := p.(depthCopy := made.target);
        if made.ok {
          if !created {
            created := true;
          } else if flipInit {
            cmds := [Barrier(p.depthCopy, COPY_DEST, UNORDERED_ACCESS),
                     Barrier(p.depthCopy, UNORDERED_ACCESS, COPY_DEST)];
            if flipOk {
              p := p.(depth := p.depthCopy);
            }
          }
        }
      } else if makeCopy {
        var c := CopyResource(depth, p.depthCopy, state, n);
        p := p.(depthCopy := c.target);
        cmds := c.cmds;
        if c.ok {
          p := p.(depth := c.target);
        }
      }
    }
    r := Recorded(p, created, cmds);
  }

  /**
   * SetVelocity without a command list records nothing. With one, the
   * game's resource is stored first. When the flip buffer exists, the flip
   * decides: the first call only creates the shader, later calls record
   * the two barriers around the dispatch once the shader is ready, and a
   * successful dispatch stores the flipped buffer. Otherwise (flip off, no
   * device or no flip buffer) FGMakeMVCopy decides: the slot takes the copy
   * exactly when CopyResource succeeds, with the copy's own outcome.
   */
  lemma VelocityRecording(p: SlotParams, flipCreated: bool, deviceSet: bool, cmdListSet: bool, velocity: Res,
                          state: ResourceState, flip: bool, makeCopy: bool, flipInit: bool, flipOk: bool,
                          flipBuf: Native, copyBuf: Native)
    ensures var r := RecordVelocity(p, flipCreated, deviceSet, cmdListSet, velocity, state, flip, makeCopy,
                                    flipInit, flipOk, flipBuf, copyBuf);
            (!cmdListSet ==> r == Recorded(p, flipCreated, [])) &&
            (cmdListSet ==> r.params.velocity == velocity || r.params.velocity == r.params.velocityCopy) &&
            (cmdListSet && !flip && !makeCopy ==> r.params == p.(velocity := velocity)) &&
            (cmdListSet && r.params.velocity != velocity ==> (flip && flipOk) || makeCopy) &&
            r.params.depth == p.depth && r.params.hudless == p.hudless &&
            r.params.depthCopy == p.depthCopy && r.params.hudlessCopy == p.hudlessCopy
    ensures var r := RecordVelocity(p, flipCreated, deviceSet, cmdListSet, velocity, state, flip, makeCopy,
                                    flipInit, flipOk, flipBuf, copyBuf);
            var made := FlipBuffer(velocity, p.velocityCopy, false, flipBuf);
            cmdListSet && flip && deviceSet && made.ok ==>
              r.params.velocityCopy == made.target && r.flipCreated &&
              r.params.velocity == (if flipCreated && flipInit && flipOk then made.target else velocity) &&
              |r.cmds| == (if flipCreated && flipInit then 2 else 0)
    ensures var r := RecordVelocity(p, flipCreated, deviceSet, cmdListSet, velocity, state, flip, makeCopy,
                                    flipInit, flipOk, flipBuf, copyBuf);
            var made := FlipBuffer(velocity, p.velocityCopy, false, flipBuf);
            var before := if flip && deviceSet then made.target else p.velocityCopy;
            var c := CopyResource(velocity, before, state, copyBuf);
            cmdListSet && !(flip && deviceSet && made.ok) ==>
              r.flipCreated == flipCreated &&
              (makeCopy ==> r.params.velocity == (if c.ok then c.target else velocity) &&
                            r.params.velocityCopy == c.target && r.cmds == c.cmds) &&
              (!makeCopy ==> r.params.velocity == velocity && r.params.velocityCopy == before && r.cmds == [])
  {
  }

  /** The same for SetDepth. */
  lemma DepthRecording(p: SlotParams, flipCreated: bool, deviceSet: bool, cmdListSet: bool, depth: Res,
                       state: ResourceState, flip: bool, makeCopy: bool, flipInit: bool, flipOk: bool,
                       n: Native)
    ensures var r := RecordDepth(p, flipCreated, deviceSet, cmdListSet, depth, state, flip, makeCopy,
                                 flipInit, flipOk, n);
            (!cmdListSet ==> r == Recorded(p, flipCreated, [])) &&
            (cmdListSet ==> r.params.depth == depth || r.params.depth == r.params.depthCopy) &&
            (cmdListSet && !flip && !makeCopy ==> r.params == p.(depth := depth)) &&
            (cmdListSet && r.params.depth != depth ==> (flip && deviceSet && flipOk) || (!(flip && deviceSet) && makeCopy)) &&
            r.params.velocity == p.velocity && r.params.hudless == p.hudless
  {
  }

  /**
   * A velocity flip whose buffer cannot be made falls through to the copy
   * path, and the copy, a separate creation, can still take the slot;
   * a depth flip in the same situation gives up without recording.
   */
  lemma FailedFlipBufferFallsThrough(p: SlotParams, velocity: Res, state: ResourceState,
                                                        flipBuf: Native, copyBuf: Native)
    requires velocity.Res? && !flipBuf.createOk
    requires p.velocityCopy.Null? && p.depthCopy.Null?
    requires copyBuf.stateDeviceSet && copyBuf.heapPropertiesOk && copyBuf.createOk
    ensures var r := RecordVelocity(p, true, true, true, velocity, state, true, true, true, true, flipBuf, copyBuf);
            var copy := Res(copyBuf.newId, AdjustedDesc(velocity.desc, false, false));
            r.params.velocity == copy && r.params.velocityCopy == copy &&
            r.cmds == [Barrier(velocity, state, COPY_SOURCE), Copy(copy, velocity), Barrier(velocity, COPY_SOURCE, state)]
    ensures var r := RecordDepth(p, true, true, true, velocity, state, true, true, true, true, flipBuf);
            r.cmds == [] && r.params.depth == velocity && r.params.depthCopy.Null?
  {
  }

  /** The Dx12 frame-generation feature: the shared ring plus the per-slot resources. */
  class IFGFeatureDx12 {
    const base: IFGFeature
    const params: array<SlotParams>
    var deviceSet: bool
    var mvFlipCreated: bool
    var depthFlipCreated: bool

    predicate Valid()
      reads this, base
    {
      base.Valid() && params.Length == BUFFER_COUNT
    }

    constructor (base: IFGFeature)
      requires base.Valid()
      ensures Valid() && this.base == base && fresh(params)
      ensures params[..] == seq(BUFFER_COUNT, _ => NO_PARAMS)
      ensures !deviceSet && !mvFlipCreated && !depthFlipCreated
    {
      this.base := base;
      params := new SlotParams[BUFFER_COUNT](_ => NO_PARAMS);
      deviceSet := false;
      mvFlipCreated := false;
      depthFlipCreated := false;
    }

    /** CreateObjects: remember the device the flip shaders and buffers are made on. */
    method CreateObjects(deviceGiven: bool)
      modifies this`deviceSet
      ensures deviceSet == deviceGiven
    {
      deviceSet := deviceGiven;
    }

    /** ReleaseObjects: drop both flip shaders, so the next flip call creates them again. */
    method ReleaseObjects()
      modifies this`mvFlipCreated, this`depthFlipCreated
      ensures !mvFlipCreated && !depthFlipCreated
    {
      mvFlipCreated := false;
      depthFlipCreated := false;
    }

    method SetHudlessDispatchReady()
      requires Valid()
      modifies base.gates
      ensures Valid() && base.State() == RaiseHudlessDispatch(old(base.State()))
    {
      var i := base.GetIndex();
      base.gates[i] := base.gates[i].(hudlessDispatchReady := true);
    }

    method Present()
      requires Valid()
      modifies base.gates
      ensures Valid() && base.State() == ClearDispatchedSlot(old(base.State()))
    {
      var i := base.LastDispatchedFrame() % BUFFER_COUNT;
      base.gates[i] := base.gates[i].(mvAndDepthReady := false, hudlessReady := false,
                                      hudlessDispatchReady := false);
    }

    function ReadyForExecute(): (r: bool)
      requires Valid()
      reads this, base, base.gates
      ensures r == Ready(base.State())
    {
      var i := base.GetIndex();
      base.gates[i].mvAndDepthReady && base.gates[i].hudlessReady
    }

    method SetHudless(cmdListSet: bool, hudless: Res, state: ResourceState, makeCopy: bool, n: Native)
      returns (cmds: seq<Command>)
      requires Valid()
      modifies params
      ensures var i := base.GetIndex();
              var r := RecordHudless(old(params[i]), cmdListSet, hudless, state, makeCopy, n);
              params[..] == old(params[..])[i := r.0] && cmds == r.1
    {
      var i := base.GetIndex();
      if !cmdListSet || !makeCopy {
        params[i] := params[i].(hudless := hudless);
        cmds := [];
        return;
      }
      var c := CopyResource(hudless, params[i].hudlessCopy, state, n);
      params[i] := params[i].(hudlessCopy := c.target);
      if c.ok {
        params[i] := params[i].(hudless := c.target);
      } else {
        params[i] := params[i].(hudless := hudless);
      }
      cmds := c.cmds;
    }

    method SetVelocity(cmdListSet: bool, velocity: Res, state: ResourceState, flip: bool, makeCopy: bool,
                       flipInit: bool, flipOk: bool, flipBuf: Native, copyBuf: Native)
      returns (cmds: seq<Command>)
      requires Valid()
      modifies params, this`mvFlipCreated
      ensures var i := base.GetIndex();
              var r := RecordVelocity(old(params[i]), old(mvFlipCreated), deviceSet, cmdListSet, velocity, state,
                                      flip, makeCopy, flipInit, flipOk, flipBuf, copyBuf);
              params[..] == old(params[..])[i := r.params] && mvFlipCreated == r.flipCreated && cmds == r.cmds
    {
      var i := base.GetIndex();
      var r := VelocitySteps(params[i], mvFlipCreated, deviceSet, cmdListSet, velocity, state, flip, makeCopy,
                             flipInit, flipOk, flipBuf, copyBuf);
      params[i] := r.params;
      mvFlipCreated := r.flipCreated;
      cmds := r.cmds;
    }

    method SetDepth(cmdListSet: bool, depth: Res, state: ResourceState, flip: bool, makeCopy: bool,
                    flipInit: bool, flipOk: bool, n: Native)
      returns (cmds: seq<Command>)
      requires Valid()
      modifies params, this`depthFlipCreated
      ensures var i := base.GetIndex();
              var r := RecordDepth(old(params[i]), old(depthFlipCreated), deviceSet, cmdListSet, depth, state,
                                   flip, makeCopy, flipInit, flipOk, n);
              params[..] == old(params[..])[i := r.params] && depthFlipCreated == r.flipCreated && cmds == r.cmds
    {
      var i := base.GetIndex();
      var r := DepthSteps(params[i], depthFlipCreated, deviceSet, cmdListSet, depth, state, flip, makeCopy,
                          flipInit, flipOk, n);
      params[i] := r.params;
      depthFlipCreated := r.flipCreated;
      cmds := r.cmds;
    }

    /** The command-list bookkeeping is compiled out: no list is ever recognised. */
    function IsFGCommandList(cmdList: nat): (r: bool)
      ensures !r
    {
      false
    }

    /** The hudless command list is compiled out: nothing is executed. */
    function ExecuteHudlessCmdList(queue: nat): (r: Option<nat>)
      ensures r.None?
    {
      None
    }
  }
}
