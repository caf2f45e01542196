/**
 * The slice of DXGI / Direct3D 12 that the shader helpers and the frame
 * generation feature observe: format codes and resource-state / resource-flag
 * bits with their numeric values from dxgiformat.h and d3d12.h, a texture
 * description, a resource reference and the commands recorded on a command
 * list. Driver objects are reduced to an identity and a description.
 */
module Dxgi {
  import opened Wrappers

  /** DXGI_FORMAT, a 32-bit enumeration. */
  type Format = nat

  const UNKNOWN: Format := 0
  const R32G32B32A32_TYPELESS: Format := 1
  const R32G32B32A32_FLOAT: Format := 2
  const R32G32B32_TYPELESS: Format := 5
  const R32G32B32_FLOAT: Format := 6
  const R16G16B16A16_TYPELESS: Format := 9
  const R16G16B16A16_FLOAT: Format := 10
  const R32G32_TYPELESS: Format := 15
  const R32G32_FLOAT: Format := 16
  const R10G10B10A2_TYPELESS: Format := 23
  const R10G10B10A2_UNORM: Format := 24
  const R10G10B10A2_UINT: Format := 25
  const R11G11B10_FLOAT: Format := 26
  const R8G8B8A8_TYPELESS: Format := 27
  const R8G8B8A8_UNORM: Format := 28
  const R8G8B8A8_UNORM_SRGB: Format := 29
  const R16G16_TYPELESS: Format := 33
  const R16G16_FLOAT: Format := 34
  const R32_TYPELESS: Format := 39
  const R32_FLOAT: Format := 41
  const R32_UINT: Format := 42
  const R8G8_UNORM: Format := 49
  const R8_UNORM: Format := 61
  const R8_UINT: Format := 62
  const B8G8R8A8_UNORM: Format := 87
  const B8G8R8X8_UNORM: Format := 88
  const B8G8R8A8_TYPELESS: Format := 90
  const B8G8R8A8_UNORM_SRGB: Format := 91
  const B8G8R8X8_UNORM_SRGB: Format := 93

  /** D3D12_RESOURCE_STATES, a bit mask. */
  type ResourceState = bv32

  const COMMON: ResourceState := 0
  const PRESENT: ResourceState := 0
  const RENDER_TARGET: ResourceState := 0x4
  const UNORDERED_ACCESS: ResourceState := 0x8
  const NON_PIXEL_SHADER_RESOURCE: ResourceState := 0x40
  const PIXEL_SHADER_RESOURCE: ResourceState := 0x80
  const COPY_DEST: ResourceState := 0x400
  const COPY_SOURCE: ResourceState := 0x800

  /** D3D12_RESOURCE_FLAGS, a bit mask. */
  type ResourceFlags = bv32

  const FLAG_NONE: ResourceFlags := 0
  const FLAG_ALLOW_RENDER_TARGET: ResourceFlags := 0x1
  const FLAG_ALLOW_UNORDERED_ACCESS: ResourceFlags := 0x4
  const FLAG_ALLOW_SIMULTANEOUS_ACCESS: ResourceFlags := 0x20

  /** The fields of D3D12_RESOURCE_DESC / D3D11_TEXTURE2D_DESC the code compares. */
  datatype TexDesc = TexDesc(width: nat, height: nat, format: Format, flags: ResourceFlags)

  /** A COM resource pointer: null, or a live object with its description. */
  datatype Res = Null | Res(id: nat, desc: TexDesc)

  /** What a helper records on a command list (or device context). */
  datatype Command =
    | Barrier(res: Res, before: ResourceState, after: ResourceState)
    | Copy(dst: Res, src: Res)
    | Upload(dst: Res, upload: nat)
    | Dispatch(x: nat, y: nat, z: nat)
    | Draw(vertices: nat)

  /**
   * One command's effect on the tracked state of resource `r`: a barrier on
   * `r` must start from the state `r` is in and moves it, anything else
   * leaves it; None stands for a barrier whose before-state was wrong.
   */
  function Step(c: Command, r: Res, s: Option<ResourceState>): Option<ResourceState>
  {
    if s.None? then None
    else if c.Barrier? && c.res == r then (if c.before == s.value then Some(c.after) else None)
    else s
  }

  /** The state `r` is in after the commands, from `s`, or None once a barrier on it was wrong. */
  function Replay(cmds: seq<Command>, r: Res, s: Option<ResourceState>): Option<ResourceState>
  {
    if cmds == [] then s else Replay(cmds[1..], r, Step(cmds[0], r, s))
  }

  /** Replaying a concatenation replays the first part, then the second from where it left off. */
  lemma {:induction false} ReplayAppend(a: seq<Command>, b: seq<Command>, r: Res, s: Option<ResourceState>)
    ensures Replay(a + b, r, s) == Replay(b, r, Replay(a, r, s))
  {
    if a == [] {
      assert a + b == b;
    } else {
      assert (a + b)[0] == a[0];
      assert (a + b)[1..] == a[1..] + b;
      ReplayAppend(a[1..], b, r, Step(a[0], r, s));
    }
  }

  lemma ReplayCons(c: Command, t: seq<Command>, r: Res, s: Option<ResourceState>)
    ensures Replay([c] + t, r, s) == Replay(t, r, Step(c, r, s))
  {
    assert ([c] + t)[0] == c;
    assert ([c] + t)[1..] == t;
  }

  /** The barrier a helper records to move `buffer` to `target`: none when it is already there. */
  function StateChange(buffer: Res, current: ResourceState, target: ResourceState): seq<Command>
  {
    if current == target then [] else [Barrier(buffer, current, target)]
  }

  /**
   * The barriers StateChange records take the buffer from its current state
   * to the target: replaying them ends in the target state, and a state
   * already reached records nothing.
   */
  lemma StateChangeReaches(buffer: Res, current: ResourceState, target: ResourceState)
    ensures var cmds := StateChange(buffer, current, target);
            |cmds| <= 1 && (cmds == [] <==> current == target) &&
            Replay(cmds, buffer, Some(current)) == Some(target) &&
            forall r, s :: r != buffer ==> Replay(cmds, r, s) == s
  {
    if current != target {
      forall r, s
        ensures Replay(StateChange(buffer, current, target), r, s) == Step(Barrier(buffer, current, target), r, s)
      {
        ReplayCons(Barrier(buffer, current, target), [], r, s);
        assert [Barrier(buffer, current, target)] + [] == [Barrier(buffer, current, target)];
      }
    }
  }
}
