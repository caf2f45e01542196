/**
 * The frame-gate ring shared by every frame-generation backend
 * (IFGFeature): three UINT64 counters and, per slot of a ring of
 * BUFFER_COUNT frames, the readiness gates that the upscaler, the hudless
 * capture and the present path raise and lower. The slot of the frame in
 * flight is `_frameCount % BUFFER_COUNT`.
 *
 * The five per-slot bool arrays (`_mvAndDepthReady`, `_hudlessReady`,
 * `_hudlessDispatchReady`, `_noHudless`, `_waitingExecute`) are kept as one
 * array of SlotGates records, entry i holding element i of each array.
 */
module FrameGen {
  import opened Machine

  const BUFFER_COUNT: nat := 4

  datatype SlotGates = SlotGates(mvAndDepthReady: bool, hudlessReady: bool, hudlessDispatchReady: bool,
                                 noHudless: bool, waitingExecute: bool)

  /** Every gate of a slot lowered: the initial value of all five arrays. */
  const ALL_FALSE: SlotGates := SlotGates(false, false, false, false, false)

  /** The observable state of an IFGFeature. */
  datatype FrameState = FrameState(frameCount: u64, lastDispatchedFrame: u64, targetFrame: u64,
                                   gates: seq<SlotGates>)
  {
    ghost predicate Valid() { |gates| == BUFFER_COUNT }
  }

  /** GetIndex. */
  function Index(frameCount: nat): (r: nat)
    ensures r < BUFFER_COUNT
    ensures (frameCount - r) % BUFFER_COUNT == 0
  {
    frameCount % BUFFER_COUNT
  }

  /** A freshly constructed feature (the member initialisers). */
  function Initial(): (s: FrameState)
  {
    FrameState(0, 0, 0, seq(BUFFER_COUNT, _ => ALL_FALSE))
  }

  /** StartNewFrame: advance the counter and re-arm the gates of the new slot. */
  function NewFrame(s: FrameState): (t: FrameState)
    requires s.Valid()
    ensures t.Valid()
  {
    var fc := Wrap64(s.frameCount + 1);
    var i := Index(fc);
    s.(frameCount := fc,
       gates := s.gates[i := s.gates[i].(mvAndDepthReady := false, hudlessReady := false,
                                        waitingExecute := false, noHudless := true)])
  }

  /** `k` successive StartNewFrame calls. */
  function Frames(s: FrameState, k: nat): (t: FrameState)
    requires s.Valid()
    ensures t.Valid()
  {
    if k == 0 then s else NewFrame(Frames(s, k - 1))
  }

  /** The current slot's gates after `f` has been applied to them. */
  function AtCurrent(s: FrameState, f: SlotGates -> SlotGates): (t: FrameState)
    requires s.Valid()
    ensures t.Valid()
  {
    var i := Index(s.frameCount);
    s.(gates := s.gates[i := f(s.gates[i])])
  }

  function RaiseUpscaleInputs(s: FrameState): FrameState
    requires s.Valid()
  {
    AtCurrent(s, (g: SlotGates) => g.(mvAndDepthReady := true))
  }

  function RaiseHudless(s: FrameState): FrameState
    requires s.Valid()
  {
    AtCurrent(s, (g: SlotGates) => g.(hudlessReady := true))
  }

  function RaiseHudlessDispatch(s: FrameState): FrameState
    requires s.Valid()
  {
    AtCurrent(s, (g: SlotGates) => g.(hudlessDispatchReady := true))
  }

  function LowerWaiting(s: FrameState): FrameState
    requires s.Valid()
  {
    AtCurrent(s, (g: SlotGates) => g.(waitingExecute := false))
  }

  /** The Dx12 Present: lower three gates of the last dispatched frame's slot. */
  function ClearDispatchedSlot(s: FrameState): (t: FrameState)
    requires s.Valid()
    ensures t.Valid()
  {
    var i := Index(s.lastDispatchedFrame);
    s.(gates := s.gates[i := s.gates[i].(mvAndDepthReady := false, hudlessReady := false,
                                        hudlessDispatchReady := false)])
  }

  function Retarget(s: FrameState): FrameState
  {
    s.(targetFrame := Wrap64(s.frameCount + 10))
  }

  function ZeroCounters(s: FrameState): FrameState
  {
    s.(frameCount := 0, targetFrame := 0)
  }

  function Current(s: FrameState): SlotGates
    requires s.Valid()
  {
    s.gates[Index(s.frameCount)]
  }

  function HudlessInUse(s: FrameState): bool
    requires s.Valid()
  {
    !Current(s).noHudless
  }

  /** The Dx12 ReadyForExecute. */
  function Ready(s: FrameState): bool
    requires s.Valid()
  {
    Current(s).mvAndDepthReady && Current(s).hudlessReady
  }

  function Paused(s: FrameState): bool
  {
    s.targetFrame >= s.frameCount
  }

  function Dispatched(s: FrameState): bool
  {
    s.lastDispatchedFrame == s.frameCount
  }

  /** A fresh feature is both paused and dispatched, with all gates of all four slots low. */
  lemma InitialState()
    ensures Initial().Valid() && Paused(Initial()) && Dispatched(Initial())
    ensures forall i :: 0 <= i < BUFFER_COUNT ==> Initial().gates[i] == ALL_FALSE
    ensures HudlessInUse(Initial()) && !Ready(Initial())
  {
  }

  /**
   * StartNewFrame adds one to the counter (modulo 2^64), re-arms exactly the
   * new slot and leaves `_hudlessDispatchReady`, the other slots and the
   * other counters alone.
   */
  lemma NewFrameEffect(s: FrameState)
    requires s.Valid()
    ensures var t := NewFrame(s);
            var i := Index(t.frameCount);
            t.frameCount == (s.frameCount + 1) % U64 &&
            t.lastDispatchedFrame == s.lastDispatchedFrame && t.targetFrame == s.targetFrame &&
            !t.gates[i].mvAndDepthReady && !t.gates[i].hudlessReady && !t.gates[i].waitingExecute &&
            t.gates[i].noHudless && t.gates[i].hudlessDispatchReady == s.gates[i].hudlessDispatchReady &&
            (forall j :: 0 <= j < BUFFER_COUNT && j != i ==> t.gates[j] == s.gates[j])
  {
  }

  /** Right after StartNewFrame the frame is not using hudless, and SetHudlessReady does not change that. */
  lemma NewFrameNoHudless(s: FrameState)
    requires s.Valid()
    ensures !HudlessInUse(NewFrame(s))
    ensures !HudlessInUse(RaiseHudless(NewFrame(s)))
    ensures HudlessMarked(RaiseHudless(NewFrame(s)))
  {
  }

  function HudlessMarked(s: FrameState): bool
    requires s.Valid()
  {
    Current(s).hudlessReady
  }

  /** Each setter raises (or lowers) its own gate of the current slot and nothing else. */
  lemma SettersTouchOnlyCurrentSlot(s: FrameState)
    requires s.Valid()
    ensures Current(RaiseUpscaleInputs(s)) == Current(s).(mvAndDepthReady := true)
    ensures Current(RaiseHudless(s)) == Current(s).(hudlessReady := true)
    ensures Current(RaiseHudlessDispatch(s)) == Current(s).(hudlessDispatchReady := true)
    ensures Current(LowerWaiting(s)) == Current(s).(waitingExecute := false)
    ensures forall j :: 0 <= j < BUFFER_COUNT && j != Index(s.frameCount) ==>
              RaiseUpscaleInputs(s).gates[j] == s.gates[j] && RaiseHudless(s).gates[j] == s.gates[j] &&
              RaiseHudlessDispatch(s).gates[j] == s.gates[j] && LowerWaiting(s).gates[j] == s.gates[j]
  {
  }

  /** Once both upscaler inputs and hudless are marked, the frame is ready for execution. */
  lemma ReadyAfterBothGates(s: FrameState)
    requires s.Valid()
    ensures Ready(RaiseHudless(RaiseUpscaleInputs(s)))
    ensures Ready(s) <==> Current(s).mvAndDepthReady && Current(s).hudlessReady
  {
  }

  /**
   * Present lowers the slot of LastDispatchedFrame, which is not the current
   * slot when the counter has moved on: the current frame's gates survive.
   */
  lemma PresentClearsDispatchedSlot(s: FrameState)
    requires s.Valid()
    ensures var i := Index(s.lastDispatchedFrame);
            var t := ClearDispatchedSlot(s);
            !t.gates[i].mvAndDepthReady && !t.gates[i].hudlessReady && !t.gates[i].hudlessDispatchReady &&
            t.gates[i].noHudless == s.gates[i].noHudless && t.gates[i].waitingExecute == s.gates[i].waitingExecute &&
            (forall j :: 0 <= j < BUFFER_COUNT && j != i ==> t.gates[j] == s.gates[j])
    ensures Index(s.lastDispatchedFrame) != Index(s.frameCount) ==> Current(ClearDispatchedSlot(s)) == Current(s)
  {
  }

  lemma {:induction false} FramesCounters(s: FrameState, k: nat)
    requires s.Valid() && s.frameCount + k < U64
    ensures Frames(s, k).frameCount == s.frameCount + k
    ensures Frames(s, k).targetFrame == s.targetFrame
    ensures Frames(s, k).lastDispatchedFrame == s.lastDispatchedFrame
  {
    if k > 0 {
      FramesCounters(s, k - 1);
    }
  }

  /**
   * After UpdateTarget at frame F, the feature stays paused for the frames
   * F .. F+10 (the bound is inclusive) and is no longer paused from F+11 on.
   */
  lemma PausedWindow(s: FrameState, k: nat)
    requires s.Valid() && s.frameCount + 10 < U64 && s.frameCount + k < U64
    ensures Retarget(s).targetFrame == s.frameCount + 10
    ensures Paused(Frames(Retarget(s), k)) <==> k <= 10
  {
    FramesCounters(Retarget(s), k);
  }

  /** ResetCounters zeroes exactly the two counters, after which the feature is paused. */
  lemma ResetCountersEffect(s: FrameState)
    requires s.Valid()
    ensures var t := ZeroCounters(s);
            t.frameCount == 0 && t.targetFrame == 0 &&
            t.gates == s.gates && t.lastDispatchedFrame == s.lastDispatchedFrame && Paused(t)
  {
  }

  lemma {:induction false} FramesFromInitial(k: nat)
    requires k < BUFFER_COUNT
    ensures Frames(Initial(), k).frameCount == k
    ensures forall j :: 0 <= j < BUFFER_COUNT ==>
              Frames(Initial(), k).gates[j].noHudless == (1 <= j <= k)
  {
    if k > 0 {
      FramesFromInitial(k - 1);
      var prev := Frames(Initial(), k - 1);
      assert Wrap64(prev.frameCount + 1) == k;
      assert Index(k) == k;
      assert Frames(Initial(), k).gates == prev.gates[k := prev.gates[k].(mvAndDepthReady := false,
        hudlessReady := false, waitingExecute := false, noHudless := true)];
    }
  }

  /**
   * Because `_noHudless` starts false, a slot reports UsingHudless until
   * StartNewFrame first reaches it: after k < 4 frames, slot j has been
   * reached iff 1 <= j <= k.
   */
  lemma HudlessDefaultUntilSlotReached(k: nat, j: nat)
    requires k < BUFFER_COUNT && j < BUFFER_COUNT
    ensures !Frames(Initial(), k).gates[j].noHudless <==> (j == 0 || j > k)
  {
    FramesFromInitial(k);
  }

  /** The shared frame-generation state, updated in place by its methods. */
  class IFGFeature {
    var frameCount: u64
    var lastDispatchedFrame: u64
    var lastUpscaledFrameId: u64
    var isActive: bool
    var targetFrame: u64
    const gates: array<SlotGates>

    predicate Valid()
    {
      gates.Length == BUFFER_COUNT
    }

    ghost function State(): (s: FrameState)
      requires Valid()
      reads this, gates
      ensures s.Valid()
    {
      FrameState(frameCount, lastDispatchedFrame, targetFrame, gates[..])
    }

    constructor ()
      ensures Valid() && fresh(gates)
      ensures State() == Initial() && lastUpscaledFrameId == 0 && !isActive
    {
      frameCount := 0;
      lastDispatchedFrame := 0;
      lastUpscaledFrameId := 0;
      isActive := false;
      targetFrame := 0;
      gates := new SlotGates[BUFFER_COUNT](_ => ALL_FALSE);
    }

    function GetIndex(): (r: nat)
      reads this
      ensures r < BUFFER_COUNT && r == Index(frameCount)
    {
      frameCount % BUFFER_COUNT
    }

    method StartNewFrame() returns (r: u64)
      requires Valid()
      modifies this, gates
      ensures Valid() && State() == NewFrame(old(State())) && r == frameCount
      ensures isActive == old(isActive) && lastUpscaledFrameId == old(lastUpscaledFrameId)
    {
      frameCount := Wrap64(frameCount + 1);
      var i := GetIndex();
      gates[i] := gates[i].(mvAndDepthReady := false, hudlessReady := false,
                            waitingExecute := false, noHudless := true);
      r := frameCount;
    }

    function WaitingExecution(): (r: bool)
      requires Valid()
      reads this, gates
      ensures r == Current(State()).waitingExecute
    {
      gates[GetIndex()].waitingExecute
    }

    method SetExecuted()
      requires Valid()
      modifies gates
      ensures State() == LowerWaiting(old(State()))
    {
      var i := GetIndex();
      gates[i] := gates[i].(waitingExecute := false);
    }

    function UpscalerInputsReady(): (r: bool)
      requires Valid()
      reads this, gates
      ensures r == Current(State()).mvAndDepthReady
    {
      gates[GetIndex()].mvAndDepthReady
    }

    method SetUpscaleInputsReady()
      requires Valid()
      modifies gates
      ensures State() == RaiseUpscaleInputs(old(State()))
    {
      var i := GetIndex();
      gates[i] := gates[i].(mvAndDepthReady := true);
    }

    function HudlessReady(): (r: bool)
      requires Valid()
      reads this, gates
      ensures r == HudlessMarked(State())
    {
      gates[GetIndex()].hudlessReady
    }

    method SetHudlessReady()
      requires Valid()
      modifies gates
      ensures State() == RaiseHudless(old(State()))
    {
      var i := GetIndex();
      gates[i] := gates[i].(hudlessReady := true);
    }

    function UsingHudless(): (r: bool)
      requires Valid()
      reads this, gates
      ensures r == HudlessInUse(State())
    {
      !gates[GetIndex()].noHudless
    }

    function IsActive(): bool
      reads this
    {
      isActive
    }

    function IsPaused(): (r: bool)
      requires Valid()
      reads this, gates
      ensures r == Paused(State())
    {
      targetFrame >= frameCount
    }

    function IsDispatched(): (r: bool)
      requires Valid()
      reads this, gates
      ensures r == Dispatched(State())
    {
      lastDispatchedFrame == frameCount
    }

    method ResetCounters()
      requires Valid()
      modifies this
      ensures State() == ZeroCounters(old(State()))
      ensures isActive == old(isActive) && lastUpscaledFrameId == old(lastUpscaledFrameId)
    {
      frameCount := 0;
      targetFrame := 0;
    }

    method UpdateTarget()
      requires Valid()
      modifies this
      ensures State() == Retarget(old(State()))
      ensures isActive == old(isActive) && lastUpscaledFrameId == old(lastUpscaledFrameId)
    {
      targetFrame := Wrap64(frameCount + 10);
    }

    function FrameCount(): u64
      reads this
    {
      frameCount
    }

    function LastDispatchedFrame(): u64
      reads this
    {
      lastDispatchedFrame
    }

    function TargetFrame(): u64
      reads this
    {
      targetFrame
    }
  }
}
