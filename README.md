# OptiScaler core, modelled in Dafny

OptiScaler is a Windows DLL that sits between a game and its upscaler
(DLSS, FSR, XeSS) and frame generator. This project models the parts of it
that keep state and take decisions, and proves what they promise.

- **Descriptor tracking** (`restrack.dfy`). A shadow table per D3D12
  descriptor heap records which resource each slot describes. A global
  reverse index maps each resource to the slots that refer to it. The model
  covers slot lookup by CPU or GPU handle, Set and Clear, and the invariant
  that every occupied slot is listed under its resource.
- **Frame-gate ring** (`framegen.dfy`, `framegen_dx12.dfy`). The frame
  counter, the target and last-dispatched frames, and a 4-slot ring of
  per-frame gates. On top of it sit the Direct3D 12 frame generator's
  resource recording (hudless, velocity, depth) and its buffer reuse rule.
- **Signature scanner** (`scanner.dfy`). A mask such as `"48 8B ? 05"` is
  parsed into bytes and wildcards. The scanner then searches the executable
  sections of a module and decodes a RIP-relative offset from the match.
- **Quirk table** (`quirks.dfy`, `text.dfy`). Executable names map to sets
  of game quirks (case-insensitive, whole-name match, union over entries).
- **Shader helpers** (`smaa.dfy`, `smaa_dx11.dfy`, `smaa_dx12.dfy`,
  `cmaa2_dx11.dfy`, `hc_dx12.dfy`, `dlss_dx12.dfy`, with `dxgi.dfy`).
  They cover:
  - the DXGI typeless and sRGB format maps;
  - the typed or untyped UAV store choice;
  - buffer size arithmetic;
  - the "reuse when width, height and format match" rule;
  - the "barrier only when the state differs" rule;
  - descriptor handle layout and the hudless compare ping-pong;
  - dispatch guards and group counts;
  - DLSS's SMAA input and debug preview bookkeeping.
- **Hooks** (`streamline_hooks.dfy`, `ntdll_hooks.dfy`). The decisions of
  the Streamline SDK hooks: log trimming and callback capture, the Reflex
  override, the DLSS-G option rewrite, the hudless tag rewrite, the system
  caps spoof and the "same module as last time" guards. For the
  `LdrLoadDll` hook: the skip-name rule, the nvngx redirect rule and hook
  idempotence.

Device and driver calls (D3D11, D3D12, DXGI, NGX, Detours, the
configuration, the menu) are not modelled. They become parameters: success
booleans, the identities of the objects they would create, and the values
they would return. Pointers are numbers, with 0 for `nullptr`. Unsigned
C++ arithmetic is written out with explicit wrap-around (`Machine.Wrap32`
and `Machine.Wrap64`). The tracked state of a resource is replayed over
the recorded barrier list (`Dxgi.Replay`).

Where the written behaviour and the documented intent differ, the model
follows the code:
- `IsPaused` holds through frame F+10 inclusive after `UpdateTarget` at
  frame F.
- Set appends to the reverse index without removing the slot from its
  previous owner or de-duplicating.
- `_noHudless` starts false, so every slot uses hudless until the ring
  first reaches it.
- `FindPattern` examines `maxSize + 1` bytes.
- SMAA Dx12 is modelled from its `.cpp`: its header declares a different
  constructor and different members.

## Model

| member | source | states |
|---|---|---|
| ResTrack.SlotIndex | OptiScaler/resource_tracking/ResTrack_dx12.h:65 | the slot index is `(handle - start) / increment` with the subtraction done in 64-bit unsigned arithmetic, so a handle below `start` gives `(2^64 - (start - handle)) / increment` |
| ResTrack.CpuGpuSameSlot | OptiScaler/resource_tracking/ResTrack_dx12.h:63-99 | the handle `cpuStart + k` and the handle `gpuStart + k` (both wrapped to 64 bits) name the same slot, `(k mod 2^64) / increment` |
| ResTrack.RemoveFirstAt | OptiScaler/resource_tracking/ResTrack_dx12.h:174-182 | when the first occurrence of the reference is at position `i`, the erase loop removes exactly position `i` |
| ResTrack.RemoveFirstAbsent | OptiScaler/resource_tracking/ResTrack_dx12.h:174-182 | when the reference is not in the list, the erase loop leaves the list as it was |
| ResTrack.RemoveFirstMultiset | OptiScaler/resource_tracking/ResTrack_dx12.h:174-182 | the erase loop removes one copy of the reference, shortening the list by one, when there is one, and nothing otherwise |
| ResTrack.RemoveFirstKeepsOthers | OptiScaler/resource_tracking/ResTrack_dx12.h:174-182 | every other reference stays in the list |
| ResTrack.Track | OptiScaler/resource_tracking/ResTrack_dx12.h:117-120 | Set appends the slot reference to the list of the new resource, creating the list when the resource has none; every other list is unchanged |
| ResTrack.Untrack | OptiScaler/resource_tracking/ResTrack_dx12.h:166-184 | Clear changes only the list of the slot's old resource, keeps every key (empty lists are not pruned) and does nothing for a null resource |
| ResTrack.SetKeepsCovered | OptiScaler/resource_tracking/ResTrack_dx12.h:101-127 | Set preserves the invariant that every occupied slot is listed under the resource it holds |
| ResTrack.ClearKeepsCovered | OptiScaler/resource_tracking/ResTrack_dx12.h:157-190 | Clear preserves the same invariant |
| ResTrack.StaleReferenceAfterOverwrite | OptiScaler/resource_tracking/ResTrack_dx12.h:112-120 | the reverse index is not exact: after a slot is overwritten by a second resource, the first resource's list still names the slot |
| ResTrack.RepeatedSetDuplicates | OptiScaler/resource_tracking/ResTrack_dx12.h:117-120 | setting the same slot twice with the same resource lists the slot twice, because Set does not de-duplicate |
| ResTrack.ResourceIndex.constructor | OptiScaler/resource_tracking/ResTrack_dx12.h:117 | the reverse index starts empty |
| ResTrack.HeapInfo.constructor | OptiScaler/resource_tracking/ResTrack_dx12.h:52-61 | the heap records its parameters and allocates `numResources` slots, every one with a null buffer |
| ResTrack.HeapInfo.GetAt | OptiScaler/resource_tracking/ResTrack_dx12.h:67-79 | the slot is returned exactly when its index is below `numDescriptors` and its buffer is non-null; otherwise null |
| ResTrack.HeapInfo.GetByCpuHandle | OptiScaler/resource_tracking/ResTrack_dx12.h:63-80 | the slot of `SlotIndex(handle, cpuStart, increment)` is returned exactly when it is in range and occupied; the heap is only read |
| ResTrack.HeapInfo.GetByGpuHandle | OptiScaler/resource_tracking/ResTrack_dx12.h:82-99 | the same for a GPU handle against `gpuStart` |
| ResTrack.HeapInfo.SetAt | OptiScaler/resource_tracking/ResTrack_dx12.h:105-126 | out of range nothing changes; in range exactly that slot is overwritten and the reverse index becomes `Track(...)` of the old one |
| ResTrack.HeapInfo.SetByCpuHandle | OptiScaler/resource_tracking/ResTrack_dx12.h:101-127 | the same, at the slot the CPU handle names |
| ResTrack.HeapInfo.SetByGpuHandle | OptiScaler/resource_tracking/ResTrack_dx12.h:129-155 | the same, at the slot the GPU handle names |
| ResTrack.HeapInfo.ClearAt | OptiScaler/resource_tracking/ResTrack_dx12.h:161-189 | out of range nothing changes; in range the slot gets a null buffer and `lastUsedFrame` 0 (its other fields stay), and only the first reference to it is erased from its old resource's list |
| ResTrack.HeapInfo.ClearByCpuHandle | OptiScaler/resource_tracking/ResTrack_dx12.h:157-190 | the same, at the slot the CPU handle names |
| ResTrack.HeapInfo.ClearByGpuHandle | OptiScaler/resource_tracking/ResTrack_dx12.h:192-225 | the same, at the slot the GPU handle names |
| FrameGen.Index | OptiScaler/framegen/IFGFeature.cpp:5 | the slot of a frame lies in `[0, BUFFER_COUNT)` and is congruent to the frame count modulo `BUFFER_COUNT` |
| FrameGen.InitialState | OptiScaler/framegen/IFGFeature.h:22-32 | a fresh feature has all three counters 0, so it is both paused and dispatched; every gate of all four slots is low, so it reports UsingHudless and is not ready |
| FrameGen.NewFrameEffect | OptiScaler/framegen/IFGFeature.cpp:7-19 | StartNewFrame adds one to `_frameCount` (modulo 2^64), lowers mv/depth, hudless and waiting and raises noHudless only at the new slot, and leaves `_hudlessDispatchReady`, the other slots and the other counters alone |
| FrameGen.NewFrameNoHudless | OptiScaler/framegen/IFGFeature.cpp:16-29 | right after StartNewFrame UsingHudless is false, and SetHudlessReady marks hudless ready without changing that |
| FrameGen.SettersTouchOnlyCurrentSlot | OptiScaler/framegen/IFGFeature.cpp:21-28 | each setter sets its own gate of the current slot and leaves the other slots as they were |
| FrameGen.ReadyAfterBothGates | OptiScaler/framegen/IFGFeature_Dx12.cpp:425-429 | the Dx12 ReadyForExecute holds exactly when both the mv/depth and the hudless gate of the current slot are raised, so raising both makes it true |
| FrameGen.PresentClearsDispatchedSlot | OptiScaler/framegen/IFGFeature_Dx12.cpp:400-406 | Present lowers the three gates of the slot of LastDispatchedFrame only; when that is not the current slot, the current frame's gates survive |
| FrameGen.FramesCounters | OptiScaler/framegen/IFGFeature.cpp:10 | k frames without wrap-around add k to the frame count and leave the target and last-dispatched counters alone |
| FrameGen.PausedWindow | OptiScaler/framegen/IFGFeature.cpp:55-93 | after UpdateTarget at frame F the target is F+10, and after k more frames the feature is paused exactly when k <= 10 (the bound is inclusive) |
| FrameGen.ResetCountersEffect | OptiScaler/framegen/IFGFeature.cpp:83-87 | ResetCounters zeroes `_frameCount` and `_targetFrame` only, and afterwards the feature is paused |
| FrameGen.FramesFromInitial | OptiScaler/framegen/IFGFeature.h:32 | after k < 4 frames from a fresh feature, slot j has noHudless set exactly when 1 <= j <= k |
| FrameGen.HudlessDefaultUntilSlotReached | OptiScaler/framegen/IFGFeature.h:32 | because `_noHudless` starts false, a slot reports UsingHudless until StartNewFrame first reaches it |
| FrameGen.IFGFeature.constructor | OptiScaler/framegen/IFGFeature.h:22-32 | the fresh object's state is the initial one: counters 0, inactive, all gates low |
| FrameGen.IFGFeature.GetIndex | OptiScaler/framegen/IFGFeature.cpp:5 | GetIndex is the slot of the current frame, below `BUFFER_COUNT` |
| FrameGen.IFGFeature.StartNewFrame | OptiScaler/framegen/IFGFeature.cpp:7-19 | the new state is the StartNewFrame transition of the old one and the result is the new frame count |
| FrameGen.IFGFeature.WaitingExecution | OptiScaler/framegen/IFGFeature.cpp:21 | reads the waiting gate of the current slot |
| FrameGen.IFGFeature.SetExecuted | OptiScaler/framegen/IFGFeature.cpp:22 | the new state is the old one with the current slot's waiting gate lowered |
| FrameGen.IFGFeature.UpscalerInputsReady | OptiScaler/framegen/IFGFeature.cpp:24 | reads the mv/depth gate of the current slot |
| FrameGen.IFGFeature.SetUpscaleInputsReady | OptiScaler/framegen/IFGFeature.cpp:25 | the new state is the old one with the current slot's mv/depth gate raised |
| FrameGen.IFGFeature.HudlessReady | OptiScaler/framegen/IFGFeature.cpp:27 | reads the hudless gate of the current slot |
| FrameGen.IFGFeature.SetHudlessReady | OptiScaler/framegen/IFGFeature.cpp:28 | the new state is the old one with the current slot's hudless gate raised |
| FrameGen.IFGFeature.UsingHudless | OptiScaler/framegen/IFGFeature.cpp:29 | true exactly when the current slot's noHudless gate is low |
| FrameGen.IFGFeature.IsPaused | OptiScaler/framegen/IFGFeature.cpp:55 | the pause predicate of the state, `_targetFrame >= _frameCount` |
| FrameGen.IFGFeature.IsDispatched | OptiScaler/framegen/IFGFeature.cpp:57 | the dispatched predicate of the state, `_lastDispatchedFrame == _frameCount`; it only reads |
| FrameGen.IFGFeature.ResetCounters | OptiScaler/framegen/IFGFeature.cpp:83-87 | the new state is the old one with both counters zeroed; the gates are untouched |
| FrameGen.IFGFeature.UpdateTarget | OptiScaler/framegen/IFGFeature.cpp:89-93 | the new state is the old one with the target set to the frame count plus 10 (modulo 2^64) |
| FrameGenDx12.AdjustedDesc | OptiScaler/framegen/IFGFeature_Dx12.cpp:70-76 | the wanted description keeps the source's size; a UAV request replaces the flags with ALLOW_UNORDERED_ACCESS and a depth request forces R32_FLOAT |
| FrameGenDx12.CreateBufferResource | OptiScaler/framegen/IFGFeature_Dx12.cpp:64-116 | a null device or source fails and leaves the target; an existing target is kept, with success, exactly when its description is the adjusted one; success always leaves a target with the adjusted description, and a failure after the guards leaves a null target |
| FrameGenDx12.CreateBufferResourceWithSize | OptiScaler/framegen/IFGFeature_Dx12.cpp:6-62 | the same rule with the wanted size `width` x `height` instead of the source's |
| FrameGenDx12.CopyResource | OptiScaler/framegen/IFGFeature_Dx12.cpp:130-145 | the result is that of creating the buffer through the global device; the commands start with the source's barrier to COPY_SOURCE and end with the barrier back to `sourceState`, and contain the copy exactly when the buffer was made |
| FrameGenDx12.RecordHudlessChoice | OptiScaler/framegen/IFGFeature_Dx12.cpp:249-265 | SetHudless records the given resource without a command list or without a copy request, otherwise the copy when CopyResource succeeded and the given resource when it failed; the other slot parameters are kept |
| FrameGenDx12.VelocitySteps | OptiScaler/framegen/IFGFeature_Dx12.cpp:147-197 | the step-by-step SetVelocity (flip buffer first, then the FGMakeMVCopy copy when the flip buffer could not be made or no flip is used) computes exactly the RecordVelocity outcome, with the flip buffer and the copy each taking their own native outcome |
| FrameGenDx12.DepthSteps | OptiScaler/framegen/IFGFeature_Dx12.cpp:199-247 | the step-by-step SetDepth computes exactly the RecordDepth outcome |
| FrameGenDx12.VelocityRecording | OptiScaler/framegen/IFGFeature_Dx12.cpp:150-196 | without a command list nothing is recorded; with a made flip buffer the slot keeps it as its copy, the first call only creates the flip shader, and later calls record the two barriers and take the flipped buffer exactly when the shader is ready and its dispatch succeeds; otherwise, with FGMakeMVCopy, the copy outcome decides the slot velocity, its copy and the commands, and without it the given velocity is kept with no command; depth and hudless are untouched |
| FrameGenDx12.DepthRecording | OptiScaler/framegen/IFGFeature_Dx12.cpp:201-246 | the same for SetDepth, where a flip with a device never falls back to the copy |
| FrameGenDx12.FailedFlipBufferFallsThrough | OptiScaler/framegen/IFGFeature_Dx12.cpp:157-211 | when the flip buffer cannot be made but the copy buffer can, SetVelocity falls through to the copy path: the slot takes the new copy, recorded as a barrier, the copy and the barrier back; SetDepth in the same case records no command and keeps the given depth |
| FrameGenDx12.IFGFeatureDx12.CreateObjects | OptiScaler/framegen/IFGFeature_Dx12.cpp:267-269 | the device the flip buffers are made on is exactly the one given, null included |
| FrameGenDx12.IFGFeatureDx12.ReleaseObjects | OptiScaler/framegen/IFGFeature_Dx12.cpp:316-337 | both flip shaders are dropped, so the next flip call of each kind creates its shader again |
| FrameGenDx12.IFGFeatureDx12.SetHudlessDispatchReady | OptiScaler/framegen/IFGFeature_Dx12.cpp:398 | the new ring state is the old one with the current slot's hudless-dispatch gate raised |
| FrameGenDx12.IFGFeatureDx12.Present | OptiScaler/framegen/IFGFeature_Dx12.cpp:400-406 | the new ring state lowers the three gates of the slot of LastDispatchedFrame and nothing else |
| FrameGenDx12.IFGFeatureDx12.ReadyForExecute | OptiScaler/framegen/IFGFeature_Dx12.cpp:425-429 | the readiness predicate of the ring state |
| FrameGenDx12.IFGFeatureDx12.SetHudless | OptiScaler/framegen/IFGFeature_Dx12.cpp:249-265 | only the current slot's parameters change, to the RecordHudless outcome |
| FrameGenDx12.IFGFeatureDx12.SetVelocity | OptiScaler/framegen/IFGFeature_Dx12.cpp:147-197 | only the current slot's parameters and the velocity flip-created flag change, to the RecordVelocity outcome for the flip buffer's and the copy buffer's own outcomes |
| FrameGenDx12.IFGFeatureDx12.SetDepth | OptiScaler/framegen/IFGFeature_Dx12.cpp:199-247 | only the current slot's parameters and the flip-created flag change, to the RecordDepth outcome |
| FrameGenDx12.IFGFeatureDx12.IsFGCommandList | OptiScaler/framegen/IFGFeature_Dx12.cpp:339-353 | always false |
| FrameGenDx12.IFGFeatureDx12.ExecuteHudlessCmdList | OptiScaler/framegen/IFGFeature_Dx12.cpp:355-358 | always null |
| Scanner.HexDigit | OptiScaler/scanner/scanner.cpp:62 | a hex digit of either case has its value below 16; any other character is not a digit |
| Scanner.StrToUL16 | OptiScaler/scanner/scanner.cpp:62 | strtoul in base 16 skips leading white space, reads the run of hex digits and saturates at ULONG_MAX, so the value is below 2^32 |
| Scanner.ParseStep | OptiScaler/scanner/scanner.cpp:58-70 | one turn of the mask loop: a non-`?` character yields the byte strtoul reads there and advances 3, a `?` yields a wildcard and advances 2 |
| Scanner.BuildPattern | OptiScaler/scanner/scanner.cpp:56-70 | the loop builds exactly the pattern ParseMask describes |
| Scanner.TokenValue | OptiScaler/scanner/scanner.cpp:62 | strtoul reads exactly the two hex digits of a spelled-out byte followed by a space or the end |
| Scanner.ParseTokenAlone | OptiScaler/scanner/scanner.cpp:58-70 | a single token parses to its own element |
| Scanner.ParseTokenThen | OptiScaler/scanner/scanner.cpp:58-70 | a token followed by a space and more text parses to its element followed by the parse of the rest |
| Scanner.ParseRender | OptiScaler/scanner/scanner.cpp:58-70 | every pattern written as a mask in the usual form (two hex digits or `?`, single spaces) parses back to itself |
| Scanner.ExampleMask | OptiScaler/scanner/scanner.cpp:58-70 | `"48 8B ? 05"` parses to `[0x48,0x8B, wildcard, 0x05]` |
| Scanner.FirstMatchFrom | OptiScaler/scanner/scanner.cpp:75-77 | the result is a complete match at or after `o`, and no complete match lies between `o` and it (or anywhere after `o` when there is none) |
| Scanner.FirstMatch | OptiScaler/scanner/scanner.cpp:75-77 | std::search with the wildcard-or-equal predicate: the lowest offset of a complete match |
| Scanner.FindPattern | OptiScaler/scanner/scanner.cpp:54-83 | the result is 0 when no complete match fits in the `maxSize + 1` bytes from `start`, otherwise `start` plus the lowest matching offset, with the whole match inside those bytes |
| Scanner.EmptyMaskFindsStart | OptiScaler/scanner/scanner.cpp:72-82 | an empty mask matches at once, so FindPattern returns `start` |
| Scanner.ExecSections | OptiScaler/scanner/scanner.cpp:23-34 | at most one range per header, each with start <= end |
| Scanner.ExecSectionsExactly | OptiScaler/scanner/scanner.cpp:23-34 | a range is produced exactly when some header with IMAGE_SCN_MEM_EXECUTE spans it at `[base+VirtualAddress, +VirtualSize)` |
| Scanner.NoExecutableNoRanges | OptiScaler/scanner/scanner.cpp:23-34 | a section table without executable sections yields no ranges |
| Scanner.GetExecSections | OptiScaler/scanner/scanner.cpp:10-37 | a module that is not loaded yields no sections; otherwise the loop keeps the executable sections in header order |
| Scanner.SearchWindow | OptiScaler/scanner/scanner.cpp:93-127 | without a start address a whole section is searched; with one, from the start address in a section strictly containing it, a whole section that starts after it, and nothing in any other section (one starting exactly there included); every window ends at its section's end |
| Scanner.ScanFindsMatch | OptiScaler/scanner/scanner.cpp:93-127 | a nonzero result of the section loop is a complete match inside the window searched in one of the sections |
| Scanner.ScanStepFromStart | OptiScaler/scanner/scanner.cpp:118-126 | without a start address the loop takes the first section's hit when it has one and goes on to the rest otherwise |
| Scanner.ScanFromStartTakesFirstHit | OptiScaler/scanner/scanner.cpp:116-126 | without a start address the loop stops at the first section that has a match and returns that section's match |
| Scanner.UninitialisedAddressEscapes | OptiScaler/scanner/scanner.cpp:89-133 | as written, a loaded module with no executable section returns the uninitialised value of `address` instead of 0 |
| Scanner.AddressIsMatch | OptiScaler/scanner/scanner.cpp:89-137 | with `address` initialised to NULL, the result is nonzero only for a loaded module and a match found by the section loop, and then it is that address plus the offset; the match lies in a searched window, and no sections means 0 |
| Scanner.GetAddress | OptiScaler/scanner/scanner.cpp:86-138 | the section loop with its breaks returns exactly AddressOf: `address + offset` for a loaded module with a match, 0 otherwise |
| Scanner.LoadInt32 | OptiScaler/scanner/scanner.cpp:148 | the little-endian int32_t read lies in the signed 32-bit range |
| Scanner.GetOffsetFromInstruction | OptiScaler/scanner/scanner.cpp:140-155 | for a loaded module with a match at `a`, the result is `a + offset + 4 + d` modulo 2^64, where `d` is the signed 32-bit value stored at `a + offset`; otherwise 0 |
| Scanner.WrapAdd | OptiScaler/scanner/scanner.cpp:148-149 | adding the displacement after converting it to 64-bit unsigned gives the same address as adding it directly, modulo 2^64 |
| Quirks.QuirksFrom | OptiScaler/misc/Quirks.h:132-139 | a quirk is in the result exactly when some entry at or after `i` has exactly the given name and lists that quirk |
| Quirks.QuirksIn | OptiScaler/misc/Quirks.h:132-139 | the union of the quirks of every entry whose name equals the given one; the loop does not stop at the first match |
| Quirks.SkipUnmatched | OptiScaler/misc/Quirks.h:134 | entries whose names differ from the searched one add nothing |
| Quirks.SingleMatch | OptiScaler/misc/Quirks.h:132-139 | when exactly one entry carries the name, the result is the set of that entry's quirks |
| Quirks.CyberpunkQuirks | OptiScaler/misc/Quirks.h:118-142 | `"Cyberpunk2077.exe"` gets exactly {CyberpunkHudlessStateOverride, ForceNoOptiFG, DisableDxgiSpoofing} |
| Quirks.RdrIsNotRdr2 | OptiScaler/misc/Quirks.h:45-134 | matching is whole-string equality: `"rdr.exe"` gets only Red Dead Redemption's quirks and `"rdr2.exe"` only Red Dead Redemption 2's |
| Quirks.CaseInsensitive | OptiScaler/misc/Quirks.h:129 | the result for a name equals the result for its lower-cased form |
| Quirks.TableNamesLowercase | OptiScaler/misc/Quirks.h:42-125 | every name in the table is already lower case, so every entry can match a lower-cased executable name |
| Quirks.UnknownExeHasNoQuirks | OptiScaler/misc/Quirks.h:130-141 | an executable without an entry gets the empty set |
| Quirks.OrderIndependent | OptiScaler/misc/Quirks.h:136-137 | the result depends only on which quirks each entry lists, not on their order or repetition |
| Quirks.CollectQuirks | OptiScaler/misc/Quirks.h:130-141 | the nested loops that OR quirks into `result` compute exactly QuirksIn over the table |
| Quirks.GetQuirksForExe | OptiScaler/misc/Quirks.h:127-142 | lowering a copy in place and then collecting gives exactly the quirks of the lower-cased name |
| Text.LowerChar | OptiScaler/hooks/Ntdll_Hooks.h:80-81 | an ASCII upper-case letter moves down by 32 and every other character is unchanged |
| Text.Lower | OptiScaler/hooks/Ntdll_Hooks.h:80-81 | same length, each character lowered on its own |
| Text.LowerIdempotent | OptiScaler/misc/Quirks.h:129 | lowering twice is lowering once |
| Text.LowerHasNoUpper | OptiScaler/hooks/Ntdll_Hooks.h:80-81 | no ASCII upper-case letter is left after lowering |
| Text.LowerInPlace | OptiScaler/hooks/Ntdll_Hooks.h:80-81 | the per-character loop leaves the buffer holding exactly the lowered old contents |
| Text.LastIndexFromSound | OptiScaler/hooks/Ntdll_Hooks.h:90 | the backward scan finds an occurrence at or below `p` and none lies between it and `p` |
| Text.LastIndexOfCorrect | OptiScaler/hooks/Ntdll_Hooks.h:90 | `rfind` yields an occurrence and every occurrence lies at or before it; npos only when there is none |
| NtdllHooks.UnicodeStringToWString | OptiScaler/hooks/Ntdll_Hooks.h:65-69 | the string is exactly the first `Length / sizeof(wchar_t)` characters of the buffer |
| NtdllHooks.Rfind | OptiScaler/hooks/Ntdll_Hooks.h:92-137 | rfind as a size_t: npos, or a position no later than the length of the name |
| NtdllHooks.SkipPassesMeaning | OptiScaler/hooks/Ntdll_Hooks.h:83-146 | with the corrected comparison a load skips the checks only when the skip name really ends the name or ends 4 characters before its end, and a name ending in the skip name always skips them |
| NtdllHooks.SkipRulesDiffer | OptiScaler/hooks/Ntdll_Hooks.h:95-141 | the comparison as written differs from the intended one exactly when the skip name does not occur and is one character longer, or three characters shorter, than the name: then a size_t difference wraps around to npos |
| NtdllHooks.SkipNameEscapes | OptiScaler/hooks/Ntdll_Hooks.h:95-141 | as written, `"opengl32.dll"` skips the checks for the skip name `"sl.interposer"`, which it does not contain |
| NtdllHooks.RedirectsMeaning | OptiScaler/hooks/Ntdll_Hooks.h:43-62 | a load is redirected exactly when neither enabler mode nor nvngx mode is on, DLSS inputs are enabled, the name is an nvngx name, and HookOriginalNvngxOnly is off or the lower-cased exe directory occurs nowhere in the name; an empty directory occurs everywhere, so then nothing is redirected |
| NtdllHooks.LoadLibraryCheckW | OptiScaler/hooks/Ntdll_Hooks.h:38-63 | lowering the exe directory in place and searching for it gives exactly the redirect rule |
| NtdllHooks.LoadDll | OptiScaler/hooks/Ntdll_Hooks.h:71-158 | a null or empty name goes to the original loader; otherwise the name is lowered character by character and the load decision is taken on it; an answered load always has status 0 and this module's handle |
| NtdllHooks.LoadDecisionMeaning | OptiScaler/hooks/Ntdll_Hooks.h:83-113 | a load is answered exactly when the checks are not skipped for it and the redirect rule holds; lowering again changes nothing; an empty skip name always passes the load through |
| NtdllHooks.NtdllHooks.constructor | OptiScaler/hooks/Ntdll_Hooks.h:33-34 | both original pointers start null and nothing is attached |
| NtdllHooks.NtdllHooks.Hook | OptiScaler/hooks/Ntdll_Hooks.h:161-184 | once o_LdrLoadDll is set, or without ntdll, nothing changes; otherwise both exports are stored and each non-null one is attached |
| NtdllHooks.NtdllHooks.UnHook | OptiScaler/hooks/Ntdll_Hooks.h:186-196 | without o_LdrLoadDll nothing changes; otherwise both detours are detached and the stored pointers stay set |
| Machine.Wrap64 | OptiScaler/resource_tracking/ResTrack_dx12.h:65 | a 64-bit unsigned variable holds a value below 2^64, and an in-range value unchanged |
| Machine.Wrap32 | OptiScaler/shaders/smaa/SMAA_Dx12.cpp:538-539 | a 32-bit unsigned variable holds a value below 2^32, and an in-range value unchanged |
| Dxgi.ReplayAppend | OptiScaler/shaders/hudless_compare/HC_Dx12.cpp:113-127 | replaying two command sequences one after the other is replaying their concatenation |
| Dxgi.ReplayCons | OptiScaler/shaders/hudless_compare/HC_Dx12.cpp:113-127 | replaying a command followed by more is one step and then the rest |
| Dxgi.StateChangeReaches | OptiScaler/shaders/hudless_compare/HC_Dx12.cpp:113-127 | the barrier recorded to move a buffer to a state is absent exactly when the buffer is already there, takes the buffer from its state to the target, and leaves every other resource's state alone |
| Smaa.ResolveFormatExactly | OptiScaler/shaders/smaa/SMAA_Dx12.cpp:13-32 | ResolveFormat changes exactly the six typeless formats it lists, never yields one of them, is idempotent, and maps a float typeless format to a float format |
| Smaa.FloatFormatsAreTyped | OptiScaler/shaders/smaa/SMAA_Dx12.cpp:13-45 | the three float formats are left alone by ResolveFormat |
| Smaa.SupportsTypedUavStore | OptiScaler/shaders/smaa/SMAA_Dx12.cpp:47-61 | true exactly when a device and a known format are given, the feature query succeeds and it reports typed UAV store |
| Smaa.OutputFormatFallback | OptiScaler/shaders/smaa/SMAA_Dx12.cpp:315-325 | the output format is the resolved input format unless typed store is unsupported and that format is not float, when it is R16G16B16A16_FLOAT; it is always float or typed-storable |
| Smaa.DispatchGroups | OptiScaler/shaders/smaa/SMAA_Dx12.cpp:538-539 | `(width + 7) / 8` in UINT arithmetic stays below 2^32 / 8 |
| Smaa.DispatchGroupsIsCeiling | OptiScaler/shaders/smaa/SMAA_Dx11.cpp:341-342 | without wrap-around the group count is the ceiling of width / 8, zero only for width zero |
| Smaa.DispatchGroupsWrap | OptiScaler/shaders/smaa/SMAA_Dx12.cpp:538 | a width of UINT_MAX wraps the addition and dispatches no group |
| SmaaDx11.SlotReuse | OptiScaler/shaders/smaa/SMAA_Dx11.cpp:158-235 | createTexture keeps a texture, releasing nothing, exactly when width, height and format match; otherwise it releases the old views before the texture and the texture last; it succeeds exactly when the texture, the SRV (when it has a slot) and the UAV are all created, leaving the requested texture with views in its format |
| SmaaDx11.ReleaseOrder | OptiScaler/shaders/smaa/SMAA_Dx11.cpp:168-181 | with both views present the release order is the SRV, then the UAV, then the texture |
| SmaaDx11.ReuseIgnoresMissingViews | OptiScaler/shaders/smaa/SMAA_Dx11.cpp:160-166 | a matching texture is reused even when its views are missing |
| SmaaDx11.BuffersMeaning | OptiScaler/shaders/smaa/SMAA_Dx11.cpp:150-271 | createBufferResources succeeds exactly when the object is initialised, the constant buffer exists or can be created, the colour texture is present and each of the edge, blend and output slots either matches or gets its texture and views; a success leaves the constant buffer and all three textures at the colour size in their formats; without init or a constant buffer nothing changes |
| SmaaDx11.SmaaDx11.constructor | OptiScaler/shaders/smaa/SMAA_Dx11.cpp:67-82 | without a device nothing is created; otherwise `_init` holds exactly when the three shaders and the constant buffer were created |
| SmaaDx11.SmaaDx11.EnsureShaders | OptiScaler/shaders/smaa/SMAA_Dx11.cpp:84-118 | with all three shaders present it succeeds at once; without a device it fails; otherwise the shaders are created in order until one fails |
| SmaaDx11.SmaaDx11.EnsureConstantBuffer | OptiScaler/shaders/smaa/SMAA_Dx11.cpp:120-143 | once the buffer exists it succeeds at once; otherwise it needs a device and a successful CreateBuffer |
| SmaaDx11.SmaaDx11.EnsureTextures | OptiScaler/shaders/smaa/SMAA_Dx11.cpp:150-257 | a null colour texture fails with no change; otherwise the edge and blend textures (R16G16_FLOAT with SRV and UAV) and then the output texture (UAV only, in the output format with its fallback) are ensured in that order, stopping at the first failure; the result, the new textures and the releases are the TexturesAfter outcome of the old ones |
| SmaaDx11.SmaaDx11.CreateBufferResources | OptiScaler/shaders/smaa/SMAA_Dx11.cpp:259-271 | the result and the new constant buffer and textures are the BuffersAfter outcome of the old ones, whose meaning BuffersMeaning states: success exactly when initialised, with a constant buffer and every slot ready; a success leaves all three textures at the colour size in their formats; not initialised fails with no change |
| SmaaDx11.SmaaDx11.Dispatch | OptiScaler/shaders/smaa/SMAA_Dx11.cpp:273-388 | refuses, doing nothing, when not initialised or without a context or colour texture; otherwise the buffers become the BuffersAfter outcome and the call succeeds exactly when those were ready, the input SRV was created and Map succeeded; once the input SRV (in the resolved format) is created it is released on every later path, a Map failure included; a success runs the edge, blend and neighbourhood passes over `(w + 7) / 8 x (h + 7) / 8` groups |
| SmaaDx12.TransitionMeaning | OptiScaler/shaders/smaa/SMAA_Dx12.cpp:400-409 | no barrier exactly when the resource is null or already in the target state; otherwise exactly one barrier from the current to the target state, which becomes the tracked state; a second transition to the same target records nothing |
| SmaaDx12.DispatchesAppend | OptiScaler/shaders/smaa/SMAA_Dx12.cpp:503-598 | the dispatches of a concatenated recording are the dispatches of its parts, in order |
| SmaaDx12.NoRedundantAppend | OptiScaler/shaders/smaa/SMAA_Dx12.cpp:400-409 | two recordings without a before == after barrier concatenate to one without |
| SmaaDx12.TransitionIsClean | OptiScaler/shaders/smaa/SMAA_Dx12.cpp:400-409 | a transition never records a barrier to the state a resource is already in, and records no dispatch |
| SmaaDx12.TextureReuse | OptiScaler/shaders/smaa/SMAA_Dx12.cpp:275-306 | createTexture keeps the texture and its state exactly when width, height and format match; a success always leaves a matching texture, and a newly created one is tracked as UNORDERED_ACCESS |
| SmaaDx12.OutputFormatKnown | OptiScaler/shaders/smaa/SMAA_Dx12.cpp:315-325 | the output texture format chosen from the input format, with the R16G16B16A16_FLOAT fallback, is never UNKNOWN |
| SmaaDx12.TexturesMeaning | OptiScaler/shaders/smaa/SMAA_Dx12.cpp:233-331 | ensureTextures succeeds exactly when the input is present and each of the edge, blend and output textures either matches the input size in its format or can be created; a success leaves all three matching, with the recorded output format the one chosen from the input format, never UNKNOWN |
| SmaaDx12.LookupMeaning | OptiScaler/shaders/smaa/SMAA_Dx12.cpp:344-389 | createLookup succeeds exactly when the missing texture and upload buffer could be created; existing ones are kept; on success the data is uploaded and the texture ends in NON_PIXEL_SHADER_RESOURCE |
| SmaaDx12.FailedUploadLeavesTextureEmpty | OptiScaler/shaders/smaa/SMAA_Dx12.cpp:338-377 | a lookup texture whose upload buffer could not be created exists without its data, in COPY_DEST |
| SmaaDx12.AppendTransition | OptiScaler/shaders/smaa/SMAA_Dx12.cpp:400-409 | appending a transition keeps a recording free of redundant barriers and adds no dispatch |
| SmaaDx12.AppendDispatch | OptiScaler/shaders/smaa/SMAA_Dx12.cpp:541-585 | appending a dispatch keeps a recording free of redundant barriers and adds exactly that dispatch |
| SmaaDx12.HandlesConsecutive | OptiScaler/shaders/smaa/SMAA_Dx12.cpp:215-228 | when nothing wraps, the five handles of a heap are `start + k * size`; for a nonzero increment they are strictly increasing, so the UAV follows the fourth SRV |
| SmaaDx12.HeapsStopAt | OptiScaler/shaders/smaa/SMAA_Dx12.cpp:491-495 | when the heap loop stops at pass `i` (every earlier pass had or got a heap and pass `i` got none, or `i` is past the last pass), a pass has a heap afterwards exactly when it comes before `i` or already had one |
| SmaaDx12.SmaaDx12.constructor | OptiScaler/shaders/smaa/SMAA_Dx12.cpp:68-93 | without a device nothing is created; otherwise the increment is recorded and `_init` holds exactly when the root signature and the three pipelines were created; no texture or heap exists yet |
| SmaaDx12.SmaaDx12.TransitionResource | OptiScaler/shaders/smaa/SMAA_Dx12.cpp:400-409 | records the barriers and the new tracked state of the transition specification |
| SmaaDx12.SmaaDx12.EnsureDescriptorHeap | OptiScaler/shaders/smaa/SMAA_Dx12.cpp:198-231 | an existing heap is kept and a failed creation changes nothing; a new heap gets SRV handle k at `start + size * k` and the UAV at `start + size * 4`, on the CPU and the GPU, and no other pass's handles change |
| SmaaDx12.SmaaDx12.EnsureDescriptorHeaps | OptiScaler/shaders/smaa/SMAA_Dx12.cpp:491-495 | the heap loop succeeds exactly when every pass had a heap or got one; afterwards a pass has a heap exactly as HeapReady says (it had one, or every pass up to it had or got one); a heap created here has the SRV and UAV handles EnsureDescriptorHeap gives it, and every other pass keeps its handles |
| SmaaDx12.SmaaDx12.EnsureTextures | OptiScaler/shaders/smaa/SMAA_Dx12.cpp:233-331 | a null input fails with no change; otherwise the edge (R16G16_FLOAT), blend (R16G16B16A16_FLOAT) and output textures are ensured in order, stopping at the first failure; the result and the new textures are the TexturesAfter outcome of the old ones, and success leaves all three matching the input size with a known output format |
| SmaaDx12.SmaaDx12.EnsureLookupTextures | OptiScaler/shaders/smaa/SMAA_Dx12.cpp:333-398 | without a device it fails; with both lookups present it succeeds doing nothing; without a command list it fails; otherwise both lookups are created whatever the first returned, and the result is exactly LookupsReady of the old lookups and the outcomes |
| SmaaDx12.SmaaDx12.RunPass | OptiScaler/shaders/smaa/SMAA_Dx12.cpp:541-553 | one pass records exactly one dispatch with the given groups and leaves its texture in NON_PIXEL_SHADER_RESOURCE |
| SmaaDx12.SmaaDx12.CreateBufferResources | OptiScaler/shaders/smaa/SMAA_Dx12.cpp:483-501 | refuses with no change when not initialised or without a colour resource; otherwise the textures become the TexturesAfter outcome and the call succeeds exactly when those were ready and every pass's heap existed or could be created; a texture failure leaves the heaps and handles untouched; after the textures succeed, which heaps exist and every pass's handles are those of the heap loop, a mid-loop failure included; a success leaves all three heaps and the three textures matching the colour size, with the output format chosen from the colour format |
| SmaaDx12.SmaaDx12.Dispatch | OptiScaler/shaders/smaa/SMAA_Dx12.cpp:503-598 | refuses, recording nothing, when not initialised, without a command list or without a colour resource; otherwise it succeeds exactly when the lookups are ready, the textures are ready and every heap exists or can be created; failed lookups leave the textures, heaps and handles unchanged; once the lookups succeed the textures and the output format are the TexturesAfter outcome whatever fails later; after the textures succeed, the heaps and handles are those of the heap loop; a failure records no dispatch; a success records exactly three dispatches of `(w + 7) / 8 x (h + 7) / 8` groups and leaves every texture in NON_PIXEL_SHADER_RESOURCE; no barrier is ever redundant |
| SmaaDx12.SmaaDx12.RecordPasses | OptiScaler/shaders/smaa/SMAA_Dx12.cpp:537-593 | once the guards pass, the lookup textures move to NON_PIXEL_SHADER_RESOURCE, then the edge, blend and output passes each dispatch once, leaving every present texture in NON_PIXEL_SHADER_RESOURCE |
| HcDx12.TranslateTypelessFormats | OptiScaler/shaders/hudless_compare/HC_Dx12.cpp:20-43 | a format is changed exactly when it is one of the eight typeless formats, and the result is never typeless |
| HcDx12.ViewFormatMeaning | OptiScaler/shaders/hudless_compare/HC_Dx12.cpp:5-43 | the view format is the translated format (ToSRGB is the identity); translation is idempotent; it agrees with SMAA's ResolveFormat wherever that resolves, and differs from it exactly on the two two-channel typeless formats |
| HcDx12.BufferReuse | OptiScaler/shaders/hudless_compare/HC_Dx12.cpp:45-99 | a read buffer of the source's width, height and format is kept; any other is released and either replaced by one of the source's shape with the three extra flags, tracked in the requested state, or left empty; success always leaves a buffer of the source's shape |
| HcDx12.ReadBufferFlagsAdded | OptiScaler/shaders/hudless_compare/HC_Dx12.cpp:81-82 | OR-ing in the render-target, UAV and simultaneous-access flags keeps every flag of the source and sets all three |
| HcDx12.OffsetNoWrap | OptiScaler/shaders/hudless_compare/HC_Dx12.cpp:377-415 | while nothing wraps, the k-th handle of a table is exactly k increments past the heap start |
| HcDx12.OffsetsConsecutive | OptiScaler/shaders/hudless_compare/HC_Dx12.cpp:377-415 | without wrap-around each handle is its predecessor plus the increment, and for a nonzero increment the handles are strictly increasing, hence distinct |
| HcDx12.FilledOffsets | OptiScaler/shaders/hudless_compare/HC_Dx12.cpp:377-415 | the k-th entry of a filled table is the k-th offset from the start |
| HcDx12.HandleLayout | OptiScaler/shaders/hudless_compare/HC_Dx12.cpp:377-415 | srv0[0], srv0[1], srv1[0], srv1[1], cbv0[0], cbv0[1] sit at 0 to 5 increments from the heap start when the heap does not reach the top of the address space |
| HcDx12.FillTable | OptiScaler/shaders/hudless_compare/HC_Dx12.cpp:377-391 | writes a table whose first handle is the heap start and each later one the previous plus the increment, wrapping at 64 bits |
| HcDx12.TableHandles | OptiScaler/shaders/hudless_compare/HC_Dx12.cpp:377-391 | computes the six handles of such a table |
| HcDx12.Extended | OptiScaler/shaders/hudless_compare/HC_Dx12.cpp:380-390 | one more handle, the previous plus the increment, keeps the table filled and its prefix unchanged |
| HcDx12.BeforeCopyStates | OptiScaler/shaders/hudless_compare/HC_Dx12.cpp:361-365 | at the copy the read buffer is in COPY_DEST and the back buffer in COPY_SOURCE, and the hudless image is untouched |
| HcDx12.AfterCopyRead | OptiScaler/shaders/hudless_compare/HC_Dx12.cpp:369-511 | after the copy the read buffer ends readable by the pixel shader |
| HcDx12.AfterCopyBack | OptiScaler/shaders/hudless_compare/HC_Dx12.cpp:367-510 | after the copy the back buffer goes to RENDER_TARGET and back to PRESENT |
| HcDx12.AfterCopyHudless | OptiScaler/shaders/hudless_compare/HC_Dx12.cpp:370-511 | the hudless image returns to the caller's state |
| HcDx12.CompareCommandsBalanced | OptiScaler/shaders/hudless_compare/HC_Dx12.cpp:361-511 | for three distinct resources the submitted list returns the back buffer to PRESENT and the hudless image to the caller's state, leaves the read buffer in PIXEL_SHADER_RESOURCE, and has the copy see COPY_DEST and COPY_SOURCE |
| HcDx12.HcDx12.constructor | OptiScaler/shaders/hudless_compare/HC_Dx12.cpp:129-292 | initialised exactly when every device call succeeds, in order; the pipeline's render target format is the swap chain's translated format once the pipeline was created; counter 0, no read buffer and zeroed handle tables |
| HcDx12.HcDx12.SetBufferState | OptiScaler/shaders/hudless_compare/HC_Dx12.cpp:113-127 | records a barrier only when the buffer is not already in the target state, and tracks the target; the other buffer is untouched |
| HcDx12.HcDx12.CreateBufferResource | OptiScaler/shaders/hudless_compare/HC_Dx12.cpp:45-99 | the slot's outcome is the reuse rule's, and the other slot is untouched |
| HcDx12.HcDx12.FillHandles | OptiScaler/shaders/hudless_compare/HC_Dx12.cpp:377-415 | afterwards all three tables are filled from their heap starts, and a table already filled (non-null first entry) is kept |
| HcDx12.HcDx12.Dispatch | OptiScaler/shaders/hudless_compare/HC_Dx12.cpp:294-517 | the early checks fail without moving the counter or touching any buffer; once they pass the counter toggles even if a later step fails; the current read buffer is always the ReadBufferFor outcome, so a failed recreation leaves it released; it succeeds exactly when the read buffer, both resets and the Map succeed; when the read buffer or a reset fails nothing is written, the buffer keeps its tracked state and no handle changes; a failed Map leaves exactly the four views written; the views are written in their translated formats at the current slot's handles; a success submits the balanced compare list |
| HcDx12.HcDx12.EnsureReadBuffer | OptiScaler/shaders/hudless_compare/HC_Dx12.cpp:332-343 | a read buffer that fits the swap chain is kept, anything else is recreated from the back buffer into COPY_DEST; the other slot is untouched |
| HcDx12.HcDx12.Compare | OptiScaler/shaders/hudless_compare/HC_Dx12.cpp:330-517 | the part of Dispatch after the counter moves: the read buffer is the ReadBufferFor outcome, and the result, the view writes, the tracked state and the handles on every success and failure path are Dispatch's for the current slot |
| HcDx12.HcDx12.RecordCopy | OptiScaler/shaders/hudless_compare/HC_Dx12.cpp:361-370 | records the transitions, the copy and the transitions before the draw, and leaves the read buffer tracked in PIXEL_SHADER_RESOURCE |
| Cmaa2Dx11.TranslateTypelessExactly | OptiScaler/shaders/smaa/CMAA2_Dx11.cpp:22-46 | TranslateTypelessFormat changes exactly the seven typeless formats it knows, never yields one of them, and is idempotent |
| Cmaa2Dx11.StripSRGB | OptiScaler/shaders/smaa/CMAA2_Dx11.cpp:48-74 | a format is changed exactly when it is one of the three sRGB formats, and the result is never sRGB |
| Cmaa2Dx11.TypedStorePath | OptiScaler/shaders/smaa/CMAA2_Dx11.cpp:345-413 | with typed UAV stores the accepted UAV format is the translated format without sRGB, the store is unorm exactly when that format is not float, and the shader does no sRGB conversion |
| Cmaa2Dx11.UntypedStorePath | OptiScaler/shaders/smaa/CMAA2_Dx11.cpp:369-383 | without typed stores the UAV is R32_UINT, RGBA8 is packed as mode 1 and RGB10A2 as mode 2, converting to sRGB exactly when the source was sRGB; every other format is refused |
| Cmaa2Dx11.SrgbWithoutTypedStore | OptiScaler/shaders/smaa/CMAA2_Dx11.cpp:369-383 | an sRGB RGBA8 colour buffer on a device without typed stores is accepted, packed as mode 1 and converted to sRGB in the shader |
| Cmaa2Dx11.ViewOf | OptiScaler/shaders/smaa/CMAA2_Dx11.cpp:120-139 | the UAV describes the buffer it was made for |
| Cmaa2Dx11.ViewCoversBuffer | OptiScaler/shaders/smaa/CMAA2_Dx11.cpp:120-139 | the view covers every whole element of the buffer (4-byte words for a raw buffer, the stride for a structured one) and nothing past its end; a raw buffer's view is flagged raw |
| Cmaa2Dx11.CreateBufferAndViews | OptiScaler/shaders/smaa/CMAA2_Dx11.cpp:106-153 | the outputs change only when both the buffer and its view are created, and then hold the requested buffer |
| Cmaa2Dx11.Max1 | OptiScaler/shaders/smaa/CMAA2_Dx11.cpp:434-436 | `std::max<UINT>(1u, x)`: at least one and at least x, and x itself when x is positive |
| Cmaa2Dx11.IntermediateLayout | OptiScaler/shaders/smaa/CMAA2_Dx11.cpp:416-478 | every working buffer requested can be viewed, and the dispatch-args and control buffers are raw |
| Cmaa2Dx11.HalfUp | OptiScaler/shaders/smaa/CMAA2_Dx11.cpp:421-429 | `(x + 1) / 2` does not wrap and is at least half of x |
| Cmaa2Dx11.WorkingBufferBytes | OptiScaler/shaders/smaa/CMAA2_Dx11.cpp:434-456 | without a 32-bit wrap the byte widths are 4 * max(1, wh/4), 8 * max(1, wh/2) and 4 * max(1, (wh+3)/6) |
| Cmaa2Dx11.LayoutSizes | OptiScaler/shaders/smaa/CMAA2_Dx11.cpp:416-478 | for sizes that do not wrap the heads texture is half the size rounded up, and the three working buffers hold max(1, wh/4) UINTs, max(1, wh/2) 8-byte items and max(1, (wh+3)/6) UINTs |
| Cmaa2Dx11.LayoutViewsNonEmpty | OptiScaler/shaders/smaa/CMAA2_Dx11.cpp:434-456 | every working buffer's view holds at least one element |
| Cmaa2Dx11.CompiledKernels | OptiScaler/shaders/smaa/CMAA2_Dx11.cpp:554-558 | the kernels present after n successful compiles are exactly the first n of the five, in order; all five once n reaches five |
| Cmaa2Dx11.LookupAppend | OptiScaler/shaders/smaa/CMAA2_Dx11.cpp:480-508 | the first definition of a name in a concatenated list is its first definition in the first part, else in the second |
| Cmaa2Dx11.LookupAbsent | OptiScaler/shaders/smaa/CMAA2_Dx11.cpp:480-508 | a name not defined anywhere in the list has no value |
| Cmaa2Dx11.LookupAt | OptiScaler/shaders/smaa/CMAA2_Dx11.cpp:480-508 | the first entry carrying a name gives its value |
| Cmaa2Dx11.MacroLookup | OptiScaler/shaders/smaa/CMAA2_Dx11.cpp:480-503 | a lookup in the definitions CompileShaders passes is the lookup in the common, store and tail parts, in that order |
| Cmaa2Dx11.CommonLookups | OptiScaler/shaders/smaa/CMAA2_Dx11.cpp:483-486 | none of the store or HDR switches is among the three common definitions |
| Cmaa2Dx11.TailLookups | OptiScaler/shaders/smaa/CMAA2_Dx11.cpp:502-503 | the HDR switch is defined only in the tail, from the configuration |
| Cmaa2Dx11.StoreLookups | OptiScaler/shaders/smaa/CMAA2_Dx11.cpp:487-500 | the values the store definitions give on either store path |
| Cmaa2Dx11.MacrosFollowConfig | OptiScaler/shaders/smaa/CMAA2_Dx11.cpp:480-503 | in the full list the typed-store switch follows the configuration, the unorm flag is set only with typed stores, sRGB conversion only without them, the untyped format is defined only without typed stores, and HDR follows the input |
| Cmaa2Dx11.StoreModeSpelling | OptiScaler/shaders/smaa/CMAA2_Dx11.cpp:499 | the untyped store modes are spelled "0", "1" and "2" |
| Cmaa2Dx11.GroupCountIsCeiling | OptiScaler/shaders/smaa/CMAA2_Dx11.cpp:591-594 | without a 32-bit wrap the group count is the ceiling of the size divided by twice the kernel size less its apron |
| Cmaa2Dx11.AllCreatedIsBuilt | OptiScaler/shaders/smaa/CMAA2_Dx11.cpp:416-478 | once all seven creations succeed the views are those of a complete build, kernels aside |
| Cmaa2Dx11.Cmaa2Dx11.constructor | OptiScaler/shaders/smaa/CMAA2_Dx11.cpp:199-235 | initialised exactly when a device is given and the point sampler is created; no intermediates exist |
| Cmaa2Dx11.Cmaa2Dx11.ReleaseIntermediates | OptiScaler/shaders/smaa/CMAA2_Dx11.cpp:237-276 | drops every view, buffer and kernel and resets size, format, sample count and shader configuration, leaving the resources dirty |
| Cmaa2Dx11.Cmaa2Dx11.ReleaseResources | OptiScaler/shaders/smaa/CMAA2_Dx11.cpp:278-284 | the released state, without sampler or device, not initialised |
| Cmaa2Dx11.Cmaa2Dx11.UpdateInputViews | OptiScaler/shaders/smaa/CMAA2_Dx11.cpp:345-414 | records the chosen configuration; succeeds exactly when the format is accepted and both views are created; a failed view creation leaves that view null |
| Cmaa2Dx11.Cmaa2Dx11.EnsureIntermediateResources | OptiScaler/shaders/smaa/CMAA2_Dx11.cpp:416-478 | the seven creations run in order, stopping at the first failure; success exactly when all seven succeed |
| Cmaa2Dx11.Cmaa2Dx11.CompileShaders | OptiScaler/shaders/smaa/CMAA2_Dx11.cpp:480-559 | needs the shader file; the five kernels compile in order until one fails; success exactly when all five compile |
| Cmaa2Dx11.Cmaa2Dx11.Rebuild | OptiScaler/shaders/smaa/CMAA2_Dx11.cpp:312-342 | releases everything and recreates it for the new texture; success records the texture's description and a complete build and clears the dirty flag; a failure leaves the released state |
| Cmaa2Dx11.Cmaa2Dx11.CreateViews | OptiScaler/shaders/smaa/CMAA2_Dx11.cpp:320-338 | from released views: input views, intermediates, then shaders, stopping at the first failure; success leaves a complete build |
| Cmaa2Dx11.Cmaa2Dx11.CreateBufferResources | OptiScaler/shaders/smaa/CMAA2_Dx11.cpp:286-343 | refuses with no change when not initialised, without a device or texture, or for a multisampled texture; keeps everything when the texture and its description are unchanged and nothing is dirty; otherwise it succeeds exactly when RebuildSucceeds holds for the native outcomes, a success recording the new texture, size and format with the views Built from them, and a failure leaving the released state |
| Cmaa2Dx11.Cmaa2Dx11.Dispatch | OptiScaler/shaders/smaa/CMAA2_Dx11.cpp:561-627 | succeeds exactly when given a context and the prepared texture and the four needed kernels exist (the debug kernel is not needed); then runs edges, dispatch args (2,1,1), process (indirect), dispatch args (1,2,1) and deferred apply (indirect); a refusal dispatches nothing |
| DlssDx12.TranslateTypelessFormats | OptiScaler/upscalers/dlss/DLSSFeature_Dx12.cpp:8-31 | a format is changed exactly when it is one of the eight typeless formats, and the result is never typeless |
| DlssDx12.TranslationsDifferOnlyOn10Bit | OptiScaler/upscalers/dlss/DLSSFeature_Dx12.cpp:18-19 | the DLSS and hudless compare translations agree on every format except R10G10B10A2_TYPELESS, which DLSS reads as UINT and the hudless compare as UNORM |
| DlssDx12.DebugTextureReuse | OptiScaler/upscalers/dlss/DLSSFeature_Dx12.cpp:34-80 | no source or no device changes nothing; a debug texture of the source's size and translated format is kept with its state; otherwise the old one is released and a new one, never typeless, is created in COPY_DEST, or the slot is left empty with the state as it was |
| DlssDx12.DebugCopyBalanced | OptiScaler/upscalers/dlss/DLSSFeature_Dx12.cpp:82-99 | the copy sees the source in COPY_SOURCE and the debug texture in COPY_DEST; afterwards the source is back in NON_PIXEL_SHADER_RESOURCE and the debug texture in PIXEL_SHADER_RESOURCE, whatever state it had |
| DlssDx12.NgxParameters.constructor | OptiScaler/upscalers/dlss/DLSSFeature_Dx12.cpp:223-307 | a parameter block holding the given Color and Output resources |
| DlssDx12.DlssDx12.constructor | OptiScaler/upscalers/dlss/DLSSFeature_Dx12.cpp:101-182 | a feature after Init, with no debug texture, state COMMON and no frame counted |
| DlssDx12.DlssDx12.EnsureDebugTexture | OptiScaler/upscalers/dlss/DLSSFeature_Dx12.cpp:34-80 | the result, debug texture and tracked state are those of the reuse rule; the frame counter is untouched |
| DlssDx12.DlssDx12.CopyDebugTexture | OptiScaler/upscalers/dlss/DLSSFeature_Dx12.cpp:82-99 | without a command list, source or debug texture nothing is recorded; otherwise the balanced copy is recorded, skipping the debug barrier when it is already in COPY_DEST, and the debug texture is tracked as PIXEL_SHADER_RESOURCE |
| DlssDx12.DlssDx12.Evaluate | OptiScaler/upscalers/dlss/DLSSFeature_Dx12.cpp:184-454 | refuses with no change when the module is not loaded, the feature is not initialised or NGX has no evaluate entry; otherwise the result is NGX's; the SMAA output replaces Color only when SMAA ran; the debug texture is dropped unless a preview of an SMAA input was asked for, and then it and its state follow DebugTextureAfter, the debug copy is recorded exactly when the texture is ready and there is a command list, and with the menu present the preview is that texture or null; a full success restores Output and Color and counts the frame; the other paths leave both rebound and the counter unchanged |
| StreamlineHooks.CStr | OptiScaler/hooks/Streamline_Hooks.cpp:45-62 | a C string's content is the longest NUL-free prefix of the buffer, stopped by a NUL when shorter than it |
| StreamlineHooks.CStrOfTerminated | OptiScaler/hooks/Streamline_Hooks.cpp:49-53 | a NUL-free string followed by its terminator reads back as itself |
| StreamlineHooks.TrimmedLog | OptiScaler/hooks/Streamline_Hooks.cpp:55-59 | the trimmed message is the message less at most one final character, and it is shorter exactly when the message ends in a newline |
| StreamlineHooks.TrimmedLogInverse | OptiScaler/hooks/Streamline_Hooks.cpp:55-59 | trimming removes one appended newline and only one |
| StreamlineHooks.TrimStreamlineLog | OptiScaler/hooks/Streamline_Hooks.cpp:45-62 | a failed allocation gives null; otherwise a fresh buffer of `strlen(msg) + 1` characters whose C string is the trimmed message |
| StreamlineHooks.ForcedReflexMode | OptiScaler/hooks/Streamline_Hooks.cpp:342-396 | the mode sent is the game's, eOff or low latency with boost, and differs from the game's only for the settings 1 and 2 |
| StreamlineHooks.ReflexVersionsAgree | OptiScaler/hooks/Streamline_Hooks.cpp:336-399 | the Streamline 2 options hook and the Streamline 1 constants hook forward the same options: the game's, with only the mode overridden |
| StreamlineHooks.UpdateForceReflexMode | OptiScaler/hooks/Streamline_Hooks.cpp:495-513 | for the settings 0 to 2 the mode resent is the override rule's for the game's last mode; for any other setting it is the default eOff |
| StreamlineHooks.UpdateRepeatsHook | OptiScaler/hooks/Streamline_Hooks.cpp:336-513 | for every setting the rule distinguishes, resending after a change repeats the mode the hook gave the game's last call |
| StreamlineHooks.RetainFlagAdded | OptiScaler/hooks/Streamline_Hooks.cpp:319 | OR-ing in eRetainResourcesWhenOff sets it, keeps every other bit and is idempotent |
| StreamlineHooks.DlssgPassThrough | OptiScaler/hooks/Streamline_Hooks.cpp:307-308 | outside Vulkan the DLSS-G options pass untouched and nothing is reported |
| StreamlineHooks.DlssgMenuForcesOff | OptiScaler/hooks/Streamline_Hooks.cpp:314-323 | on Vulkan with the menu open frame generation is forced off with its resources retained, only mode and flags change, and DLSS-G is reported as not detected |
| StreamlineHooks.DlssgMenuRewriteStable | OptiScaler/hooks/Streamline_Hooks.cpp:314-323 | rewriting options the menu rule already forwarded changes nothing more |
| StreamlineHooks.DlssgMenuClosed | OptiScaler/hooks/Streamline_Hooks.cpp:310-327 | on Vulkan with the menu closed the options pass untouched, "detected" means exactly mode eOn, and the menu delay is armed exactly when the mode is not eOff |
| StreamlineHooks.RewriteTag | OptiScaler/hooks/Streamline_Hooks.cpp:103-112 | a tag changes exactly when the Cyberpunk quirk is set, its type is 2 and its state is the combined shader-resource state; then only its state changes, to UNORDERED_ACCESS |
| StreamlineHooks.RewriteTagIdempotent | OptiScaler/hooks/Streamline_Hooks.cpp:103-112 | a rewritten tag is not rewritten again |
| StreamlineHooks.RewriteTags | OptiScaler/hooks/Streamline_Hooks.cpp:100-115 | every tag of the array is the rewrite of what it held |
| StreamlineHooks.SpoofAdapter | OptiScaler/hooks/Streamline_Hooks.cpp:267-274 | a present adapter becomes an NVIDIA one of architecture UINT_MAX, all else kept; a null vendor entry is left alone |
| StreamlineHooks.SpoofAdapterIdempotent | OptiScaler/hooks/Streamline_Hooks.cpp:267-274 | spoofing twice equals spoofing once, and every spoofed vendor is null or NVIDIA |
| StreamlineHooks.SystemCaps.constructor | OptiScaler/hooks/Streamline_Hooks.cpp:262-265 | Streamline 2 caps holding the given adapters, driver version and scheduling flag |
| StreamlineHooks.SystemCaps.Spoof | OptiScaler/hooks/Streamline_Hooks.cpp:265-278 | every adapter is spoofed, the driver major becomes 999 and hardware scheduling is reported |
| StreamlineHooks.SystemCapsSl15.constructor | OptiScaler/hooks/Streamline_Hooks.cpp:286-289 | Streamline 1.5 caps holding the given architectures, driver version and scheduling flag |
| StreamlineHooks.SystemCapsSl15.Spoof | OptiScaler/hooks/Streamline_Hooks.cpp:289-298 | only the first architecture becomes UINT_MAX; the driver major becomes 999 and hardware scheduling is reported |
| StreamlineHooks.InterceptedByName | OptiScaler/hooks/Streamline_Hooks.cpp:351-493 | a plugin's lookup hook only replaces the function it was asked for; every plugin replaces slOnPluginLoad; DLSS-G options are replaced only on Vulkan, Reflex's v1 constants only for Streamline 1 |
| StreamlineHooks.StreamlineHooks.constructor | OptiScaler/hooks/Streamline_Hooks.cpp:16-43 | every static pointer starts null and the game's last Reflex mode is eOff |
| StreamlineHooks.StreamlineHooks.Init | OptiScaler/hooks/Streamline_Hooks.cpp:90-98 | the game's log callback becomes the one to forward to unless it is OptiScaler's own; the preferences forwarded ask for every log level and name OptiScaler's callback |
| StreamlineHooks.StreamlineHooks.InitSl1 | OptiScaler/hooks/Streamline_Hooks.cpp:143-151 | the same capture for Streamline 1's callback |
| StreamlineHooks.StreamlineHooks.LogCallbackFor | OptiScaler/hooks/Streamline_Hooks.cpp:64-141 | logs the trimmed copy when the allocation succeeds and forwards the untrimmed message to the captured callback when there is one, never to OptiScaler's own |
| StreamlineHooks.StreamlineHooks.ReflexSetOptions | OptiScaler/hooks/Streamline_Hooks.cpp:336-349 | records the game's mode and forwards the overridden options; the stored function addresses are untouched |
| StreamlineHooks.StreamlineHooks.ReflexSetConstantsSl1 | OptiScaler/hooks/Streamline_Hooks.cpp:383-399 | the Streamline 1 counterpart: records the game's mode and forwards the overridden constants |
| StreamlineHooks.StreamlineHooks.UpdateForceReflex | OptiScaler/hooks/Streamline_Hooks.cpp:495-513 | sends nothing exactly when slReflexSetOptions was not captured; otherwise default options whose mode is the override for the game's last mode, eOff outside 0 to 2 |
| StreamlineHooks.StreamlineHooks.CommonOnPluginLoad | OptiScaler/hooks/Streamline_Hooks.cpp:253-303 | with spoofing on, the caps are spoofed through the Streamline 2 layout for a major above 1 and the 1.5 layout for major 1; otherwise, or with null caps, nothing changes |
| StreamlineHooks.StreamlineHooks.PluginFunction | OptiScaler/hooks/Streamline_Hooks.cpp:351-493 | an intercepted name stores the original's result and hands back OptiScaler's hook; any other name is answered by the original |
| StreamlineHooks.StreamlineHooks.HookPlugin | OptiScaler/hooks/Streamline_Hooks.cpp:645-837 | a null module or the previous call's module does nothing; otherwise the module is remembered, an earlier lookup hook detached, and the new export stored and, when present, attached |
| StreamlineHooks.StreamlineHooks.UnhookInterposer | OptiScaler/hooks/Streamline_Hooks.cpp:517-546 | the three interposer originals are detached and cleared and both log callbacks forgotten; nothing else changes |
| StreamlineHooks.StreamlineHooks.ForgetLogCallbacks | OptiScaler/hooks/Streamline_Hooks.cpp:542-543 | both log callbacks become null and nothing else changes |
| StreamlineHooks.StreamlineHooks.Detach | OptiScaler/hooks/Streamline_Hooks.cpp:524-540 | a set original is detached and cleared; every other pointer is untouched |
| StreamlineHooks.StreamlineHooks.HookInterposer | OptiScaler/hooks/Streamline_Hooks.cpp:549-625 | a null module or the previous call's module does nothing; otherwise the module is remembered, the earlier interposer hook removed and the version stored; slSetTag and slInit are stored exactly for Streamline 2 and later and slInit (Streamline 1) exactly for version 1, the others cleared; slInit is attached exactly when both addresses exist, slSetTag exactly when Nukem's frame generator is also used, Streamline 1's slInit exactly when it exists; the log callbacks are forgotten exactly when an earlier hook was removed; every other original and detour is unchanged |
| StreamlineHooks.StreamlineHooks.ReplaceInterposer | OptiScaler/hooks/Streamline_Hooks.cpp:570-622 | once the module is new: the version recorded; the three interposer originals hold exactly the addresses that version stores and null otherwise, and each is attached exactly when InstallInterposer attaches it; the log callbacks are forgotten exactly when an earlier hook was removed; every other original and detour is unchanged |
| StreamlineHooks.StreamlineHooks.InstallInterposer | OptiScaler/hooks/Streamline_Hooks.cpp:586-620 | the version-dependent tail: the stored pointers and attached detours for major 2 and later, for major 1, and nothing for any other version |

## Left out

- Concurrency: the tracker's `_trMutex` and heap mutex shards, the frame generator's mutexes and `OwnedMutex`. The model is sequential.
- The heap registry (`GetHeapBy*`), `hkRelease`, `hkCopyDescriptors` and the other descriptor hooks: their bodies are not part of this model.
- Every D3D11, D3D12 and DXGI call. Each is a success boolean plus the identity of what it creates. The resource description fields the code does not compare are not modelled.
- Floating point: jitter, camera and motion-vector scale setters, the SMAA and hudless compare constants and thresholds, the HLSL shaders.
- Detours, `GetProcAddress`, `GetModuleHandle`, DLL version reading and `GetModule`'s static cache. The PE section table is a sequence of section records, not header pointer casts.
- NGX calls, the RCAS and output scaler dispatches, the ImGui menu and its overlay, logging, `printQuirks`, `CheckForRealObject` and shader compilation from file. Each is an outcome handed in.
- Root signature, pipeline, viewport, scissor and descriptor-table bindings in the dispatch methods. Only barriers, copies, draws, dispatches and view writes are recorded.
- `Scanner.StrToUL16`: the optional sign and `0x` prefix `strtoul` accepts are not modelled. Mask tokens never carry them.
- `Scanner.GetAddress`: this is the corrected definition, which starts `address` at 0. The code as written is `Scanner.GetAddressAsWritten` (see Findings).
- `NtdllHooks.LoadDll`: it decides with the corrected skip rule `NtdllHooks.SkipPasses`. The code as written is `NtdllHooks.SkipPassesAsWritten` (see Findings).
- NtdllHooks: `wstring_to_string` is the identity on the names the rules compare. `CheckDllNameW` (the nvngx name list) is a predicate passed in.
- `DlssDx12.DlssDx12.Evaluate`: the ImGui rendering after the evaluation is left out, together with its `UpdateDlssInputPreview(nullptr)` when the window handle changed. So are the configuration rewrite when RCAS or the output scaler fails and the SMAA self-disable (`SmaaEnabled` set to false for later frames) when SMAA did not apply. `_frameCount` is assumed to start at 0, because its header is not part of this model.
- DlssDx12: `Init`, `Shutdown` and the feature creation are left out. Only the constructor's outcome (module loaded, initialised) is kept.
- StreamlineHooks:
  - The `hk_setVoid` / `hkcommon_slSetParameters_sl1` vtable write, the JSON rewrite in the `*_slOnPluginLoad` hooks, the Reflex `slOnPluginLoad` pass-through and `State::DisableChecks` / `EnableChecks` are left out.
  - The Streamline SDK enum values come from headers that are not part of this model. They are named constants here.
  - The resource pointer inside an `sl::ResourceTag` is folded into the tag, so aliasing between tags is not modelled.
- `FrameGenDx12.IFGFeatureDx12.SetVelocity` and `FrameGenDx12.IFGFeatureDx12.SetDepth`: the flip shader's dispatch is not a recorded command. Only the two barriers around it and its success are modelled, and the dispatch size (render or display size) is left out.
- `FrameGenDx12.IFGFeatureDx12.constructor`: the initial values of the Direct3D 12 members come from IFGFeature_Dx12.h, which is not part of this model. The model starts every slot null, with no device and no flip shader.
- HcDx12: the constant buffer contents and the `Map`/`Unmap` data copy are outcomes handed in. The hudless compare shader's output is not modelled.
- SmaaDx11 and SmaaDx12: the area and search lookup data, the constant values and the descriptor contents that `PopulateDescriptors` writes are not modelled.
- Cmaa2Dx11: `CMAA2_CS_INPUT_KERNEL_SIZE_X/Y` come from the shader header, which is not part of this model. They are parameters of `Cmaa2Dx11.Cmaa2Dx11.Dispatch`.
- IFGFeature.h's per-backend virtuals are one class: the Direct3D 12 overrides that are identical to the shared code use the shared methods.
- Strings are sequences of `char`. Case folding is ASCII only, as `std::tolower` and `towlower` behave in the "C" locale on these names.

## Findings

| source | as written | input that shows it | evidently intended | confidence | as-written member | corrected member |
|---|---|---|---|---|---|---|
| OptiScaler/hooks/Ntdll_Hooks.h:95-96 | `pos == L - D` and `pos == L - D - 4` are computed in `size_t`, and `rfind` returns `npos` (2^64 - 1) when the skip name is absent; `L - D` wraps to `npos` when the skip name is 1 character longer than the library name, and `L - D - 4` when it is 3 characters shorter; hkNtLoadDll repeats the comparison at lines 140-141 | library name `"opengl32.dll"` (12 characters) with skip name `"sl.interposer"` (13 characters): `L - D` is `npos`, so the load skips the checks although the name does not contain the skip name | a load skips the checks only when the skip name occurs and ends the name, or ends 4 characters before its end | high; not executed | NtdllHooks.SkipPassesAsWritten, NtdllHooks.SkipNameEscapes, NtdllHooks.SkipRulesDiffer | NtdllHooks.SkipPasses, NtdllHooks.SkipPassesMeaning |
| OptiScaler/scanner/scanner.cpp:89-133 | `uintptr_t address;` is not initialised, and no section search assigns it when the module has no executable section or `startAddress` lies past every section; `GetAddress` then returns `address + offset` from an indeterminate value | a loaded module whose section table has no executable section, with `address` holding leftover stack contents such as 0x1000 | `address` starts at 0, so a scan that searched nothing returns 0 | high; not executed | Scanner.GetAddressAsWritten, Scanner.UninitialisedAddressEscapes | Scanner.GetAddress, Scanner.AddressOf, Scanner.AddressIsMatch |
