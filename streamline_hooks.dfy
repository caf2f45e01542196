/**
 * The decisions OptiScaler's Streamline hooks take when they sit between a
 * game and the Streamline SDK (sl.interposer, sl.dlss, sl.dlssg, sl.reflex,
 * sl.common): log trimming, callback capture, the Reflex mode override, the
 * DLSS-G option rewrite on Vulkan, the hudless tag state rewrite, the system
 * caps spoof and the "same module as last time" guards of the hook installers.
 *
 * Function pointers are modelled as numbers, 0 standing for nullptr. The
 * hooks' static `o_*` pointers live in one map from the function's name to its
 * value; a name missing from the map holds nullptr.
 */
module StreamlineHooks {
  import opened Wrappers
  import opened Machine
  import opened Dxgi
  import opened Quirks

  // ---------------------------------------------------------------------
  // Log trimming

  /** A C string's content: the characters before the first NUL. */
  function CStr(buf: seq<char>): (r: seq<char>)
    ensures |r| <= |buf| && r == buf[..|r|]
    ensures forall i :: 0 <= i < |r| ==> r[i] != '\0'
    ensures |r| < |buf| ==> buf[|r|] == '\0'
  {
    if buf == [] || buf[0] == '\0' then [] else [buf[0]] + CStr(buf[1..])
  }

  /** A string without NUL followed by a NUL reads back as itself. */
  lemma {:induction false} CStrOfTerminated(s: seq<char>, rest: seq<char>)
    requires forall i :: 0 <= i < |s| ==> s[i] != '\0'
    ensures CStr(s + ['\0'] + rest) == s
    decreases |s|
  {
    if s != [] {
      assert (s + ['\0'] + rest)[1..] == s[1..] + ['\0'] + rest;
      CStrOfTerminated(s[1..], rest);
    }
  }

  /**
   * What `trimStreamlineLog` leaves in its copy: the message with at most
   * one trailing newline removed, every other character in place.
   */
  function TrimmedLog(msg: seq<char>): (r: seq<char>)
    ensures |msg| - 1 <= |r| <= |msg|
    ensures r == msg[..|r|]
    ensures |r| < |msg| <==> |msg| > 0 && msg[|msg| - 1] == '\n'
  {
    if |msg| > 0 && msg[|msg| - 1] == '\n' then msg[..|msg| - 1] else msg
  }

  /** Trimming undoes one appended newline, and only one. */
  lemma TrimmedLogInverse(s: seq<char>)
    ensures TrimmedLog(s + ['\n']) == s
    ensures TrimmedLog(s + ['\n', '\n']) == s + ['\n']
  {
    assert (s + ['\n'])[..|s|] == s;
    assert (s + ['\n', '\n'])[..|s| + 1] == s + ['\n'];
  }

  /**
   * trimStreamlineLog: allocates `strlen(msg) + 1` characters (None when the
   * allocation fails, passed in as `allocOk`), copies the message and its
   * terminator, then overwrites a final newline with a NUL.
   */
  method TrimStreamlineLog(msg: seq<char>, allocOk: bool) returns (r: Option<array<char>>)
    requires forall i :: 0 <= i < |msg| ==> msg[i] != '\0'
    ensures !allocOk <==> r.None?
    ensures r.Some? ==> fresh(r.value) && r.value.Length == |msg| + 1 && CStr(r.value[..]) == TrimmedLog(msg)
  {
    if !allocOk {
      return None;
    }
    var result := new char[|msg| + 1];
    var i := 0;
    while i < |msg|
      invariant 0 <= i <= |msg|
      invariant result[..i] == msg[..i]
    {
      result[i] := msg[i];
      i := i + 1;
    }
    result[|msg|] := '\0';
    assert result[..] == msg + ['\0'];
    var length := |msg|;
    if length > 0 && result[length - 1] == '\n' {
      result[length - 1] := '\0';
      assert result[..] == msg[..length - 1] + ['\0'] + ['\0'];
      CStrOfTerminated(msg[..length - 1], ['\0']);
    } else {
      assert result[..] == msg + ['\0'] + [];
      CStrOfTerminated(msg, []);
    }
    return Some(result);
  }

  // ---------------------------------------------------------------------
  // Reflex

  /** sl::ReflexMode (and Streamline 1's ReflexMode, which has the same numbering). */
  type ReflexMode = nat
  const REFLEX_OFF: ReflexMode := 0
  const REFLEX_LOW_LATENCY: ReflexMode := 1
  const REFLEX_LOW_LATENCY_WITH_BOOST: ReflexMode := 2

  /**
   * sl::ReflexOptions, and Streamline 1's ReflexConstants: the mode, and
   * every other field summarised as `rest`, which the hooks copy unchanged.
   */
  datatype ReflexOptions = ReflexOptions(mode: ReflexMode, rest: nat)

  /** A default-constructed sl::ReflexOptions (mode eOff). */
  const DEFAULT_REFLEX_OPTIONS := ReflexOptions(REFLEX_OFF, 0)

  /**
   * The override rule the FN_ForceReflex setting stands for: 2 forces low
   * latency with boost, 1 forces Reflex off, any other value keeps the
   * game's mode.
   */
  function ForcedReflexMode(forceReflex: int, gameMode: ReflexMode): (r: ReflexMode)
    ensures r == gameMode || r == REFLEX_OFF || r == REFLEX_LOW_LATENCY_WITH_BOOST
    ensures r != gameMode ==> forceReflex == 1 || forceReflex == 2
  {
    if forceReflex == 2 then REFLEX_LOW_LATENCY_WITH_BOOST
    else if forceReflex == 1 then REFLEX_OFF
    else gameMode
  }

  /** hkslReflexSetOptions: two independent `if`s rewrite the copied options. */
  function ReflexV2Options(forceReflex: int, options: ReflexOptions): ReflexOptions
  {
    var afterBoost := if forceReflex == 2 then options.(mode := REFLEX_LOW_LATENCY_WITH_BOOST) else options;
    if forceReflex == 1 then afterBoost.(mode := REFLEX_OFF) else afterBoost
  }

  /** hkreflex_slSetConstants_sl1: the same rewrite written with `else if`. */
  function ReflexV1Constants(forceReflex: int, constants: ReflexOptions): ReflexOptions
  {
    if forceReflex == 2 then constants.(mode := REFLEX_LOW_LATENCY_WITH_BOOST)
    else if forceReflex == 1 then constants.(mode := REFLEX_OFF)
    else constants
  }

  /** Both Streamline versions forward the override rule's mode and nothing else changes. */
  lemma ReflexVersionsAgree(forceReflex: int, options: ReflexOptions)
    ensures ReflexV2Options(forceReflex, options) == ReflexV1Constants(forceReflex, options)
    ensures ReflexV2Options(forceReflex, options) == options.(mode := ForcedReflexMode(forceReflex, options.mode))
  {
  }

  /**
   * The mode updateForceReflex sends: the branches cover 2, 1 and 0 only, so
   * any other setting leaves the default-constructed eOff.
   */
  function UpdateForceReflexMode(forceReflex: int, gamesLastMode: ReflexMode): (r: ReflexMode)
    ensures 0 <= forceReflex <= 2 ==> r == ForcedReflexMode(forceReflex, gamesLastMode)
    ensures !(0 <= forceReflex <= 2) ==> r == REFLEX_OFF
  {
    if forceReflex == 2 then REFLEX_LOW_LATENCY_WITH_BOOST
    else if forceReflex == 1 then REFLEX_OFF
    else if forceReflex == 0 then gamesLastMode
    else DEFAULT_REFLEX_OPTIONS.mode
  }

  /**
   * Re-sending after a setting change repeats what the hook did for the game's
   * last call, for every setting the override rule distinguishes.
   */
  lemma UpdateRepeatsHook(forceReflex: int, options: ReflexOptions)
    requires 0 <= forceReflex <= 2
    ensures UpdateForceReflexMode(forceReflex, options.mode) == ReflexV2Options(forceReflex, options).mode
  {
    ReflexVersionsAgree(forceReflex, options);
  }

  // ---------------------------------------------------------------------
  // DLSS-G options

  /** sl::DLSSGMode. */
  type DlssgMode = nat
  const DLSSG_OFF: DlssgMode := 0
  const DLSSG_ON: DlssgMode := 1
  const DLSSG_AUTO: DlssgMode := 2

  /** sl::DLSSGFlags::eRetainResourcesWhenOff. */
  const RETAIN_RESOURCES_WHEN_OFF: bv32 := 0x8

  datatype DlssgOptions = DlssgOptions(mode: DlssgMode, flags: bv32, rest: nat)

  /**
   * What hkslDLSSGSetOptions does: the options it forwards, whether it sets
   * `delayMenuRenderBy = 10`, and the DLSS-G detected state it reports to
   * the Reflex hooks (None: not reported).
   */
  datatype DlssgOutcome = DlssgOutcome(forwarded: DlssgOptions, delayMenu: bool, detected: Option<bool>)

  /**
   * hkslDLSSGSetOptions. Outside Vulkan the options pass untouched. On Vulkan
   * with the menu open, frame generation is forced off with its resources
   * retained; otherwise the options pass untouched and the mode is reported.
   * The lemmas below state each case.
   */
  function DlssgSetOptions(vulkan: bool, menuVisible: bool, options: DlssgOptions): DlssgOutcome
  {
    if !vulkan then DlssgOutcome(options, false, None)
    else
      var delay := options.mode != DLSSG_OFF && !menuVisible;
      if menuVisible then
        DlssgOutcome(options.(mode := DLSSG_OFF, flags := options.flags | RETAIN_RESOURCES_WHEN_OFF), delay, Some(false))
      else DlssgOutcome(options, delay, Some(options.mode == DLSSG_ON))
  }

  /** Adding the retain flag sets it, keeps every other bit, and is idempotent. */
  lemma RetainFlagAdded(flags: bv32)
    ensures (flags | RETAIN_RESOURCES_WHEN_OFF) & RETAIN_RESOURCES_WHEN_OFF != 0
    ensures (flags | RETAIN_RESOURCES_WHEN_OFF) & !RETAIN_RESOURCES_WHEN_OFF == flags & !RETAIN_RESOURCES_WHEN_OFF
    ensures (flags | RETAIN_RESOURCES_WHEN_OFF) | RETAIN_RESOURCES_WHEN_OFF == flags | RETAIN_RESOURCES_WHEN_OFF
  {
  }

  /** Outside Vulkan the options pass untouched and nothing is reported. */
  lemma DlssgPassThrough(menuVisible: bool, options: DlssgOptions)
    ensures var o := DlssgSetOptions(false, menuVisible, options);
            o.forwarded == options && !o.delayMenu && o.detected.None?
  {
  }

  /**
   * On Vulkan with the menu open, frame generation is forced off with its
   * resources retained, only mode and flags change, and DLSS-G is reported
   * as not detected.
   */
  lemma DlssgMenuForcesOff(options: DlssgOptions)
    ensures var o := DlssgSetOptions(true, true, options);
            o.forwarded.mode == DLSSG_OFF && o.forwarded.flags & RETAIN_RESOURCES_WHEN_OFF != 0 &&
            o.forwarded.flags & !RETAIN_RESOURCES_WHEN_OFF == options.flags & !RETAIN_RESOURCES_WHEN_OFF &&
            o.forwarded.rest == options.rest && !o.delayMenu && o.detected == Some(false)
  {
    assert DlssgSetOptions(true, true, options).forwarded.flags == options.flags | RETAIN_RESOURCES_WHEN_OFF;
    RetainFlagAdded(options.flags);
  }

  /** Rewriting the options the menu rule forwarded changes nothing more. */
  lemma DlssgMenuRewriteStable(options: DlssgOptions)
    ensures var o := DlssgSetOptions(true, true, options);
            DlssgSetOptions(true, true, o.forwarded).forwarded == o.forwarded
  {
    var f := options.flags | RETAIN_RESOURCES_WHEN_OFF;
    assert DlssgSetOptions(true, true, options).forwarded == DlssgOptions(DLSSG_OFF, f, options.rest);
    RetainFlagAdded(options.flags);
  }

  /**
   * On Vulkan with the menu closed the options pass untouched, "detected"
   * means exactly mode eOn (eAuto counts as not detected) and the menu delay
   * is armed iff the mode is not eOff.
   */
  lemma DlssgMenuClosed(options: DlssgOptions)
    ensures var o := DlssgSetOptions(true, false, options);
            o.forwarded == options && (o.delayMenu <==> options.mode != DLSSG_OFF) &&
            o.detected == Some(options.mode == DLSSG_ON)
  {
  }

  // ---------------------------------------------------------------------
  // Resource tags

  /** The `type` value of the tag the Cyberpunk quirk looks at. */
  const HUDLESS_TAG_TYPE: nat := 2

  /**
   * An sl::ResourceTag: its type and the state recorded in the sl::Resource
   * it points to.
   */
  datatype ResourceTag = ResourceTag(tagType: u32, state: ResourceState)

  /** The one rewrite hkslSetTag applies to a tag. */
  function RewriteTag(quirks: QuirkSet, t: ResourceTag): (r: ResourceTag)
    ensures r.tagType == t.tagType
    ensures r != t <==>
              CyberpunkHudlessStateOverride in quirks && t.tagType == HUDLESS_TAG_TYPE &&
              t.state == NON_PIXEL_SHADER_RESOURCE | PIXEL_SHADER_RESOURCE
    ensures r != t ==> r.state == UNORDERED_ACCESS
  {
    if CyberpunkHudlessStateOverride in quirks && t.tagType == HUDLESS_TAG_TYPE &&
       t.state == NON_PIXEL_SHADER_RESOURCE | PIXEL_SHADER_RESOURCE
    then t.(state := UNORDERED_ACCESS)
    else t
  }

  /** Rewriting is idempotent: a rewritten tag is no longer in the combined read state. */
  lemma RewriteTagIdempotent(quirks: QuirkSet, t: ResourceTag)
    ensures RewriteTag(quirks, RewriteTag(quirks, t)) == RewriteTag(quirks, t)
  {
    assert UNORDERED_ACCESS != NON_PIXEL_SHADER_RESOURCE | PIXEL_SHADER_RESOURCE;
  }

  /** The loop of hkslSetTag over `numTags` tags, before forwarding them. */
  method RewriteTags(quirks: QuirkSet, tags: array<ResourceTag>)
    modifies tags
    ensures forall i :: 0 <= i < tags.Length ==> tags[i] == RewriteTag(quirks, old(tags[i]))
  {
    var i := 0;
    while i < tags.Length
      invariant 0 <= i <= tags.Length
      invariant forall k :: 0 <= k < i ==> tags[k] == RewriteTag(quirks, old(tags[k]))
      invariant forall k :: i <= k < tags.Length ==> tags[k] == old(tags[k])
    {
      tags[i] := RewriteTag(quirks, tags[i]);
      i := i + 1;
    }
  }

  // ---------------------------------------------------------------------
  // System caps

  const VENDOR_MS: u32 := 0x1414
  const VENDOR_NVDA: u32 := 0x10DE
  const VENDOR_AMD: u32 := 0x1002
  const VENDOR_INTEL: u32 := 0x8086
  const MAX_NUM_SUPPORTED_GPUS: nat := 8
  const UINT_MAX: u32 := 0xFFFF_FFFF
  const SPOOFED_DRIVER_MAJOR: u32 := 999

  /** The integer fields of Streamline's Adapter record; the LUID and interface pointer are not modelled. */
  datatype Adapter = Adapter(vendor: u32, bit: u32, architecture: u32, implementation: u32, revision: u32, deviceId: u32)

  /** Every present adapter claims to be the newest NVIDIA architecture. */
  function SpoofAdapter(a: Adapter): (r: Adapter)
    ensures a.vendor != 0 ==> r == a.(vendor := VENDOR_NVDA, architecture := UINT_MAX)
    ensures a.vendor == 0 ==> r == a
  {
    if a.vendor != 0 then a.(vendor := VENDOR_NVDA, architecture := UINT_MAX) else a
  }

  lemma SpoofAdapterIdempotent(a: Adapter)
    ensures SpoofAdapter(SpoofAdapter(a)) == SpoofAdapter(a)
    ensures SpoofAdapter(a).vendor == 0 || SpoofAdapter(a).vendor == VENDOR_NVDA
  {
  }

  /** Streamline 2's SystemCaps, as far as the spoof touches it. */
  class SystemCaps {
    const adapters: array<Adapter>
    var driverVersionMajor: u32
    var hwsSupported: bool

    ghost predicate Valid()
    {
      adapters.Length == MAX_NUM_SUPPORTED_GPUS
    }

    constructor (initial: seq<Adapter>, driverMajor: u32, hws: bool)
      requires |initial| == MAX_NUM_SUPPORTED_GPUS
      ensures Valid() && adapters[..] == initial && fresh(adapters)
      ensures driverVersionMajor == driverMajor && hwsSupported == hws
    {
      adapters := new Adapter[|initial|](i requires 0 <= i < |initial| => initial[i]);
      driverVersionMajor := driverMajor;
      hwsSupported := hws;
    }

    /** The Streamline 2 branch of hkcommon_slOnPluginLoad once the caps pointer is known. */
    method Spoof()
      modifies this, adapters
      ensures forall i :: 0 <= i < adapters.Length ==> adapters[i] == SpoofAdapter(old(adapters[i]))
      ensures driverVersionMajor == SPOOFED_DRIVER_MAJOR && hwsSupported
    {
      var i := 0;
      while i < adapters.Length
        invariant 0 <= i <= adapters.Length
        invariant forall k :: 0 <= k < i ==> adapters[k] == SpoofAdapter(old(adapters[k]))
        invariant forall k :: i <= k < adapters.Length ==> adapters[k] == old(adapters[k])
      {
        adapters[i] := SpoofAdapter(adapters[i]);
        i := i + 1;
      }
      driverVersionMajor := SPOOFED_DRIVER_MAJOR;
      hwsSupported := true;
    }
  }

  /** Streamline 1.5's SystemCaps layout, as far as the spoof touches it. */
  class SystemCapsSl15 {
    const architecture: array<u32>
    var driverVersionMajor: u32
    var hwSchedulingEnabled: bool

    ghost predicate Valid()
    {
      architecture.Length == MAX_NUM_SUPPORTED_GPUS
    }

    constructor (initial: seq<u32>, driverMajor: u32, hws: bool)
      requires |initial| == MAX_NUM_SUPPORTED_GPUS
      ensures Valid() && architecture[..] == initial && fresh(architecture)
      ensures driverVersionMajor == driverMajor && hwSchedulingEnabled == hws
    {
      architecture := new u32[|initial|](i requires 0 <= i < |initial| => initial[i]);
      driverVersionMajor := driverMajor;
      hwSchedulingEnabled := hws;
    }

    /** The Streamline 1 branch: only the first adapter's architecture is raised. */
    method Spoof()
      requires Valid()
      modifies this, architecture
      ensures architecture[..] == old(architecture[..])[0 := UINT_MAX]
      ensures driverVersionMajor == SPOOFED_DRIVER_MAJOR && hwSchedulingEnabled
    {
      architecture[0] := UINT_MAX;
      driverVersionMajor := SPOOFED_DRIVER_MAJOR;
      hwSchedulingEnabled := true;
    }
  }

  // ---------------------------------------------------------------------
  // Hook state

  /** The Streamline modules whose loading OptiScaler hooks. */
  datatype Plugin = Interposer | Dlss | Dlssg | Reflex | Common

  /** The static `o_*` pointers to original functions and callbacks. */
  datatype Original =
    | SlInit | SlSetTag | SlInitSl1
    | LogCallback | LogCallbackSl1
    | GetPluginFunction(plugin: Plugin)
    | OnPluginLoad(plugin: Plugin)
    | DlssgSetOptionsFn
    | ReflexSetOptionsFn
    | ReflexSetConstantsSl1
    | CommonSetParametersSl1

  /** The two log callbacks the hooks install; any two distinct non-null addresses. */
  const OWN_LOG_CALLBACK: nat := 1
  const OWN_LOG_CALLBACK_SL1: nat := 2

  /** sl::LogLevel::eCount (and Streamline 1's eLogLevelCount). */
  const LOG_LEVEL_COUNT: nat := 3

  /** The fields of sl::Preferences the init hook reads or writes. */
  datatype Preferences = Preferences(logLevel: nat, logMessageCallback: nat, rest: nat)

  /** What GetPluginFunction hands back: one of OptiScaler's hooks in place of an original, or the original itself. */
  datatype Lookup = Hooked(original: Original) | Passed(address: nat)

  /**
   * The function names each plugin's GetPluginFunction hook intercepts, and
   * the original pointer it keeps for each.
   */
  function Intercepted(p: Plugin, name: string, vulkan: bool, major: nat): Option<Original>
  {
    match p
    case Interposer => None
    case Dlss => if name == "slOnPluginLoad" then Some(OnPluginLoad(Dlss)) else None
    case Dlssg =>
      if name == "slOnPluginLoad" then Some(OnPluginLoad(Dlssg))
      else if name == "slDLSSGSetOptions" && vulkan then Some(DlssgSetOptionsFn)
      else None
    case Reflex =>
      if name == "slSetConstants" && major == 1 then Some(ReflexSetConstantsSl1)
      else if name == "slOnPluginLoad" then Some(OnPluginLoad(Reflex))
      else if name == "slReflexSetOptions" then Some(ReflexSetOptionsFn)
      else None
    case Common =>
      if name == "slOnPluginLoad" then Some(OnPluginLoad(Common))
      else if name == "slSetParameters" then Some(CommonSetParametersSl1)
      else None
  }

  /** The exported name each stored original is looked up under. */
  function ApiName(o: Original): string
  {
    match o
    case SlInit => "slInit"
    case SlSetTag => "slSetTag"
    case SlInitSl1 => "slInit"
    case LogCallback => ""
    case LogCallbackSl1 => ""
    case GetPluginFunction(_) => "slGetPluginFunction"
    case OnPluginLoad(_) => "slOnPluginLoad"
    case DlssgSetOptionsFn => "slDLSSGSetOptions"
    case ReflexSetOptionsFn => "slReflexSetOptions"
    case ReflexSetConstantsSl1 => "slSetConstants"
    case CommonSetParametersSl1 => "slSetParameters"
  }

  /**
   * A plugin only ever replaces the function it was asked for; every plugin
   * replaces slOnPluginLoad; DLSS-G's options are replaced only on Vulkan and
   * Reflex's v1 constants only for Streamline 1.
   */
  lemma InterceptedByName(p: Plugin, name: string, vulkan: bool, major: nat)
    ensures Intercepted(p, name, vulkan, major).Some? ==> ApiName(Intercepted(p, name, vulkan, major).value) == name
    ensures p != Interposer && name == "slOnPluginLoad" ==> Intercepted(p, name, vulkan, major) == Some(OnPluginLoad(p))
    ensures Intercepted(p, name, vulkan, major) == Some(DlssgSetOptionsFn) <==> p == Dlssg && name == "slDLSSGSetOptions" && vulkan
    ensures Intercepted(p, name, vulkan, major) == Some(ReflexSetConstantsSl1) <==> p == Reflex && name == "slSetConstants" && major == 1
  {
  }

  /** The originals the installers detour; the others are handed back as function pointers. */
  predicate Detoured(o: Original)
  {
    o.SlInit? || o.SlSetTag? || o.SlInitSl1? || o.GetPluginFunction?
  }

  /**
   * The static state of StreamlineHooks: the original pointers, the module
   * each hook installer saw last, the game's last Reflex mode and the
   * Streamline version read from sl.interposer.
   */
  class StreamlineHooks {
    var originals: map<Original, nat>
    /** The originals whose detour is attached. */
    var attached: set<Original>
    /** The `static HMODULE last_*` of each hook installer, 0 for nullptr. */
    var lastModule: map<Plugin, nat>
    var reflexGamesLastMode: ReflexMode
    var streamlineMajor: nat

    function Ptr(o: Original): nat
      reads this
    {
      if o in originals then originals[o] else 0
    }

    function Last(p: Plugin): nat
      reads this
    {
      if p in lastModule then lastModule[p] else 0
    }

    /**
     * The hooks never keep their own callbacks as the callbacks to forward
     * to, and a detour is attached only to a non-null original of one of
     * the functions the installers detour.
     */
    ghost predicate Valid()
      reads this
    {
      Ptr(LogCallback) != OWN_LOG_CALLBACK && Ptr(LogCallbackSl1) != OWN_LOG_CALLBACK_SL1 &&
      forall o :: o in attached ==> Detoured(o) && Ptr(o) != 0
    }

    /** Every static starts as nullptr, reflexGamesLastMode as eOff. */
    constructor ()
      ensures Valid()
      ensures originals == map[] && attached == {} && lastModule == map[]
      ensures reflexGamesLastMode == REFLEX_OFF && streamlineMajor == 0
    {
      originals := map[];
      attached := {};
      lastModule := map[];
      reflexGamesLastMode := REFLEX_OFF;
      streamlineMajor := 0;
    }

    /**
     * hkslInit: the game's callback becomes the one to forward to unless it
     * is already OptiScaler's own; the preferences passed on ask for every
     * log level and point at OptiScaler's callback.
     */
    method Init(pref: Preferences) returns (forwarded: Preferences)
      requires Valid()
      modifies this
      ensures Valid()
      ensures originals == if pref.logMessageCallback != OWN_LOG_CALLBACK
                           then old(originals)[LogCallback := pref.logMessageCallback]
                           else old(originals)
      ensures forwarded == pref.(logLevel := LOG_LEVEL_COUNT, logMessageCallback := OWN_LOG_CALLBACK)
      ensures attached == old(attached) && lastModule == old(lastModule)
      ensures reflexGamesLastMode == old(reflexGamesLastMode) && streamlineMajor == old(streamlineMajor)
    {
      if pref.logMessageCallback != OWN_LOG_CALLBACK {
        originals := originals[LogCallback := pref.logMessageCallback];
      }
      forwarded := pref.(logLevel := LOG_LEVEL_COUNT, logMessageCallback := OWN_LOG_CALLBACK);
    }

    /** hkslInit_sl1: the same capture for Streamline 1's callback type. */
    method InitSl1(pref: Preferences) returns (forwarded: Preferences)
      requires Valid()
      modifies this
      ensures Valid()
      ensures originals == if pref.logMessageCallback != OWN_LOG_CALLBACK_SL1
                           then old(originals)[LogCallbackSl1 := pref.logMessageCallback]
                           else old(originals)
      ensures forwarded == pref.(logLevel := LOG_LEVEL_COUNT, logMessageCallback := OWN_LOG_CALLBACK_SL1)
      ensures attached == old(attached) && lastModule == old(lastModule)
      ensures reflexGamesLastMode == old(reflexGamesLastMode) && streamlineMajor == old(streamlineMajor)
    {
      if pref.logMessageCallback != OWN_LOG_CALLBACK_SL1 {
        originals := originals[LogCallbackSl1 := pref.logMessageCallback];
      }
      forwarded := pref.(logLevel := LOG_LEVEL_COUNT, logMessageCallback := OWN_LOG_CALLBACK_SL1);
    }

    /**
     * streamlineLogCallback (and its Streamline 1 twin, `sl1`): logs the
     * trimmed copy, then forwards the untrimmed message to the captured
     * callback, when there is one, which is never OptiScaler's own.
     */
    method LogCallbackFor(sl1: bool, msg: seq<char>, allocOk: bool) returns (logged: Option<seq<char>>, forwardTo: Option<nat>)
      requires Valid()
      requires forall i :: 0 <= i < |msg| ==> msg[i] != '\0'
      ensures logged == if allocOk then Some(TrimmedLog(msg)) else None
      ensures var cb := if sl1 then Ptr(LogCallbackSl1) else Ptr(LogCallback);
              forwardTo == if cb != 0 then Some(cb) else None
      ensures forwardTo != Some(if sl1 then OWN_LOG_CALLBACK_SL1 else OWN_LOG_CALLBACK)
    {
      var trimmed := TrimStreamlineLog(msg, allocOk);
      logged := if trimmed.Some? then Some(CStr(trimmed.value[..])) else None;
      var cb := if sl1 then Ptr(LogCallbackSl1) else Ptr(LogCallback);
      forwardTo := if cb != 0 then Some(cb) else None;
    }

    /** hkslReflexSetOptions: records the game's mode, forwards the overridden options. */
    method ReflexSetOptions(forceReflex: int, options: ReflexOptions) returns (forwarded: ReflexOptions)
      modifies this
      ensures reflexGamesLastMode == options.mode
      ensures forwarded == ReflexV2Options(forceReflex, options)
      ensures originals == old(originals) && attached == old(attached) && lastModule == old(lastModule)
      ensures streamlineMajor == old(streamlineMajor)
    {
      reflexGamesLastMode := options.mode;
      forwarded := options;
      if forceReflex == 2 {
        forwarded := forwarded.(mode := REFLEX_LOW_LATENCY_WITH_BOOST);
      }
      if forceReflex == 1 {
        forwarded := forwarded.(mode := REFLEX_OFF);
      }
    }

    /** hkreflex_slSetConstants_sl1: Streamline 1's counterpart, which gets the constants every frame. */
    method ReflexSetConstantsSl1(forceReflex: int, constants: ReflexOptions) returns (forwarded: ReflexOptions)
      modifies this
      ensures reflexGamesLastMode == constants.mode
      ensures forwarded == ReflexV1Constants(forceReflex, constants)
      ensures originals == old(originals) && attached == old(attached) && lastModule == old(lastModule)
      ensures streamlineMajor == old(streamlineMajor)
    {
      reflexGamesLastMode := constants.mode;
      forwarded := constants;
      if forceReflex == 2 {
        forwarded := forwarded.(mode := REFLEX_LOW_LATENCY_WITH_BOOST);
      } else if forceReflex == 1 {
        forwarded := forwarded.(mode := REFLEX_OFF);
      }
    }

    /**
     * updateForceReflex: without a captured slReflexSetOptions nothing is
     * sent; otherwise default options carrying the override for the game's
     * last mode.
     */
    method UpdateForceReflex(forceReflex: int) returns (sent: Option<ReflexOptions>)
      ensures Ptr(ReflexSetOptionsFn) == 0 <==> sent.None?
      ensures sent.Some? ==> sent.value.rest == DEFAULT_REFLEX_OPTIONS.rest
      ensures sent.Some? && 0 <= forceReflex <= 2 ==> sent.value.mode == ForcedReflexMode(forceReflex, reflexGamesLastMode)
      ensures sent.Some? && !(0 <= forceReflex <= 2) ==> sent.value.mode == REFLEX_OFF
    {
      if Ptr(ReflexSetOptionsFn) == 0 {
        return None;
      }
      var options := DEFAULT_REFLEX_OPTIONS;
      if forceReflex == 2 {
        options := options.(mode := REFLEX_LOW_LATENCY_WITH_BOOST);
      } else if forceReflex == 1 {
        options := options.(mode := REFLEX_OFF);
      } else if forceReflex == 0 {
        options := options.(mode := reflexGamesLastMode);
      }
      return Some(options);
    }

    /**
     * hkcommon_slOnPluginLoad after the original ran: with spoofing on, the
     * caps are rewritten through the Streamline 2 layout when the version's
     * major is above 1 and through the 1.5 layout when it is 1; a null caps
     * pointer (null here) is left alone.
     */
    method CommonOnPluginLoad(spoofing: bool, caps: SystemCaps?, capsSl15: SystemCapsSl15?)
      requires capsSl15 != null ==> capsSl15.Valid()
      modifies caps, if caps != null then {caps.adapters} else {}
      modifies capsSl15, if capsSl15 != null then {capsSl15.architecture} else {}
      ensures caps != null && spoofing && streamlineMajor > 1 ==>
                (forall i :: 0 <= i < caps.adapters.Length ==> caps.adapters[i] == SpoofAdapter(old(caps.adapters[i]))) &&
                caps.driverVersionMajor == SPOOFED_DRIVER_MAJOR && caps.hwsSupported
      ensures caps != null && !(spoofing && streamlineMajor > 1) ==>
                unchanged(caps) && unchanged(caps.adapters)
      ensures capsSl15 != null && spoofing && streamlineMajor == 1 ==>
                capsSl15.architecture[..] == old(capsSl15.architecture[..])[0 := UINT_MAX] &&
                capsSl15.driverVersionMajor == SPOOFED_DRIVER_MAJOR && capsSl15.hwSchedulingEnabled
      ensures capsSl15 != null && !(spoofing && streamlineMajor == 1) ==>
                unchanged(capsSl15) && unchanged(capsSl15.architecture)
    {
      if spoofing {
        if streamlineMajor > 1 {
          if caps != null {
            caps.Spoof();
          }
        } else if streamlineMajor == 1 {
          if capsSl15 != null {
            capsSl15.Spoof();
          }
        }
      }
    }

    /**
     * The slGetPluginFunction hook of one plugin: for an intercepted name it
     * stores what the original returns and hands back OptiScaler's hook;
     * any other name is answered by the original (`original`, its result).
     */
    method PluginFunction(p: Plugin, name: string, vulkan: bool, original: nat) returns (r: Lookup)
      requires p != Interposer
      requires Valid()
      modifies this
      ensures Valid()
      ensures match Intercepted(p, name, vulkan, streamlineMajor)
              case Some(o) => r == Hooked(o) && originals == old(originals)[o := original]
              case None => r == Passed(original) && originals == old(originals)
      ensures attached == old(attached) && lastModule == old(lastModule)
      ensures reflexGamesLastMode == old(reflexGamesLastMode) && streamlineMajor == old(streamlineMajor)
    {
      var slot := Intercepted(p, name, vulkan, streamlineMajor);
      if slot.Some? {
        originals := originals[slot.value := original];
        r := Hooked(slot.value);
      } else {
        r := Passed(original);
      }
    }

    /**
     * hookDlss, hookDlssg, hookReflex and hookCommon: a null module or the
     * module of the previous call does nothing; otherwise the module is
     * remembered, an earlier slGetPluginFunction hook is detached and the
     * new module's export (`proc`, 0 when missing) is stored and, when
     * present, attached.
     */
    method HookPlugin(p: Plugin, hModule: nat, proc: nat)
      requires p != Interposer
      requires Valid()
      modifies this`originals, this`attached, this`lastModule
      ensures Valid()
      ensures hModule == 0 || hModule == old(Last(p)) ==>
                originals == old(originals) && attached == old(attached) && lastModule == old(lastModule)
      ensures hModule != 0 && hModule != old(Last(p)) ==>
                lastModule == old(lastModule)[p := hModule] &&
                originals == old(originals)[GetPluginFunction(p) := proc] &&
                attached == if proc != 0 then old(attached) + {GetPluginFunction(p)} else old(attached) - {GetPluginFunction(p)}
    {
      if hModule == 0 {
        return;
      }
      if Last(p) == hModule {
        return;
      }
      lastModule := lastModule[p := hModule];
      var slot := GetPluginFunction(p);
      Detach(slot);
      originals := originals[slot := proc];
      if proc != 0 {
        attached := attached + {slot};
      } else {
        attached := attached - {slot};
      }
    }

    /**
     * unhookInterposer: detaches and clears the three interposer originals
     * that are set and forgets both log callbacks.
     */
    method UnhookInterposer()
      requires Valid()
      modifies this`originals, this`attached
      ensures Valid()
      ensures Ptr(SlSetTag) == 0 && Ptr(SlInit) == 0 && Ptr(SlInitSl1) == 0
      ensures Ptr(LogCallback) == 0 && Ptr(LogCallbackSl1) == 0
      ensures forall o: Original :: !o.SlSetTag? && !o.SlInit? && !o.SlInitSl1? && !o.LogCallback? && !o.LogCallbackSl1? ==>
                Ptr(o) == old(Ptr(o))
      ensures attached == old(attached) - {SlSetTag, SlInit, SlInitSl1}
    {
      Detach(SlSetTag);
      Detach(SlInit);
      Detach(SlInitSl1);
      ForgetLogCallbacks();
    }

    /** `o_logCallback_sl1 = nullptr; o_logCallback = nullptr;` */
    method ForgetLogCallbacks()
      requires Valid()
      modifies this`originals
      ensures Valid()
      ensures originals == old(originals)[LogCallbackSl1 := 0][LogCallback := 0]
      ensures Ptr(LogCallback) == 0 && Ptr(LogCallbackSl1) == 0
      ensures forall q: Original :: !q.LogCallback? && !q.LogCallbackSl1? ==> Ptr(q) == old(Ptr(q))
    {
      originals := originals[LogCallbackSl1 := 0][LogCallback := 0];
    }

    /** The `if (o_x != nullptr) { DetourDetach(...); o_x = nullptr; }` step for one original. */
    method Detach(o: Original)
      requires Valid()
      modifies this`originals, this`attached
      ensures Valid()
      ensures originals == if old(Ptr(o)) != 0 then old(originals)[o := 0] else old(originals)
      ensures Ptr(o) == 0 && forall q :: q != o ==> Ptr(q) == old(Ptr(q))
      ensures attached == old(attached) - {o}
    {
      if Ptr(o) != 0 {
        attached := attached - {o};
        originals := originals[o := 0];
      }
    }

    /**
     * hookInterposer: a null module or the module of the previous call does
     * nothing. Otherwise the module is remembered, an earlier interposer hook
     * is removed and the version (`major`, read from the DLL) is stored. For
     * Streamline 2 and later slSetTag and slInit (`procSetTag`, `procInit`)
     * are stored and, when both exist, slInit is detoured, and slSetTag too
     * when the frame generator is Nukem's (`nukems`); for Streamline 1 only
     * slInit is stored and detoured.
     */
    method HookInterposer(hModule: nat, major: nat, procSetTag: nat, procInit: nat, nukems: bool)
      requires Valid()
      modifies this`originals, this`attached, this`lastModule, this`streamlineMajor
      ensures Valid()
      ensures hModule == 0 || hModule == old(Last(Interposer)) ==>
                originals == old(originals) && attached == old(attached) &&
                lastModule == old(lastModule) && streamlineMajor == old(streamlineMajor)
      ensures hModule != 0 && hModule != old(Last(Interposer)) ==>
                lastModule == old(lastModule)[Interposer := hModule] && streamlineMajor == major &&
                Ptr(SlSetTag) == (if major >= 2 then procSetTag else 0) &&
                Ptr(SlInit) == (if major >= 2 then procInit else 0) &&
                Ptr(SlInitSl1) == (if major == 1 then procInit else 0) &&
                (SlInit in attached <==> major >= 2 && procSetTag != 0 && procInit != 0) &&
                (SlSetTag in attached <==> major >= 2 && procSetTag != 0 && procInit != 0 && nukems) &&
                (SlInitSl1 in attached <==> major == 1 && procInit != 0) &&
                (forall o: Original :: !o.SlInit? && !o.SlSetTag? && !o.SlInitSl1? ==> (o in attached <==> o in old(attached))) &&
                (forall o: Original :: !(o.SlInit? || o.SlSetTag? || o.SlInitSl1? || o.LogCallback? || o.LogCallbackSl1?) ==>
                   Ptr(o) == old(Ptr(o)))
      ensures hModule != 0 && hModule != old(Last(Interposer)) ==>
                if old(Ptr(SlSetTag)) != 0 || old(Ptr(SlInit)) != 0 || old(Ptr(SlInitSl1)) != 0
                then Ptr(LogCallback) == 0 && Ptr(LogCallbackSl1) == 0
                else Ptr(LogCallback) == old(Ptr(LogCallback)) && Ptr(LogCallbackSl1) == old(Ptr(LogCallbackSl1))
    {
      if hModule == 0 {
        return;
      }
      if Last(Interposer) == hModule {
        return;
      }
      lastModule := lastModule[Interposer := hModule];
      ReplaceInterposer(major, procSetTag, procInit, nukems);
    }

    /**
     * hookInterposer once the module is new: remove an earlier interposer
     * hook, record the version and install for it.
     */
    method ReplaceInterposer(major: nat, procSetTag: nat, procInit: nat, nukems: bool)
      requires Valid()
      modifies this`originals, this`attached, this`streamlineMajor
      ensures Valid()
      ensures streamlineMajor == major
      ensures Ptr(SlSetTag) == (if major >= 2 then procSetTag else 0) &&
              Ptr(SlInit) == (if major >= 2 then procInit else 0) &&
              Ptr(SlInitSl1) == (if major == 1 then procInit else 0)
      ensures (SlInit in attached <==> major >= 2 && procSetTag != 0 && procInit != 0) &&
              (SlSetTag in attached <==> major >= 2 && procSetTag != 0 && procInit != 0 && nukems) &&
              (SlInitSl1 in attached <==> major == 1 && procInit != 0)
      ensures forall o: Original :: !o.SlInit? && !o.SlSetTag? && !o.SlInitSl1? ==> (o in attached <==> o in old(attached))
      ensures forall o: Original :: !(o.SlInit? || o.SlSetTag? || o.SlInitSl1? || o.LogCallback? || o.LogCallbackSl1?) ==>
                Ptr(o) == old(Ptr(o))
      ensures if old(Ptr(SlSetTag)) != 0 || old(Ptr(SlInit)) != 0 || old(Ptr(SlInitSl1)) != 0
              then Ptr(LogCallback) == 0 && Ptr(LogCallbackSl1) == 0
              else Ptr(LogCallback) == old(Ptr(LogCallback)) && Ptr(LogCallbackSl1) == old(Ptr(LogCallbackSl1))
    {
      if Ptr(SlSetTag) != 0 || Ptr(SlInit) != 0 || Ptr(SlInitSl1) != 0 {
        UnhookInterposer();
      }
      streamlineMajor := major;
      InstallInterposer(major, procSetTag, procInit, nukems);
    }

    /** The version-dependent tail of hookInterposer, once no interposer detour is attached. */
    method InstallInterposer(major: nat, procSetTag: nat, procInit: nat, nukems: bool)
      requires Valid()
      requires SlSetTag !in attached && SlInit !in attached && SlInitSl1 !in attached
      modifies this`originals, this`attached
      ensures Valid()
      ensures major >= 2 ==> originals == old(originals)[SlSetTag := procSetTag][SlInit := procInit]
      ensures major >= 2 ==>
                attached == old(attached) + (if procSetTag != 0 && procInit != 0 && nukems then {SlSetTag} else {})
                                          + (if procSetTag != 0 && procInit != 0 then {SlInit} else {})
      ensures major == 1 ==> originals == old(originals)[SlInitSl1 := procInit]
      ensures major == 1 ==> attached == old(attached) + (if procInit != 0 then {SlInitSl1} else {})
      ensures major < 1 ==> originals == old(originals) && attached == old(attached)
    {
      if major >= 2 {
        originals := originals[SlSetTag := procSetTag][SlInit := procInit];
        if procSetTag != 0 && procInit != 0 {
          if nukems {
            attached := attached + {SlSetTag};
          }
          attached := attached + {SlInit};
        }
      } else if major == 1 {
        originals := originals[SlInitSl1 := procInit];
        if procInit != 0 {
          attached := attached + {SlInitSl1};
        }
      }
    }
  }
}
