/**
 * OptiScaler's hooks on ntdll's LdrLoadDll and NtLoadDll: the module name
 * is read from its UNICODE_STRING, lower-cased, checked against the "skip
 * checks" name the loader state may carry, and loads of the nvngx names are
 * answered with OptiScaler's own module instead of being passed to the
 * original loader.
 *
 * Strings are `seq<char>`; the narrow/wide conversions the hooks make
 * (`wstring_to_string`) are taken as the identity on the ASCII names the
 * rules are about. A `size_t` position holds `npos` as 2^64 - 1.
 */
module NtdllHooks {
  import opened Wrappers
  import opened Machine
  import opened Text

  type u16 = x: nat | x < 0x1_0000

  /** The UNICODE_STRING a loader call names its module with: Length in bytes, and the buffer. */
  datatype UnicodeString = UnicodeString(length: u16, buffer: seq<char>)

  /** A UNICODE_STRING whose buffer holds the Length bytes it announces. */
  predicate WellFormed(us: UnicodeString)
  {
    us.length / 2 <= |us.buffer|
  }

  /** UnicodeStringToWString: Length / sizeof(wchar_t) characters from the buffer. */
  function UnicodeStringToWString(us: UnicodeString): (r: seq<char>)
    requires WellFormed(us)
    ensures |r| == us.length / 2 && |r| < 0x8000
    ensures r == us.buffer[..|r|]
  {
    us.buffer[..us.length / 2]
  }

  /** std::string::npos. */
  const NPOS: nat := U64 - 1

  /** `hay.rfind(needle)` as the size_t the code compares. */
  function Rfind(hay: seq<char>, needle: seq<char>): (r: nat)
    ensures r == NPOS || r <= |hay|
  {
    LastIndexOfCorrect(hay, needle);
    match LastIndexOf(hay, needle)
    case Some(p) => p
    case None => NPOS
  }

  /**
   * The skip rule as written: with a skip name set, the load passes
   * through when rfind's result equals `length - skip.length()` or
   * `length - skip.length() - 4`, both computed in size_t.
   */
  function SkipPassesAsWritten(lcaseName: seq<char>, skipName: seq<char>): bool
  {
    skipName == [] ||
    var pos := Rfind(lcaseName, skipName);
    pos == Wrap64(|lcaseName| - |skipName|) || pos == Wrap64(|lcaseName| - |skipName| - 4)
  }

  /**
   * The skip rule the comparison is meant to express: the skip name's last
   * occurrence ends the name, or ends just before a four-character
   * extension such as ".dll".
   */
  function SkipPasses(lcaseName: seq<char>, skipName: seq<char>): bool
  {
    skipName == [] ||
    match LastIndexOf(lcaseName, skipName)
    case Some(p) => p + |skipName| == |lcaseName| || p + |skipName| + 4 == |lcaseName|
    case None => false
  }

  /**
   * A load passes the corrected rule only when the skip name really occurs
   * at the end, or before the extension; a name ending in the skip name
   * always passes.
   */
  lemma SkipPassesMeaning(lcaseName: seq<char>, skipName: seq<char>)
    requires skipName != []
    ensures SkipPasses(lcaseName, skipName) ==>
              (|skipName| <= |lcaseName| && OccursAt(lcaseName, skipName, |lcaseName| - |skipName|)) ||
              (|skipName| + 4 <= |lcaseName| && OccursAt(lcaseName, skipName, |lcaseName| - |skipName| - 4))
    ensures |skipName| <= |lcaseName| && OccursAt(lcaseName, skipName, |lcaseName| - |skipName|) ==>
              SkipPasses(lcaseName, skipName)
  {
    LastIndexOfCorrect(lcaseName, skipName);
    if |skipName| <= |lcaseName| && OccursAt(lcaseName, skipName, |lcaseName| - |skipName|) {
      var p := LastIndexOf(lcaseName, skipName).value;
      assert |lcaseName| - |skipName| <= p;
    }
  }

  /**
   * The two rules differ exactly when the skip name does not occur and is
   * one character longer than the name, or three characters shorter: then
   * one of the size_t differences wraps around to npos, which is what
   * rfind returns for "not found".
   */
  lemma SkipRulesDiffer(lcaseName: seq<char>, skipName: seq<char>)
    requires |lcaseName| < 0x8000 && |skipName| < 0x8000
    ensures SkipPassesAsWritten(lcaseName, skipName) != SkipPasses(lcaseName, skipName) <==>
              skipName != [] && LastIndexOf(lcaseName, skipName).None? &&
              (|skipName| == |lcaseName| + 1 || |skipName| + 3 == |lcaseName|)
  {
    if skipName != [] {
      var l := |lcaseName|;
      var d := |skipName|;
      LastIndexOfCorrect(lcaseName, skipName);
      assert Wrap64(l - d) == (if l - d >= 0 then l - d else U64 + (l - d));
      assert Wrap64(l - d - 4) == (if l - d - 4 >= 0 then l - d - 4 else U64 + (l - d - 4));
      match LastIndexOf(lcaseName, skipName)
      case Some(p) =>
        assert p + d <= l;
      case None =>
    }
  }

  /** "opengl32.dll" skips the checks while they are disabled for "sl.interposer", which it does not contain. */
  lemma SkipNameEscapes()
    ensures SkipPassesAsWritten("opengl32.dll", "sl.interposer")
    ensures !SkipPasses("opengl32.dll", "sl.interposer")
    ensures LastIndexOf("opengl32.dll", "sl.interposer").None?
  {
    assert Wrap64(12 - 13) == NPOS;
  }

  /** The parts of the loader state and configuration LoadLibraryCheckW reads. */
  datatype LoaderConfig = LoaderConfig(
    enablerAvailable: bool, isWorkingAsNvngx: bool, enableDlssInputs: bool,
    hookOriginalNvngxOnly: bool, exeDir: seq<char>)

  /**
   * The redirect decision for a lower-cased library name; `listed` is
   * CheckDllNameW's answer for the nvngx names, whose body is not part of
   * this model.
   */
  function Redirects(lcaseName: seq<char>, cfg: LoaderConfig, listed: bool): bool
  {
    !cfg.enablerAvailable && !cfg.isWorkingAsNvngx && cfg.enableDlssInputs && listed &&
    (!cfg.hookOriginalNvngxOnly || LastIndexOf(lcaseName, Lower(cfg.exeDir)).None?)
  }

  /**
   * With HookOriginalNvngxOnly set, a listed name is redirected exactly
   * when the lower-cased exe directory occurs nowhere in it; the empty
   * directory occurs in every name, so then nothing is redirected.
   */
  lemma RedirectsMeaning(lcaseName: seq<char>, cfg: LoaderConfig, listed: bool)
    ensures Redirects(lcaseName, cfg, listed) <==>
              !cfg.enablerAvailable && !cfg.isWorkingAsNvngx && cfg.enableDlssInputs && listed &&
              (!cfg.hookOriginalNvngxOnly || forall q: nat :: !OccursAt(lcaseName, Lower(cfg.exeDir), q))
    ensures cfg.hookOriginalNvngxOnly && cfg.exeDir == [] ==> !Redirects(lcaseName, cfg, listed)
  {
    LastIndexOfCorrect(lcaseName, Lower(cfg.exeDir));
    if cfg.exeDir == [] {
      assert OccursAt(lcaseName, Lower(cfg.exeDir), 0);
    }
  }

  /** LoadLibraryCheckW: lower-cases the exe directory in place, then decides. */
  method LoadLibraryCheckW(lcaseName: seq<char>, cfg: LoaderConfig, listed: bool) returns (redirect: bool)
    ensures redirect == Redirects(lcaseName, cfg, listed)
  {
    redirect := false;
    if !cfg.enablerAvailable && !cfg.isWorkingAsNvngx {
      var exePath := new char[|cfg.exeDir|](i requires 0 <= i < |cfg.exeDir| => cfg.exeDir[i]);
      assert exePath[..] == cfg.exeDir;
      LowerInPlace(exePath);
      var notFound := LastIndexOf(lcaseName, exePath[..]).None?;
      if cfg.enableDlssInputs && listed && (!cfg.hookOriginalNvngxOnly || notFound) {
        redirect := true;
      }
    }
  }

  /** OptiScaler's own HMODULE, any non-null value. */
  const THIS_MODULE: nat := 1

  /** What a hooked loader call does: hand the call to the original loader, or answer it. */
  datatype LoadOutcome = CallOriginal | Answered(status: nat, handle: nat)

  /** The decision the hooks take on a present, non-empty module name. */
  function LoadDecision(lcaseName: seq<char>, skipChecks: bool, skipName: seq<char>,
                        cfg: LoaderConfig, listed: bool): LoadOutcome
  {
    if skipChecks && SkipPasses(lcaseName, skipName) then CallOriginal
    else if Redirects(lcaseName, cfg, listed) then Answered(0, THIS_MODULE)
    else CallOriginal
  }

  /**
   * hkLdrLoadDll and hkNtLoadDll, which are the same apart from the
   * original they forward to. A null or empty name goes straight to the
   * original; otherwise the name is lower-cased character by character
   * and decided on.
   */
  method LoadDll(moduleFileName: Option<UnicodeString>, skipChecks: bool, skipName: seq<char>,
                 cfg: LoaderConfig, listed: bool) returns (outcome: LoadOutcome)
    requires moduleFileName.Some? ==> WellFormed(moduleFileName.value)
    ensures moduleFileName.None? || moduleFileName.value.length == 0 ==> outcome == CallOriginal
    ensures moduleFileName.Some? && moduleFileName.value.length != 0 ==>
              outcome == LoadDecision(Lower(UnicodeStringToWString(moduleFileName.value)), skipChecks, skipName, cfg, listed)
    ensures outcome.Answered? ==> outcome == Answered(0, THIS_MODULE)
  {
    if moduleFileName.None? || moduleFileName.value.length == 0 {
      return CallOriginal;
    }
    var libName := UnicodeStringToWString(moduleFileName.value);
    var lcase := new char[|libName|](i requires 0 <= i < |libName| => libName[i]);
    assert lcase[..] == libName;
    LowerInPlace(lcase);
    var lcaseLibName := lcase[..];
    if skipChecks {
      if skipName == [] {
        return CallOriginal;
      }
      if SkipPasses(lcaseLibName, skipName) {
        return CallOriginal;
      }
    }
    var redirect := LoadLibraryCheckW(lcaseLibName, cfg, listed);
    if redirect {
      return Answered(0, THIS_MODULE);
    }
    return CallOriginal;
  }

  /**
   * A load is answered by OptiScaler only when the checks are not skipped
   * for it and the redirect rule holds; upper-case letters in the name
   * change nothing.
   */
  lemma LoadDecisionMeaning(name: seq<char>, skipChecks: bool, skipName: seq<char>, cfg: LoaderConfig, listed: bool)
    ensures LoadDecision(Lower(name), skipChecks, skipName, cfg, listed).Answered? <==>
              !(skipChecks && SkipPasses(Lower(name), skipName)) && Redirects(Lower(name), cfg, listed)
    ensures LoadDecision(Lower(Lower(name)), skipChecks, skipName, cfg, listed) ==
              LoadDecision(Lower(name), skipChecks, skipName, cfg, listed)
    ensures skipChecks && skipName == [] ==> LoadDecision(Lower(name), skipChecks, skipName, cfg, listed) == CallOriginal
  {
    LowerIdempotent(name);
  }

  /** The two loader entry points ntdll exports. */
  datatype Loader = LdrLoadDll | NtLoadDll

  /** NtdllHooks' static state: the two original pointers (0 for nullptr) and the attached detours. */
  class NtdllHooks {
    var ldrLoadDll: nat
    var ntLoadDll: nat
    var attached: set<Loader>

    constructor ()
      ensures ldrLoadDll == 0 && ntLoadDll == 0 && attached == {}
    {
      ldrLoadDll := 0;
      ntLoadDll := 0;
      attached := {};
    }

    /**
     * Hook: once o_LdrLoadDll is set it does nothing; without ntdll
     * (`ntdll == 0`) neither. Otherwise both exports are stored and every
     * non-null one is detoured.
     */
    method Hook(ntdll: nat, procLdr: nat, procNt: nat)
      modifies this
      ensures old(ldrLoadDll) != 0 || ntdll == 0 ==> unchanged(this)
      ensures old(ldrLoadDll) == 0 && ntdll != 0 ==>
                ldrLoadDll == procLdr && ntLoadDll == procNt &&
                attached == old(attached) + (if procLdr != 0 then {LdrLoadDll} else {}) +
                                            (if procNt != 0 then {NtLoadDll} else {})
    {
      if ldrLoadDll != 0 {
        return;
      }
      if ntdll == 0 {
        return;
      }
      ldrLoadDll := procLdr;
      ntLoadDll := procNt;
      if ldrLoadDll != 0 {
        attached := attached + {LdrLoadDll};
      }
      if ntLoadDll != 0 {
        attached := attached + {NtLoadDll};
      }
    }

    /**
     * UnHook: detaches both detours but leaves the stored pointers set, so
     * a later Hook does nothing.
     */
    method UnHook()
      modifies this
      ensures old(ldrLoadDll) == 0 ==> unchanged(this)
      ensures old(ldrLoadDll) != 0 ==>
                attached == {} && ldrLoadDll == old(ldrLoadDll) && ntLoadDll == old(ntLoadDll)
    {
      if ldrLoadDll == 0 {
        return;
      }
      attached := {};
    }
  }
}
