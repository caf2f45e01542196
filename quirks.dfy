/**
 * The per-executable quirk table: each entry names a lower-case executable
 * and the quirks that apply to it; the quirks for a running executable are
 * the union over every entry whose name equals the lower-cased exe name.
 */
module Quirks {
  import opened Text

  /** GameQuirk, in declaration order; the `_` sentinel is not a quirk. */
  datatype GameQuirk =
    | ForceNoOptiFG
    | DisableFSR3Inputs
    | DisableFSR2Inputs
    | DisableFFXInputs
    | RestoreComputeSigOnNonNvidia
    | ForceAutoExposure
    | DisableReactiveMasks
    | DisableDxgiSpoofing
    | CyberpunkHudlessStateOverride
    | SkipFsr3Method
    | FastFeatureReset
    | LoadD3D12Manually
    | KernelBaseHooks
    | VulkanDLSSBarrierFixup
    | ForceUnrealEngine

  /** flag_set<GameQuirk>. */
  type QuirkSet = set<GameQuirk>

  datatype QuirkEntry = QuirkEntry(exeName: string, quirks: seq<GameQuirk>)

  const QUIRK_TABLE: seq<QuirkEntry> := [
    QuirkEntry("rdr.exe", [SkipFsr3Method, ForceNoOptiFG]),
    QuirkEntry("playrdr.exe", [SkipFsr3Method, ForceNoOptiFG]),
    QuirkEntry("nms.exe", [KernelBaseHooks, VulkanDLSSBarrierFixup]),
    QuirkEntry("pathofexile.exe", [LoadD3D12Manually]),
    QuirkEntry("pathofexile_x64.exe", [LoadD3D12Manually]),
    QuirkEntry("pathofexilesteam.exe", [LoadD3D12Manually]),
    QuirkEntry("pathofexile_x64steam.exe", [LoadD3D12Manually]),
    QuirkEntry("kunitsugami.exe", [RestoreComputeSigOnNonNvidia, DisableDxgiSpoofing]),
    QuirkEntry("kunitsugamidemo.exe", [RestoreComputeSigOnNonNvidia, DisableDxgiSpoofing]),
    QuirkEntry("monsterhunterrise.exe", [RestoreComputeSigOnNonNvidia, DisableDxgiSpoofing]),
    QuirkEntry("monsterhunterwilds.exe", [RestoreComputeSigOnNonNvidia, DisableDxgiSpoofing]),
    QuirkEntry("drdr.exe", [RestoreComputeSigOnNonNvidia, DisableDxgiSpoofing]),
    QuirkEntry("dd2ccs.exe", [RestoreComputeSigOnNonNvidia, DisableDxgiSpoofing]),
    QuirkEntry("dd2.exe", [RestoreComputeSigOnNonNvidia, DisableDxgiSpoofing]),
    QuirkEntry("rdr2.exe", [DisableFSR2Inputs, DisableFSR3Inputs]),
    QuirkEntry("playrdr2.exe", [DisableFSR2Inputs, DisableFSR3Inputs]),
    QuirkEntry("fmf2-win64-shipping.exe", [DisableFSR2Inputs, DisableFSR3Inputs]),
    QuirkEntry("towers-win64-shipping.exe", [DisableFSR2Inputs, DisableFSR3Inputs]),
    QuirkEntry("afop.exe", [DisableFSR2Inputs, DisableFSR3Inputs, DisableDxgiSpoofing]),
    QuirkEntry("forza_steamworks_release_final.exe", [DisableFSR2Inputs, DisableFSR3Inputs]),
    QuirkEntry("forza_gaming.desktop.x64_release_final.exe", [DisableFSR2Inputs, DisableFSR3Inputs]),
    QuirkEntry("f1_22.exe", [DisableFSR2Inputs, DisableFSR3Inputs]),
    QuirkEntry("metaleden-win64-shipping.exe", [DisableFSR2Inputs, DisableFSR3Inputs]),
    QuirkEntry("bates-win64-shipping.exe", [DisableFSR2Inputs, DisableFSR3Inputs]),
    QuirkEntry("bloom&rage.exe", [DisableFSR2Inputs, DisableFSR3Inputs]),
    QuirkEntry("outlaws.exe", [DisableFSR2Inputs, DisableFSR3Inputs]),
    QuirkEntry("outlaws_plus.exe", [DisableFSR2Inputs, DisableFSR3Inputs]),
    QuirkEntry("banishers-win64-shipping.exe", [DisableFSR2Inputs, DisableFSR3Inputs]),
    QuirkEntry("wonderlands.exe", [DisableReactiveMasks]),
    QuirkEntry("deadisland-win64-shipping.exe", [DisableReactiveMasks]),
    QuirkEntry("jedisurvivor.exe", [ForceAutoExposure]),
    QuirkEntry("cyberpunk2077.exe", [CyberpunkHudlessStateOverride, ForceNoOptiFG, DisableDxgiSpoofing]),
    QuirkEntry("witcher3.exe", [DisableDxgiSpoofing]),
    QuirkEntry("alanwake2.exe", [DisableDxgiSpoofing]),
    QuirkEntry("persistence-win64-shipping.exe", [ForceUnrealEngine]),
    QuirkEntry("splitfiction.exe", [FastFeatureReset]),
    QuirkEntry("minecraft.windows.exe", [KernelBaseHooks])
  ]

  /** The quirks of all entries of `table` from index `i` on whose name equals `name`. */
  function QuirksFrom(table: seq<QuirkEntry>, name: string, i: nat): (r: QuirkSet)
    ensures forall q :: q in r <==> exists k :: i <= k < |table| && table[k].exeName == name && q in table[k].quirks
    decreases |table| - i
  {
    if i >= |table| then {}
    else (if table[i].exeName == name then set q | q in table[i].quirks else {}) + QuirksFrom(table, name, i + 1)
  }

  /** The union of the quirks of the entries of `table` named `name`. */
  function QuirksIn(table: seq<QuirkEntry>, name: string): (r: QuirkSet)
    ensures forall q :: q in r <==> exists k :: 0 <= k < |table| && table[k].exeName == name && q in table[k].quirks
  {
    QuirksFrom(table, name, 0)
  }

  /** What getQuirksForExe returns for `exeName`. */
  function QuirksForExe(exeName: string): QuirkSet
  {
    QuirksIn(QUIRK_TABLE, Lower(exeName))
  }

  /** Entries whose names differ from `name` add nothing. */
  lemma {:induction false} SkipUnmatched(table: seq<QuirkEntry>, name: string, i: nat, j: nat)
    requires i <= j <= |table|
    requires forall k :: i <= k < j ==> table[k].exeName != name
    ensures QuirksFrom(table, name, i) == QuirksFrom(table, name, j)
    decreases j - i
  {
    if i < j {
      SkipUnmatched(table, name, i + 1, j);
    }
  }

  /** When exactly one entry carries `name`, the result is that entry's quirks. */
  lemma SingleMatch(table: seq<QuirkEntry>, name: string, k: nat)
    requires k < |table| && table[k].exeName == name
    requires forall j :: 0 <= j < |table| && j != k ==> table[j].exeName != name
    ensures QuirksIn(table, name) == set q | q in table[k].quirks
  {
  }

  lemma LowerCyberpunk()
    ensures Lower("Cyberpunk2077.exe") == "cyberpunk2077.exe"
  {
  }

  lemma CyberpunkOnlyAt31()
    ensures QUIRK_TABLE[31] == QuirkEntry("cyberpunk2077.exe", [CyberpunkHudlessStateOverride, ForceNoOptiFG, DisableDxgiSpoofing])
    ensures forall j :: 0 <= j < |QUIRK_TABLE| && j != 31 ==> QUIRK_TABLE[j].exeName != "cyberpunk2077.exe"
  {
  }

  /** The Cyberpunk 2077 executable gets exactly its three quirks, whatever its case. */
  lemma CyberpunkQuirks()
    ensures QuirksForExe("Cyberpunk2077.exe") == {CyberpunkHudlessStateOverride, ForceNoOptiFG, DisableDxgiSpoofing}
  {
    LowerCyberpunk();
    CyberpunkOnlyAt31();
    SingleMatch(QUIRK_TABLE, "cyberpunk2077.exe", 31);
    ThreeElements(CyberpunkHudlessStateOverride, ForceNoOptiFG, DisableDxgiSpoofing);
  }

  lemma ThreeElements(a: GameQuirk, b: GameQuirk, c: GameQuirk)
    ensures (set q | q in [a, b, c]) == {a, b, c}
  {
  }

  lemma RdrEntries()
    ensures QUIRK_TABLE[0] == QuirkEntry("rdr.exe", [SkipFsr3Method, ForceNoOptiFG])
    ensures QUIRK_TABLE[14] == QuirkEntry("rdr2.exe", [DisableFSR2Inputs, DisableFSR3Inputs])
    ensures forall j :: 0 <= j < |QUIRK_TABLE| && j != 0 ==> QUIRK_TABLE[j].exeName != "rdr.exe"
    ensures forall j :: 0 <= j < |QUIRK_TABLE| && j != 14 ==> QUIRK_TABLE[j].exeName != "rdr2.exe"
  {
  }

  lemma TwoElements(a: GameQuirk, b: GameQuirk)
    ensures (set q | q in [a, b]) == {a, b}
  {
  }

  /**
   * Matching is whole-string equality: Red Dead Redemption's entry does
   * not fire for Red Dead Redemption 2, and the other way round.
   */
  lemma RdrIsNotRdr2()
    ensures QuirksIn(QUIRK_TABLE, "rdr.exe") == {SkipFsr3Method, ForceNoOptiFG}
    ensures QuirksIn(QUIRK_TABLE, "rdr2.exe") == {DisableFSR2Inputs, DisableFSR3Inputs}
  {
    RdrEntries();
    SingleMatch(QUIRK_TABLE, "rdr.exe", 0);
    SingleMatch(QUIRK_TABLE, "rdr2.exe", 14);
    TwoElements(SkipFsr3Method, ForceNoOptiFG);
    TwoElements(DisableFSR2Inputs, DisableFSR3Inputs);
  }

  /** Lookup ignores the case of the executable name. */
  lemma CaseInsensitive(exeName: string)
    ensures QuirksForExe(exeName) == QuirksForExe(Lower(exeName))
  {
    LowerIdempotent(exeName);
  }

  /** `s` holds no ASCII upper-case letter. */
  predicate NoUpper(s: string)
  {
    forall i :: 0 <= i < |s| ==> !('A' <= s[i] <= 'Z')
  }

  lemma NoUpperIsLower(s: string)
    requires NoUpper(s)
    ensures Lower(s) == s
  {
  }

  // The table is checked a few rows at a time to keep each proof small.

  lemma NoUpperRows0To2(k: nat)
    requires 0 <= k < 3
    ensures NoUpper(QUIRK_TABLE[k].exeName)
  {
  }

  lemma NoUpperRows3To4(k: nat)
    requires 3 <= k < 5
    ensures NoUpper(QUIRK_TABLE[k].exeName)
  {
  }

  lemma NoUpperRows5To6(k: nat)
    requires 5 <= k < 7
    ensures NoUpper(QUIRK_TABLE[k].exeName)
  {
  }

  lemma NoUpperRows7To8(k: nat)
    requires 7 <= k < 9
    ensures NoUpper(QUIRK_TABLE[k].exeName)
  {
  }

  lemma NoUpperRows9To10(k: nat)
    requires 9 <= k < 11
    ensures NoUpper(QUIRK_TABLE[k].exeName)
  {
  }

  lemma NoUpperRows11To14(k: nat)
    requires 11 <= k < 15
    ensures NoUpper(QUIRK_TABLE[k].exeName)
  {
  }

  lemma NoUpperRows15To16(k: nat)
    requires 15 <= k < 17
    ensures NoUpper(QUIRK_TABLE[k].exeName)
  {
  }

  lemma NoUpperRows17To18(k: nat)
    requires 17 <= k < 19
    ensures NoUpper(QUIRK_TABLE[k].exeName)
  {
  }

  lemma NoUpperRow19(k: nat)
    requires 19 <= k < 20
    ensures NoUpper(QUIRK_TABLE[k].exeName)
  {
  }

  lemma NoUpperRow20(k: nat)
    requires 20 <= k < 21
    ensures NoUpper(QUIRK_TABLE[k].exeName)
  {
  }

  lemma NoUpperRows21To22(k: nat)
    requires 21 <= k < 23
    ensures NoUpper(QUIRK_TABLE[k].exeName)
  {
  }

  lemma NoUpperRows23To24(k: nat)
    requires 23 <= k < 25
    ensures NoUpper(QUIRK_TABLE[k].exeName)
  {
  }

  lemma NoUpperRows25To26(k: nat)
    requires 25 <= k < 27
    ensures NoUpper(QUIRK_TABLE[k].exeName)
  {
  }

  lemma NoUpperRows27To28(k: nat)
    requires 27 <= k < 29
    ensures NoUpper(QUIRK_TABLE[k].exeName)
  {
  }

  lemma NoUpperRows29To30(k: nat)
    requires 29 <= k < 31
    ensures NoUpper(QUIRK_TABLE[k].exeName)
  {
  }

  lemma NoUpperRows31To32(k: nat)
    requires 31 <= k < 33
    ensures NoUpper(QUIRK_TABLE[k].exeName)
  {
  }

  lemma NoUpperRows33To34(k: nat)
    requires 33 <= k < 35
    ensures NoUpper(QUIRK_TABLE[k].exeName)
  {
  }

  lemma NoUpperRows35To36(k: nat)
    requires 35 <= k < 37
    ensures NoUpper(QUIRK_TABLE[k].exeName)
  {
  }

  /** Every name in the table is already lower case, so every entry can match. */
  lemma TableNamesLowercase()
    ensures forall k :: 0 <= k < |QUIRK_TABLE| ==> Lower(QUIRK_TABLE[k].exeName) == QUIRK_TABLE[k].exeName
  {
    forall k | 0 <= k < |QUIRK_TABLE|
      ensures Lower(QUIRK_TABLE[k].exeName) == QUIRK_TABLE[k].exeName
    {
      if k < 3 {
        NoUpperRows0To2(k);
      } else if k < 5 {
        NoUpperRows3To4(k);
      } else if k < 7 {
        NoUpperRows5To6(k);
      } else if k < 9 {
        NoUpperRows7To8(k);
      } else if k < 11 {
        NoUpperRows9To10(k);
      } else if k < 15 {
        NoUpperRows11To14(k);
      } else if k < 17 {
        NoUpperRows15To16(k);
      } else if k < 19 {
        NoUpperRows17To18(k);
      } else if k < 20 {
        NoUpperRow19(k);
      } else if k < 21 {
        NoUpperRow20(k);
      } else if k < 23 {
        NoUpperRows21To22(k);
      } else if k < 25 {
        NoUpperRows23To24(k);
      } else if k < 27 {
        NoUpperRows25To26(k);
      } else if k < 29 {
        NoUpperRows27To28(k);
      } else if k < 31 {
        NoUpperRows29To30(k);
      } else if k < 33 {
        NoUpperRows31To32(k);
      } else if k < 35 {
        NoUpperRows33To34(k);
      } else {
        NoUpperRows35To36(k);
      }
      NoUpperIsLower(QUIRK_TABLE[k].exeName);
    }
  }

  /** An executable with no entry gets no quirks. */
  lemma UnknownExeHasNoQuirks()
    ensures QuirksForExe("notepad.exe") == {}
  {
    assert Lower("notepad.exe") == "notepad.exe";
    assert forall j :: 0 <= j < |QUIRK_TABLE| ==> QUIRK_TABLE[j].exeName != "notepad.exe";
  }

  /**
   * The result depends only on which quirks each entry lists, not on their
   * order or repetition within the entry.
   */
  lemma {:induction false} OrderIndependent(t1: seq<QuirkEntry>, t2: seq<QuirkEntry>, name: string, i: nat)
    requires |t1| == |t2|
    requires forall k :: 0 <= k < |t1| ==> t1[k].exeName == t2[k].exeName &&
                                           (forall q :: q in t1[k].quirks <==> q in t2[k].quirks)
    ensures QuirksFrom(t1, name, i) == QuirksFrom(t2, name, i)
    decreases |t1| - i
  {
    if i < |t1| {
      OrderIndependent(t1, t2, name, i + 1);
      assert (set q | q in t1[i].quirks) == (set q | q in t2[i].quirks);
    }
  }

  /** The nested loops of getQuirksForExe over a table. */
  method CollectQuirks(table: seq<QuirkEntry>, name: string) returns (result: QuirkSet)
    ensures result == QuirksIn(table, name)
  {
    result := {};
    var i := 0;
    while i < |table|
      invariant 0 <= i <= |table|
      invariant result + QuirksFrom(table, name, i) == QuirksIn(table, name)
    {
      var entry := table[i];
      if name == entry.exeName {
        var j := 0;
        ghost var before := result;
        while j < |entry.quirks|
          invariant 0 <= j <= |entry.quirks|
          invariant result == before + set q | q in entry.quirks[..j]
        {
          assert entry.quirks[..j + 1] == entry.quirks[..j] + [entry.quirks[j]];
          result := result + {entry.quirks[j]};
          j := j + 1;
        }
        assert entry.quirks[..j] == entry.quirks;
      }
      i := i + 1;
    }
  }

  /** getQuirksForExe: lower-case a copy of the name, then collect over the table. */
  method GetQuirksForExe(exeName: string) returns (result: QuirkSet)
    ensures result == QuirksForExe(exeName)
  {
    var buffer := new char[|exeName|](k requires 0 <= k < |exeName| => exeName[k]);
    assert buffer[..] == exeName;
    LowerInPlace(buffer);
    result := CollectQuirks(QUIRK_TABLE, buffer[..]);
  }
}
