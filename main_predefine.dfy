/**
 * The build flags of src/API/System/mainPredefine.ts, computed once from
 * the host's PLATFORM, BRANCH and CONFIGURATION.  The platform predicates
 * that file repeats are the ones of module Predefine.
 */
module MainPredefine {
  import opened Predefine

  /** The host's build description. */
  datatype Build = Build(platform: string, branch: string, configuration: string)

  /** ENCODE_SAVES. */
  function EncodeSaves(b: Build): bool
  {
    b.branch != "dev"
  }

  /** CHEATS_ENABLED. */
  function CheatsEnabled(b: Build): bool
  {
    b.configuration != "PRODUCTION"
  }

  /** CAN_USE_DBUI. */
  function CanUseDbui(b: Build): bool
  {
    CheatsEnabled(b) && b.platform == "WIN32_STEAM"
  }

  /** DEBUG_MENU_ENABLED. */
  function DebugMenuEnabled(b: Build): bool
  {
    b.branch == "dev" || (IsConsole(b.platform) && CheatsEnabled(b))
  }

  /**
   * Saves are encoded on every branch except "dev", and there the debug
   * menu is on.  The first clause only spells out ENCODE_SAVES for the
   * reader; the second relates two flags.
   */
  lemma DevBranch(b: Build)
    ensures EncodeSaves(b) <==> b.branch != "dev"
    ensures !EncodeSaves(b) ==> DebugMenuEnabled(b)
  {
  }

  /**
   * Cheats are on exactly outside production; the debug UI needs cheats
   * and Windows Steam.  The first two clauses only spell out the flags'
   * definitions for the reader; the third is the platform fact.
   */
  lemma DbuiNeedsCheats(b: Build)
    ensures CheatsEnabled(b) <==> b.configuration != "PRODUCTION"
    ensures CanUseDbui(b) <==> CheatsEnabled(b) && b.platform == "WIN32_STEAM"
    ensures CanUseDbui(b) ==> IsSteam(b.platform) && IsWin32(b.platform) && !IsConsole(b.platform)
  {
  }

  /** The debug menu is on for the dev branch, or on a console outside production. */
  lemma DebugMenuCases(b: Build)
    ensures DebugMenuEnabled(b) <==> b.branch == "dev" || (IsConsole(b.platform) && b.configuration != "PRODUCTION")
    ensures DebugMenuEnabled(b) && !IsConsole(b.platform) ==> !EncodeSaves(b)
    ensures CanUseDbui(b) ==> (DebugMenuEnabled(b) <==> !EncodeSaves(b))
  {
  }
}
