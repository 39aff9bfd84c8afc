/**
 * The platform classification of src/API/System/predefine.ts.  The host
 * sets PLATFORM and IS_STEAM_DECK before any script runs; here they are
 * parameters.
 */
module Predefine {
  function IsConsole(platform: string): bool
  {
    platform == "PS4" || platform == "XBONE" || platform == "SWITCH"
  }

  function IsNotConsole(platform: string): bool
  {
    !IsConsole(platform)
  }

  function IsPS4(platform: string): bool
  {
    platform == "PS4"
  }

  function IsXB1(platform: string): bool
  {
    platform == "XBONE"
  }

  function IsSteam(platform: string): bool
  {
    platform == "WIN32_STEAM" || platform == "LINUX_STEAM" || platform == "OSX_STEAM"
  }

  function IsWin32(platform: string): bool
  {
    platform == "WIN32_STEAM" || platform == "WIN32_RAIL"
  }

  function IsLinux(platform: string): bool
  {
    platform == "LINUX_STEAM"
  }

  function IsRail(platform: string): bool
  {
    platform == "WIN32_RAIL"
  }

  /** IsSteamDeck reports the host's flag unchanged. */
  function IsSteamDeck(isSteamDeck: bool): (r: bool)
    ensures r <==> isSteamDeck
  {
    isSteamDeck
  }

  /** A platform is either a console or not one, never both. */
  lemma NotConsoleIsNegation(platform: string)
    ensures IsNotConsole(platform) != IsConsole(platform)
  {
  }

  /** The PlayStation 4 and the Xbox One are consoles. */
  lemma ConsoleFamily(platform: string)
    ensures IsPS4(platform) || IsXB1(platform) ==> IsConsole(platform)
  {
  }

  /** Rail is a Windows platform and Linux is a Steam platform. */
  lemma StoreFamilies(platform: string)
    ensures IsRail(platform) ==> IsWin32(platform)
    ensures IsLinux(platform) ==> IsSteam(platform)
  {
  }

  /** No console is a Steam platform, and no Windows platform is Linux. */
  lemma ExclusiveFamilies(platform: string)
    ensures !(IsConsole(platform) && IsSteam(platform))
    ensures !(IsWin32(platform) && IsLinux(platform))
  {
  }
}
