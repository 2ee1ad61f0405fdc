/** Launch options and the game command line (src/minecraft/mod.rs). */
module Minecraft {
  import opened Wrappers
  import Decimal
  import opened MinecraftJson
  import Text

  /** `s` begins with `p`. */
  predicate StartsWith(s: string, p: string) {
    |p| <= |s| && s[..|p|] == p
  }

  // ---------------------------------------------------------------------
  // JvmOptions

  datatype JvmOptions = JvmOptions(nativePath: string, launcherName: string, launcherVersion: string, libs: string)

  const LIBRARY_PATH_FLAG := "-Djava.library.path="
  const BRAND_FLAG := "-Dminecraft.launcher.brand="
  const VERSION_FLAG := "-Dminecraft.launcher.version="

  /** `JvmOptions::default`. */
  function DefaultJvmOptions(): (o: JvmOptions)
    ensures o.launcherName == "RuLauncher" && o.launcherVersion == "OBT"
    ensures o.nativePath == "" && o.libs == ""
  {
    JvmOptions("", "RuLauncher", "OBT", "")
  }

  /** `JvmOptions::to_args`. */
  function JvmToArgs(o: JvmOptions): (a: seq<string>)
    ensures |a| == 5 && a[3] == "-cp" && a[4] == o.libs
  {
    [LIBRARY_PATH_FLAG + o.nativePath, BRAND_FLAG + o.launcherName, VERSION_FLAG + o.launcherVersion, "-cp", o.libs]
  }

  /** How the JVM reads the five arguments back. */
  function ParseJvmArgs(a: seq<string>): Option<JvmOptions> {
    if |a| == 5 && a[3] == "-cp"
       && StartsWith(a[0], LIBRARY_PATH_FLAG) && StartsWith(a[1], BRAND_FLAG) && StartsWith(a[2], VERSION_FLAG)
    then Some(JvmOptions(a[0][|LIBRARY_PATH_FLAG|..], a[1][|BRAND_FLAG|..], a[2][|VERSION_FLAG|..], a[4]))
    else None
  }

  /** Every option comes back from its flag, and nothing else reads as options. */
  lemma JvmArgsRoundTrip(o: JvmOptions, a: seq<string>)
    ensures ParseJvmArgs(JvmToArgs(o)) == Some(o)
    ensures ParseJvmArgs(a) == Some(o) ==> JvmToArgs(o) == a
  {
    var b := JvmToArgs(o);
    assert b[0][..|LIBRARY_PATH_FLAG|] == LIBRARY_PATH_FLAG && b[0][|LIBRARY_PATH_FLAG|..] == o.nativePath;
    assert b[1][..|BRAND_FLAG|] == BRAND_FLAG && b[1][|BRAND_FLAG|..] == o.launcherName;
    assert b[2][..|VERSION_FLAG|] == VERSION_FLAG && b[2][|VERSION_FLAG|..] == o.launcherVersion;
    if ParseJvmArgs(a) == Some(o) {
      assert a[0] == a[0][..|LIBRARY_PATH_FLAG|] + a[0][|LIBRARY_PATH_FLAG|..];
      assert a[1] == a[1][..|BRAND_FLAG|] + a[1][|BRAND_FLAG|..];
      assert a[2] == a[2][..|VERSION_FLAG|] + a[2][|VERSION_FLAG|..];
    }
  }

  // ---------------------------------------------------------------------
  // GameOptions

  datatype GameOptions = GameOptions(
    username: string, version: string, gameDir: string, assetsDir: string, assetsIndex: string,
    uuid: string, accessToken: string, userType: string, versionType: string, server: string, port: string)

  /** The eleven flags of `GameOptions::to_args`, in order. */
  const GAME_FLAGS: seq<string> := ["--username", "--version", "--gameDir", "--assetsDir", "--assetIndex",
    "--uuid", "--accessToken", "--userType", "--versionType", "--server", "--port"]

  /** The option values in the order of their flags. */
  function GameValues(o: GameOptions): seq<string> {
    [o.username, o.version, o.gameDir, o.assetsDir, o.assetsIndex,
     o.uuid, o.accessToken, o.userType, o.versionType, o.server, o.port]
  }

  /** `GameOptions::default`; `forge` is the build-time forge version name. */
  function DefaultGameOptions(forge: string): (o: GameOptions)
    ensures o.username == "MUTS04" && o.version == forge && o.uuid == "TmlsbA=="
    ensures o.accessToken == "dummy_token" && o.userType == "OFFLINE" && o.versionType == "release"
    ensures o.server == "localhost" && o.port == "25565"
    ensures o.gameDir == "" && o.assetsDir == "" && o.assetsIndex == ""
  {
    GameOptions("MUTS04", forge, "", "", "", "TmlsbA==", "dummy_token", "OFFLINE", "release", "localhost", "25565")
  }

  /** `GameOptions::to_args`: each flag immediately followed by its value. */
  function GameToArgs(o: GameOptions): (a: seq<string>)
    ensures |a| == 22
    ensures forall i :: 0 <= i < 11 ==> a[2 * i] == GAME_FLAGS[i] && a[2 * i + 1] == GameValues(o)[i]
  {
    ["--username", o.username, "--version", o.version, "--gameDir", o.gameDir,
     "--assetsDir", o.assetsDir, "--assetIndex", o.assetsIndex, "--uuid", o.uuid,
     "--accessToken", o.accessToken, "--userType", o.userType, "--versionType", o.versionType,
     "--server", o.server, "--port", o.port]
  }

  /** The flags at the even positions of `a` are those of `GAME_FLAGS`. */
  predicate HasGameFlags(a: seq<string>)
    requires |a| == 22
  {
    forall i :: 0 <= i < 11 ==> a[2 * i] == GAME_FLAGS[i]
  }

  /** How the game reads the 22 arguments back. */
  function ParseGameArgs(a: seq<string>): Option<GameOptions> {
    if |a| == 22 && HasGameFlags(a)
    then Some(GameOptions(a[1], a[3], a[5], a[7], a[9], a[11], a[13], a[15], a[17], a[19], a[21]))
    else None
  }

  /** Every game option comes back from its flag, and nothing else reads as
      game options. */
  lemma GameArgsRoundTrip(o: GameOptions, a: seq<string>)
    ensures ParseGameArgs(GameToArgs(o)) == Some(o)
    ensures ParseGameArgs(a) == Some(o) ==> GameToArgs(o) == a
  {
    if ParseGameArgs(a) == Some(o) {
      var b := GameToArgs(o);
      forall k | 0 <= k < 22
        ensures a[k] == b[k]
      {
        var i := k / 2;
        assert k == 2 * i || k == 2 * i + 1;
        assert a[2 * i] == GAME_FLAGS[i];
      }
    }
  }

  // ---------------------------------------------------------------------
  // Minecraft::new

  /** The build-time names the paths are made of (`crate::utils::constants`). */
  datatype Constants = Constants(forge: string, version: string, workingDir: string)

  /** The outcome of reading and parsing one manifest file. */
  datatype Loaded = Unreadable | Malformed(message: string) | Parsed(manifest: Manifest)

  /** `Minecraft` after `new`; the base manifest is not kept. */
  datatype Minecraft = Minecraft(forgeData: Manifest, jvmOptions: JvmOptions, gameOptions: GameOptions)

  /** Path joining on the launcher's target (Windows). */
  function Join(dir: string, name: string): string {
    dir + "\\" + name
  }

  function WorkingPath(c: Constants, dataDir: string): string { Join(dataDir, c.workingDir) }
  function VersionPath(c: Constants, dataDir: string): string { Join(WorkingPath(c, dataDir), "versions") }
  function NativePath(c: Constants, dataDir: string): string { Join(Join(VersionPath(c, dataDir), c.version), "natives") }
  function LibraryPath(c: Constants, dataDir: string): string { Join(WorkingPath(c, dataDir), "libraries") }
  function GamePath(c: Constants, dataDir: string): string {
    Join(Join(VersionPath(c, dataDir), c.version), c.version + ".jar")
  }

  /** The `-cp` value: forge libraries, base libraries, then the game jar. */
  function LaunchClasspath(forge: Manifest, base: Manifest, libPath: string, gamePath: string): string {
    LibsToArgs(forge, libPath) + LibsToArgs(base, libPath) + gamePath
  }

  const NO_DATA_DIR := "OS data dir not found."
  const NO_FORGE_FILE := "Couldn't open forge config file. Check your client."
  const NO_BASE_FILE := "Couldn't open minecraft config file. Check your client."
  const NO_ASSET_INDEX := "Minecraft launch config file broken. Check your client."
  const RUN_FAILED := "Error while trying run minecraft: "

  /** `Minecraft::new`, with the data directory and the two manifest files
      as inputs. The checks come in the order of the source; the asset index
      is looked at last. */
  method New(c: Constants, dataDir: Option<string>, forgeFile: Loaded, baseFile: Loaded) returns (r: Result<Minecraft, string>)
    ensures dataDir.None? ==> r == Err(NO_DATA_DIR)
    ensures dataDir.Some? && forgeFile.Unreadable? ==> r == Err(NO_FORGE_FILE)
    ensures dataDir.Some? && forgeFile.Malformed? ==> r == Err(forgeFile.message)
    ensures dataDir.Some? && forgeFile.Parsed? && baseFile.Unreadable? ==>
      r == Err(NO_BASE_FILE)
    ensures dataDir.Some? && forgeFile.Parsed? && baseFile.Malformed? ==> r == Err(baseFile.message)
    ensures dataDir.Some? && forgeFile.Parsed? && baseFile.Parsed? && baseFile.manifest.assetIndex.None? ==>
      r == Err(NO_ASSET_INDEX)
    ensures r.Ok? <==> dataDir.Some? && forgeFile.Parsed? && baseFile.Parsed? && baseFile.manifest.assetIndex.Some?
    ensures r.Ok? ==>
      var d, forge, base := dataDir.value, forgeFile.manifest, baseFile.manifest;
      var m := r.value;
      && m.forgeData == forge
      && m.jvmOptions.nativePath == NativePath(c, d)
      && m.jvmOptions.launcherName == DefaultJvmOptions().launcherName
      // the minimum launcher version in decimal, 0 when absent
      && m.jvmOptions.launcherVersion == Decimal.IntToString(base.minimumLauncherVersion.GetOr(0))
      && Decimal.ParseInt(m.jvmOptions.launcherVersion) == Some(base.minimumLauncherVersion.GetOr(0))
      && m.jvmOptions.libs == LaunchClasspath(forge, base, LibraryPath(c, d), GamePath(c, d))
      && m.gameOptions == DefaultGameOptions(c.forge).(
           gameDir := WorkingPath(c, d), assetsDir := Join(WorkingPath(c, d), "assets"),
           assetsIndex := base.assetIndex.value.id)
  {
    if dataDir.None? {
      return Err(NO_DATA_DIR);
    }
    var d := dataDir.value;
    if forgeFile.Unreadable? {
      return Err(NO_FORGE_FILE);
    }
    if forgeFile.Malformed? {
      return Err(forgeFile.message);
    }
    var forge := forgeFile.manifest;
    if baseFile.Unreadable? {
      return Err(NO_BASE_FILE);
    }
    if baseFile.Malformed? {
      return Err(baseFile.message);
    }
    var base := baseFile.manifest;

    if base.assetIndex.None? {
      return Err(NO_ASSET_INDEX);
    }
    var m := Assemble(c, d, forge, base);
    r := Ok(m);
  }

  /** The options `Minecraft::new` builds once both manifests are read. */
  method Assemble(c: Constants, d: string, forge: Manifest, base: Manifest) returns (m: Minecraft)
    requires base.assetIndex.Some?
    ensures && m.forgeData == forge
      && m.jvmOptions.nativePath == NativePath(c, d)
      && m.jvmOptions.launcherName == DefaultJvmOptions().launcherName
      && m.jvmOptions.launcherVersion == Decimal.IntToString(base.minimumLauncherVersion.GetOr(0))
      && Decimal.ParseInt(m.jvmOptions.launcherVersion) == Some(base.minimumLauncherVersion.GetOr(0))
      && m.jvmOptions.libs == LaunchClasspath(forge, base, LibraryPath(c, d), GamePath(c, d))
      && m.gameOptions == DefaultGameOptions(c.forge).(
           gameDir := WorkingPath(c, d), assetsDir := Join(WorkingPath(c, d), "assets"),
           assetsIndex := base.assetIndex.value.id)
  {
    var jvm := DefaultJvmOptions();
    jvm := jvm.(nativePath := NativePath(c, d));
    var minimum := base.minimumLauncherVersion.GetOr(0);
    jvm := jvm.(launcherVersion := Decimal.IntToString(minimum));
    Decimal.ParseIntToString(minimum);
    var libPath := LibraryPath(c, d);
    var gamePath := GamePath(c, d);
    jvm := jvm.(libs := LibsToArgs(forge, libPath) + LibsToArgs(base, libPath) + gamePath);

    var game := DefaultGameOptions(c.forge);
    game := game.(gameDir := WorkingPath(c, d));
    game := game.(assetsDir := Join(WorkingPath(c, d), "assets"));
    game := game.(assetsIndex := base.assetIndex.value.id);
    m := Minecraft(forge, jvm, game);
  }

  /** With no `;` in the paths, the JVM finds the forge libraries, then the
      base libraries, then the game jar, one entry each. */
  lemma LaunchClasspathEntries(forge: Manifest, base: Manifest, libPath: string, gamePath: string)
    requires NoSemicolon(libPath) && NoSemicolon(gamePath) && gamePath != ""
    requires forall l :: l in forge.libraries ==> NoSemicolon(l.downloads.artifact.path)
    requires forall l :: l in base.libraries ==> NoSemicolon(l.downloads.artifact.path)
    ensures SplitClasspath(LaunchClasspath(forge, base, libPath, gamePath)) ==
      Entries(forge.libraries, libPath) + Entries(base.libraries, libPath) + [gamePath]
  {
    var f, b := LibsToArgs(forge, libPath), LibsToArgs(base, libPath);
    assert f + b + gamePath == f + (b + gamePath);
    SplitClasspathEntries(forge.libraries, libPath, b + gamePath);
    SplitClasspathEntries(base.libraries, libPath, gamePath);
    assert Text.IndexOf(gamePath, ';').None?;
  }

  // ---------------------------------------------------------------------
  // Minecraft::run

  /** The process `run` starts: the program and its arguments. */
  datatype Launch = Launch(program: string, args: seq<string>)

  /** The Java runtime shipped with the game. */
  function RuntimePath(c: Constants, dataDir: string): string {
    Join(Join(Join(WorkingPath(c, dataDir), "runtime"), "bin"), "java.exe")
  }

  /** The command line: forge JVM arguments, the JVM options, the main
      class, forge game arguments, the game options. */
  function LaunchArgs(m: Minecraft): seq<string>
    requires IsStringArray(m.forgeData.arguments.jvm) && IsStringArray(m.forgeData.arguments.game)
  {
    JvmArgsToArg(m.forgeData) + JvmToArgs(m.jvmOptions) + [m.forgeData.mainClass]
      + GameArgsToArg(m.forgeData) + GameToArgs(m.gameOptions)
  }

  /** `Minecraft::run`, with the data directory and the spawn outcome (an
      error message or success) as inputs. */
  method Run(m: Minecraft, c: Constants, dataDir: Option<string>, spawn: Result<(), string>) returns (r: Result<Launch, string>)
    requires IsStringArray(m.forgeData.arguments.jvm) && IsStringArray(m.forgeData.arguments.game)
    ensures dataDir.None? ==> r == Err(NO_DATA_DIR)
    ensures dataDir.Some? && spawn.Err? ==> r == Err(RUN_FAILED + spawn.error)
    ensures dataDir.Some? && spawn.Ok? ==> r == Ok(Launch(RuntimePath(c, dataDir.value), LaunchArgs(m)))
  {
    var args: seq<string> := [];
    args := args + JvmArgsToArg(m.forgeData);
    assert args == JvmArgsToArg(m.forgeData);
    args := args + JvmToArgs(m.jvmOptions);
    args := args + [m.forgeData.mainClass];
    args := args + GameArgsToArg(m.forgeData);
    args := args + GameToArgs(m.gameOptions);
    if dataDir.None? {
      return Err(NO_DATA_DIR);
    }
    var program := RuntimePath(c, dataDir.value);
    if spawn.Err? {
      return Err(RUN_FAILED + spawn.error);
    }
    r := Ok(Launch(program, args));
  }

  /** Where each part sits on the command line, and that the options read
      back from their positions. */
  lemma LaunchArgsLayout(m: Minecraft)
    requires IsStringArray(m.forgeData.arguments.jvm) && IsStringArray(m.forgeData.arguments.game)
    ensures var a, j, g := LaunchArgs(m), JvmArgsToArg(m.forgeData), GameArgsToArg(m.forgeData);
      && |a| == |j| + 5 + 1 + |g| + 22
      && a[..|j|] == j
      && ParseJvmArgs(a[|j|..|j| + 5]) == Some(m.jvmOptions)
      && a[|j| + 5] == m.forgeData.mainClass
      && a[|j| + 6..|j| + 6 + |g|] == g
      && ParseGameArgs(a[|a| - 22..]) == Some(m.gameOptions)
  {
    var a, j, g := LaunchArgs(m), JvmArgsToArg(m.forgeData), GameArgsToArg(m.forgeData);
    var v, t := JvmToArgs(m.jvmOptions), GameToArgs(m.gameOptions);
    assert a == j + v + [m.forgeData.mainClass] + g + t;
    assert a[..|j|] == j;
    assert a[|j|..|j| + 5] == v;
    assert a[|j| + 6..|j| + 6 + |g|] == g;
    assert a[|a| - 22..] == t;
    JvmArgsRoundTrip(m.jvmOptions, []);
    GameArgsRoundTrip(m.gameOptions, []);
  }
}
