/** The game manifest (`MinecraftJson`, src/minecraft/minecraft_json.rs) as a
    record, and the three helpers that turn it into launch arguments. */
module MinecraftJson {
  import opened Wrappers
  import opened Text

  /** The JSON values the manifest leaves untyped (`serde_json::Value`);
      only strings and arrays matter to the launcher. */
  datatype Json = JString(s: string) | JArray(items: seq<Json>) | JOther

  datatype Artifact = Artifact(path: string, url: string, sha1: string, size: int)
  datatype Downloads = Downloads(artifact: Artifact)
  datatype Library = Library(name: string, downloads: Downloads, rules: Option<Json>)
  datatype Logging = Logging
  datatype Arguments = Arguments(game: Json, jvm: Json)
  datatype AssetIndex = AssetIndex(id: string, sha1: string, size: int, totalSize: int, url: string)

  datatype Manifest = Manifest(
    comment: Option<seq<string>>,
    id: string,
    time: string,
    releaseTime: string,
    kind: string,                        // the `type` field
    mainClass: string,
    minimumLauncherVersion: Option<int>,
    inheritsFrom: Option<string>,
    logging: Option<Logging>,
    arguments: Arguments,
    assetIndex: Option<AssetIndex>,
    assets: Option<string>,
    complianceLevel: Option<int>,
    libraries: seq<Library>)

  // ---------------------------------------------------------------------
  // libs_to_args: the classpath

  /** One classpath entry: the base path, a backslash, the artifact path. */
  function Entry(base: string, l: Library): string {
    base + "\\" + l.downloads.artifact.path
  }

  /** The entries, in library order, that the classpath is made of. */
  function Entries(libs: seq<Library>, base: string): (es: seq<string>)
    ensures |es| == |libs|
    ensures forall i :: 0 <= i < |libs| ==> es[i] == Entry(base, libs[i])
  {
    seq(|libs|, i requires 0 <= i < |libs| => Entry(base, libs[i]))
  }

  lemma EntriesCons(libs: seq<Library>, base: string)
    requires libs != []
    ensures Entries(libs, base) == [Entry(base, libs[0])] + Entries(libs[1..], base)
  {
    var a, b := Entries(libs, base), [Entry(base, libs[0])] + Entries(libs[1..], base);
    assert |a| == |b|;
    forall i | 0 <= i < |a|
      ensures a[i] == b[i]
    {
      if i > 0 {
        assert b[i] == Entries(libs[1..], base)[i - 1];
      }
    }
  }

  /** Every entry of `libs`, each followed by `;`, concatenated. */
  function Classpath(libs: seq<Library>, base: string): (r: string)
    ensures libs == [] <==> r == ""
  {
    if libs == [] then "" else Entry(base, libs[0]) + ";" + Classpath(libs[1..], base)
  }

  /** `libs_to_args`. */
  function LibsToArgs(m: Manifest, base: string): string {
    Classpath(m.libraries, base)
  }

  /** Total length of the artifact paths. */
  function PathsLength(libs: seq<Library>): nat {
    if libs == [] then 0 else |libs[0].downloads.artifact.path| + PathsLength(libs[1..])
  }

  /** Each library adds its path, the base and two separator characters. */
  lemma {:induction false} ClasspathLength(libs: seq<Library>, base: string)
    ensures |Classpath(libs, base)| == |libs| * (|base| + 2) + PathsLength(libs)
  {
    if libs != [] {
      ClasspathLength(libs[1..], base);
      assert |libs| * (|base| + 2) == (|libs| - 1) * (|base| + 2) + |base| + 2;
    }
  }

  /** The classpath of two library lists is the two classpaths joined. */
  lemma {:induction false} ClasspathAppend(a: seq<Library>, b: seq<Library>, base: string)
    ensures Classpath(a + b, base) == Classpath(a, base) + Classpath(b, base)
  {
    if a != [] {
      assert (a + b)[1..] == a[1..] + b;
      ClasspathAppend(a[1..], b, base);
    } else {
      assert a + b == b;
    }
  }

  /** How the JVM reads a classpath: the pieces between the `;`s. A last
      piece without a terminating `;` is an entry too; an empty tail is not. */
  function SplitClasspath(s: string): seq<string>
    decreases |s|
  {
    if s == [] then []
    else match IndexOf(s, ';')
      case None => [s]
      case Some(k) => [s[..k]] + SplitClasspath(s[k + 1..])
  }

  predicate NoSemicolon(s: string) {
    forall i :: 0 <= i < |s| ==> s[i] != ';'
  }

  /** An entry without `;` followed by `;` splits off as one piece. */
  lemma SplitClasspathCons(e: string, rest: string)
    requires NoSemicolon(e)
    ensures SplitClasspath(e + ";" + rest) == [e] + SplitClasspath(rest)
  {
    var s := e + ";" + rest;
    assert s[|e|] == ';';
    assert forall i :: 0 <= i < |e| ==> s[i] == e[i];
    assert IndexOf(s, ';') == Some(|e|);
    assert s[..|e|] == e;
    assert s[|e| + 1..] == rest;
  }

  /** Paths without `;` come back out of the classpath one by one, in
      library order, with whatever follows left to be split on its own. */
  lemma {:induction false} SplitClasspathEntries(libs: seq<Library>, base: string, tail: string)
    requires NoSemicolon(base)
    requires forall l :: l in libs ==> NoSemicolon(l.downloads.artifact.path)
    ensures SplitClasspath(Classpath(libs, base) + tail) == Entries(libs, base) + SplitClasspath(tail)
  {
    if libs == [] {
      assert Classpath(libs, base) + tail == tail;
    } else {
      var e := Entry(base, libs[0]);
      var rest := Classpath(libs[1..], base) + tail;
      assert libs[0] in libs;
      assert forall l :: l in libs[1..] ==> l in libs;
      calc {
        SplitClasspath(Classpath(libs, base) + tail);
        { assert Classpath(libs, base) + tail == e + ";" + rest; }
        SplitClasspath(e + ";" + rest);
        { SplitClasspathCons(e, rest); }
        [e] + SplitClasspath(rest);
        { SplitClasspathEntries(libs[1..], base, tail); }
        [e] + (Entries(libs[1..], base) + SplitClasspath(tail));
        { EntriesCons(libs, base); }
        Entries(libs, base) + SplitClasspath(tail);
      }
    }
  }

  /** `libs_to_args` splits back into exactly one entry per library. */
  lemma LibsToArgsEntries(m: Manifest, base: string)
    requires NoSemicolon(base)
    requires forall l :: l in m.libraries ==> NoSemicolon(l.downloads.artifact.path)
    ensures SplitClasspath(LibsToArgs(m, base)) == Entries(m.libraries, base)
  {
    SplitClasspathEntries(m.libraries, base, "");
    assert Classpath(m.libraries, base) + "" == Classpath(m.libraries, base);
  }

  /** The two artifact paths of the classpath test in src/minecraft/tests.rs. */
  const FORGE_JAR := "net/minecraftforge/forge/1.16.5-36.2.34/forge-1.16.5-36.2.34.jar"
  const ASM_JAR := "org/ow2/asm/asm/9.1/asm-9.1.jar"

  /** That test expects the entries without the backslash; the code puts one
      between base and path, so its output is two characters longer. */
  lemma LibsToArgsTestExpectation(m: Manifest)
    requires |m.libraries| == 2
    requires m.libraries[0].downloads.artifact.path == FORGE_JAR
    requires m.libraries[1].downloads.artifact.path == ASM_JAR
    ensures LibsToArgs(m, "~/") == "~/" + "\\" + FORGE_JAR + ";" + "~/" + "\\" + ASM_JAR + ";"
    ensures LibsToArgs(m, "~/") != "~/" + FORGE_JAR + ";" + "~/" + ASM_JAR + ";"
  {
    var libs := m.libraries;
    assert libs[1..][1..] == [];
    assert Classpath(libs[1..], "~/") == Entry("~/", libs[1]) + ";";
    assert LibsToArgs(m, "~/") == Entry("~/", libs[0]) + ";" + Entry("~/", libs[1]) + ";";
    assert |LibsToArgs(m, "~/")| == |"~/" + FORGE_JAR + ";" + "~/" + ASM_JAR + ";"| + 2;
  }

  // ---------------------------------------------------------------------
  // jvm_args_to_arg, game_args_to_arg

  /** What the two `unwrap`s demand: an array, and a string in every slot. */
  predicate IsStringArray(j: Json) {
    j.JArray? && forall i :: 0 <= i < |j.items| ==> j.items[i].JString?
  }

  /** The strings of a string array, in order. */
  function Strings(j: Json): (r: seq<string>)
    requires IsStringArray(j)
    ensures |r| == |j.items|
    ensures forall i :: 0 <= i < |r| ==> j.items[i] == JString(r[i])
  {
    seq(|j.items|, i requires 0 <= i < |j.items| => j.items[i].s)
  }

  /** The JSON array of some strings. */
  function StringArray(ss: seq<string>): (j: Json)
    ensures IsStringArray(j)
  {
    JArray(seq(|ss|, i requires 0 <= i < |ss| => JString(ss[i])))
  }

  /** `Strings` and `StringArray` are inverse. */
  lemma StringsRoundTrip(j: Json, ss: seq<string>)
    ensures Strings(StringArray(ss)) == ss
    ensures IsStringArray(j) ==> StringArray(Strings(j)) == j
  {
    if IsStringArray(j) {
      assert StringArray(Strings(j)).items == j.items;
    }
  }

  /** `jvm_args_to_arg`: the JVM arguments, as many as the array holds. */
  function JvmArgsToArg(m: Manifest): (r: seq<string>)
    requires IsStringArray(m.arguments.jvm)
    ensures StringArray(r) == m.arguments.jvm
  {
    StringsRoundTrip(m.arguments.jvm, []);
    Strings(m.arguments.jvm)
  }

  /** `game_args_to_arg`: the game arguments, as many as the array holds. */
  function GameArgsToArg(m: Manifest): (r: seq<string>)
    requires IsStringArray(m.arguments.game)
    ensures StringArray(r) == m.arguments.game
  {
    StringsRoundTrip(m.arguments.game, []);
    Strings(m.arguments.game)
  }
}
