/** Preparing a launch: the Java 25 check, locating Assets.zip (once through
    the manager's input callback, repeatedly at the script's prompt) and the
    java command line both programs run. */
module Launch {
  import opened PyText
  import opened Paths
  import opened Settings
  import opened Host

  /** What `java -version` printed on stdout and stderr together, or
      JavaMissing when no java is found on the PATH. */
  datatype JavaProbe = JavaMissing | JavaOutput(text: string)

  const Marker25 := "version \"25"
  const Marker125 := "version \"1.25"

  /** check_java_version: the output names version 25 in either the modern or
      the legacy "1.x" form. */
  predicate JavaOk(p: JavaProbe) {
    p.JavaOutput? && (Contains(p.text, Marker25) || Contains(p.text, Marker125))
  }

  /** Any output that quotes a version beginning with 25 or 1.25 passes, so
      the check is a prefix match (a version "250" would pass as well). */
  lemma JavaAccepted(before: string, after: string, legacy: bool)
    ensures JavaOk(JavaOutput(before + (if legacy then Marker125 else Marker25) + after))
  {
    ContainsInfix(before, if legacy then Marker125 else Marker25, after);
  }

  lemma {:induction false} ContainsMember(s: string, sub: string, k: nat)
    requires Contains(s, sub) && k < |sub|
    ensures sub[k] in s
  {
    if StartsWith(s, sub) {
      assert s[k] == sub[k];
    } else {
      ContainsMember(s[1..], sub, k);
      var j :| 0 <= j < |s[1..]| && s[1..][j] == sub[k];
      assert s[j + 1] == sub[k];
    }
  }

  /** Output that quotes nothing never passes, whatever version it names. */
  lemma UnquotedVersionRejected(text: string)
    requires '"' !in text
    ensures !JavaOk(JavaOutput(text))
  {
    if Contains(text, Marker25) {
      ContainsMember(text, Marker25, 8);
    }
    if Contains(text, Marker125) {
      ContainsMember(text, Marker125, 8);
    }
  }

  /** Where the assets are expected: os.path.join(cwd, "Assets.zip"). */
  function AssetsHere(cwd: string, win: bool): string {
    JoinName(cwd, AssetsFile, win)
  }

  lemma AssetsFileHasNoSep(win: bool)
    ensures NoSep(AssetsFile, win)
  {
  }

  /** The path handed to the server is always called Assets.zip. */
  lemma AssetsHereIsNamed(cwd: string, win: bool)
    ensures Basename(AssetsHere(cwd, win), win) == AssetsFile
  {
    AssetsFileHasNoSep(win);
    BasenameOfJoin(cwd, AssetsFile, win);
  }

  /** A path accepted at a prompt: it exists and its last component is
      Assets.zip. */
  predicate Acceptable(p: string, fs: set<string>, win: bool) {
    p in fs && Basename(p, win) == AssetsFile
  }

  /** The outcome of the manager's check_assets: the path found (None stops
      the start sequence) and the copy it attempted, if any. */
  datatype AssetsCheck = AssetsCheck(path: Option<string>, effects: seq<Action>)

  /** check_assets in the manager. `answer` is what the input callback
      returned, None when the manager has no callback; `copyOk` says whether
      shutil.copy succeeds. The answer is used as typed, quotes included. */
  function ManagerCheckAssets(cwd: string, fs: set<string>, answer: Option<string>, copyOk: bool,
                              win: bool): AssetsCheck
  {
    var here := AssetsHere(cwd, win);
    if here in fs then AssetsCheck(Some(here), [])
    else if answer.Some? && answer.value != "" && Acceptable(answer.value, fs, win) then
      AssetsCheck(if copyOk then Some(here) else None, [CopyAssets(answer.value)])
    else AssetsCheck(None, [])
  }

  /** The manager finds the assets exactly when they are in the server
      directory, or an acceptable answer was copied there; the path it
      returns is always the one in the server directory, and it copies at
      most once. */
  lemma ManagerAssetsFound(cwd: string, fs: set<string>, answer: Option<string>, copyOk: bool,
                           win: bool)
    ensures var r := ManagerCheckAssets(cwd, fs, answer, copyOk, win);
      && (r.path.Some? <==>
          AssetsHere(cwd, win) in fs
          || (answer.Some? && answer.value != "" && Acceptable(answer.value, fs, win) && copyOk))
      && (r.path.Some? ==> r.path.value == AssetsHere(cwd, win) && Basename(r.path.value, win) == AssetsFile)
      && (r.effects != [] ==> AssetsHere(cwd, win) !in fs && r.effects == [CopyAssets(answer.value)])
  {
    AssetsHereIsNamed(cwd, win);
  }

  /** A path typed inside quotes ends in a quote, so the manager rejects it
      (the script strips the quotes first and accepts it). */
  lemma ManagerRejectsQuotedPath(cwd: string, fs: set<string>, p: string, copyOk: bool, win: bool)
    requires AssetsHere(cwd, win) !in fs
    ensures ManagerCheckAssets(cwd, fs, Some("\"" + p + "\""), copyOk, win) == AssetsCheck(None, [])
  {
  }

  /** One line typed at the script's prompt, and whether shutil.copy of the
      path it names succeeds. */
  datatype Reply = Reply(text: string, copyOk: bool)

  /** The path a reply names: the line with surrounding double quotes
      stripped. */
  function Named(r: Reply): string {
    StripChar(r.text, '"')
  }

  /** A reply that ends the script's prompt loop. */
  predicate Settles(r: Reply, fs: set<string>, win: bool) {
    Acceptable(Named(r), fs, win) && r.copyOk
  }

  /** No reply of `rs` ends the prompt loop. */
  predicate NoneSettle(rs: seq<Reply>, fs: set<string>, win: bool) {
    forall j :: 0 <= j < |rs| ==> !Settles(rs[j], fs, win)
  }

  /** The copy the script attempts for one reply: one when the reply names
      an existing Assets.zip, none otherwise. */
  function Attempt(r: Reply, fs: set<string>, win: bool): seq<Action> {
    if Acceptable(Named(r), fs, win) then [CopyAssets(Named(r))] else []
  }

  /** The effects of a run of replies, each reply's in turn. */
  function Attempts<R>(rs: seq<R>, attempt: R -> seq<Action>): seq<Action> {
    if rs == [] then [] else Attempts(rs[..|rs| - 1], attempt) + attempt(rs[|rs| - 1])
  }

  /** The copies the script attempts while reading `replies`, one per
      acceptable reply, in order. */
  function CopyAttempts(replies: seq<Reply>, fs: set<string>, win: bool): seq<Action> {
    Attempts(replies, r => Attempt(r, fs, win))
  }

  /** At most one copy per reply read. */
  lemma {:induction false} CopyAttemptsBound(replies: seq<Reply>, fs: set<string>, win: bool)
    ensures |CopyAttempts(replies, fs, win)| <= |replies|
    ensures forall a :: a in CopyAttempts(replies, fs, win) ==> a.CopyAssets?
  {
    if replies != [] {
      CopyAttemptsBound(replies[..|replies| - 1], fs, win);
    }
  }

  /** check_assets in the script: read replies until one names an existing
      Assets.zip that copies; a failed copy or an unacceptable path prompts
      again. `used` counts the replies read; a None path means the replies
      ran out (input() raises EOFError and the script ends there). */
  method ScriptCheckAssets(cwd: string, fs: set<string>, replies: seq<Reply>, win: bool)
    returns (path: Option<string>, used: nat, copies: seq<Action>)
    ensures used <= |replies|
    ensures copies == CopyAttempts(replies[..used], fs, win)
    ensures path.Some? ==> path.value == AssetsHere(cwd, win)
    ensures AssetsHere(cwd, win) in fs <==> path.Some? && used == 0
    ensures path.None? ==> used == |replies| && NoneSettle(replies, fs, win)
    ensures path.Some? && used > 0 ==>
      Settles(replies[used - 1], fs, win) && NoneSettle(replies[..used - 1], fs, win)
  {
    var here := AssetsHere(cwd, win);
    if here in fs {
      return Some(here), 0, [];
    }
    var settled;
    settled, used, copies := PromptLoop(fs, replies, win);
    path := if settled then Some(here) else None;
  }

  /** The prompt loop of check_assets: `settled` when a reply settles it,
      after `used` replies; otherwise every reply was read. */
  method PromptLoop(fs: set<string>, replies: seq<Reply>, win: bool)
    returns (settled: bool, used: nat, copies: seq<Action>)
    ensures used <= |replies|
    ensures copies == CopyAttempts(replies[..used], fs, win)
    ensures !settled ==> used == |replies| && NoneSettle(replies, fs, win)
    ensures settled ==>
      used > 0 && Settles(replies[used - 1], fs, win) && NoneSettle(replies[..used - 1], fs, win)
  {
    settled, used, copies := ReadUntil(replies, r => Settles(r, fs, win), r => Attempt(r, fs, win));
  }

  /** The `while True` prompt loop, over any replies: each reply read has
      its effects, and the loop ends after the first that settles it
      (`settled`), or when the replies run out. */
  method ReadUntil<R>(rs: seq<R>, settles: R -> bool, attempt: R -> seq<Action>)
    returns (settled: bool, used: nat, effects: seq<Action>)
    ensures used <= |rs|
    ensures effects == Attempts(rs[..used], attempt)
    ensures !settled ==> used == |rs| && forall j :: 0 <= j < |rs| ==> !settles(rs[j])
    ensures settled ==>
      used > 0 && settles(rs[used - 1]) && forall j :: 0 <= j < used - 1 ==> !settles(rs[j])
  {
    effects := [];
    used := 0;
    while used < |rs|
      invariant 0 <= used <= |rs|
      invariant effects == Attempts(rs[..used], attempt)
      invariant forall j :: 0 <= j < used ==> !settles(rs[j])
    {
      assert rs[..used + 1][..used] == rs[..used];
      effects := effects + attempt(rs[used]);
      if settles(rs[used]) {
        return true, used + 1, effects;
      }
      used := used + 1;
    }
    assert rs[..used] == rs;
    settled := false;
  }


  lemma {:induction false} TrimLeftQuote(p: string)
    requires p != [] && p[0] != '"'
    ensures TrimLeftChar(['"'] + p, '"') == p
  {
    assert (['"'] + p)[1..] == p;
  }

  /** A reply typed inside double quotes names the path between them. */
  lemma QuotedReplyNamesPath(p: string, ok: bool)
    requires p != [] && p[0] != '"' && p[|p| - 1] != '"'
    ensures Named(Reply("\"" + p + "\"", ok)) == p
  {
    var s := "\"" + p + "\"";
    assert s == ['"'] + (p + ['"']);
    TrimLeftQuote(p + ['"']);
    assert (p + ['"'])[..|p|] == p;
    assert TrimRightChar(p, '"') == p;
    assert TrimRightChar(p + ['"'], '"') == p;
  }

  /** The java command line: the heap size, the AOT cache when the file is
      present, then the server jar and the assets. */
  function LaunchCommand(memory: string, aot: bool, assets: string): seq<string> {
    ["java", "-Xmx" + memory] + (if aot then ["-XX:AOTCache=" + AotFile] else [])
      + ["-jar", ServerJar, "--assets", assets]
  }

  /** The command built as both programs build it: a list, an optional
      append and an extend. */
  method BuildLaunchCommand(memory: string, aot: bool, assets: string) returns (cmd: seq<string>)
    ensures cmd == LaunchCommand(memory, aot, assets)
  {
    cmd := ["java", "-Xmx" + memory];
    if aot {
      cmd := cmd + ["-XX:AOTCache=" + AotFile];
    }
    cmd := cmd + ["-jar", ServerJar, "--assets", assets];
  }

  /** The shape of the command line: java first, the heap flag second, the
      AOT flag third exactly when the cache exists, and the jar and assets
      as the last four words. */
  lemma LaunchCommandShape(memory: string, aot: bool, assets: string)
    ensures var cmd := LaunchCommand(memory, aot, assets);
      && |cmd| == (if aot then 7 else 6)
      && cmd[0] == "java" && cmd[1] == "-Xmx" + memory
      && (cmd[2] == "-XX:AOTCache=HytaleServer.aot" <==> aot)
      && cmd[|cmd| - 4..] == ["-jar", ServerJar, "--assets", assets]
  {
    var cmd := LaunchCommand(memory, aot, assets);
    if !aot {
      assert cmd[2][1] == 'j';
    }
  }

  /** The heap size the manager asks for: str() of the server_memory setting,
      "4G" when the setting is missing. */
  function ManagerMemory(config: Config): string {
    PyStr(Get(config, "server_memory", VStr("4G")))
  }

  /** A configuration from load_config always holds server_memory, so the
      "4G" fallback applies only to a configuration handed to the
      constructor without that key. */
  lemma MemoryFromLoadedConfig(file: Option<Config>)
    ensures ManagerMemory(LoadConfig(file)) ==
      (if file.Some? && "server_memory" in file.value then PyStr(file.value["server_memory"]) else "8G")
  {
  }

  /** The manager's launch: the command with its heap size, and the same
      size in _JAVA_OPTIONS. */
  function ManagerLaunch(config: Config, aot: bool, assets: string): Action {
    var memory := ManagerMemory(config);
    Spawn(LaunchCommand(memory, aot, assets), Some("-Xmx" + memory))
  }

  const ScriptMemory := "4G"

  /** start_server in the script: nothing without HytaleServer.jar, otherwise
      a 4G server with the AOT cache when present. */
  function ScriptLaunch(fs: set<string>, assets: string): seq<Action> {
    if ServerJar !in fs then []
    else [Spawn(LaunchCommand(ScriptMemory, AotFile in fs, assets), None)]
  }

  /** The script launches exactly when the jar exists, and the launch carries
      the heap flag -Xmx4G. */
  lemma ScriptLaunchNeedsJar(fs: set<string>, assets: string)
    ensures ScriptLaunch(fs, assets) != [] <==> ServerJar in fs
    ensures ScriptLaunch(fs, assets) != [] ==>
      ScriptLaunch(fs, assets)[0].cmd[1] == "-Xmx4G" && ScriptLaunch(fs, assets)[0].javaOptions.None?
  {
  }

  /** The manager's heap flag and _JAVA_OPTIONS always agree. */
  lemma ManagerLaunchAgrees(config: Config, aot: bool, assets: string)
    ensures var a := ManagerLaunch(config, aot, assets);
      a.javaOptions == Some(a.cmd[1]) && a.cmd[|a.cmd| - 1] == assets
  {
  }
}
