/** The standalone script hytale_updater.py: main checks Java and the
    assets, stops a running server, runs the downloader and launches the
    server, in that order and once. */
module UpdaterScript {
  import opened PyText
  import opened Host
  import opened Discovery
  import opened Processes
  import opened Launch

  /** What the script meets on the host, in the order it looks. */
  datatype ScriptEnv = ScriptEnv(
    java: JavaProbe,
    cwd: string,
    fs: set<string>,            // paths that exist when the assets are checked
    replies: seq<Reply>,        // the lines typed at the assets prompt, before end of input
    probe: Probe,               // the process listing taken by stop_server
    tool: ScriptHost,           // what ensure_updater finds
    launchFs: set<string>)      // files in the server directory at start_server

  /** update_server of the script: the archive is fetched when neither the
      executable nor the jar is there, and the downloader runs when
      ensure_updater yields a command. */
  function ScriptUpdate(h: ScriptHost, win: bool): seq<Action> {
    var fetch := if UpdaterExecutable(win) !in h.present && UpdaterJar !in h.present
                 then [FetchUpdaterArchive] else [];
    match ScriptDiscovery(h, win)
    case None => fetch
    case Some(cmd) => fetch + [RunDownloader(cmd)]
  }

  /** Everything main does once the assets are at `assets`. */
  function ScriptTail(env: ScriptEnv, assets: string, win: bool): seq<Action> {
    ScriptStop(env.probe).kills + ScriptUpdate(env.tool, win) + ScriptLaunch(env.launchFs, assets)
  }

  /** The phase an effect belongs to: stopping, updating, launching. */
  function Phase(a: Action): nat {
    match a
    case KillPid(_) => 0
    case Spawn(_, _) => 2
    case _ => 1
  }

  /** main, in order: nothing at all without Java 25; the copies typed at the
      prompt (input raises at end of input while no reply settles, which ends
      the script); then the kills, the update and the launch. */
  method RunScript(env: ScriptEnv, win: bool) returns (assets: Option<string>, used: nat, effects: seq<Action>)
    ensures !JavaOk(env.java) ==> assets.None? && effects == []
    ensures JavaOk(env.java) ==> used <= |env.replies|
    ensures JavaOk(env.java) && assets.None? ==>
      && used == |env.replies| && NoneSettle(env.replies, env.fs, win)
      && effects == CopyAttempts(env.replies, env.fs, win)
    ensures assets.Some? ==>
      && JavaOk(env.java)
      && assets.value == AssetsHere(env.cwd, win)
      && effects == CopyAttempts(env.replies[..used], env.fs, win) + ScriptTail(env, assets.value, win)
  {
    if !JavaOk(env.java) {
      return None, 0, [];
    }
    var copies;
    assets, used, copies := ScriptCheckAssets(env.cwd, env.fs, env.replies, win);
    if assets.None? {
      assert env.replies[..used] == env.replies;
      return assets, used, copies;
    }
    var tail := StopUpdateLaunch(env, assets.value, win);
    effects := copies + tail;
  }

  /** stop_server, update_server and start_server, one after the other. */
  method StopUpdateLaunch(env: ScriptEnv, assets: string, win: bool) returns (effects: seq<Action>)
    ensures effects == ScriptTail(env, assets, win)
  {
    var kills := ScriptStop(env.probe).kills;
    var update: seq<Action> := [];
    if UpdaterExecutable(win) !in env.tool.present && UpdaterJar !in env.tool.present {
      update := [FetchUpdaterArchive];
    }
    var cmd := EnsureUpdaterScript(env.tool, win);
    if cmd.Some? {
      update := update + [RunDownloader(cmd.value)];
    }
    effects := kills + update + ScriptLaunch(env.launchFs, assets);
  }

  /** The kills all come first, the update next and the launch last. */
  lemma ScriptTailOrder(env: ScriptEnv, assets: string, win: bool)
    ensures var t := ScriptTail(env, assets, win);
      forall i, j :: 0 <= i < j < |t| ==> Phase(t[i]) <= Phase(t[j])
  {
    var ks := ScriptStop(env.probe).kills;
    var up := ScriptUpdate(env.tool, win);
    var la := ScriptLaunch(env.launchFs, assets);
    StopPhase(env.probe);
    UpdatePhase(env.tool, win);
    PhasesInOrder(ks, up, la);
  }

  /** stop_server only kills. */
  lemma StopPhase(p: Probe)
    ensures forall a :: a in ScriptStop(p).kills ==> Phase(a) == 0
  {
    var ks := ScriptStop(p).kills;
    forall a | a in ks ensures Phase(a) == 0 {
      var i :| 0 <= i < |ks| && ks[i] == a;
    }
  }

  /** update_server neither kills nor launches. */
  lemma UpdatePhase(h: ScriptHost, win: bool)
    ensures forall a :: a in ScriptUpdate(h, win) ==> Phase(a) == 1
  {
  }

  /** Three runs of effects, each of one phase and in phase order, make a
      run whose phases never decrease. */
  lemma PhasesInOrder(ks: seq<Action>, up: seq<Action>, la: seq<Action>)
    requires forall a :: a in ks ==> Phase(a) == 0
    requires forall a :: a in up ==> Phase(a) == 1
    requires forall a :: a in la ==> a.Spawn?
    ensures var t := ks + up + la;
      forall i, j :: 0 <= i < j < |t| ==> Phase(t[i]) <= Phase(t[j])
  {
    var t := ks + up + la;
    forall i, j | 0 <= i < j < |t| ensures Phase(t[i]) <= Phase(t[j]) {
      if j >= |ks| + |up| {
        assert t[j] == la[j - |ks| - |up|];
        assert t[j] in la;
      } else if i < |ks| {
        assert t[i] == ks[i];
        assert t[i] in ks;
      } else {
        assert t[i] == up[i - |ks|] && t[j] == up[j - |ks|];
        assert t[i] in up && t[j] in up;
      }
    }
  }

  /** The downloader runs exactly when ensure_updater yields a command, and
      then with that command. */
  lemma ScriptRunsDownloaderIffFound(h: ScriptHost, win: bool)
    ensures RunsDownloader(ScriptUpdate(h, win)) <==> ScriptDiscovery(h, win).Some?
    ensures ScriptDiscovery(h, win).Some? ==>
      ScriptUpdate(h, win)[|ScriptUpdate(h, win)| - 1] == RunDownloader(ScriptDiscovery(h, win).value)
  {
    var up := ScriptUpdate(h, win);
    if ScriptDiscovery(h, win).Some? {
      assert up[|up| - 1] in up;
    } else {
      assert forall i :: 0 <= i < |up| ==> up[i] == FetchUpdaterArchive;
    }
  }

  /** Some effect runs the downloader. */
  predicate RunsDownloader(s: seq<Action>) {
    exists a :: a in s && a.RunDownloader?
  }

  /** The script launches the server exactly when HytaleServer.jar is there
      at start_server, whatever the update did. */
  lemma ScriptLaunchesIffJar(env: ScriptEnv, assets: string, win: bool)
    ensures var t := ScriptTail(env, assets, win);
      (t != [] && t[|t| - 1].Spawn?) <==> ServerJar in env.launchFs
  {
    var up := ScriptUpdate(env.tool, win);
    var ks := ScriptStop(env.probe).kills;
    assert forall i :: 0 <= i < |up| ==> !up[i].Spawn?;
    assert forall i :: 0 <= i < |ks| ==> !ks[i].Spawn?;
    ScriptLaunchNeedsJar(env.launchFs, assets);
  }
}
