/** HytaleUpdaterCore: the manager's core object. Its fields are updated in
    place by the start sequence, stop_server, send_command, the monitor and
    the restart timer; every method is proved to take the step the pure
    models in Lifecycle, Versions, Retention and Launch describe, and to
    append exactly that step's effects to `actions`. */
module ManagerCore {
  import opened PyText
  import opened PyOrder
  import opened Settings
  import opened Host
  import opened Discovery
  import opened Versions
  import opened Retention
  import opened Processes
  import opened Launch
  import opened Lifecycle

  /** The effects of check_self_update: the two manager files when a
      strictly newer version is published and both downloads succeed
      (`filesOk`), then the installer launch when run_update_installer
      writes updater_installer.py and starts it (`installerOk`); when either
      raises, `except Exception` in check_self_update catches it. */
  function SelfUpdateEffects(config: Config, manifest: Option<string>, local: string, filesOk: bool,
                             installerOk: bool): seq<Action> {
    match SelfUpdateDecision(config, manifest, local)
    case Newer(v) =>
      if !filesOk then []
      else if installerOk then [FetchManagerFiles(v), LaunchInstaller]
      else [FetchManagerFiles(v)]
    case _ => []
  }

  /** Whether check_self_update ends the sequence: run_update_installer calls
      sys.exit(0) after starting the installer, whose SystemExit passes
      through `except Exception` and ends the sequence thread. */
  predicate SelfUpdateExits(config: Config, manifest: Option<string>, local: string, filesOk: bool,
                            installerOk: bool) {
    SelfUpdateDecision(config, manifest, local).Newer? && filesOk && installerOk
  }

  /** The sequence ends after the self-update exactly when the installer was
      launched; the files fetched are always those of a strictly newer
      version, and a failed installer leaves the fetch alone and the
      sequence going. */
  lemma SelfUpdateExitsIffEffects(config: Config, manifest: Option<string>, local: string, filesOk: bool,
                                  installerOk: bool)
    ensures SelfUpdateExits(config, manifest, local, filesOk, installerOk) <==>
      LaunchInstaller in SelfUpdateEffects(config, manifest, local, filesOk, installerOk)
    ensures SelfUpdateEffects(config, manifest, local, filesOk, installerOk) != [] ==>
      var v := SelfUpdateDecision(config, manifest, local).version;
      && SelfUpdateEffects(config, manifest, local, filesOk, installerOk)[0] == FetchManagerFiles(v)
      && IntListLessOf(local, v)
    ensures SelfUpdateExits(config, manifest, local, filesOk, installerOk) ==>
      var v := SelfUpdateDecision(config, manifest, local).version;
      SelfUpdateEffects(config, manifest, local, filesOk, installerOk) == [FetchManagerFiles(v), LaunchInstaller]
    ensures SelfUpdateDecision(config, manifest, local).Newer? && filesOk && !installerOk ==>
      var v := SelfUpdateDecision(config, manifest, local).version;
      SelfUpdateEffects(config, manifest, local, filesOk, installerOk) == [FetchManagerFiles(v)]
  {
    if SelfUpdateDecision(config, manifest, local).Newer? {
      NewerIsStrictlyGreater(config, manifest, local, SelfUpdateDecision(config, manifest, local).version);
    }
  }

  /** parse_ver(local) < parse_ver(v), both parsing. */
  predicate IntListLessOf(local: string, v: string) {
    ParseVer(local).Some? && ParseVer(v).Some? && IntListLess(ParseVer(local).value, ParseVer(v).value)
  }

  /** The `for old in backups[:-max_b]: os.remove(...)` loop. */
  method RemoveEach(doomed: seq<string>) returns (effects: seq<Action>)
    ensures effects == Deletions(doomed)
  {
    effects := [];
    var i := 0;
    while i < |doomed|
      invariant 0 <= i <= |doomed|
      invariant |effects| == i
      invariant forall j :: 0 <= j < i ==> effects[j] == DeleteBackup(doomed[j])
    {
      effects := effects + [DeleteBackup(doomed[i])];
      i := i + 1;
    }
  }

  /** The `for pid in pids: kill` loop of stop_existing_server_process. */
  method KillEach(pids: seq<string>) returns (effects: seq<Action>)
    ensures effects == Kills(pids)
  {
    effects := [];
    var i := 0;
    while i < |pids|
      invariant 0 <= i <= |pids|
      invariant |effects| == i
      invariant forall j :: 0 <= j < i ==> effects[j] == KillPid(pids[j])
    {
      effects := effects + [KillPid(pids[i])];
      i := i + 1;
    }
  }

  /** What the start sequence meets on the host, in the order it looks. */
  datatype StartEnv = StartEnv(
    java: JavaProbe,
    cwd: string,
    fs: set<string>,             // paths that exist when the assets are checked
    answer: Option<string>,      // the input callback's reply; None without a callback
    copyOk: bool,                // shutil.copy of that reply succeeds
    probe: Probe,                // the process listing taken by stop_existing_server_process
    manifest: Option<string>,    // the published version.py; None when fetching it raised
    local: string,               // version.__version__
    filesOk: bool,               // both manager files download
    installerOk: bool,           // updater_installer.py is written and started
    update: UpdateHost,
    now: Stamp,                  // local time of the backup
    worldExists: bool,
    backupDirOk: bool,           // universe/backups exists, or os.makedirs creates it
    archiveOk: bool,
    backups: seq<string>,        // os.listdir(universe/backups) after archiving
    aotExists: bool,             // HytaleServer.aot exists at launch
    spawnOk: bool,               // Popen succeeds
    intervalOk: bool)            // float(restart_interval) succeeds

  /** The state, effects and configuration after a start sequence. */
  datatype Outcome = Outcome(core: Core, effects: seq<Action>, config: Config)

  /** The update step of the sequence, skipped when check_updates is off. */
  function UpdateStep(config: Config, u: UpdateHost, win: bool): UpdateResult {
    if Truthy(Get(config, "check_updates", VBool(true))) then UpdatePlan(config, u, win)
    else UpdateResult([], config)
  }

  /** The end of _start_server_thread, with the configuration `cfg` the
      update left behind: the "starting" notification (which may raise and
      end the thread), then launch with the assets at `assets` when the spawn
      succeeds, then arm a restart timer when scheduling is on. */
  function SpawnPlan(cfg: Config, c: Core, env: StartEnv, assets: string): Outcome {
    if WebhookRaises(cfg) || !env.spawnOk then Outcome(c, [], cfg)
    else
      var memory := ManagerMemory(cfg);
      var launched := [Spawn(LaunchCommand(memory, env.aotExists, assets), Some("-Xmx" + memory))];
      var c1 := LaunchStep(c);
      if Scheduled(cfg) && env.intervalOk then
        var armed := ArmStep(c1, PyStr(IntervalSetting(cfg)));
        Outcome(armed.core, launched + armed.effects, cfg)
      else Outcome(c1, launched, cfg)
  }

  /** The second half of _start_server_thread, from state c: update the
      server, back up the world (which may raise and end the thread), then
      SpawnPlan. */
  function LaunchPlan(config: Config, c: Core, env: StartEnv, assets: string, win: bool): Outcome
    requires ValidStamp(env.now)
  {
    var upd := UpdateStep(config, env.update, win);
    var prepared := upd.effects
      + BackupPlan(upd.config, env.now, env.worldExists, env.backupDirOk, env.archiveOk, env.backups);
    if BackupRaises(upd.config, env.worldExists, env.backupDirOk) then Outcome(c, prepared, upd.config)
    else
      var tail := SpawnPlan(upd.config, c, env, assets);
      Outcome(tail.core, prepared + tail.effects, tail.config)
  }

  /** _start_server_thread as a whole: clear stop_requested; stop without a
      suitable Java or without the assets; kill running servers; check for a
      manager update (which may end the sequence); then LaunchPlan. */
  function StartPlan(config: Config, c: Core, env: StartEnv, win: bool): Outcome
    requires ValidStamp(env.now)
  {
    var c0 := BeginStep(c);
    if !JavaOk(env.java) then Outcome(c0, [], config)
    else
      var assets := ManagerCheckAssets(env.cwd, env.fs, env.answer, env.copyOk, win);
      if assets.path.None? then Outcome(c0, assets.effects, config)
      else
        var pre := assets.effects + Kills(KillTargets(env.probe));
        var su := SelfUpdateEffects(config, env.manifest, env.local, env.filesOk, env.installerOk);
        if SelfUpdateExits(config, env.manifest, env.local, env.filesOk, env.installerOk) then
          Outcome(c0, pre + su, config)
        else
          var rest := LaunchPlan(config, c0, env, assets.path.value, win);
          Outcome(rest.core, (pre + su) + rest.effects, rest.config)
  }

  /** Past the update, the sequence launches: the backup does not raise,
      the "starting" notification does not raise, and Popen succeeds. */
  predicate Launches(cfg: Config, env: StartEnv) {
    && !BackupRaises(cfg, env.worldExists, env.backupDirOk)
    && !WebhookRaises(cfg)
    && env.spawnOk
  }

  /** The sequence reaches Popen and Popen succeeds: Java passed, the
      assets were found, no manager update ended the sequence, and neither
      the backup nor the notification raised. */
  predicate Ready(config: Config, env: StartEnv, win: bool) {
    && JavaOk(env.java)
    && ManagerCheckAssets(env.cwd, env.fs, env.answer, env.copyOk, win).path.Some?
    && !SelfUpdateExits(config, env.manifest, env.local, env.filesOk, env.installerOk)
    && Launches(config, env)
  }

  /** `b` sits in `e` starting at index `i`. */
  predicate OccursAt(e: seq<Action>, i: nat, b: seq<Action>) {
    i + |b| <= |e| && e[i..i + |b|] == b
  }

  /** Some effect starts a server process. */
  predicate Spawns(s: seq<Action>) {
    exists a :: a in s && a.Spawn?
  }

  /** The settings a configuration shares with `config`: every key except
      last_server_version, which update_server records. */
  ghost predicate SameSettings(cfg: Config, config: Config) {
    forall k :: k != "last_server_version" ==> (k in cfg <==> k in config) && (k in config ==> cfg[k] == config[k])
  }

  /** The update step changes no setting but the recorded server version,
      and starts no server. */
  lemma UpdateStepKeepsSettings(config: Config, u: UpdateHost, win: bool)
    ensures SameSettings(UpdateStep(config, u, win).config, config)
    ensures !Spawns(UpdateStep(config, u, win).effects)
  {
    if Truthy(Get(config, "check_updates", VBool(true))) {
      UpdatePlanKeepsSettings(config, u, win);
      UpdatePlanStartsNothing(config, u, win);
    }
  }

  /** update_server changes no setting but last_server_version. */
  lemma UpdatePlanKeepsSettings(config: Config, u: UpdateHost, win: bool)
    ensures SameSettings(UpdatePlan(config, u, win).config, config)
  {
    var d := ManagerDiscovery(u.discovery, win);
    if d.cmd.Some? {
      var remote := RemoteServerVersion(u.query);
      var _ := RecordedConfig(config, remote, u.run);
    }
  }

  /** update_server starts no server. */
  lemma UpdatePlanStartsNothing(config: Config, u: UpdateHost, win: bool)
    ensures !Spawns(UpdatePlan(config, u, win).effects)
  {
    var d := ManagerDiscovery(u.discovery, win);
    if d.cmd.Some? {
      var cmd := ResolvedCommand(d.cmd.value, u.fs, u.cwd, win);
      var remote := RemoteServerVersion(u.query);
      if !UpToDate(remote, config) {
        StagedStartsNothing(cmd, remote, u.run, u.leftovers);
      }
    }
  }

  /** Running the downloader starts no server. */
  lemma StagedStartsNothing(cmd: seq<string>, remote: Option<string>, run: StagingRun,
                            leftovers: set<string>)
    ensures !Spawns(StagedEffects(cmd, remote, run, leftovers))
  {
    var _ := Removals(Present(Artifacts, leftovers));
    if run.StagingExited? {
      var _ := ApplyActions(run.tree);
    }
  }

  /** The backup step starts no server. */
  lemma BackupStartsNothing(config: Config, now: Stamp, worldExists: bool, dirOk: bool, archiveOk: bool,
                            listing: seq<string>)
    requires ValidStamp(now)
    ensures !Spawns(BackupPlan(config, now, worldExists, dirOk, archiveOk, listing))
  {
    match PyInt(Get(config, "max_backups", VInt(3)))
    case None =>
    case Some(maxB) =>
      var _ := Deletions(BackupsToDelete(listing, maxB));
  }

  /** Settings that agree outside last_server_version give the same launch
      memory, the same schedule, and the same backup and notification
      behaviour. */
  lemma SameSettingsSameLaunch(cfg: Config, config: Config)
    requires SameSettings(cfg, config)
    ensures ManagerMemory(cfg) == ManagerMemory(config)
    ensures Scheduled(cfg) == Scheduled(config)
    ensures IntervalSetting(cfg) == IntervalSetting(config)
    ensures BackupsOn(cfg) == BackupsOn(config)
    ensures WebhookRaises(cfg) == WebhookRaises(config)
  {
    assert "server_memory" != "last_server_version";
    assert "enable_schedule" != "last_server_version";
    assert "restart_interval" != "last_server_version";
    assert "enable_backups" != "last_server_version";
    assert "enable_discord" != "last_server_version";
    assert "discord_webhook" != "last_server_version";
  }

  /** A start sequence always leaves stop_requested cleared, and leaves a
      running process exactly when it is Ready, otherwise the process it
      found. */
  lemma StartState(config: Config, c: Core, env: StartEnv, win: bool)
    requires ValidStamp(env.now)
    ensures var o := StartPlan(config, c, env, win);
      && !o.core.stopRequested
      && o.core.process == (if Ready(config, env, win) then Some(Running) else c.process)
  {
    StartPlanCore(config, c, env, win);
    LaunchPlanCore(config, BeginStep(c), env, AssetsHere(env.cwd, win), win);
  }

  /** The state a start sequence ends in: that of its LaunchPlan from the
      cleared state once past the self-update check, else the cleared state. */
  lemma StartPlanCore(config: Config, c: Core, env: StartEnv, win: bool)
    requires ValidStamp(env.now)
    ensures StartPlan(config, c, env, win).core ==
      if JavaOk(env.java) && ManagerCheckAssets(env.cwd, env.fs, env.answer, env.copyOk, win).path.Some?
         && !SelfUpdateExits(config, env.manifest, env.local, env.filesOk, env.installerOk)
      then LaunchPlan(config, BeginStep(c), env, AssetsHere(env.cwd, win), win).core
      else BeginStep(c)
  {
    ManagerAssetsFound(env.cwd, env.fs, env.answer, env.copyOk, win);
  }

  /** A start sequence arms one timer exactly when it launched with
      scheduling on, and keeps the timers it found. */
  lemma StartArmsTimer(config: Config, c: Core, env: StartEnv, win: bool)
    requires ValidStamp(env.now)
    ensures StartPlan(config, c, env, win).core.timers == c.timers
      + (if Ready(config, env, win) && Scheduled(config) && env.intervalOk then [Armed] else [])
  {
    StartPlanCore(config, c, env, win);
    LaunchPlanCore(config, BeginStep(c), env, AssetsHere(env.cwd, win), win);
  }

  /** LaunchPlan leaves stop_requested alone, runs the server exactly when
      it Launches under the configuration it was given, and then arms one
      timer when scheduling is on and the interval parses. */
  lemma LaunchPlanCore(config: Config, c: Core, env: StartEnv, assets: string, win: bool)
    requires ValidStamp(env.now)
    ensures var o := LaunchPlan(config, c, env, assets, win);
      && o.core.stopRequested == c.stopRequested
      && o.core.process == (if Launches(config, env) then Some(Running) else c.process)
      && o.core.timers == c.timers + (if Launches(config, env) && Scheduled(config) && env.intervalOk then [Armed] else [])
  {
    var upd := UpdateStep(config, env.update, win);
    UpdateStepKeepsSettings(config, env.update, win);
    SameSettingsSameLaunch(upd.config, config);
    assert c.timers + [] == c.timers;
  }

  /** The only setting a start sequence changes is last_server_version. */
  lemma StartKeepsSettings(config: Config, c: Core, env: StartEnv, win: bool)
    requires ValidStamp(env.now)
    ensures SameSettings(StartPlan(config, c, env, win).config, config)
  {
    var o := StartPlan(config, c, env, win);
    var upd := UpdateStep(config, env.update, win);
    assert o.config == config || o.config == upd.config;
    UpdateStepKeepsSettings(config, env.update, win);
  }

  /** Without a suitable Java the sequence does nothing at all. */
  lemma StartWithoutJava(config: Config, c: Core, env: StartEnv, win: bool)
    requires ValidStamp(env.now)
    requires !JavaOk(env.java)
    ensures var o := StartPlan(config, c, env, win);
      o.effects == [] && o.config == config && o.core == c.(stopRequested := false)
  {
  }

  /** Without the assets the sequence kills nothing, updates nothing and
      launches nothing: at most the one copy of the assets it attempted. */
  lemma StartWithoutAssets(config: Config, c: Core, env: StartEnv, win: bool)
    requires ValidStamp(env.now)
    requires JavaOk(env.java)
    requires ManagerCheckAssets(env.cwd, env.fs, env.answer, env.copyOk, win).path.None?
    ensures var o := StartPlan(config, c, env, win);
      && o.config == config
      && (o.effects == [] || (env.answer.Some? && o.effects == [CopyAssets(env.answer.value)]))
  {
    ManagerAssetsFound(env.cwd, env.fs, env.answer, env.copyOk, win);
  }

  /** A published newer manager ends the sequence after the running servers
      are killed: the last two effects fetch that strictly newer version and
      start the installer, and nothing is launched. */
  lemma SelfUpdateEndsSequence(config: Config, c: Core, env: StartEnv, win: bool)
    requires ValidStamp(env.now)
    requires JavaOk(env.java)
    requires ManagerCheckAssets(env.cwd, env.fs, env.answer, env.copyOk, win).path.Some?
    requires SelfUpdateExits(config, env.manifest, env.local, env.filesOk, env.installerOk)
    ensures var o := StartPlan(config, c, env, win);
      var v := SelfUpdateDecision(config, env.manifest, env.local).version;
      && |o.effects| >= 2
      && o.effects[|o.effects| - 2..] == [FetchManagerFiles(v), LaunchInstaller]
      && IntListLessOf(env.local, v)
      && o.config == config && o.core.process == c.process
  {
    SelfUpdateExitsIffEffects(config, env.manifest, env.local, env.filesOk, env.installerOk);
    var e := StartPlan(config, c, env, win).effects;
    var su := SelfUpdateEffects(config, env.manifest, env.local, env.filesOk, env.installerOk);
    assert e == (ManagerCheckAssets(env.cwd, env.fs, env.answer, env.copyOk, win).effects
                 + Kills(KillTargets(env.probe))) + su;
    assert e[|e| - 2..] == su;
  }

  /** When the newer manager's files were fetched but the installer could
      not be written or started, check_self_update's `except Exception`
      catches the error: the fetch follows the kills, the installer is not
      launched, and the sequence goes on to launch the server exactly when
      it Launches. */
  lemma InstallerFailureContinues(config: Config, c: Core, env: StartEnv, win: bool)
    requires ValidStamp(env.now)
    requires JavaOk(env.java)
    requires ManagerCheckAssets(env.cwd, env.fs, env.answer, env.copyOk, win).path.Some?
    requires SelfUpdateDecision(config, env.manifest, env.local).Newer? && env.filesOk && !env.installerOk
    ensures var o := StartPlan(config, c, env, win);
      var n := |ManagerCheckAssets(env.cwd, env.fs, env.answer, env.copyOk, win).effects|
               + |Kills(KillTargets(env.probe))|;
      && n < |o.effects|
      && o.effects[n] == FetchManagerFiles(SelfUpdateDecision(config, env.manifest, env.local).version)
      && (Spawns(o.effects) <==> Launches(config, env))
  {
    var ae := ManagerCheckAssets(env.cwd, env.fs, env.answer, env.copyOk, win).effects;
    var ks := Kills(KillTargets(env.probe));
    var su := SelfUpdateEffects(config, env.manifest, env.local, env.filesOk, env.installerOk);
    var rest := LaunchPlan(config, BeginStep(c), env, AssetsHere(env.cwd, win), win);
    SelfUpdateExitsIffEffects(config, env.manifest, env.local, env.filesOk, env.installerOk);
    ReadyEffects(config, c, env, win);
    IndexAfter(ae + ks, su, rest.effects);
    LaunchIffReady(config, c, env, win);
  }

  /** When backups are on, the world exists and universe/backups can be
      neither found nor created, os.makedirs raises out of backup_world and
      ends the sequence: the effects stop after the update's, nothing is
      archived or launched, and no timer is armed. */
  lemma BackupDirFailureEndsSequence(config: Config, c: Core, env: StartEnv, win: bool)
    requires ValidStamp(env.now)
    requires JavaOk(env.java)
    requires ManagerCheckAssets(env.cwd, env.fs, env.answer, env.copyOk, win).path.Some?
    requires !SelfUpdateExits(config, env.manifest, env.local, env.filesOk, env.installerOk)
    requires BackupsOn(config) && env.worldExists && !env.backupDirOk
    ensures var o := StartPlan(config, c, env, win);
      && o.effects == (ManagerCheckAssets(env.cwd, env.fs, env.answer, env.copyOk, win).effects
                       + Kills(KillTargets(env.probe))
                       + SelfUpdateEffects(config, env.manifest, env.local, env.filesOk, env.installerOk))
                      + UpdateStep(config, env.update, win).effects
      && o.core == c.(stopRequested := false)
      && !Spawns(o.effects)
  {
    var upd := UpdateStep(config, env.update, win);
    UpdateStepKeepsSettings(config, env.update, win);
    SameSettingsSameLaunch(upd.config, config);
    ReadyEffects(config, c, env, win);
    LaunchIffReady(config, c, env, win);
    var bk := BackupPlan(upd.config, env.now, env.worldExists, env.backupDirOk, env.archiveOk, env.backups);
    assert bk == [];
    assert upd.effects + bk == upd.effects;
  }

  /** With enable_discord on and a discord_webhook that is not a string,
      the "starting" notification raises after the backup: the effects end
      with the backup's, and nothing is launched or armed. */
  lemma StartWebhookEndsSequence(config: Config, c: Core, env: StartEnv, win: bool)
    requires ValidStamp(env.now)
    requires JavaOk(env.java)
    requires ManagerCheckAssets(env.cwd, env.fs, env.answer, env.copyOk, win).path.Some?
    requires !SelfUpdateExits(config, env.manifest, env.local, env.filesOk, env.installerOk)
    requires WebhookRaises(config)
    ensures var o := StartPlan(config, c, env, win);
      var upd := UpdateStep(config, env.update, win);
      && o.effects == (ManagerCheckAssets(env.cwd, env.fs, env.answer, env.copyOk, win).effects
                       + Kills(KillTargets(env.probe))
                       + SelfUpdateEffects(config, env.manifest, env.local, env.filesOk, env.installerOk))
                      + (upd.effects
                         + BackupPlan(upd.config, env.now, env.worldExists, env.backupDirOk, env.archiveOk, env.backups))
      && o.core == c.(stopRequested := false)
      && !Spawns(o.effects)
  {
    var upd := UpdateStep(config, env.update, win);
    UpdateStepKeepsSettings(config, env.update, win);
    SameSettingsSameLaunch(upd.config, config);
    ReadyEffects(config, c, env, win);
    LaunchIffReady(config, c, env, win);
    LaunchPlanParts(config, BeginStep(c), env, AssetsHere(env.cwd, win), win);
  }

  /** The first element of the middle part sits right after the first part. */
  lemma IndexAfter<T>(a: seq<T>, b: seq<T>, c: seq<T>)
    requires b != []
    ensures |a| < |(a + b) + c| && ((a + b) + c)[|a|] == b[0]
  {
  }

  /** Nothing is launched when a manager update ends the sequence. */
  lemma SelfUpdateLaunchesNothing(config: Config, c: Core, env: StartEnv, win: bool)
    requires ValidStamp(env.now)
    requires JavaOk(env.java)
    requires ManagerCheckAssets(env.cwd, env.fs, env.answer, env.copyOk, win).path.Some?
    requires SelfUpdateExits(config, env.manifest, env.local, env.filesOk, env.installerOk)
    ensures !Spawns(StartPlan(config, c, env, win).effects)
  {
    var ae := ManagerCheckAssets(env.cwd, env.fs, env.answer, env.copyOk, win).effects;
    var ks := Kills(KillTargets(env.probe));
    var su := SelfUpdateEffects(config, env.manifest, env.local, env.filesOk, env.installerOk);
    assert StartPlan(config, c, env, win).effects == (ae + ks) + su;
    SelfUpdateStartsNothing(config, env.manifest, env.local, env.filesOk, env.installerOk);
    PreludeStartsNothing(env, win);
    NoSpawnJoin(ae + ks, su);
  }

  /** The assets check and the kills start no server. */
  lemma PreludeStartsNothing(env: StartEnv, win: bool)
    ensures !Spawns(ManagerCheckAssets(env.cwd, env.fs, env.answer, env.copyOk, win).effects
                    + Kills(KillTargets(env.probe)))
  {
    var ae := ManagerCheckAssets(env.cwd, env.fs, env.answer, env.copyOk, win).effects;
    var ks := Kills(KillTargets(env.probe));
    ManagerAssetsFound(env.cwd, env.fs, env.answer, env.copyOk, win);
    forall a: Action | a in ae + ks ensures !a.Spawn? {
      if a in ks {
        var j :| 0 <= j < |ks| && ks[j] == a;
      }
    }
  }

  /** Neither part starts a server, nor does their concatenation. */
  lemma NoSpawnJoin(a: seq<Action>, b: seq<Action>)
    requires !Spawns(a)
    requires !Spawns(b)
    ensures !Spawns(a + b)
  {
  }

  /** The self-update check starts no server, whatever it fetched. */
  lemma SelfUpdateStartsNothing(config: Config, manifest: Option<string>, local: string, filesOk: bool,
                                installerOk: bool)
    ensures !Spawns(SelfUpdateEffects(config, manifest, local, filesOk, installerOk))
  {
  }

  /** A server is started exactly when the sequence is Ready. */
  lemma LaunchIffReady(config: Config, c: Core, env: StartEnv, win: bool)
    requires ValidStamp(env.now)
    ensures Spawns(StartPlan(config, c, env, win).effects) <==> Ready(config, env, win)
  {
    if !JavaOk(env.java) {
    } else if ManagerCheckAssets(env.cwd, env.fs, env.answer, env.copyOk, win).path.None? {
      StartWithoutAssets(config, c, env, win);
    } else if SelfUpdateExits(config, env.manifest, env.local, env.filesOk, env.installerOk) {
      SelfUpdateLaunchesNothing(config, c, env, win);
    } else {
      ReadyPath(config, c, env, win);
    }
  }

  /** When Java passed, the assets were found and no manager update ended
      the sequence, the server is launched exactly when it Launches, with
      the memory setting of the configuration the sequence began with (the
      update records only the version) and the assets in the server
      directory; every kill comes before it, and it is the last effect
      unless a restart timer is armed after it. */
  lemma ReadyPath(config: Config, c: Core, env: StartEnv, win: bool)
    requires ValidStamp(env.now)
    requires JavaOk(env.java)
    requires ManagerCheckAssets(env.cwd, env.fs, env.answer, env.copyOk, win).path.Some?
    requires !SelfUpdateExits(config, env.manifest, env.local, env.filesOk, env.installerOk)
    ensures var o := StartPlan(config, c, env, win);
      var memory := ManagerMemory(config);
      var spawn := Spawn(LaunchCommand(memory, env.aotExists, AssetsHere(env.cwd, win)), Some("-Xmx" + memory));
      var ae := ManagerCheckAssets(env.cwd, env.fs, env.answer, env.copyOk, win).effects;
      var ks := Kills(KillTargets(env.probe));
      && (Spawns(o.effects) <==> Launches(config, env))
      && OccursAt(o.effects, |ae|, ks)
      && (Launches(config, env) ==>
            && spawn in o.effects
            && o.effects[|o.effects| - 1] ==
                 (if Scheduled(config) && env.intervalOk then ArmTimer(PyStr(IntervalSetting(config))) else spawn))
  {
    ReadyKills(config, c, env, win);
    ReadySpawn(config, c, env, win);
  }

  /** The launch that a Ready sequence ends with, and the effect it ends
      with: the launch itself, or the restart timer armed after it. */
  function ReadySpawnAction(config: Config, env: StartEnv, win: bool): Action {
    var memory := ManagerMemory(config);
    Spawn(LaunchCommand(memory, env.aotExists, AssetsHere(env.cwd, win)), Some("-Xmx" + memory))
  }

  function ReadyLastAction(config: Config, env: StartEnv, win: bool): Action {
    if Scheduled(config) && env.intervalOk then ArmTimer(PyStr(IntervalSetting(config)))
    else ReadySpawnAction(config, env, win)
  }

  /** `e` starts a server exactly when `ok`; when it does, `spawn` is one of
      its effects and `last` is its last one. */
  predicate LaunchShape(e: seq<Action>, ok: bool, spawn: Action, last: Action) {
    && (Spawns(e) <==> ok)
    && (ok ==> spawn in e && e[|e| - 1] == last)
  }

  /** Past the self-update check the sequence has the launch shape of its
      LaunchPlan: nothing before it starts a server. */
  lemma ReadySpawn(config: Config, c: Core, env: StartEnv, win: bool)
    requires ValidStamp(env.now)
    requires JavaOk(env.java)
    requires ManagerCheckAssets(env.cwd, env.fs, env.answer, env.copyOk, win).path.Some?
    requires !SelfUpdateExits(config, env.manifest, env.local, env.filesOk, env.installerOk)
    ensures LaunchShape(StartPlan(config, c, env, win).effects, Launches(config, env),
                        ReadySpawnAction(config, env, win), ReadyLastAction(config, env, win))
  {
    var ae := ManagerCheckAssets(env.cwd, env.fs, env.answer, env.copyOk, win).effects;
    var ks := Kills(KillTargets(env.probe));
    var su := SelfUpdateEffects(config, env.manifest, env.local, env.filesOk, env.installerOk);
    var rest := LaunchPlan(config, BeginStep(c), env, AssetsHere(env.cwd, win), win);
    ReadyEffects(config, c, env, win);
    PreludeStartsNothing(env, win);
    SelfUpdateStartsNothing(config, env.manifest, env.local, env.filesOk, env.installerOk);
    NoSpawnJoin(ae + ks, su);
    LaunchPlanShape(config, BeginStep(c), env, win);
    NoSpawnPrefix((ae + ks) + su, rest.effects, Launches(config, env),
                  ReadySpawnAction(config, env, win), ReadyLastAction(config, env, win));
  }

  /** LaunchPlan with the assets in the server directory launches with the
      memory and schedule of the configuration it was given, since the
      update changes only the recorded server version. */
  lemma LaunchPlanShape(config: Config, c: Core, env: StartEnv, win: bool)
    requires ValidStamp(env.now)
    ensures LaunchShape(LaunchPlan(config, c, env, AssetsHere(env.cwd, win), win).effects, Launches(config, env),
                        ReadySpawnAction(config, env, win), ReadyLastAction(config, env, win))
  {
    var upd := UpdateStep(config, env.update, win);
    var bk := BackupPlan(upd.config, env.now, env.worldExists, env.backupDirOk, env.archiveOk, env.backups);
    var tail := if BackupRaises(upd.config, env.worldExists, env.backupDirOk) then []
                else SpawnPlan(upd.config, c, env, AssetsHere(env.cwd, win)).effects;
    LaunchPlanParts(config, c, env, AssetsHere(env.cwd, win), win);
    UpdateStepKeepsSettings(config, env.update, win);
    SameSettingsSameLaunch(upd.config, config);
    BackupStartsNothing(upd.config, env.now, env.worldExists, env.backupDirOk, env.archiveOk, env.backups);
    NoSpawnJoin(upd.effects, bk);
    SpawnPlanShape(upd.config, c, env, AssetsHere(env.cwd, win));
    assert LaunchShape(tail, Launches(config, env),
                       ReadySpawnAction(config, env, win), ReadyLastAction(config, env, win));
    NoSpawnPrefix(upd.effects + bk, tail, Launches(config, env),
                  ReadySpawnAction(config, env, win), ReadyLastAction(config, env, win));
  }

  /** Past the self-update check the sequence is the assets copy, the kills
      and the self-update effects, followed by LaunchPlan (whose parts
      LaunchPlanParts gives) with the assets in the server directory. */
  lemma ReadyEffects(config: Config, c: Core, env: StartEnv, win: bool)
    requires ValidStamp(env.now)
    requires JavaOk(env.java)
    requires ManagerCheckAssets(env.cwd, env.fs, env.answer, env.copyOk, win).path.Some?
    requires !SelfUpdateExits(config, env.manifest, env.local, env.filesOk, env.installerOk)
    ensures var rest := LaunchPlan(config, BeginStep(c), env, AssetsHere(env.cwd, win), win);
      StartPlan(config, c, env, win).effects ==
        (ManagerCheckAssets(env.cwd, env.fs, env.answer, env.copyOk, win).effects + Kills(KillTargets(env.probe))
         + SelfUpdateEffects(config, env.manifest, env.local, env.filesOk, env.installerOk)) + rest.effects
  {
    ManagerAssetsFound(env.cwd, env.fs, env.answer, env.copyOk, win);
  }

  /** Past the self-update check the kills sit right after the assets copy. */
  lemma ReadyKills(config: Config, c: Core, env: StartEnv, win: bool)
    requires ValidStamp(env.now)
    requires JavaOk(env.java)
    requires ManagerCheckAssets(env.cwd, env.fs, env.answer, env.copyOk, win).path.Some?
    requires !SelfUpdateExits(config, env.manifest, env.local, env.filesOk, env.installerOk)
    ensures OccursAt(StartPlan(config, c, env, win).effects,
                     |ManagerCheckAssets(env.cwd, env.fs, env.answer, env.copyOk, win).effects|,
                     Kills(KillTargets(env.probe)))
  {
    ReadyEffects(config, c, env, win);
    SliceMiddle(StartPlan(config, c, env, win).effects,
                ManagerCheckAssets(env.cwd, env.fs, env.answer, env.copyOk, win).effects,
                Kills(KillTargets(env.probe)),
                SelfUpdateEffects(config, env.manifest, env.local, env.filesOk, env.installerOk),
                LaunchPlan(config, BeginStep(c), env, AssetsHere(env.cwd, win), win).effects);
  }

  /** LaunchPlan's effects are the update's, the backup's and, unless the
      backup raised, the launch step's, in that order. */
  lemma LaunchPlanParts(config: Config, c: Core, env: StartEnv, assets: string, win: bool)
    requires ValidStamp(env.now)
    ensures var upd := UpdateStep(config, env.update, win);
      LaunchPlan(config, c, env, assets, win).effects ==
        (upd.effects + BackupPlan(upd.config, env.now, env.worldExists, env.backupDirOk, env.archiveOk, env.backups))
        + (if BackupRaises(upd.config, env.worldExists, env.backupDirOk) then []
           else SpawnPlan(upd.config, c, env, assets).effects)
  {
    var upd := UpdateStep(config, env.update, win);
    var prepared := upd.effects
      + BackupPlan(upd.config, env.now, env.worldExists, env.backupDirOk, env.archiveOk, env.backups);
    assert prepared + [] == prepared;
  }

  /** The second of four appended parts is found right after the first. */
  lemma SliceMiddle(e: seq<Action>, a: seq<Action>, b: seq<Action>, c: seq<Action>, d: seq<Action>)
    requires e == ((a + b) + c) + d
    ensures OccursAt(e, |a|, b)
  {
    assert e == a + (b + (c + d));
  }

  /** The launch step starts a server exactly when the notification does
      not raise and Popen succeeds; the start is its last effect unless a
      timer is armed after it. */
  lemma SpawnPlanShape(cfg: Config, c: Core, env: StartEnv, assets: string)
    ensures var t := SpawnPlan(cfg, c, env, assets).effects;
      var memory := ManagerMemory(cfg);
      var spawn := Spawn(LaunchCommand(memory, env.aotExists, assets), Some("-Xmx" + memory));
      var ok := !WebhookRaises(cfg) && env.spawnOk;
      && (Spawns(t) <==> ok)
      && (ok ==>
            && spawn in t
            && t[|t| - 1] == (if Scheduled(cfg) && env.intervalOk then ArmTimer(PyStr(IntervalSetting(cfg))) else spawn))
  {
    var t := SpawnPlan(cfg, c, env, assets).effects;
    if !WebhookRaises(cfg) && env.spawnOk {
      assert t[0] in t;
    }
  }

  /** Effects that start no server, put before a launch, keep its shape. */
  lemma NoSpawnPrefix(a: seq<Action>, d: seq<Action>, ok: bool, spawn: Action, last: Action)
    requires !Spawns(a)
    requires LaunchShape(d, ok, spawn, last)
    ensures LaunchShape(a + d, ok, spawn, last)
  {
    var e := a + d;
    if Spawns(e) {
      var x :| x in e && x.Spawn?;
      assert x in d;
    }
    if ok {
      assert spawn in e;
      assert e[|e| - 1] == d[|d| - 1];
    }
  }

  /** Appending in two steps is appending once. */
  lemma Regroup<T>(a: seq<T>, b: seq<T>, c: seq<T>)
    ensures a + b + c == a + (b + c)
  {
  }

  /** The effects and the exit of check_self_update in terms of its decision. */
  lemma SelfUpdateEffectsOf(config: Config, manifest: Option<string>, local: string, filesOk: bool,
                            installerOk: bool)
    ensures var d := SelfUpdateDecision(config, manifest, local);
      && SelfUpdateEffects(config, manifest, local, filesOk, installerOk)
         == (if d.Newer? && filesOk then [FetchManagerFiles(d.version)] + (if installerOk then [LaunchInstaller] else []) else [])
      && (SelfUpdateExits(config, manifest, local, filesOk, installerOk) <==> d.Newer? && filesOk && installerOk)
  {
  }

  /** check_self_update: scan the published version file, then fetch the new
      files and hand over to the installer when the version is newer. */
  method SelfUpdateStep(config: Config, manifest: Option<string>, local: string, filesOk: bool,
                        installerOk: bool)
    returns (effects: seq<Action>, exited: bool)
    ensures effects == SelfUpdateEffects(config, manifest, local, filesOk, installerOk)
    ensures exited == SelfUpdateExits(config, manifest, local, filesOk, installerOk)
  {
    var decision: SelfUpdateCheck;
    if !Truthy(Get(config, "manager_auto_update", VBool(true))) {
      decision := Disabled;
    } else if manifest.None? {
      decision := CheckFailed;
    } else {
      var scan := ScanManifest(manifest.value);
      decision := match scan
        case MalformedLine => CheckFailed
        case NoVersionLine => NotParsed
        case Declared(v) => if v == "" then NotParsed else CompareVersions(v, local);
    }
    assert decision == SelfUpdateDecision(config, manifest, local);
    SelfUpdateEffectsOf(config, manifest, local, filesOk, installerOk);
    effects := [];
    exited := false;
    if decision.Newer? && filesOk {
      effects := [FetchManagerFiles(decision.version)];
      if installerOk {
        effects := effects + [LaunchInstaller];
        exited := true;
      }
    }
  }

  class UpdaterCore {
    var config: Config
    var process: Option<Proc>
    var stopRequested: bool
    var timers: seq<Timer>
    /** Every effect on the host so far, in order. */
    var actions: seq<Action>

    /** The lifecycle flags as a value. */
    function State(): Core
      reads this
    {
      Core(process, stopRequested, timers)
    }

    /** __init__: the configuration handed in when it is truthy (a non-empty
        dict), else load_config() of the file (None when it is missing or
        unreadable); no process, no stop requested, no timer. */
    constructor (given: Option<Config>, file: Option<Config>)
      ensures config == if given.Some? && given.value != map[] then given.value else LoadConfig(file)
      ensures State() == Core(None, false, []) && actions == []
    {
      config := if given.Some? && given.value != map[] then given.value else LoadConfig(file);
      process := None;
      stopRequested := false;
      timers := [];
      actions := [];
    }

    /** send_command. */
    method SendCommand(command: string, writeOk: bool)
      modifies this
      ensures State() == old(State()) && config == old(config)
      ensures actions == old(actions) + SendStep(old(State()), command, writeOk).effects
    {
      if process == Some(Running) {
        if writeOk {
          actions := actions + [WriteStdin(command + "\n")];
        }
      }
    }

    /** stop_server. */
    method StopServer(writeOk: bool)
      modifies this
      ensures State() == StopStep(old(State()), writeOk).core && config == old(config)
      ensures actions == old(actions) + StopStep(old(State()), writeOk).effects
    {
      ghost var step := StopStep(State(), writeOk);
      var newTimers := timers;
      var effects: seq<Action> := [];
      if timers != [] {
        newTimers := CancelLast(timers);
        effects := [CancelTimer];
      }
      if process.Some? {
        effects := effects + [if writeOk then WriteStdin("stop\n") else KillProcess];
      }
      assert effects == step.effects && newTimers == step.core.timers;
      stopRequested := true;
      timers := newTimers;
      actions := actions + effects;
    }

    /** The server process ends with code rc (poll() starts answering rc). */
    method ServerExits(rc: int)
      modifies this
      ensures State() == DieStep(old(State()), rc) && config == old(config) && actions == old(actions)
    {
      if process == Some(Running) {
        process := Some(Exited(rc));
      }
    }

    /** The end of _monitor_loop. */
    method MonitorExit()
      modifies this
      ensures State() == MonitorStep(old(State()), config).core && config == old(config)
      ensures actions == old(actions) + MonitorStep(old(State()), config).effects
    {
      if process.Some? && process.value.Exited? {
        var rc := process.value.rc;
        process := None;
        var raised := SendDiscordWebhook();
        if !raised && rc != 0 && !stopRequested && Truthy(Get(config, "enable_auto_restart", VBool(true))) {
          actions := actions + [RestartSequence];
        }
      }
    }

    /** _schedule_restart; `intervalOk` says whether float(restart_interval)
        succeeds (when it raises, no timer is armed). */
    method ScheduleRestart(intervalOk: bool)
      modifies this
      ensures config == old(config)
      ensures intervalOk ==>
        && State() == ArmStep(old(State()), PyStr(IntervalSetting(config))).core
        && actions == old(actions) + ArmStep(old(State()), PyStr(IntervalSetting(config))).effects
      ensures !intervalOk ==> State() == old(State()) && actions == old(actions)
    {
      if intervalOk {
        var hours := PyStr(Get(config, "restart_interval", VInt(12)));
        timers := timers + [Armed];
        actions := actions + [ArmTimer(hours)];
      }
    }

    /** restart_task of timer i firing. */
    method RestartTask(i: int, writeOk: bool)
      modifies this
      ensures State() == FireStep(old(State()), i, writeOk, config).core && config == old(config)
      ensures actions == old(actions) + FireStep(old(State()), i, writeOk, config).effects
    {
      if 0 <= i < |timers| && timers[i] == Armed {
        timers := timers[i := Fired];
        var raised := SendDiscordWebhook();
        if raised {
          return;
        }
        StopServer(writeOk);
        actions := actions + [RestartSequence];
      }
    }

    /** send_discord_webhook: whether it raises before reaching its try
        (the post itself is not modelled, and changes no state here). */
    method SendDiscordWebhook() returns (raised: bool)
      ensures raised <==> WebhookRaises(config)
      ensures raised ==> Truthy(Get(config, "enable_discord", VBool(false)))
    {
      if !Truthy(Get(config, "enable_discord", VBool(false))) {
        return false;
      }
      var url := Get(config, "discord_webhook", VStr(""));
      raised := !url.VStr?;
    }

    /** stop_existing_server_process: one kill per pid found, in order. */
    method StopExistingServerProcess(probe: Probe)
      modifies this
      ensures State() == old(State()) && config == old(config)
      ensures actions == old(actions) + Kills(KillTargets(probe))
    {
      var effects := KillEach(KillTargets(probe));
      actions := actions + effects;
    }

    /** check_self_update; `exited` says whether the installer was launched
        and the sequence ends. */
    method CheckSelfUpdate(manifest: Option<string>, local: string, filesOk: bool, installerOk: bool)
      returns (exited: bool)
      modifies this
      ensures State() == old(State()) && config == old(config)
      ensures actions == old(actions) + SelfUpdateEffects(config, manifest, local, filesOk, installerOk)
      ensures exited == SelfUpdateExits(config, manifest, local, filesOk, installerOk)
    {
      var effects;
      effects, exited := SelfUpdateStep(config, manifest, local, filesOk, installerOk);
      actions := actions + effects;
    }

    /** update_server: discovery, resolution of the command, the version
        check and the staged download, as UpdatePlan describes. */
    method UpdateServer(u: UpdateHost, win: bool)
      modifies this
      ensures State() == old(State())
      ensures config == UpdatePlan(old(config), u, win).config
      ensures actions == old(actions) + UpdatePlan(old(config), u, win).effects
    {
      var cfg := config;
      var d := EnsureUpdater(u.discovery, win);
      var effects := if d.downloaded then [FetchUpdaterArchive] else [];
      if d.cmd.Some? {
        var cmd := ResolveCommandPath(d.cmd.value, u.fs, u.cwd, win);
        effects := effects + [QueryVersion(cmd + ["-print-version"])];
        var remote := RemoteServerVersion(u.query);
        if !UpToDate(remote, cfg) {
          effects := effects + StagedEffects(cmd, remote, u.run, u.leftovers);
          cfg := RecordedConfig(cfg, remote, u.run);
        }
      }
      assert UpdateResult(effects, cfg) == UpdatePlan(old(config), u, win);
      actions := actions + effects;
      config := cfg;
    }

    /** backup_world: the archive, then one deletion per name the retention
        rule selects, in sorted order; `raised` says whether creating the
        backup directory failed and the exception left backup_world. */
    method BackupWorld(now: Stamp, worldExists: bool, dirOk: bool, archiveOk: bool, listing: seq<string>)
      returns (raised: bool)
      requires ValidStamp(now)
      modifies this
      ensures State() == old(State()) && config == old(config)
      ensures actions == old(actions) + BackupPlan(config, now, worldExists, dirOk, archiveOk, listing)
      ensures raised == BackupRaises(config, worldExists, dirOk)
    {
      var cfg := config;
      var effects := [];
      raised := false;
      if !Truthy(Get(cfg, "enable_backups", VBool(true))) || !worldExists {
      } else if !dirOk {
        raised := true;
      } else {
        effects := [CreateArchive(BackupFile(now))];
        var maxB := PyInt(Get(cfg, "max_backups", VInt(3)));
        if archiveOk && maxB.Some? {
          var deletions := RemoveEach(BackupsToDelete(listing, maxB.value));
          effects := effects + deletions;
        }
      }
      assert effects == BackupPlan(cfg, now, worldExists, dirOk, archiveOk, listing);
      actions := actions + effects;
    }

    /** _start_server_thread, step by step. */
    method StartServerSequence(env: StartEnv, win: bool)
      requires ValidStamp(env.now)
      modifies this
      ensures State() == StartPlan(old(config), old(State()), env, win).core
      ensures config == StartPlan(old(config), old(State()), env, win).config
      ensures actions == old(actions) + StartPlan(old(config), old(State()), env, win).effects
    {
      ghost var a0 := actions;
      ghost var c0 := BeginStep(State());
      stopRequested := false;
      assert State() == c0;
      if !JavaOk(env.java) {
        return;
      }
      var assets := ManagerCheckAssets(env.cwd, env.fs, env.answer, env.copyOk, win);
      actions := actions + assets.effects;
      if assets.path.None? {
        return;
      }
      ghost var kills := Kills(KillTargets(env.probe));
      StopExistingServerProcess(env.probe);
      Regroup(a0, assets.effects, kills);
      ghost var pre := assets.effects + kills;
      assert actions == a0 + pre && State() == c0;
      ghost var su := SelfUpdateEffects(config, env.manifest, env.local, env.filesOk, env.installerOk);
      var exited := CheckSelfUpdate(env.manifest, env.local, env.filesOk, env.installerOk);
      Regroup(a0, pre, su);
      if exited {
        return;
      }
      assert actions == a0 + (pre + su);
      ghost var rest := LaunchPlan(config, c0, env, assets.path.value, win);
      UpdateBackupLaunch(env, assets.path.value, win);
      Regroup(a0, pre + su, rest.effects);
    }

    /** The second half of the sequence: the update when check_updates is on,
        the backup, then SpawnServer. */
    method UpdateBackupLaunch(env: StartEnv, assets: string, win: bool)
      requires ValidStamp(env.now)
      modifies this
      ensures State() == LaunchPlan(old(config), old(State()), env, assets, win).core
      ensures config == LaunchPlan(old(config), old(State()), env, assets, win).config
      ensures actions == old(actions) + LaunchPlan(old(config), old(State()), env, assets, win).effects
    {
      ghost var a0 := actions;
      ghost var upd := UpdateStep(config, env.update, win);
      CheckForUpdates(env.update, win);
      ghost var a1 := actions;
      ghost var bk := BackupPlan(config, env.now, env.worldExists, env.backupDirOk, env.archiveOk, env.backups);
      var raised := BackupWorld(env.now, env.worldExists, env.backupDirOk, env.archiveOk, env.backups);
      Regroup(a0, upd.effects, bk);
      if raised {
        return;
      }
      ghost var tail := SpawnPlan(config, State(), env, assets);
      SpawnServer(env, assets);
      Regroup(a0, upd.effects + bk, tail.effects);
    }

    /** update_server when check_updates is on. */
    method CheckForUpdates(u: UpdateHost, win: bool)
      modifies this
      ensures State() == old(State())
      ensures config == UpdateStep(old(config), u, win).config
      ensures actions == old(actions) + UpdateStep(old(config), u, win).effects
    {
      if Truthy(Get(config, "check_updates", VBool(true))) {
        UpdateServer(u, win);
      }
    }

    /** The "starting" notification, Popen of the launch command, then
        _schedule_restart when enable_schedule is on. */
    method SpawnServer(env: StartEnv, assets: string)
      modifies this
      ensures State() == SpawnPlan(old(config), old(State()), env, assets).core
      ensures config == old(config)
      ensures actions == old(actions) + SpawnPlan(old(config), old(State()), env, assets).effects
    {
      var raised := SendDiscordWebhook();
      if raised {
        return;
      }
      var memory := ManagerMemory(config);
      var cmd := BuildLaunchCommand(memory, env.aotExists, assets);
      if !env.spawnOk {
        return;
      }
      ghost var a0 := actions;
      process := Some(Running);
      actions := actions + [Spawn(cmd, Some("-Xmx" + memory))];
      if Truthy(Get(config, "enable_schedule", VBool(false))) {
        ghost var a1 := actions;
        ScheduleRestart(env.intervalOk);
        Regroup(a0, [Spawn(cmd, Some("-Xmx" + memory))], actions[|a1|..]);
      }
    }
  }
}
