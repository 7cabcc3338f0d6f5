# Hytale Server Updater — a verified model of its decision logic

Hytale Server Updater is two Python programs that keep a Hytale dedicated
server up to date and running:

- `hytale_server_manager.py`, whose `HytaleUpdaterCore` object runs the start
  sequence (Java check, assets check, kill of stale servers, self-update of
  the manager, server update through the Hytale downloader, world backup,
  launch, optional scheduled restart), and handles `send_command`,
  `stop_server` and the exit of the server process;
- `hytale_updater.py`, a one-shot script that checks Java and the assets,
  stops a running server, runs the downloader and launches the server.

This Dafny project models the decision logic inside that plumbing. The host
is abstracted:

- the file system is a set of existing path names;
- every external result is a parameter of the operation that consumes it:
  the `java -version` output, the input callback's answer, the
  `wmic`/`pgrep` output, the downloader's exit code and stdout, the HEAD
  answer, the directory listings, the local time, whether a copy or a
  spawn succeeds;
- every effect on the host is an `Action` value, appended in order to a
  trace (the `actions` field of the class, or a returned sequence).

## Modules

| file | module | models |
|---|---|---|
| pytext.dfy | PyText | `str` operations the code relies on: `isspace`, `strip`, `strip('"')`, `split('.')`, `split()`, `splitlines()`, `isdigit`, `int()`, `str()`, `in` |
| pyorder.dfy | PyOrder | `<` on strings and on lists of ints, `sorted()` of strings, the slice `s[:stop]` |
| paths.dfy | Paths | `os.path.basename`, `join`, `isabs`, `abspath` on names in the working directory |
| settings.dfy | Settings | the JSON configuration: `load_config`, `dict.get`, truthiness, `int()`, `str()` of a setting |
| host.dfy | Host | file-name constants, the `Action` trace, the `if os.path.exists(x)` filter |
| discovery.dfy | Discovery | `ensure_updater` in both programs, the cache freshness rule, `resolve_command_path` |
| versions.dfy | Versions | `get_remote_server_version`, `update_server` of the manager, `parse_ver` and the decision in `check_self_update` |
| retention.dfy | Retention | `backup_world`: the archive name and the retention rule |
| processes.dfy | Processes | the running-server scan: `wmic` and `pgrep` output to pids, `stop_server` of the script |
| launch.dfy | Launch | `check_java_version`, `check_assets` in both programs, the java command line, `start_server` of the script |
| lifecycle.dfy | Lifecycle | the lifecycle flags of `HytaleUpdaterCore` (`server_process`, `stop_requested`, the restart timers) as a state machine |
| manager_core.dfy | ManagerCore | the class `UpdaterCore` (= `HytaleUpdaterCore`), whose methods update its fields in place, and the plan of `_start_server_thread` |
| updater_script.dfy | UpdaterScript | `main` of the script |

## Model

| member | source | states |
|---|---|---|
| Settings.LoadConfig | hytale_server_manager.py:32-58 | every default key is present; without a readable file the defaults; with one, its keys plus the defaults, each key taking the file's value when the file has it and the default otherwise (right-biased union, unknown keys kept) |
| Settings.SaveLoadRoundTrip | hytale_server_manager.py:32-66 | a configuration that holds every default key loads back unchanged |
| Settings.LoadedValueWins | hytale_server_manager.py:51-55 | a key read from the file is never replaced by its default, whatever default `get` is given |
| PyText.StripEmpty | hytale_server_manager.py:236 | `strip()` is empty exactly when every character is whitespace |
| PyText.StripSpec | hytale_server_manager.py:236 | `strip()` is a slice of the text with only whitespace before and after it |
| PyText.StripCharSpec | hytale_updater.py:61 | `strip('"')` keeps a middle slice that neither starts nor ends with a quote and removes only quotes |
| PyText.SplitJoin | hytale_server_manager.py:268 | joining the pieces of `split('.')` with '.' gives the text back |
| PyText.JoinSplit | hytale_server_manager.py:268 | splitting a join of dot-free pieces gives the pieces back |
| PyText.SplitOn | hytale_server_manager.py:268 | `split(sep)` yields at least one piece and no piece holds the separator |
| PyText.WordsAreWords | hytale_server_manager.py:215 | every word of `split()` is non-empty and free of whitespace; text starting with a non-space starts its first word |
| PyText.SplitLines | hytale_server_manager.py:213 | `splitlines()` is empty exactly for empty text, its first line ends at the first line boundary, and no line holds a boundary |
| PyText.IntToStrRoundTrip | hytale_server_manager.py:468 | `int(str(i)) == i` |
| PyOrder.SortStringsCorrect | hytale_server_manager.py:469 | `sorted()` returns an ordered permutation of its input |
| PyOrder.SortedUnique | hytale_server_manager.py:469 | two ordered permutations of one list are equal, so the insertion sort yields what `sorted()` yields |
| PyOrder.StrLessTotal | hytale_server_manager.py:469 | string `<` is total |
| PyOrder.StrLessTransitive | hytale_server_manager.py:469 | string `<` is transitive |
| PyOrder.IntListLessComponentwise | hytale_server_manager.py:270 | list `<` holds exactly when, after a common prefix, the left list ends first or has the smaller element |
| PyOrder.IntListLessAsymmetric | hytale_server_manager.py:270 | list `<` is asymmetric |
| PyOrder.SliceTo | hytale_server_manager.py:471 | `s[:stop]` is a prefix of `s`; a non-negative stop keeps `stop` elements (all when fewer), a negative stop drops the last `-stop` (all when fewer) |
| Paths.Basename | hytale_server_manager.py:123 | `basename` is the separator-free suffix after the last separator |
| Paths.BasenameOfJoin | hytale_server_manager.py:111 | the basename of `join(dir, name)` is `name` |
| Paths.AbsPathIsAbs | hytale_server_manager.py:197 | `abspath` under an absolute working directory is absolute |
| Host.Present | hytale_server_manager.py:379-381 | exactly the existing entries of a list, each as often as in the list; the first is kept when it exists |
| Host.PresentCounts | hytale_server_manager.py:379-381 | exactly the existing entries are kept, each as often as it occurs in the list |
| Host.PresentInOrder | hytale_server_manager.py:379-381 | the existing entries keep the list's order: they sit at strictly increasing positions of the list |
| Discovery.FirstGuess | hytale_server_manager.py:178-184 | the guess is None exactly when no listed name yields one, else the guess of the first name that does |
| Discovery.ScanListing | hytale_server_manager.py:178-184 | the `for f in os.listdir('.')` loop with early returns yields the first guess |
| Discovery.ZipIsNeverGuessed | hytale_server_manager.py:178-184 | the archive name itself is never taken for the tool |
| Discovery.HeadErrorsForceDownload | hytale_server_manager.py:145-159 | a failed HEAD, a missing or malformed Content-Length, or a zero length never keeps the cached archive |
| Discovery.ManagerDiscoveryOrder | hytale_server_manager.py:134-190 | executable, then jar, then archive; the archive is fetched exactly when neither file exists and the cache is not fresh; a failed download yields no command; after extraction, the executable in the listing, else the first name the guess accepts, and nothing when extraction fails; every command is one of the three kinds |
| Discovery.EnsureUpdater | hytale_server_manager.py:134-190 | the method with its early returns computes the discovery function |
| Discovery.EnsureUpdaterScript | hytale_updater.py:74-127 | the script's method computes the script's discovery function |
| Discovery.ScriptDiscoveryOrder | hytale_updater.py:74-127 | the executable, then the jar; neither present: nothing when the download or extraction fails, else the executable, then hytale-downloader.jar, then the first name the guess accepts |
| Discovery.ScriptDiscoveryAfterExtraction | hytale_updater.py:99-123 | after extraction the script finds a tool exactly when the listing has the executable, the jar or a name the guess accepts |
| Discovery.ResolvedCommand | hytale_server_manager.py:192-203 | same length; entry 0 made absolute when it starts with "./" or exists; entry 2 made absolute when entry 0 mentions java, entry 1 is "-jar" and entry 2 exists; all other entries unchanged |
| Discovery.ResolveCommandPath | hytale_server_manager.py:192-203 | the in-place overwrite of entries 0 and 2 computes the resolved command |
| Discovery.ResolveKeepsShape | hytale_server_manager.py:192-203 | resolution keeps the executable a one-word absolute command and the jar command a `java -jar` command |
| Versions.RemoteServerVersion | hytale_server_manager.py:231-240 | a version exactly on exit code 0: the downloader's stdout with whitespace removed from both ends and nothing else |
| Versions.JarRoot | hytale_server_manager.py:375-385 | the staging directory is searched before its Server sub-directory, and a root is chosen only when it holds the jar |
| Versions.ApplyCopiesJarFirst | hytale_server_manager.py:385-398 | with a staged jar the first copy is the jar, and every copy is a replacement item present in that root |
| Versions.UpToDateSkipsDownload | hytale_server_manager.py:349-355 | an obtained version equal to the recorded one downloads and records nothing |
| Versions.UnknownVersionFailsOpen | hytale_server_manager.py:356-357 | without an obtained version the downloader runs anyway once the staging directory is set up, and nothing is recorded |
| Versions.SetupFailureRunsNothing | hytale_server_manager.py:361-364 | when rmtree or makedirs of the staging directory raises, the downloader is never started and nothing is recorded |
| Versions.RecordOnlyAfterSuccess | hytale_server_manager.py:373-409 | no key but last_server_version ever changes; it changes only on exit code 0 with an obtained version, to exactly that version, which is also saved |
| Versions.StagedRecord | hytale_server_manager.py:406-409 | the version is saved exactly on exit code 0 with an obtained version |
| Versions.RecordThenSkip | hytale_server_manager.py:349-355 | after a recorded update the same remote version is up to date |
| Versions.RecordsWithoutStagedJar | hytale_server_manager.py:400-409 | on exit code 0 without a staged jar nothing is copied and the version is recorded all the same |
| Versions.AllOfSpec | hytale_server_manager.py:268 | the comprehension succeeds exactly when every `int()` does, and holds the values in order |
| Versions.ParseVerThree | hytale_server_manager.py:268 | `parse_ver` of three digit components is their three values |
| Versions.ComponentwiseNotLexicographic | hytale_server_manager.py:268-270 | "1.10.0" is newer than "1.9.0" although it sorts first as text |
| Versions.ManifestVersionSpec | hytale_server_manager.py:255-259 | no version line at all, or the first line starting with `__version__` decides the version (its second quote-separated piece) |
| Versions.ScanManifest | hytale_server_manager.py:255-259 | the `for line ... break` loop computes the manifest scan |
| Versions.NewerIsStrictlyGreater | hytale_server_manager.py:242-288 | a manager update is offered only for a strictly greater version, never the running or an older one |
| Versions.SameVersionIsCurrent | hytale_server_manager.py:242-288 | the running version published again is reported as current |
| Retention.Candidates | hytale_server_manager.py:469 | exactly the `world_backup_*.zip` names, with their multiplicity |
| Retention.ZeroLimitKeepsEverything | hytale_server_manager.py:470-471 | `max_backups == 0` deletes nothing |
| Retention.UnderLimitKeepsEverything | hytale_server_manager.py:470 | at most `max_backups` backups: nothing is deleted |
| Retention.PositiveLimitDeletesOldest | hytale_server_manager.py:468-473 | a positive limit deletes exactly the surplus, in sorted order, only backups, each sorting no later than every kept backup |
| Retention.NegativeLimitDeletesFromFront | hytale_server_manager.py:470-471 | a negative limit deletes the first `-max_b` sorted backups |
| Retention.NewestSurvives | hytale_server_manager.py:468-473 | with a limit of at least one, the backup sorting after every other is kept |
| Retention.BackupFile | hytale_server_manager.py:461-462 | the archive name is a retention candidate |
| Retention.BackupNamesSortByTime | hytale_server_manager.py:461-469 | backup names sort as their creation times do |
| Retention.BackupNamesDistinct | hytale_server_manager.py:461-462 | backups made at different times get different names |
| Retention.FreshBackupSurvives | hytale_server_manager.py:450-475 | the backup just made is never deleted by its own pruning when `max_backups >= 1` |
| Processes.WmicPidSpec | hytale_server_manager.py:213-218 | a pid comes only from a line naming the server jar, and is all digits |
| Processes.WmicPidsAreNumbers | hytale_server_manager.py:213-219 | every pid handed to taskkill is a number |
| Processes.NoPidsIffNoRow | hytale_updater.py:139-152 | no pid at all exactly when no line yields one |
| Processes.LastWordIsStripped | hytale_server_manager.py:216 | the `strip()` of a `split()` word changes nothing |
| Processes.WmicRowYieldsPid | hytale_server_manager.py:213-218 | a row naming the server jar and ending in digits yields those digits |
| Processes.UnrelatedJavaSurvives | hytale_server_manager.py:213-218 | a listing without the server jar kills nothing |
| Processes.CollectEach | hytale_updater.py:139-149 | the loop collects what each line yields, in order, and `found` says whether any did |
| Processes.ScanWmic | hytale_updater.py:133-152 | the Windows loop of stop_server kills exactly the pids of the listing |
| Processes.PgrepPids | hytale_server_manager.py:222-227 | pids exactly when pgrep exits 0 with non-blank output, and then the lines of the output with whitespace removed from both ends |
| Processes.Kills | hytale_server_manager.py:212-227 | one kill per pid, in order |
| Processes.ScriptWaitsIffKilled | hytale_updater.py:129-175 | the script pauses exactly when it killed something |
| Launch.JavaAccepted | hytale_updater.py:30-48 | output quoting `version "25` or `version "1.25` passes (a prefix match) |
| Launch.UnquotedVersionRejected | hytale_server_manager.py:91-105 | output without a quote never passes |
| Launch.AssetsHereIsNamed | hytale_server_manager.py:110-111 | the assets path handed to the server is always called Assets.zip |
| Launch.ManagerAssetsFound | hytale_server_manager.py:107-132 | the manager finds the assets exactly when they are in the server directory or an acceptable, non-empty answer was copied; the path is the one in the server directory; it copies at most once |
| Launch.ManagerRejectsQuotedPath | hytale_server_manager.py:123 | a path typed inside quotes is rejected by the manager |
| Launch.QuotedReplyNamesPath | hytale_updater.py:61 | the script strips surrounding quotes from a reply |
| Launch.CopyAttemptsBound | hytale_updater.py:62-72 | at most one copy per reply, and only of the assets |
| Launch.ScriptCheckAssets | hytale_updater.py:50-72 | the path in the server directory at once when it exists; otherwise the replies until the first that names an existing Assets.zip and copies, with one copy attempt per acceptable reply; no path when the replies run out |
| Launch.PromptLoop | hytale_updater.py:60-72 | the prompt loop stops after the first settling reply, or reads every reply when none settles |
| Launch.ReadUntil | hytale_updater.py:60-72 | the `while True` loop: the effects of the replies read, in order, stopping after the first that settles |
| Launch.BuildLaunchCommand | hytale_server_manager.py:519-523 | the list built by append and extend is the launch command |
| Launch.LaunchCommandShape | hytale_server_manager.py:519-523 | java, the heap flag, the AOT flag exactly when the cache exists, then `-jar HytaleServer.jar --assets <path>` |
| Launch.MemoryFromLoadedConfig | hytale_server_manager.py:516 | the heap size of a loaded configuration is the file's server_memory, else "8G" |
| Launch.ManagerLaunchAgrees | hytale_server_manager.py:516-523 | the heap flag and `_JAVA_OPTIONS` agree, and the assets path is the last word |
| Launch.ScriptLaunchNeedsJar | hytale_updater.py:217-249 | the script launches exactly when the jar exists, with -Xmx4G and no `_JAVA_OPTIONS` |
| Lifecycle.CancelLast | hytale_server_manager.py:592-593 | `cancel()` disarms only the last timer |
| Lifecycle.SendWritesCommandLine | hytale_server_manager.py:437-448 | send_command writes exactly the command and a newline, only to a running process whose stdin accepts it |
| Lifecycle.StopAlwaysRequests | hytale_server_manager.py:590-603 | stop_server always sets stop_requested and leaves restart_timer unable to fire; with a process it writes exactly "stop\n", or kills when the write fails |
| Lifecycle.MonitorRestartsOnlyOnCrash | hytale_server_manager.py:578-588 | after an exit server_process is cleared, and the sequence restarts exactly on a non-zero code with no stop requested, auto restart on and a "stopped" notification that does not raise |
| Lifecycle.RestartSources | hytale_server_manager.py:498 | while no new sequence starts and no timer fires, a requested stop stays requested and nothing restarts |
| Lifecycle.CancelledStaysCancelled | hytale_server_manager.py:592-593 | a cancelled timer stays cancelled whatever happens afterwards |
| Lifecycle.ArmArmStop | hytale_server_manager.py:590-619 | after two scheduled restarts and a stop, the first new timer is still armed, the newest is cancelled and stop_requested is set |
| Lifecycle.FireRestarts | hytale_server_manager.py:611-616 | a timer that is still armed restarts the sequence when it fires exactly when its notification does not raise; when it raises, the timer is only marked fired and nothing is stopped |
| Lifecycle.OrphanedTimerSurvivesStop | hytale_server_manager.py:605-619 | a restart scheduled twice leaves the first timer armed after a stop, and it still restarts the server unless the notification raises |
| Lifecycle.StopThenStartRace | hytale_server_manager.py:498 | a new sequence started before the old process's exit is seen makes that exit count as a crash, restarting exactly when the notification does not raise |
| Lifecycle.StopIsNotACrash | hytale_server_manager.py:578-588 | otherwise a requested stop is never taken for a crash |
| ManagerCore.SelfUpdateExitsIffEffects | hytale_server_manager.py:270-288 | the sequence ends after the self-update exactly when the installer was launched; any fetch is of a strictly newer version; when writing or starting the installer raises, only the fetch remains and the sequence goes on |
| ManagerCore.RemoveEach | hytale_server_manager.py:471-473 | the deletion loop deletes each selected name, in order |
| ManagerCore.KillEach | hytale_server_manager.py:225-227 | the kill loop kills each pid, in order |
| ManagerCore.UpdateStepKeepsSettings | hytale_server_manager.py:508-509 | the update step changes no setting but last_server_version and starts no server |
| ManagerCore.BackupStartsNothing | hytale_server_manager.py:450-475 | the backup starts no server |
| ManagerCore.SameSettingsSameLaunch | hytale_server_manager.py:508-516 | settings equal outside last_server_version give the same memory, schedule, interval, backup switch and webhook failure |
| ManagerCore.StartState | hytale_server_manager.py:496-550 | a start sequence leaves stop_requested cleared, and a running process exactly when it was Ready (Java, assets, no self-update, neither the backup directory nor the "starting" notification raised, Popen succeeded) |
| ManagerCore.StartPlanCore | hytale_server_manager.py:496-507 | the sequence ends in the cleared state unless it gets past the self-update check, and then in the state of its second half |
| ManagerCore.LaunchPlanCore | hytale_server_manager.py:508-546 | update, backup and launch leave stop_requested alone, run the server exactly when it Launches, and arm one timer exactly when it also schedules |
| ManagerCore.StartArmsTimer | hytale_server_manager.py:545-546 | one timer is armed exactly when the sequence launched with scheduling on |
| ManagerCore.BackupDirFailureEndsSequence | hytale_server_manager.py:459 | when backups are on, the world exists and universe/backups cannot be created, os.makedirs raises outside the try: the effects end with the update's, nothing is archived or launched, and the state is the cleared one |
| ManagerCore.StartWebhookEndsSequence | hytale_server_manager.py:477-480 | with enable_discord on and a discord_webhook that is not a string, the "starting" notification raises before Popen: the effects end with the backup's, nothing is launched or armed |
| ManagerCore.StartKeepsSettings | hytale_server_manager.py:496-550 | a start sequence changes no setting but last_server_version |
| ManagerCore.StartWithoutJava | hytale_server_manager.py:500 | without Java 25 the sequence only clears stop_requested: no effect, no setting or process change |
| ManagerCore.StartWithoutAssets | hytale_server_manager.py:502-503 | without the assets it kills, updates and launches nothing: at most the one copy it tried |
| ManagerCore.SelfUpdateEndsSequence | hytale_server_manager.py:505-507 | a newer manager whose installer starts ends the sequence after the kills, with the files fetched and the installer launched last, and the configuration and process untouched |
| ManagerCore.InstallerFailureContinues | hytale_server_manager.py:273-288 | when the newer manager's files were fetched but writing or starting the installer raised, the fetch follows the kills and the server is still launched exactly when the rest of the sequence Launches (no backup-directory or notification failure, Popen succeeded) |
| ManagerCore.SelfUpdateLaunchesNothing | hytale_server_manager.py:507 | nothing is launched when a manager update ends the sequence |
| ManagerCore.LaunchIffReady | hytale_server_manager.py:496-550 | a server is started exactly when the sequence is Ready |
| ManagerCore.ReadyPath | hytale_server_manager.py:505-546 | past the self-update the server is launched exactly when neither the backup directory nor the notification raises and Popen succeeds, with the memory of the original configuration and the assets in the server directory, after all kills, and last unless a timer is armed after it |
| ManagerCore.ReadyEffects | hytale_server_manager.py:502-550 | past the self-update check the effects are the assets copy, the kills, the self-update effects, then the update, backup and (unless the backup raised) launch of LaunchPlan |
| ManagerCore.ReadyKills | hytale_server_manager.py:502-505 | past the self-update check the kills of running servers sit right after the assets copy |
| ManagerCore.ReadySpawn | hytale_server_manager.py:505-546 | past the self-update check nothing before LaunchPlan starts a server, so the sequence launches exactly when LaunchPlan does (no backup-directory or notification failure, Popen succeeded), ending with the launch or the timer armed after it |
| ManagerCore.LaunchPlanShape | hytale_server_manager.py:507-546 | update, backup and launch start a server exactly when neither the backup directory nor the notification raises and Popen succeeds, with the memory and schedule of the configuration before the update |
| ManagerCore.LaunchPlanParts | hytale_server_manager.py:508-514 | the effects are the update's, the backup's and, unless the backup raised, the launch step's |
| ManagerCore.SpawnPlanShape | hytale_server_manager.py:513-546 | the launch step starts a server exactly when the "starting" notification does not raise and Popen succeeds, last unless a timer follows |
| ManagerCore.UpdaterCore.constructor | hytale_server_manager.py:71-81 | the given configuration when truthy, else load_config(); no process, no stop requested, no timer |
| ManagerCore.UpdaterCore.SendCommand | hytale_server_manager.py:437-448 | takes the send step: state unchanged, its write appended |
| ManagerCore.UpdaterCore.StopServer | hytale_server_manager.py:590-603 | takes the stop step on the fields and appends its effects |
| ManagerCore.UpdaterCore.ServerExits | hytale_server_manager.py:562-577 | a running process ends with the given code |
| ManagerCore.UpdaterCore.MonitorExit | hytale_server_manager.py:578-588 | takes the monitor step: process cleared, restart appended on a crash unless the "stopped" notification raised |
| ManagerCore.UpdaterCore.ScheduleRestart | hytale_server_manager.py:605-619 | arms a new timer as restart_timer without cancelling the previous one; nothing when float() fails |
| ManagerCore.UpdaterCore.RestartTask | hytale_server_manager.py:611-616 | an armed timer fires: its notification, then stop_server and the restart unless the notification raised |
| ManagerCore.UpdaterCore.SendDiscordWebhook | hytale_server_manager.py:477-480 | raises exactly when enable_discord is truthy and discord_webhook is not a string, whose `.strip()` sits before the try; changes nothing |
| ManagerCore.UpdaterCore.StopExistingServerProcess | hytale_server_manager.py:205-229 | one kill per pid found, in order, and nothing else changes |
| ManagerCore.SelfUpdateStep | hytale_server_manager.py:242-288 | scans the published version file line by line and yields exactly the self-update effects and the exit that the decision on that file, the settings and the two failure flags call for |
| ManagerCore.UpdaterCore.CheckSelfUpdate | hytale_server_manager.py:242-288 | appends the self-update effects (nothing, the fetch, or the fetch and the installer launch) and reports an exit exactly when the installer was launched |
| ManagerCore.UpdaterCore.UpdateServer | hytale_server_manager.py:336-435 | the configuration and effects of update_server as the update plan gives them |
| ManagerCore.UpdaterCore.CheckForUpdates | hytale_server_manager.py:508-509 | update_server only when check_updates is on |
| ManagerCore.UpdaterCore.BackupWorld | hytale_server_manager.py:450-475 | the archive, then one deletion per selected name; raises, with nothing archived, exactly when backups are on, the world exists and the backup directory cannot be created |
| ManagerCore.UpdaterCore.SpawnServer | hytale_server_manager.py:513-546 | the "starting" notification, Popen of the launch command, then the schedule; nothing after a notification that raised |
| ManagerCore.UpdaterCore.UpdateBackupLaunch | hytale_server_manager.py:508-546 | update, backup and launch, one after the other; the launch is skipped when the backup raised |
| ManagerCore.UpdaterCore.StartServerSequence | hytale_server_manager.py:496-550 | the fields and the trace after _start_server_thread are those of the start plan, including the installer-failure path that goes on to update and launch; its properties are the Start lemmas above |
| UpdaterScript.RunScript | hytale_updater.py:251-265 | nothing without Java 25; the copies typed at the prompt; no further step when input runs out; otherwise the kills, the update and the launch |
| UpdaterScript.StopUpdateLaunch | hytale_updater.py:258-260 | stop_server, update_server and start_server in order |
| UpdaterScript.ScriptTailOrder | hytale_updater.py:258-260 | all kills come before the update, which comes before the launch |
| UpdaterScript.ScriptRunsDownloaderIffFound | hytale_updater.py:184-215 | the downloader runs exactly when ensure_updater yields a command, and with that command |
| UpdaterScript.ScriptLaunchesIffJar | hytale_updater.py:217-225 | the script ends with a launch exactly when HytaleServer.jar is there |

## Left out

- Threads, `threading.Timer` delays, `time.sleep`, the 1 s polling loop, `_read_stream` and `countdown`: timing and concurrency are not modelled. The lifecycle lemmas treat each operation as one atomic step, and the race between a stop and a new start sequence is stated as one order of steps.
- Logging, the status callback, `start_time` and the uptime text: they make no decision.
- The Discord webhook: only whether `send_discord_webhook` raises is modelled (`Lifecycle.WebhookRaises`). With `enable_discord` truthy, a `discord_webhook` that is not a string fails at `.strip()` outside the try. The raise ends the thread at each call site: line 514 before Popen, line 582 before the crash-restart rule, and line 613 before `stop_server` in `restart_task`. The post itself and the message text are not modelled, and the post's errors are caught.
- The tkinter GUI, including the colour-tag state machine of `insert_colored`: not part of the core.
- Network, `zipfile`, `shutil` and process execution: their outcomes are parameters. A copy of a staged item that fails is still recorded as attempted. The removal of the staging directory is not recorded.
- An exception after the downloader was started, or from its Popen, is one case (`RunRaised`): the run is recorded as attempted, with no copies and no version record. The removal of the staging directory in the exception handler is not recorded.
- The text of the generated installer script and what it does after the manager exits: it runs in another process.
- `sys.exit(0)` in `run_update_installer`: modelled as the end of the start sequence. Its `SystemExit` passes through `except Exception` and ends the sequence thread.
- `float(restart_interval) * 3600`: floats are not modelled. Whether `float()` succeeds is the `intervalOk` parameter, and the timer records `str()` of the setting.
- JSON values are scalars (null, bool, int, string). Floats, lists and objects in the configuration file are not modelled.
- `int()` and `isdigit` on text: ASCII digits only (`PyText.IsDigits`). `int()` also takes an optional sign and surrounding whitespace. Underscores between digits and non-ASCII digits are not accepted.
- `os.path` on Windows: drive-relative paths such as `C:name` and UNC paths are not modelled. `abspath` of a relative name is its join onto the working directory.
- Text is a sequence of code points. UTF-8 decoding of the downloaded version file and of process output is not modelled.
- The file system is a set of names at each point where the code looks. Files that appear or vanish between two checks are given as separate parameters (the jar and AOT cache at launch, the leftovers after an update).
- The manager's `input_callback` answer is a string or nothing. The no-op `hasattr(user_path, 'get')` test and answers that are not strings are left out.
- Version text for the self-update check is only the version file's content. Fetching and downloading the two manager files are one success flag (`filesOk`); writing `updater_installer.py` and starting it are another (`installerOk`), and a written but unstarted installer file is not recorded. A download that fails after `version.py.new` was written leaves that file behind, which is not recorded.
- The `input("Press Enter to exit...")` of the script after a failed Java check: it ends the script either way.
- The script's `update_server` exit code: it only changes the log text, so every run is recorded the same way.
- `_JAVA_OPTIONS`: the manager copies the whole environment. Only the heap value it sets is recorded.
- Settings.LoadConfig: a file that exists but cannot be parsed is given as `None`, the same as a missing file, as the code treats both alike.
- Launch.ScriptCheckAssets: end of input at the prompt raises `EOFError`, which ends the script. The model returns no path and the script takes no further step.

## Behaviours of the code worth knowing

Some behaviours of the code that a reader might not expect, each modelled as written:

- After an update the AOT cache `HytaleServer.aot` is copied from the staging directory like the other replacements. It is not deleted.
- `last_server_version` is recorded whenever the downloader exits 0 and a remote version was obtained, even when no `HytaleServer.jar` was found in staging (`Versions.RecordsWithoutStagedJar`).
- The script's `check_assets` keeps prompting until a reply names an existing `Assets.zip` that copies. It never gives up on its own.
- The manager's `check_assets` uses the callback's answer as typed. It does not strip quotes, so a quoted path is rejected there (`Launch.ManagerRejectsQuotedPath`), while the script accepts it.
- `_schedule_restart` does not cancel an earlier timer, and `stop_server` cancels only the newest one. An older armed timer can still fire after a stop (`Lifecycle.OrphanedTimerSurvivesStop`).
- `os.makedirs` for `universe/backups` runs before the try of `backup_world`. When it raises, the exception ends the start sequence thread: no archive, no Popen and no timer (`ManagerCore.BackupDirFailureEndsSequence`). Whether the directory exists or is created is the `backupDirOk` parameter.
- `send_discord_webhook` calls `.strip()` on `discord_webhook` before its try. With `enable_discord` on and a value that is not a string, the start sequence ends before Popen (`ManagerCore.StartWebhookEndsSequence`). The monitor then restarts no crash (`Lifecycle.MonitorRestartsOnlyOnCrash`), and a scheduled restart stops and restarts nothing (`Lifecycle.FireRestarts`).
- When the newer manager's files were downloaded but `updater_installer.py` cannot be written or started, `check_self_update` catches the error and the start sequence goes on to update, back up and launch the server (`ManagerCore.InstallerFailureContinues`).
