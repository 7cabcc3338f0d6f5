/** File names shared by the manager and the updater script, and the effects
    on the host that the model records instead of performing them. */
module Host {
  import opened PyText

  const ServerJar := "HytaleServer.jar"
  const AotFile := "HytaleServer.aot"
  const AssetsFile := "Assets.zip"
  const BackupDir := "universe/backups"
  const WorldDir := "universe/worlds"

  /** What update_server copies out of the staging root, in this order. */
  const Replacements: seq<string> := [ServerJar, AotFile, AssetsFile, "Licenses"]

  /** Leftovers of the downloader removed after an update. */
  const Artifacts: seq<string> :=
    ["QUICKSTART.md", "hytale-downloader-windows-amd64.exe", "hytale-downloader-linux-amd64", "hytale-downloader"]

  /** An effect on the host, in the order it is made. */
  datatype Action =
    | KillPid(pid: string)                      // taskkill /PID pid /F, or kill pid
    | FetchUpdaterArchive                       // GET of hytale-downloader.zip
    | FetchManagerFiles(version: string)        // version.py.new and hytale_server_manager.py.new
    | LaunchInstaller                           // updater_installer.py, then sys.exit(0)
    | QueryVersion(cmd: seq<string>)            // the downloader with -print-version
    | RunDownloader(cmd: seq<string>)           // the downloader itself
    | ApplyItem(root: string, item: string)     // copy of a staged item into the server directory
    | RecordVersion(version: string)            // last_server_version saved to the config file
    | RemoveArtifact(name: string)
    | CopyAssets(from: string)
    | CreateArchive(name: string)               // zip of universe/worlds into universe/backups
    | DeleteBackup(name: string)
    | Spawn(cmd: seq<string>, javaOptions: Option<string>)  // the server process; _JAVA_OPTIONS if set
    | ArmTimer(hours: string)                   // threading.Timer for a scheduled restart
    | CancelTimer
    | WriteStdin(data: string)
    | KillProcess                               // Popen.kill()
    | RestartSequence                           // start_server_sequence after the 10 s pause

  /** The entries of `items` that exist, in order: the `for x in xs: if
      os.path.exists(x)` pattern. */
  function Present(items: seq<string>, fs: set<string>): (r: seq<string>)
    ensures |r| <= |items|
    ensures forall x :: x in r <==> x in items && x in fs
    ensures items != [] && items[0] in fs ==> r != [] && r[0] == items[0]
  {
    if items == [] then []
    else if items[0] in fs then [items[0]] + Present(items[1..], fs)
    else Present(items[1..], fs)
  }

  /** Present keeps every existing entry as often as the list holds it, and
      no other. */
  lemma {:induction false} PresentCounts(items: seq<string>, fs: set<string>)
    ensures forall x :: multiset(Present(items, fs))[x] == if x in fs then multiset(items)[x] else 0
  {
    if items != [] {
      PresentCounts(items[1..], fs);
      assert items == [items[0]] + items[1..];
    }
  }

  /** `idx` picks the entries of `r` out of `items` at strictly increasing
      positions. */
  ghost predicate Picks(r: seq<string>, items: seq<string>, idx: seq<int>) {
    && |idx| == |r|
    && (forall k :: 0 <= k < |idx| ==> 0 <= idx[k] < |items| && r[k] == items[idx[k]])
    && (forall k, l :: 0 <= k < l < |idx| ==> idx[k] < idx[l])
  }

  /** Present keeps the order of `items`: its entries are picked out of
      `items` at strictly increasing positions. */
  lemma PresentInOrder(items: seq<string>, fs: set<string>)
    ensures exists idx :: Picks(Present(items, fs), items, idx)
  {
    var idx := PresentPositions(items, fs, 0);
    assert items[0..] == items;
  }

  /** The positions, from `i` on, at which Present(items[i..], fs) picks its
      entries out of `items`. */
  lemma {:induction false} PresentPositions(items: seq<string>, fs: set<string>, i: nat) returns (idx: seq<int>)
    requires i <= |items|
    ensures Picks(Present(items[i..], fs), items, idx)
    ensures forall k :: 0 <= k < |idx| ==> i <= idx[k]
    decreases |items| - i
  {
    if i == |items| {
      assert items[i..] == [];
      idx := [];
    } else {
      var rest := PresentPositions(items, fs, i + 1);
      assert items[i..][1..] == items[i + 1..];
      if items[i] in fs {
        assert Present(items[i..], fs) == [items[i]] + Present(items[i + 1..], fs);
        idx := [i] + rest;
        ConsPicks(Present(items[i + 1..], fs), items, i, rest);
      } else {
        assert Present(items[i..], fs) == Present(items[i + 1..], fs);
        idx := rest;
      }
    }
  }

  /** Picking position `i` before positions all greater than `i` keeps the
      positions increasing. */
  lemma ConsPicks(r: seq<string>, items: seq<string>, i: nat, idx: seq<int>)
    requires i < |items| && Picks(r, items, idx)
    requires forall k :: 0 <= k < |idx| ==> i < idx[k]
    ensures Picks([items[i]] + r, items, [i] + idx)
  {
    var picked := [i] + idx;
    assert forall k :: 1 <= k < |picked| ==> picked[k] == idx[k - 1];
  }

}
