/** Locating the Hytale downloader: the local executable, else the local jar,
    else the downloaded archive (cached and re-validated by size in the
    manager), extracted and searched by name. Also the manager's
    resolve_command_path. */
module Discovery {
  import opened PyText
  import opened Paths

  const UpdaterJar := "hytale-downloader.jar"
  const UpdaterZip := "hytale-downloader.zip"
  const ToolStem := "hytale-downloader"

  function UpdaterExecutable(win: bool): string {
    if win then "hytale-downloader.exe" else "hytale-downloader"
  }

  /** How the local executable is invoked: by name on Windows, as "./name" elsewhere. */
  function ExeCommand(win: bool): seq<string> {
    if win then [UpdaterExecutable(win)] else ["./" + UpdaterExecutable(win)]
  }

  function JarCommand(jar: string): seq<string> {
    ["java", "-jar", jar]
  }

  /** The command guessed from one name listed after extraction: a name holding
      "hytale-downloader" that is a jar, a Windows .exe, or an extension-less
      binary elsewhere. */
  function GuessCommand(f: string, win: bool): Option<seq<string>> {
    if !Contains(f, ToolStem) then None
    else if EndsWith(f, ".jar") then Some(JarCommand(f))
    else if win && EndsWith(f, ".exe") then Some([f])
    else if !win && '.' !in f then Some(["./" + f])
    else None
  }

  /** The first guess in listing order. */
  function FirstGuess(names: seq<string>, win: bool): (r: Option<seq<string>>)
    ensures r.None? <==> forall i :: 0 <= i < |names| ==> GuessCommand(names[i], win).None?
    ensures r.Some? ==> exists i :: (0 <= i < |names| && GuessCommand(names[i], win) == r
      && forall j :: 0 <= j < i ==> GuessCommand(names[j], win).None?)
  {
    if names == [] then None
    else if GuessCommand(names[0], win).Some? then
      assert GuessCommand(names[0], win) == GuessCommand(names[0], win);
      GuessCommand(names[0], win)
    else
      var r := FirstGuess(names[1..], win);
      assert forall i :: 1 <= i < |names| ==> names[1..][i - 1] == names[i];
      if r.Some? then
        var i :| 0 <= i < |names[1..]| && GuessCommand(names[1..][i], win) == r
          && forall j :: 0 <= j < i ==> GuessCommand(names[1..][j], win).None?;
        assert GuessCommand(names[i + 1], win) == r;
        r
      else r
  }

  /** The `for f in os.listdir('.')` loop with its early returns. */
  method ScanListing(names: seq<string>, win: bool) returns (cmd: Option<seq<string>>)
    ensures cmd == FirstGuess(names, win)
  {
    var i := 0;
    while i < |names|
      invariant 0 <= i <= |names|
      invariant FirstGuess(names[i..], win) == FirstGuess(names, win)
    {
      assert names[i..][1..] == names[i + 1..];
      var guess := GuessCommand(names[i], win);
      if guess.Some? {
        return guess;
      }
      i := i + 1;
    }
    return None;
  }

  /** The cached archive itself is never taken for the tool. */
  lemma ZipIsNeverGuessed(win: bool)
    ensures GuessCommand(UpdaterZip, win).None?
  {
    assert UpdaterZip[17] == '.';
  }

  /** Outcome of the HEAD request on the download URL. */
  datatype HeadAnswer = HeadFailed | HeadOk(contentLength: Option<string>)

  /** int(headers.get('Content-Length', 0)); None where the request or int() raises. */
  function RemoteSize(head: HeadAnswer): Option<int> {
    match head
    case HeadFailed => None
    case HeadOk(None) => Some(0)
    case HeadOk(Some(text)) => ParseInt(text)
  }

  /** The cached archive is kept only when the remote size is known, positive
      and equal to the local size. */
  predicate CacheFresh(zipCached: bool, head: HeadAnswer, localSize: int) {
    zipCached && RemoteSize(head).Some? && RemoteSize(head).value > 0
    && RemoteSize(head).value == localSize
  }

  /** A failed HEAD request, a missing or malformed Content-Length, or a zero
      length all force a fresh download. */
  lemma HeadErrorsForceDownload(zipCached: bool, localSize: int, text: string)
    requires ParseInt(text).None? || ParseInt(text) == Some(0)
    ensures !CacheFresh(zipCached, HeadFailed, localSize)
    ensures !CacheFresh(zipCached, HeadOk(None), localSize)
    ensures !CacheFresh(zipCached, HeadOk(Some(text)), localSize)
  {
  }

  /** What the manager's ensure_updater sees of the host. */
  datatype ManagerHost = ManagerHost(
    present: set<string>,      // names that exist in the working directory beforehand
    head: HeadAnswer,          // the HEAD request, made only when the archive is cached
    localZipSize: int,
    downloadOk: bool,          // the GET of the archive succeeded
    extractOk: bool,           // the archive opened and extracted
    listing: seq<string>)      // os.listdir('.') after extraction

  datatype Discovered = Discovered(cmd: Option<seq<string>>, downloaded: bool)

  /** HytaleUpdaterCore.ensure_updater. */
  function ManagerDiscovery(h: ManagerHost, win: bool): Discovered {
    if UpdaterExecutable(win) in h.present then Discovered(Some(ExeCommand(win)), false)
    else if UpdaterJar in h.present then Discovered(Some(JarCommand(UpdaterJar)), false)
    else
      var download := !CacheFresh(UpdaterZip in h.present, h.head, h.localZipSize);
      if download && !h.downloadOk then Discovered(None, true)
      else if !h.extractOk then Discovered(None, download)
      else if UpdaterExecutable(win) in h.listing then Discovered(Some(ExeCommand(win)), download)
      else Discovered(FirstGuess(h.listing, win), download)
  }

  /** Discovery order: executable, then jar, then the archive; the archive is
      fetched exactly when neither local file exists and the cache is not fresh;
      once it is at hand and extracted, the executable in the listing, else the
      first name the guess accepts; whatever is returned is one of the three
      kinds of command. */
  lemma ManagerDiscoveryOrder(h: ManagerHost, win: bool)
    ensures var d := ManagerDiscovery(h, win);
      && (UpdaterExecutable(win) in h.present ==> d == Discovered(Some(ExeCommand(win)), false))
      && (UpdaterExecutable(win) !in h.present && UpdaterJar in h.present ==>
            d == Discovered(Some(JarCommand(UpdaterJar)), false))
      && (d.downloaded <==> (UpdaterExecutable(win) !in h.present && UpdaterJar !in h.present
            && !CacheFresh(UpdaterZip in h.present, h.head, h.localZipSize)))
      && (d.downloaded && !h.downloadOk ==> d.cmd.None?)
      && (UpdaterExecutable(win) !in h.present && UpdaterJar !in h.present
            && (!d.downloaded || h.downloadOk) ==>
            d.cmd == (if !h.extractOk then None
                      else if UpdaterExecutable(win) in h.listing then Some(ExeCommand(win))
                      else FirstGuess(h.listing, win)))
      && (d.cmd.Some? ==> (d.cmd == Some(ExeCommand(win))
            || d.cmd == Some(JarCommand(UpdaterJar))
            || exists i :: 0 <= i < |h.listing| && GuessCommand(h.listing[i], win) == d.cmd))
  {
  }

  /** The manager's ensure_updater as written: early returns, then the scan. */
  method EnsureUpdater(h: ManagerHost, win: bool) returns (d: Discovered)
    ensures d == ManagerDiscovery(h, win)
  {
    if UpdaterExecutable(win) in h.present {
      return Discovered(Some(ExeCommand(win)), false);
    }
    if UpdaterJar in h.present {
      return Discovered(Some(JarCommand(UpdaterJar)), false);
    }
    var shouldDownload := true;
    if UpdaterZip in h.present {
      var remote := RemoteSize(h.head);
      if remote.Some? && remote.value > 0 && remote.value == h.localZipSize {
        shouldDownload := false;
      }
    }
    if shouldDownload && !h.downloadOk {
      return Discovered(None, true);
    }
    if !h.extractOk {
      return Discovered(None, shouldDownload);
    }
    if UpdaterExecutable(win) in h.listing {
      return Discovered(Some(ExeCommand(win)), shouldDownload);
    }
    var guess := ScanListing(h.listing, win);
    return Discovered(guess, shouldDownload);
  }

  /** What the updater script's ensure_updater sees of the host. */
  datatype ScriptHost = ScriptHost(
    present: set<string>,
    downloadOk: bool,          // urlretrieve succeeded
    extractOk: bool,
    listing: seq<string>)      // os.listdir('.') after extraction and removal of the archive

  /** hytale_updater.ensure_updater: no cache; after extraction the executable,
      then hytale-downloader.jar, then the first guess. */
  function ScriptDiscovery(h: ScriptHost, win: bool): Option<seq<string>> {
    if UpdaterExecutable(win) in h.present then Some(ExeCommand(win))
    else if UpdaterJar in h.present then Some(JarCommand(UpdaterJar))
    else if !h.downloadOk || !h.extractOk then None
    else if UpdaterExecutable(win) in h.listing then Some(ExeCommand(win))
    else if UpdaterJar in h.listing then Some(JarCommand(UpdaterJar))
    else FirstGuess(h.listing, win)
  }

  method EnsureUpdaterScript(h: ScriptHost, win: bool) returns (cmd: Option<seq<string>>)
    ensures cmd == ScriptDiscovery(h, win)
  {
    if UpdaterExecutable(win) in h.present {
      return Some(ExeCommand(win));
    }
    if UpdaterJar in h.present {
      return Some(JarCommand(UpdaterJar));
    }
    if !h.downloadOk || !h.extractOk {
      return None;
    }
    if UpdaterExecutable(win) in h.listing {
      return Some(ExeCommand(win));
    } else if UpdaterJar in h.listing {
      return Some(JarCommand(UpdaterJar));
    }
    cmd := ScanListing(h.listing, win);
  }

  /** The script's discovery order: the executable, then the jar; only when
      neither exists is the archive fetched, and after a successful download
      and extraction the executable, then hytale-downloader.jar, then the
      first name the guess accepts; a failed download or extraction yields
      no command. */
  lemma ScriptDiscoveryOrder(h: ScriptHost, win: bool)
    ensures UpdaterExecutable(win) in h.present ==> ScriptDiscovery(h, win) == Some(ExeCommand(win))
    ensures UpdaterExecutable(win) !in h.present && UpdaterJar in h.present ==>
      ScriptDiscovery(h, win) == Some(JarCommand(UpdaterJar))
    ensures UpdaterExecutable(win) !in h.present && UpdaterJar !in h.present ==>
      ScriptDiscovery(h, win) ==
        (if !h.downloadOk || !h.extractOk then None
         else if UpdaterExecutable(win) in h.listing then Some(ExeCommand(win))
         else if UpdaterJar in h.listing then Some(JarCommand(UpdaterJar))
         else FirstGuess(h.listing, win))
  {
  }

  /** The script finds the tool after extraction exactly when the listing
      holds the executable, the jar, or some name the guess accepts. */
  lemma ScriptDiscoveryAfterExtraction(h: ScriptHost, win: bool)
    requires UpdaterExecutable(win) !in h.present && UpdaterJar !in h.present
    requires h.downloadOk && h.extractOk
    ensures ScriptDiscovery(h, win).None? <==>
      UpdaterExecutable(win) !in h.listing && UpdaterJar !in h.listing
      && forall i :: 0 <= i < |h.listing| ==> GuessCommand(h.listing[i], win).None?
  {
  }

  /** resolve_command_path: the list with entry 0 made absolute when it starts
      with "./" or names an existing file, and entry 2 made absolute when the
      (new) entry 0 mentions java, entry 1 is "-jar" and entry 2 exists. */
  function ResolvedCommand(cmd: seq<string>, fs: set<string>, cwd: string, win: bool): (r: seq<string>)
    ensures |r| == |cmd|
    ensures forall i :: 0 <= i < |r| && i != 0 && i != 2 ==> r[i] == cmd[i]
    ensures |r| > 0 ==> r[0] == (if StartsWith(cmd[0], "./") || cmd[0] in fs
                                 then AbsPath(cwd, cmd[0], win) else cmd[0])
    ensures |r| > 2 ==> r[2] == (if Contains(r[0], "java") && cmd[1] == "-jar" && cmd[2] in fs
                                 then AbsPath(cwd, cmd[2], win) else cmd[2])
  {
    if cmd == [] then cmd
    else
      var first := if StartsWith(cmd[0], "./") || cmd[0] in fs then AbsPath(cwd, cmd[0], win) else cmd[0];
      var c := cmd[0 := first];
      if |c| > 2 && Contains(first, "java") && c[1] == "-jar" && c[2] in fs
      then c[2 := AbsPath(cwd, c[2], win)]
      else c
  }

  /** The method as written: a copy whose entries 0 and 2 are overwritten. */
  method ResolveCommandPath(cmdList: seq<string>, fs: set<string>, cwd: string, win: bool)
    returns (newCmd: seq<string>)
    ensures newCmd == ResolvedCommand(cmdList, fs, cwd, win)
  {
    newCmd := cmdList;
    if newCmd == [] {
      return;
    }
    if StartsWith(newCmd[0], "./") || newCmd[0] in fs {
      newCmd := newCmd[0 := AbsPath(cwd, newCmd[0], win)];
    }
    if |newCmd| > 2 && Contains(newCmd[0], "java") && newCmd[1] == "-jar" {
      if newCmd[2] in fs {
        newCmd := newCmd[2 := AbsPath(cwd, newCmd[2], win)];
      }
    }
  }

  /** Resolving never changes which kind of command was discovered: the
      executable command stays a one-word command made absolute, and the jar
      command keeps its "java -jar" shape. */
  lemma ResolveKeepsShape(fs: set<string>, cwd: string, win: bool, jar: string)
    requires IsAbs(cwd, win)
    ensures !win ==> ResolvedCommand(ExeCommand(win), fs, cwd, win)
                     == [AbsPath(cwd, "./" + UpdaterExecutable(win), win)]
    ensures !win ==> IsAbs(ResolvedCommand(ExeCommand(win), fs, cwd, win)[0], win)
    ensures "java" !in fs ==> ResolvedCommand(JarCommand(jar), fs, cwd, win)
                              == ["java", "-jar", if jar in fs then AbsPath(cwd, jar, win) else jar]
  {
    if !win {
      AbsPathIsAbs(cwd, "./" + UpdaterExecutable(win), win);
    }
    if "java" !in fs {
      assert "java"[..2][0] == 'j';
      assert StartsWith("java", "java");
      assert Contains("java", "java");
    }
  }
}
