/** Server updates (get_remote_server_version and update_server of the
    manager) and the manager's self-update check (check_self_update). */
module Versions {
  import opened PyText
  import opened PyOrder
  import opened Settings
  import opened Host
  import opened Discovery

  /** Outcome of running the downloader with -print-version. */
  datatype VersionQuery = QueryRaised | QueryExited(rc: int, stdout: string)

  /** get_remote_server_version: the stripped output on exit code 0, else None. */
  function RemoteServerVersion(q: VersionQuery): (r: Option<string>)
    ensures r.Some? <==> q.QueryExited? && q.rc == 0
    ensures r.Some? ==> r.value == [] || (!IsSpace(r.value[0]) && !IsSpace(r.value[|r.value| - 1]))
    ensures r.Some? ==> exists a :: StrippedAt(q.stdout, r.value, a)
  {
    if q.QueryExited? && q.rc == 0 then
      StripSpec(q.stdout);
      Some(Strip(q.stdout))
    else None
  }

  /** `if remote_version:` — a version was obtained and it is not empty. */
  predicate Obtained(remote: Option<string>) {
    remote.Some? && remote.value != ""
  }

  /** The skip rule: an obtained version equal to last_server_version (default
      "0.0.0"); a string never equals a value of another type. */
  predicate UpToDate(remote: Option<string>, config: Config) {
    Obtained(remote) && Get(config, "last_server_version", VStr("0.0.0")) == VStr(remote.value)
  }

  /** What the staging directory holds after the downloader ran: the names
      directly in it, and the names in its Server sub-directory when that exists. */
  datatype StagedTree = StagedTree(top: set<string>, server: Option<set<string>>)

  datatype Root = Root(name: string, names: set<string>)

  /** The first search root that holds HytaleServer.jar: the staging directory
      itself, then its Server sub-directory. */
  function JarRoot(t: StagedTree): (r: Option<Root>)
    ensures r.Some? ==> ServerJar in r.value.names
    ensures r.None? <==> ServerJar !in t.top && (t.server.None? || ServerJar !in t.server.value)
    ensures ServerJar in t.top ==> r == Some(Root("", t.top))
  {
    if ServerJar in t.top then Some(Root("", t.top))
    else if t.server.Some? && ServerJar in t.server.value then Some(Root("Server", t.server.value))
    else None
  }

  function CopyEach(root: string, items: seq<string>): (r: seq<Action>)
    ensures |r| == |items|
    ensures forall i :: 0 <= i < |r| ==> r[i] == ApplyItem(root, items[i])
  {
    if items == [] then [] else [ApplyItem(root, items[0])] + CopyEach(root, items[1..])
  }

  /** The copies made after a successful download: every replacement present
      in the jar's root, in the order of the replacement list; none when no
      root holds the jar. */
  function ApplyActions(t: StagedTree): (r: seq<Action>)
    ensures forall a :: a in r ==> a.ApplyItem?
  {
    match JarRoot(t)
    case None => []
    case Some(root) => CopyEach(root.name, Present(Replacements, root.names))
  }

  /** The server jar is always the first thing copied when it was staged. */
  lemma ApplyCopiesJarFirst(t: StagedTree)
    requires JarRoot(t).Some?
    ensures var r := ApplyActions(t);
      r != [] && r[0] == ApplyItem(JarRoot(t).value.name, ServerJar)
      && forall a :: a in r ==> a.item in Replacements && a.item in JarRoot(t).value.names
  {
    var root := JarRoot(t).value;
    var items := Present(Replacements, root.names);
    assert Replacements[0] == ServerJar;
    forall a | a in ApplyActions(t)
      ensures a.item in Replacements && a.item in root.names
    {
      var i :| 0 <= i < |items| && ApplyActions(t)[i] == a;
      assert items[i] in items;
    }
  }

  function Removals(names: seq<string>): (r: seq<Action>)
    ensures |r| == |names|
    ensures forall i :: 0 <= i < |r| ==> r[i] == RemoveArtifact(names[i])
  {
    if names == [] then [] else [RemoveArtifact(names[0])] + Removals(names[1..])
  }

  /** Outcome of the staged download: rmtree or makedirs of the staging
      directory raised before the downloader was started (SetupRaised); the
      downloader was started, or its Popen attempted, and an exception ended
      the step before its exit code was looked at (RunRaised); or the
      downloader's exit code together with what it left in staging. */
  datatype StagingRun = SetupRaised | RunRaised | StagingExited(rc: int, tree: StagedTree)

  /** What update_server sees of the host. */
  datatype UpdateHost = UpdateHost(
    discovery: ManagerHost,
    fs: set<string>,           // names that exist when the command is resolved
    cwd: string,
    query: VersionQuery,
    run: StagingRun,
    leftovers: set<string>)    // names that exist when the artifacts are cleaned up

  datatype UpdateResult = UpdateResult(effects: seq<Action>, config: Config)

  /** The config after the staged download: last_server_version set to the
      obtained version on exit code 0, whether or not a jar was staged. */
  function RecordedConfig(config: Config, remote: Option<string>, run: StagingRun): (c: Config)
    ensures forall k :: k != "last_server_version" ==>
      (k in c <==> k in config) && (k in config ==> c[k] == config[k])
  {
    if run.StagingExited? && run.rc == 0 && Obtained(remote)
    then config["last_server_version" := VStr(remote.value)]
    else config
  }

  /** The effects from running the downloader on: the run itself, the copies
      and the version record on exit code 0, then the removal of leftovers. */
  function StagedEffects(cmd: seq<string>, remote: Option<string>, run: StagingRun,
                         leftovers: set<string>): seq<Action>
  {
    match run
    case SetupRaised => []
    case RunRaised => [RunDownloader(cmd)]
    case StagingExited(rc, tree) =>
      [RunDownloader(cmd)]
      + (if rc == 0 then ApplyActions(tree) else [])
      + (if rc == 0 && Obtained(remote) then [RecordVersion(remote.value)] else [])
      + Removals(Present(Artifacts, leftovers))
  }

  /** HytaleUpdaterCore.update_server: the effects in order and the new config. */
  function UpdatePlan(config: Config, u: UpdateHost, win: bool): UpdateResult {
    var d := ManagerDiscovery(u.discovery, win);
    var fetch := if d.downloaded then [FetchUpdaterArchive] else [];
    if d.cmd.None? then UpdateResult(fetch, config)
    else
      var cmd := ResolvedCommand(d.cmd.value, u.fs, u.cwd, win);
      var remote := RemoteServerVersion(u.query);
      var asked := fetch + [QueryVersion(cmd + ["-print-version"])];
      if UpToDate(remote, config) then UpdateResult(asked, config)
      else UpdateResult(asked + StagedEffects(cmd, remote, u.run, u.leftovers),
                        RecordedConfig(config, remote, u.run))
  }

  /** The resolved downloader command, when one was found. */
  function PlannedCommand(u: UpdateHost, win: bool): Option<seq<string>> {
    var d := ManagerDiscovery(u.discovery, win);
    if d.cmd.None? then None else Some(ResolvedCommand(d.cmd.value, u.fs, u.cwd, win))
  }

  /** Nothing is downloaded and nothing recorded when the obtained remote
      version equals the recorded one. */
  lemma UpToDateSkipsDownload(config: Config, u: UpdateHost, win: bool)
    requires UpToDate(RemoteServerVersion(u.query), config)
    ensures var r := UpdatePlan(config, u, win);
      r.config == config && forall a :: a in r.effects ==> !a.RunDownloader? && !a.RecordVersion?
  {
  }

  /** When no version is obtained the update is not skipped: the downloader
      runs whenever it was found and the staging directory was set up. */
  lemma UnknownVersionFailsOpen(config: Config, u: UpdateHost, win: bool)
    requires !Obtained(RemoteServerVersion(u.query))
    requires PlannedCommand(u, win).Some?
    requires !u.run.SetupRaised?
    ensures RunDownloader(PlannedCommand(u, win).value) in UpdatePlan(config, u, win).effects
    ensures UpdatePlan(config, u, win).config == config
  {
  }

  /** When the staging directory cannot be set up the downloader is never
      started and nothing is recorded. */
  lemma SetupFailureRunsNothing(config: Config, u: UpdateHost, win: bool)
    requires u.run.SetupRaised?
    ensures var r := UpdatePlan(config, u, win);
      r.config == config && forall a :: a in r.effects ==> !a.RunDownloader? && !a.RecordVersion?
  {
  }

  /** A version record is among the staged effects exactly on exit code 0
      with an obtained version. */
  lemma StagedRecord(cmd: seq<string>, remote: Option<string>, run: StagingRun,
                     leftovers: set<string>, v: string)
    ensures RecordVersion(v) in StagedEffects(cmd, remote, run, leftovers) <==>
      run.StagingExited? && run.rc == 0 && Obtained(remote) && v == remote.value
  {
    var e := StagedEffects(cmd, remote, run, leftovers);
    if run.StagingExited? {
      var applied := if run.rc == 0 then ApplyActions(run.tree) else [];
      var rec := if run.rc == 0 && Obtained(remote) then [RecordVersion(remote.value)] else [];
      var tail := Removals(Present(Artifacts, leftovers));
      assert e == [RunDownloader(cmd)] + applied + rec + tail;
      if RecordVersion(v) in e {
        assert RecordVersion(v) !in applied;
        assert RecordVersion(v) in rec;
      }
      if run.rc == 0 && Obtained(remote) && v == remote.value {
        assert e[1 + |applied|] == RecordVersion(v);
      }
    }
  }

  /** last_server_version changes only on exit code 0 with an obtained
      version, and then to exactly that version, which is also saved; no
      other key changes. */
  lemma RecordOnlyAfterSuccess(config: Config, u: UpdateHost, win: bool)
    ensures var r := UpdatePlan(config, u, win);
      forall k :: k != "last_server_version" ==>
        (k in r.config <==> k in config) && (k in config ==> r.config[k] == config[k])
    ensures var r := UpdatePlan(config, u, win);
      var remote := RemoteServerVersion(u.query);
      r.config != config ==>
        PlannedCommand(u, win).Some? && u.run.StagingExited? && u.run.rc == 0
        && Obtained(remote) && "last_server_version" in r.config
        && r.config["last_server_version"] == VStr(remote.value)
        && RecordVersion(remote.value) in r.effects
  {
    var r := UpdatePlan(config, u, win);
    var remote := RemoteServerVersion(u.query);
    if PlannedCommand(u, win).Some? && !UpToDate(remote, config) {
      var cmd := PlannedCommand(u, win).value;
      StagedPlan(config, u, win);
      var _ := RecordedConfig(config, remote, u.run);
      if r.config != config {
        StagedRecord(cmd, remote, u.run, u.leftovers, remote.value);
      }
    }
  }

  /** When the downloader runs, update_server's effects are the fetch and
      the version query followed by the staged run, and its config is the
      recorded one. */
  lemma StagedPlan(config: Config, u: UpdateHost, win: bool)
    requires PlannedCommand(u, win).Some?
    requires !UpToDate(RemoteServerVersion(u.query), config)
    ensures var r := UpdatePlan(config, u, win);
      var staged := StagedEffects(PlannedCommand(u, win).value, RemoteServerVersion(u.query), u.run, u.leftovers);
      && r.config == RecordedConfig(config, RemoteServerVersion(u.query), u.run)
      && (forall a :: a in staged ==> a in r.effects)
      && (forall a :: a in r.effects ==> a in staged || a.FetchUpdaterArchive? || a.QueryVersion?)
  {
    var r := UpdatePlan(config, u, win);
    var cmd := PlannedCommand(u, win).value;
    var d := ManagerDiscovery(u.discovery, win);
    var fetch := if d.downloaded then [FetchUpdaterArchive] else [];
    var asked := fetch + [QueryVersion(cmd + ["-print-version"])];
    var staged := StagedEffects(cmd, RemoteServerVersion(u.query), u.run, u.leftovers);
    assert r.effects == asked + staged;
  }

  /** Recording makes the next update of the same version a no-op. */
  lemma RecordThenSkip(config: Config, u: UpdateHost, win: bool)
    requires UpdatePlan(config, u, win).config != config
    ensures UpToDate(RemoteServerVersion(u.query), UpdatePlan(config, u, win).config)
  {
    RecordOnlyAfterSuccess(config, u, win);
  }

  /** The version is recorded after exit code 0 even when no staged
      HytaleServer.jar was found and nothing was copied. */
  lemma RecordsWithoutStagedJar(config: Config, u: UpdateHost, win: bool)
    requires PlannedCommand(u, win).Some?
    requires !UpToDate(RemoteServerVersion(u.query), config)
    requires Obtained(RemoteServerVersion(u.query))
    requires u.run.StagingExited? && u.run.rc == 0 && JarRoot(u.run.tree).None?
    ensures var r := UpdatePlan(config, u, win);
      r.config == config["last_server_version" := VStr(RemoteServerVersion(u.query).value)]
      && forall a :: a in r.effects ==> !a.ApplyItem?
  {
    StagedPlan(config, u, win);
    StagedCopiesNothing(PlannedCommand(u, win).value, RemoteServerVersion(u.query), u.run, u.leftovers);
  }

  /** Without a staged HytaleServer.jar the staged run copies nothing. */
  lemma StagedCopiesNothing(cmd: seq<string>, remote: Option<string>, run: StagingRun,
                            leftovers: set<string>)
    requires run.StagingExited? && JarRoot(run.tree).None?
    ensures forall a :: a in StagedEffects(cmd, remote, run, leftovers) ==> !a.ApplyItem?
  {
    var tail := Removals(Present(Artifacts, leftovers));
    var rec := if run.rc == 0 && Obtained(remote) then [RecordVersion(remote.value)] else [];
    assert StagedEffects(cmd, remote, run, leftovers) == [RunDownloader(cmd)] + [] + rec + tail;
    forall a | a in tail ensures !a.ApplyItem? {
      var i :| 0 <= i < |tail| && tail[i] == a;
    }
  }


  /** [int(x) for x in parts]; None where some int() raises. */
  function ParseInts(parts: seq<string>): Option<seq<int>> {
    AllOf(parts, ParseInt)
  }

  /** [f(x) for x in xs] for an f that may fail: None where some f(x) does. */
  function AllOf<T>(xs: seq<T>, f: T -> Option<int>): Option<seq<int>> {
    if xs == [] then Some([])
    else
      var head := f(xs[0]);
      var rest := AllOf(xs[1..], f);
      if head.Some? && rest.Some? then Some([head.value] + rest.value) else None
  }

  /** The comprehension succeeds exactly when every call does, and then
      holds their values in order. */
  lemma {:induction false} AllOfSpec<T>(xs: seq<T>, f: T -> Option<int>)
    ensures AllOf(xs, f).Some? <==> forall i :: 0 <= i < |xs| ==> f(xs[i]).Some?
    ensures AllOf(xs, f).Some? ==> (|AllOf(xs, f).value| == |xs|
      && forall i :: 0 <= i < |xs| ==> f(xs[i]) == Some(AllOf(xs, f).value[i]))
  {
    if xs != [] {
      AllOfSpec(xs[1..], f);
      assert forall i :: 1 <= i < |xs| ==> xs[1..][i - 1] == xs[i];
      var r := AllOf(xs, f);
      if r.Some? {
        var rest := AllOf(xs[1..], f).value;
        assert r.value == [f(xs[0]).value] + rest;
        assert forall i :: 1 <= i < |xs| ==> r.value[i] == rest[i - 1];
      }
    }
  }

  /** parse_ver: the dot-separated components as integers. */
  function ParseVer(v: string): Option<seq<int>> {
    ParseInts(SplitOn(v, '.'))
  }

  /** "a.b.c" splits into its three components. */
  lemma SplitThree(v: string, a: string, b: string, c: string)
    requires v == a + "." + b + "." + c
    requires '.' !in a && '.' !in b && '.' !in c
    ensures SplitOn(v, '.') == [a, b, c]
  {
    assert JoinOn([c], '.') == c;
    assert JoinOn([b, c], '.') == b + "." + c;
    assert JoinOn([a, b, c], '.') == a + "." + (b + "." + c);
    assert v == a + "." + (b + "." + c);
    JoinSplit([a, b, c], '.');
  }

  /** int() of a plain digit string is its decimal value. */
  lemma ParseIntDigits(s: string)
    requires IsDigits(s)
    ensures ParseInt(s) == Some(DigitsValue(s) as int)
  {
    StripTrimmed(s);
  }

  /** parse_ver of a three-component version with plain digit components. */
  lemma ParseVerThree(v: string, a: string, b: string, c: string)
    requires SplitOn(v, '.') == [a, b, c]
    requires IsDigits(a) && IsDigits(b) && IsDigits(c)
    ensures ParseVer(v) == Some([DigitsValue(a) as int, DigitsValue(b) as int, DigitsValue(c) as int])
  {
    ParseIntDigits(a);
    ParseIntDigits(b);
    ParseIntDigits(c);
    AllOfThree(a, b, c, ParseInt);
  }

  /** The comprehension over three items that all succeed. */
  lemma AllOfThree<T>(a: T, b: T, c: T, f: T -> Option<int>)
    requires f(a).Some? && f(b).Some? && f(c).Some?
    ensures AllOf([a, b, c], f) == Some([f(a).value, f(b).value, f(c).value])
  {
    assert [c][1..] == [];
    assert AllOf([c][1..], f) == Some([]);
    assert [f(c).value] + [] == [f(c).value];
    assert AllOf([c], f) == Some([f(c).value]);
    assert [b, c][1..] == [c];
    assert AllOf([b, c], f) == Some([f(b).value] + [f(c).value]);
    assert [a, b, c][1..] == [b, c];
    assert AllOf([a, b, c], f) == Some([f(a).value] + ([f(b).value] + [f(c).value]));
    assert [f(a).value] + ([f(b).value] + [f(c).value]) == [f(a).value, f(b).value, f(c).value];
  }

  /** The comparison is numeric per component: 1.10.0 is newer than 1.9.0,
      although it sorts first as a string. */
  lemma ComponentwiseNotLexicographic(newer: string, older: string)
    requires newer == "1.10.0" && older == "1.9.0"
    ensures ParseVer(newer) == Some([1, 10, 0])
    ensures ParseVer(older) == Some([1, 9, 0])
    ensures IntListLess(ParseVer(older).value, ParseVer(newer).value)
    ensures StrLess(newer, older)
  {
    var one, ten, nine, zero := "1", "10", "9", "0";
    assert newer == one + "." + ten + "." + zero;
    assert older == one + "." + nine + "." + zero;
    SplitThree(newer, one, ten, zero);
    SplitThree(older, one, nine, zero);
    assert DigitsValue(zero) == 0 && DigitsValue(one) == 1 && DigitsValue(nine) == 9;
    assert DigitsValue(ten) == 10 by { assert ten[..1] == one; }
    ParseVerThree(newer, one, ten, zero);
    ParseVerThree(older, one, nine, zero);
    assert [1, 9, 0][1..] == [9, 0] && [1, 10, 0][1..] == [10, 0];
    TextOrder(newer, older);
  }

  /** As text, "1.10.0" sorts before "1.9.0": they first differ at '1'
      against '9'. */
  lemma TextOrder(newer: string, older: string)
    requires newer == "1.10.0" && older == "1.9.0"
    ensures StrLess(newer, older)
  {
    assert newer[1..] == ".10.0" && older[1..] == ".9.0";
    assert newer[1..][1..] == "10.0" && older[1..][1..] == "9.0";
  }

  /** Result of scanning the published version file line by line. */
  datatype ManifestScan = NoVersionLine | MalformedLine | Declared(version: string)

  /** The first line starting with __version__ decides: the text between its
      first two double quotes, or a malformed line when it has no quote. */
  function ManifestVersion(lines: seq<string>): ManifestScan {
    if lines == [] then NoVersionLine
    else if StartsWith(lines[0], "__version__") then
      var parts := SplitOn(lines[0], '"');
      if |parts| < 2 then MalformedLine else Declared(parts[1])
    else ManifestVersion(lines[1..])
  }

  /** No version line at all, or the first one decides. */
  lemma {:induction false} ManifestVersionSpec(lines: seq<string>, key: string)
    requires key == "__version__"
    ensures var r := ManifestVersion(lines);
      && (r.NoVersionLine? <==> forall i :: 0 <= i < |lines| ==> !StartsWith(lines[i], key))
      && (!r.NoVersionLine? ==> exists i :: 0 <= i < |lines| && FirstDecides(lines, key, i, r))
  {
    if lines != [] && !StartsWith(lines[0], key) {
      var r := ManifestVersion(lines[1..]);
      ManifestVersionSpec(lines[1..], key);
      assert forall i :: 1 <= i < |lines| ==> lines[1..][i - 1] == lines[i];
      if !r.NoVersionLine? {
        var i :| 0 <= i < |lines[1..]| && FirstDecides(lines[1..], key, i, r);
        assert FirstDecides(lines, key, i + 1, r);
      }
    } else if lines != [] {
      assert FirstDecides(lines, key, 0, ManifestVersion(lines));
    }
  }

  /** Line i is the first to start with `key`, and its quotes give r. */
  predicate FirstDecides(lines: seq<string>, key: string, i: int, r: ManifestScan)
    requires 0 <= i < |lines|
  {
    && StartsWith(lines[i], key)
    && (forall j :: 0 <= j < i ==> !StartsWith(lines[j], key))
    && (r.MalformedLine? <==> |SplitOn(lines[i], '"')| < 2)
    && (r.Declared? ==> |SplitOn(lines[i], '"')| >= 2 && r.version == SplitOn(lines[i], '"')[1])
  }

  /** The `for line in content.splitlines()` loop with its break. */
  method ScanManifest(content: string) returns (s: ManifestScan)
    ensures s == ManifestVersion(SplitLines(content))
  {
    var lines := SplitLines(content);
    var i := 0;
    while i < |lines|
      invariant 0 <= i <= |lines|
      invariant ManifestVersion(lines[i..]) == ManifestVersion(lines)
    {
      assert lines[i..][1..] == lines[i + 1..];
      if StartsWith(lines[i], "__version__") {
        var parts := SplitOn(lines[i], '"');
        if |parts| < 2 {
          return MalformedLine;
        }
        return Declared(parts[1]);
      }
      i := i + 1;
    }
    return NoVersionLine;
  }

  datatype SelfUpdateCheck = Disabled | CheckFailed | NotParsed | Current | Newer(version: string)

  /** check_self_update up to the download: `fetched` is the published version
      file, None when fetching it raised; `local` is version.__version__. */
  function SelfUpdateDecision(config: Config, fetched: Option<string>, local: string): SelfUpdateCheck {
    if !Truthy(Get(config, "manager_auto_update", VBool(true))) then Disabled
    else if fetched.None? then CheckFailed
    else match ManifestVersion(SplitLines(fetched.value))
      case MalformedLine => CheckFailed
      case NoVersionLine => NotParsed
      case Declared(v) =>
        if v == "" then NotParsed else CompareVersions(v, local)
  }

  /** `parse_ver(remote) > parse_ver(local)`, CheckFailed where int() raises. */
  function CompareVersions(v: string, local: string): SelfUpdateCheck {
    var remote := ParseVer(v);
    var mine := ParseVer(local);
    if remote.None? || mine.None? then CheckFailed
    else if IntListLess(mine.value, remote.value) then Newer(v)
    else Current
  }

  /** An update is offered only for a strictly greater version: never for the
      running version itself and never for an older one. */
  lemma NewerIsStrictlyGreater(config: Config, fetched: Option<string>, local: string, v: string)
    requires SelfUpdateDecision(config, fetched, local) == Newer(v)
    ensures ParseVer(v).Some? && ParseVer(local).Some?
    ensures IntListLess(ParseVer(local).value, ParseVer(v).value)
    ensures !IntListLess(ParseVer(v).value, ParseVer(local).value)
    ensures v != local
  {
    DecisionCompares(config, fetched, local, v);
    IntListLessAsymmetric(ParseVer(local).value, ParseVer(v).value);
    IntListLessIrreflexive(ParseVer(local).value);
  }

  /** A Newer decision is the comparison of the declared version with the
      local one. */
  lemma DecisionCompares(config: Config, fetched: Option<string>, local: string, v: string)
    requires SelfUpdateDecision(config, fetched, local) == Newer(v)
    ensures CompareVersions(v, local) == Newer(v)
  {
    var d := ManifestVersion(SplitLines(fetched.value));
    assert d.Declared? && CompareVersions(d.version, local) == Newer(v);
    assert CompareVersions(d.version, local).version == d.version;
  }

  /** A published version equal to the local one is reported as current. */
  lemma SameVersionIsCurrent(config: Config, content: string, local: string)
    requires Truthy(Get(config, "manager_auto_update", VBool(true)))
    requires ManifestVersion(SplitLines(content)) == Declared(local)
    requires local != "" && ParseVer(local).Some?
    ensures SelfUpdateDecision(config, Some(content), local) == Current
  {
    IntListLessIrreflexive(ParseVer(local).value);
  }
}
