/** Finding and stopping a server that is already running: the process ids
    taken from the wmic listing on Windows or from pgrep elsewhere
    (stop_existing_server_process in the manager, stop_server in the script). */
module Processes {
  import opened PyText
  import opened Host

  /** The pid announced by one wmic line: the line mentions HytaleServer.jar
      and its last whitespace-separated word is all digits. The source also
      strips that word, which changes nothing (LastWordIsStripped). */
  function WmicPid(line: string): Option<string> {
    if !Contains(line, ServerJar) then None
    else
      var parts := Words(line);
      if parts == [] then None
      else
        var pid := parts[|parts| - 1];
        if IsDigits(pid) then Some(pid) else None
  }

  /** A pid comes only from a line naming the server jar, and is a number. */
  lemma WmicPidSpec(line: string)
    ensures WmicPid(line).Some? ==> Contains(line, ServerJar) && IsDigits(WmicPid(line).value)
  {
  }

  /** The pids of all wmic lines, in order. */
  function WmicPids(lines: seq<string>): seq<string> {
    Collect(lines, WmicPid)
  }

  /** What f yields over xs, in order, skipping the lines it yields nothing for. */
  function Collect<T, U>(xs: seq<T>, f: T -> Option<U>): (r: seq<U>)
    ensures |r| <= |xs|
  {
    if xs == [] then []
    else
      var y := f(xs[0]);
      var rest := Collect(xs[1..], f);
      if y.Some? then [y.value] + rest else rest
  }

  /** The `for line in ...: if ...: found = True` loop, for any f. */
  method CollectEach<T, U>(xs: seq<T>, f: T -> Option<U>) returns (ys: seq<U>, found: bool)
    ensures ys == Collect(xs, f)
    ensures found <==> ys != []
  {
    ys := [];
    found := false;
    var i := 0;
    while i < |xs|
      invariant 0 <= i <= |xs|
      invariant ys + Collect(xs[i..], f) == Collect(xs, f)
      invariant found <==> ys != []
    {
      assert xs[i..][1..] == xs[i + 1..];
      var y := f(xs[i]);
      if y.Some? {
        ys := ys + [y.value];
        found := true;
      }
      i := i + 1;
    }
    assert xs[|xs|..] == [];
  }

  /** A word of split() has no surrounding whitespace, so strip() leaves it
      unchanged. */
  lemma LastWordIsStripped(line: string)
    requires Words(line) != []
    ensures var w := Words(line)[|Words(line)| - 1]; Strip(w) == w
  {
    WordsAreWords(line);
    var w := Words(line)[|Words(line)| - 1];
    assert w[0] in w && w[|w| - 1] in w;
    StripTrimmed(w);
  }

  /** Every pid handed to taskkill is a number. */
  lemma {:induction false} WmicPidsAreNumbers(lines: seq<string>)
    ensures forall i :: 0 <= i < |WmicPids(lines)| ==> IsDigits(WmicPids(lines)[i])
  {
    if lines != [] {
      WmicPidsAreNumbers(lines[1..]);
      var pid := WmicPid(lines[0]);
      WmicPidSpec(lines[0]);
      var rest := WmicPids(lines[1..]);
      if pid.Some? {
        assert WmicPids(lines) == [pid.value] + rest;
        assert forall i :: 1 <= i < |WmicPids(lines)| ==> WmicPids(lines)[i] == rest[i - 1];
      }
    }
  }

  /** No pid at all exactly when no line announces one. */
  lemma {:induction false} NoPidsIffNoRow(lines: seq<string>)
    ensures WmicPids(lines) == [] <==> forall j :: 0 <= j < |lines| ==> WmicPid(lines[j]).None?
  {
    if lines != [] {
      NoPidsIffNoRow(lines[1..]);
      assert forall j :: 1 <= j < |lines| ==> lines[1..][j - 1] == lines[j];
    }
  }

  /** The Windows loop of hytale_updater.stop_server: every pid is killed and
      `found` records whether any was. */
  method ScanWmic(output: string) returns (pids: seq<string>, found: bool)
    ensures pids == WmicPids(SplitLines(output))
    ensures found <==> pids != []
  {
    pids, found := CollectEach(SplitLines(output), WmicPid);
  }

  /** The pids reported by pgrep -f HytaleServer.jar: the lines of the
      stripped output, when pgrep exits 0 with some output. */
  function PgrepPids(rc: int, stdout: string): (r: seq<string>)
    ensures r != [] <==> rc == 0 && Strip(stdout) != []
    ensures r != [] ==> r == SplitLines(Strip(stdout))
    ensures r != [] ==> exists a :: StrippedAt(stdout, Strip(stdout), a)
  {
    StripSpec(stdout);
    if rc == 0 && Strip(stdout) != [] then SplitLines(Strip(stdout)) else []
  }

  /** What the process probe returned. */
  datatype Probe = ProbeRaised | WmicListing(text: string) | PgrepExited(rc: int, stdout: string)

  /** The pids killed, one KillPid each, in order. */
  function KillTargets(p: Probe): seq<string> {
    match p
    case ProbeRaised => []
    case WmicListing(text) => WmicPids(SplitLines(text))
    case PgrepExited(rc, stdout) => PgrepPids(rc, stdout)
  }

  function Kills(pids: seq<string>): (r: seq<Action>)
    ensures |r| == |pids|
    ensures forall i :: 0 <= i < |r| ==> r[i] == KillPid(pids[i])
  {
    if pids == [] then [] else [KillPid(pids[0])] + Kills(pids[1..])
  }

  /** What hytale_updater.stop_server does: the kills, and whether it then
      pauses five seconds for the server to close. */
  datatype StopOutcome = StopOutcome(kills: seq<Action>, waited: bool)

  function ScriptStop(p: Probe): StopOutcome {
    match p
    case ProbeRaised => StopOutcome([], false)
    case WmicListing(text) =>
      var pids := WmicPids(SplitLines(text));
      StopOutcome(Kills(pids), pids != [])
    case PgrepExited(rc, stdout) =>
      var pids := PgrepPids(rc, stdout);
      StopOutcome(Kills(pids), rc == 0 && Strip(stdout) != [])
  }

  /** The script pauses exactly when it killed something, on both platforms. */
  lemma ScriptWaitsIffKilled(p: Probe)
    ensures ScriptStop(p).waited <==> ScriptStop(p).kills != []
  {
  }

  /** Only lines that mention the server jar and end in a number yield a
      pid: a listing without HytaleServer.jar kills nothing. */
  lemma UnrelatedJavaSurvives(text: string)
    requires forall j :: 0 <= j < |SplitLines(text)| ==> !Contains(SplitLines(text)[j], ServerJar)
    ensures KillTargets(WmicListing(text)) == []
  {
    NoPidsIffNoRow(SplitLines(text));
  }

  /** A wmic row "<command line> <pid>" whose command line runs the server
      yields that pid. */
  lemma WmicRowYieldsPid(cmdline: string, pid: string)
    requires Contains(cmdline, ServerJar)
    requires IsDigits(pid)
    ensures WmicPid(cmdline + " " + pid) == Some(pid)
  {
    var line := cmdline + " " + pid;
    assert line == cmdline + (" " + pid);
    ContainsPrefix(cmdline, " " + pid);
    LastWord(cmdline, pid);
  }

  lemma {:induction false} ContainsPrefix(s: string, t: string)
    requires Contains(s, ServerJar)
    ensures Contains(s + t, ServerJar)
  {
    if !StartsWith(s, ServerJar) {
      assert (s + t)[1..] == s[1..] + t;
      ContainsPrefix(s[1..], t);
    } else {
      assert (s + t)[..|ServerJar|] == s[..|ServerJar|];
    }
  }

  /** The last word of "<anything> <digits>" is the digits, and it is not
      the only word when the text before it starts with a non-space. */
  lemma {:induction false} LastWord(s: string, pid: string)
    requires IsDigits(pid)
    ensures var w := Words(s + " " + pid);
      && w != [] && w[|w| - 1] == pid
      && (s != [] && !IsSpace(s[0]) ==> |w| >= 2)
  {
    var x := s + " " + pid;
    if s == [] {
      assert x == [' '] + pid;
      assert x[1..] == pid;
      DigitWord(pid);
    } else {
      assert x[1..] == s[1..] + " " + pid;
      assert x[0] == s[0];
      LastWord(s[1..], pid);
      if |s| == 1 {
        assert x[1] == ' ';
      } else {
        assert x[1] == s[1..][0];
      }
    }
  }

  /** A digit string is a single word. */
  lemma {:induction false} DigitWord(pid: string)
    requires IsDigits(pid)
    ensures Words(pid) == [pid]
  {
    assert !IsSpace(pid[0]);
    if |pid| > 1 {
      assert IsDigits(pid[1..]) by {
        forall i | 0 <= i < |pid[1..]| ensures IsDigit(pid[1..][i]) {
          assert pid[1..][i] == pid[i + 1];
        }
      }
      DigitWord(pid[1..]);
      assert !IsSpace(pid[1]);
      assert pid == [pid[0]] + pid[1..];
    } else {
      assert pid == [pid[0]];
    }
  }
}
