/** World backups (backup_world): the archive name, which names count as
    backups, and which of them the retention rule deletes. */
module Retention {
  import opened PyText
  import opened PyOrder
  import opened Settings
  import opened Host

  const BackupPrefix := "world_backup_"

  /** The backups that retention considers: world_backup_*.zip. */
  predicate IsBackupName(f: string) {
    StartsWith(f, BackupPrefix) && EndsWith(f, ".zip")
  }

  /** The list comprehension over os.listdir(BACKUP_DIR), keeping order and
      multiplicity of the backup names. */
  function Candidates(listing: seq<string>): (r: seq<string>)
    ensures forall x :: x in r <==> x in listing && IsBackupName(x)
    ensures forall x :: multiset(r)[x] == if IsBackupName(x) then multiset(listing)[x] else 0
  {
    if listing == [] then []
    else
      assert listing == [listing[0]] + listing[1..];
      if IsBackupName(listing[0]) then [listing[0]] + Candidates(listing[1..])
      else Candidates(listing[1..])
  }

  /** backups[:-max_b] of the sorted candidates when there are more than
      max_b of them, else nothing. */
  function BackupsToDelete(listing: seq<string>, maxB: int): seq<string> {
    var backups := SortStrings(Candidates(listing));
    if |backups| > maxB then SliceTo(backups, -maxB) else []
  }

  /** max_backups = 0 deletes nothing: backups[:-0] is empty. */
  lemma ZeroLimitKeepsEverything(listing: seq<string>)
    ensures BackupsToDelete(listing, 0) == []
  {
  }

  /** At most max_backups backups: nothing is deleted. */
  lemma UnderLimitKeepsEverything(listing: seq<string>, maxB: int)
    requires |Candidates(listing)| <= maxB
    ensures BackupsToDelete(listing, maxB) == []
  {
    SortStringsCorrect(Candidates(listing));
  }

  /** In a sorted list every element of a prefix sorts no later than every
      element of the rest. */
  lemma SortedSplit(b: seq<string>, n: int)
    requires SortedStrs(b) && 0 <= n <= |b|
    ensures multiset(b) == multiset(b[..n]) + multiset(b[n..])
    ensures forall x, y :: x in b[..n] && y in multiset(b[n..]) ==> StrLeq(x, y)
  {
    assert b == b[..n] + b[n..];
    forall x, y | x in b[..n] && y in multiset(b[n..]) ensures StrLeq(x, y) {
      var i :| 0 <= i < n && b[..n][i] == x;
      var j :| 0 <= j < |b| - n && b[n..][j] == y;
      assert b[i] == x && b[n + j] == y;
    }
  }

  /** A positive limit deletes exactly the surplus, oldest first by name:
      every deleted name sorts no later than every kept backup, and only
      backups are deleted. */
  lemma PositiveLimitDeletesOldest(listing: seq<string>, maxB: int)
    requires maxB > 0
    ensures var c := Candidates(listing);
      var d := BackupsToDelete(listing, maxB);
      && |d| == (if |c| > maxB then |c| - maxB else 0)
      && multiset(d) <= multiset(c)
      && SortedStrs(d)
      && (forall x :: x in d ==> x in listing && IsBackupName(x))
      && (forall x, y :: x in d && y in multiset(c) - multiset(d) ==> StrLeq(x, y))
  {
    var c := Candidates(listing);
    var b := SortStrings(c);
    var d := BackupsToDelete(listing, maxB);
    SortStringsCorrect(c);
    var n := if |c| > maxB then |b| - maxB else 0;
    assert d == b[..n];
    PrefixOfSorted(c, b, n);
  }

  /** A prefix of a sorted permutation of `c` is itself sorted, drawn from
      `c`, and sorts no later than what remains of `c`. */
  lemma PrefixOfSorted(c: seq<string>, b: seq<string>, n: int)
    requires SortedStrs(b) && multiset(b) == multiset(c) && 0 <= n <= |b|
    ensures var d := b[..n];
      && multiset(d) <= multiset(c)
      && SortedStrs(d)
      && (forall x :: x in d ==> x in c)
      && (forall x, y :: x in d && y in multiset(c) - multiset(d) ==> StrLeq(x, y))
  {
    var d := b[..n];
    SortedSplit(b, n);
    assert multiset(c) - multiset(d) == multiset(b[n..]);
    forall x | x in d ensures x in c {
      assert x in multiset(d);
      assert x in multiset(c);
    }
  }

  /** A negative limit deletes the |max_backups| oldest backups (all of them
      when there are fewer): backups[:-max_b] counts from the front. */
  lemma NegativeLimitDeletesFromFront(listing: seq<string>, maxB: int)
    requires maxB < 0
    ensures var b := SortStrings(Candidates(listing));
      BackupsToDelete(listing, maxB) == b[..if -maxB < |b| then -maxB else |b|]
  {
  }

  lemma TwoPositions(s: seq<string>, i: int, j: int)
    requires 0 <= i < j < |s| && s[i] == s[j]
    ensures multiset(s)[s[i]] >= 2
  {
    assert s == s[..j] + s[j..];
    assert s[i] in s[..j];
    assert s[j] in s[j..];
    assert multiset(s) == multiset(s[..j]) + multiset(s[j..]);
  }

  /** With a limit of at least one, the backup whose name sorts after every
      other backup (the one just created) is never deleted. */
  lemma NewestSurvives(listing: seq<string>, maxB: int, newest: string)
    requires maxB >= 1
    requires IsBackupName(newest) && multiset(listing)[newest] == 1
    requires forall x :: x in listing && IsBackupName(x) && x != newest ==> StrLess(x, newest)
    ensures newest !in BackupsToDelete(listing, maxB)
  {
    var c := Candidates(listing);
    var b := SortStrings(c);
    var d := BackupsToDelete(listing, maxB);
    SortStringsCorrect(c);
    if newest in d {
      var n := |b| - maxB;
      assert d == b[..n];
      var i :| 0 <= i < n && b[i] == newest;
      var y := b[|b| - 1];
      assert y in multiset(c);
      assert StrLeq(newest, y);
      if y == newest {
        TwoPositions(b, i, |b| - 1);
        assert false;
      } else {
        StrLessAsymmetric(y, newest);
        assert false;
      }
    }
  }

  function Pow10(w: nat): (p: nat)
    ensures p >= 1
  {
    if w == 0 then 1 else 10 * Pow10(w - 1)
  }

  /** A zero-padded decimal field of width w, as strftime writes %Y and %m. */
  function Pad(n: nat, w: nat): (r: string)
    requires n < Pow10(w)
    ensures |r| == w
  {
    if w == 0 then [] else Pad(n / 10, w - 1) + [DigitChar(n % 10)]
  }

  lemma DecimalLess(x: nat, y: nat)
    ensures x < y <==> x / 10 < y / 10 || (x / 10 == y / 10 && x % 10 < y % 10)
  {
    assert x == 10 * (x / 10) + x % 10;
    assert y == 10 * (y / 10) + y % 10;
  }

  /** Padded fields compare as strings exactly as they compare as numbers. */
  lemma {:induction false} PadLess(x: nat, y: nat, w: nat)
    requires x < Pow10(w) && y < Pow10(w)
    ensures StrLess(Pad(x, w), Pad(y, w)) <==> x < y
    ensures Pad(x, w) == Pad(y, w) <==> x == y
  {
    if w > 0 {
      PadLess(x / 10, y / 10, w - 1);
      var px := Pad(x / 10, w - 1);
      var py := Pad(y / 10, w - 1);
      var cx := DigitChar(x % 10);
      var cy := DigitChar(y % 10);
      StrLessConcat(px, [cx], py, [cy]);
      DecimalLess(x, y);
      StrLessIrreflexive(px);
      if Pad(x, w) == Pad(y, w) {
        assert px == Pad(x, w)[..w - 1] && py == Pad(y, w)[..w - 1];
        assert cx == Pad(x, w)[w - 1] && cy == Pad(y, w)[w - 1];
        assert x == 10 * (x / 10) + x % 10;
        assert y == 10 * (y / 10) + y % 10;
      }
    }
  }

  function RenderLength(ws: seq<nat>, seps: seq<string>): nat
    requires |ws| == |seps| + 1
  {
    if |ws| == 1 then ws[0] else ws[0] + |seps[0]| + RenderLength(ws[1..], seps[1..])
  }

  /** Fields rendered most significant first, each padded to its width and
      followed by its separator. */
  function Render(xs: seq<nat>, ws: seq<nat>, seps: seq<string>): (r: string)
    requires |xs| == |ws| == |seps| + 1
    requires forall i :: 0 <= i < |xs| ==> xs[i] < Pow10(ws[i])
    ensures |r| == RenderLength(ws, seps)
  {
    if |xs| == 1 then Pad(xs[0], ws[0])
    else Pad(xs[0], ws[0]) + seps[0] + Render(xs[1..], ws[1..], seps[1..])
  }

  /** Rendered fields compare as strings exactly as the field lists compare. */
  lemma {:induction false} RenderLess(xs: seq<nat>, ys: seq<nat>, ws: seq<nat>, seps: seq<string>)
    requires |xs| == |ys| == |ws| == |seps| + 1
    requires forall i :: 0 <= i < |xs| ==> xs[i] < Pow10(ws[i]) && ys[i] < Pow10(ws[i])
    ensures StrLess(Render(xs, ws, seps), Render(ys, ws, seps)) <==> IntListLess(xs, ys)
  {
    PadLess(xs[0], ys[0], ws[0]);
    var px := Pad(xs[0], ws[0]);
    var py := Pad(ys[0], ws[0]);
    if |xs| == 1 {
      assert xs[1..] == [] && ys[1..] == [];
    } else {
      var rx := Render(xs[1..], ws[1..], seps[1..]);
      var ry := Render(ys[1..], ws[1..], seps[1..]);
      RenderLess(xs[1..], ys[1..], ws[1..], seps[1..]);
      StrLessConcat(px, seps[0] + rx, py, seps[0] + ry);
      StrLessConcat(seps[0], rx, seps[0], ry);
      StrLessIrreflexive(seps[0]);
      assert px + seps[0] + rx == px + (seps[0] + rx);
      assert py + seps[0] + ry == py + (seps[0] + ry);
      assert IntListLess(xs, ys) <==> xs[0] < ys[0] || (xs[0] == ys[0] && IntListLess(xs[1..], ys[1..]));
    }
  }

  /** Different field lists render differently. */
  lemma {:induction false} RenderInjective(xs: seq<nat>, ys: seq<nat>, ws: seq<nat>, seps: seq<string>)
    requires |xs| == |ys| == |ws| == |seps| + 1
    requires forall i :: 0 <= i < |xs| ==> xs[i] < Pow10(ws[i]) && ys[i] < Pow10(ws[i])
    requires Render(xs, ws, seps) == Render(ys, ws, seps)
    ensures xs == ys
  {
    PadLess(xs[0], ys[0], ws[0]);
    var r := Render(xs, ws, seps);
    var px := Pad(xs[0], ws[0]);
    var py := Pad(ys[0], ws[0]);
    if |xs| == 1 {
      assert xs == [xs[0]] && ys == [ys[0]];
    } else {
      var rx := Render(xs[1..], ws[1..], seps[1..]);
      var ry := Render(ys[1..], ws[1..], seps[1..]);
      assert r == px + seps[0] + rx;
      assert Render(ys, ws, seps) == py + seps[0] + ry;
      assert px == r[..ws[0]] && py == r[..ws[0]];
      assert rx == r[ws[0] + |seps[0]|..] && ry == r[ws[0] + |seps[0]|..];
      RenderInjective(xs[1..], ys[1..], ws[1..], seps[1..]);
      assert xs == [xs[0]] + xs[1..] && ys == [ys[0]] + ys[1..];
    }
  }

  /** The local time at which a backup is made. */
  datatype Stamp = Stamp(year: nat, month: nat, day: nat, hour: nat, minute: nat, second: nat)

  /** The years strftime writes with four digits, and the usual field ranges. */
  predicate ValidStamp(t: Stamp) {
    1000 <= t.year <= 9999 && 1 <= t.month <= 12 && 1 <= t.day <= 31
    && t.hour <= 23 && t.minute <= 59 && t.second <= 59
  }

  function Fields(t: Stamp): seq<nat> {
    [t.year, t.month, t.day, t.hour, t.minute, t.second]
  }

  const Widths: seq<nat> := [4, 2, 2, 2, 2, 2]
  const Separators: seq<string> := ["-", "-", "_", "-", "-"]

  /** strftime("%Y-%m-%d_%H-%M-%S"). */
  function Timestamp(t: Stamp): string
    requires ValidStamp(t)
  {
    assert Pow10(4) == 10000 && Pow10(2) == 100;
    Render(Fields(t), Widths, Separators)
  }

  /** The file make_archive creates: world_backup_<timestamp>.zip. */
  function BackupFile(t: Stamp): (name: string)
    requires ValidStamp(t)
    ensures IsBackupName(name)
  {
    var name := BackupPrefix + Timestamp(t) + ".zip";
    assert name[..|BackupPrefix|] == BackupPrefix;
    assert name[|name| - 4..] == ".zip";
    name
  }

  /** Sorting backup names by name sorts them by creation time, so retention
      deletes the oldest backups. */
  lemma BackupNamesSortByTime(t1: Stamp, t2: Stamp)
    requires ValidStamp(t1) && ValidStamp(t2)
    ensures StrLess(BackupFile(t1), BackupFile(t2)) <==> IntListLess(Fields(t1), Fields(t2))
  {
    assert Pow10(4) == 10000 && Pow10(2) == 100;
    RenderLess(Fields(t1), Fields(t2), Widths, Separators);
    WrappedLess(Timestamp(t1), Timestamp(t2));
  }

  lemma WrappedLess(s1: string, s2: string)
    requires |s1| == |s2|
    ensures StrLess(BackupPrefix + s1 + ".zip", BackupPrefix + s2 + ".zip") <==> StrLess(s1, s2)
  {
    var p, z := BackupPrefix, ".zip";
    Framed(p, z, s1, s2);
  }

  /** A common prefix and suffix do not change how equal-length strings
      compare. */
  lemma Framed(p: string, z: string, s1: string, s2: string)
    requires |s1| == |s2|
    ensures StrLess(p + s1 + z, p + s2 + z) <==> StrLess(s1, s2)
  {
    assert p + s1 + z == p + (s1 + z);
    assert p + s2 + z == p + (s2 + z);
    StrLessConcat(p, s1 + z, p, s2 + z);
    StrLessConcat(s1, z, s2, z);
    StrLessIrreflexive(z);
    StrLessIrreflexive(p);
  }

  /** Backups made at different times get different names. */
  lemma BackupNamesDistinct(t1: Stamp, t2: Stamp)
    requires ValidStamp(t1) && ValidStamp(t2)
    requires BackupFile(t1) == BackupFile(t2)
    ensures t1 == t2
  {
    assert Pow10(4) == 10000 && Pow10(2) == 100;
    var s1 := Timestamp(t1);
    var s2 := Timestamp(t2);
    var n := |BackupPrefix|;
    assert s1 == BackupFile(t1)[n..n + |s1|];
    assert s2 == BackupFile(t2)[n..n + |s2|];
    RenderInjective(Fields(t1), Fields(t2), Widths, Separators);
    assert Fields(t1)[0] == Fields(t2)[0] && Fields(t1)[5] == Fields(t2)[5];
  }

  /** backup_world is on: enable_backups is truthy. */
  predicate BackupsOn(config: Config) {
    Truthy(Get(config, "enable_backups", VBool(true)))
  }

  /** backup_world raises: it reaches os.makedirs for universe/backups, which
      sits before its try, and `dirOk` (the directory exists or is created)
      is false. */
  predicate BackupRaises(config: Config, worldExists: bool, dirOk: bool) {
    BackupsOn(config) && worldExists && !dirOk
  }

  /** The effects of backup_world: `now` is the local time, `worldExists`
      whether universe/worlds exists, `dirOk` whether universe/backups exists
      or is created, `archiveOk` whether make_archive succeeded, `listing`
      the backup directory afterwards. */
  function BackupPlan(config: Config, now: Stamp, worldExists: bool, dirOk: bool, archiveOk: bool,
                      listing: seq<string>): seq<Action>
    requires ValidStamp(now)
  {
    if !BackupsOn(config) || !worldExists || !dirOk then []
    else if !archiveOk then [CreateArchive(BackupFile(now))]
    else match PyInt(Get(config, "max_backups", VInt(3)))
      case None => [CreateArchive(BackupFile(now))]
      case Some(maxB) => [CreateArchive(BackupFile(now))] + Deletions(BackupsToDelete(listing, maxB))
  }

  function Deletions(names: seq<string>): (r: seq<Action>)
    ensures |r| == |names|
    ensures forall i :: 0 <= i < |r| ==> r[i] == DeleteBackup(names[i])
  {
    if names == [] then [] else [DeleteBackup(names[0])] + Deletions(names[1..])
  }

  /** A backup just created with a later time than every other backup in
      the directory survives its own pruning whenever max_backups >= 1. */
  lemma FreshBackupSurvives(config: Config, now: Stamp, listing: seq<string>, maxB: int)
    requires ValidStamp(now)
    requires PyInt(Get(config, "max_backups", VInt(3))) == Some(maxB) && maxB >= 1
    requires multiset(listing)[BackupFile(now)] == 1
    requires forall x :: x in listing && IsBackupName(x) && x != BackupFile(now) ==> StrLess(x, BackupFile(now))
    ensures DeleteBackup(BackupFile(now)) !in BackupPlan(config, now, true, true, true, listing)
  {
    var plan := BackupPlan(config, now, true, true, true, listing);
    NewestSurvives(listing, maxB, BackupFile(now));
    if BackupsOn(config) {
      var dels := Deletions(BackupsToDelete(listing, maxB));
      assert plan == [CreateArchive(BackupFile(now))] + dels;
    }
  }
}
