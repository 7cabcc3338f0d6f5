/** Python's comparison of strings and of lists of ints, sorted() on a list of
    strings, and the slice s[:stop]. */
module PyOrder {

  /** `a < b` on Python strings: code point by code point, a proper prefix first. */
  predicate StrLess(a: string, b: string) {
    if a == [] then b != []
    else b != [] && (a[0] < b[0] || (a[0] == b[0] && StrLess(a[1..], b[1..])))
  }

  predicate StrLeq(a: string, b: string) {
    a == b || StrLess(a, b)
  }

  lemma {:induction false} StrLessIrreflexive(a: string)
    ensures !StrLess(a, a)
  {
    if a != [] {
      StrLessIrreflexive(a[1..]);
    }
  }

  lemma {:induction false} StrLessTransitive(a: string, b: string, c: string)
    requires StrLess(a, b) && StrLess(b, c)
    ensures StrLess(a, c)
  {
    if a != [] && a[0] == b[0] && b[0] == c[0] {
      StrLessTransitive(a[1..], b[1..], c[1..]);
    }
  }

  lemma {:induction false} StrLessTotal(a: string, b: string)
    ensures a == b || StrLess(a, b) || StrLess(b, a)
  {
    if a != [] && b != [] && a[0] == b[0] {
      StrLessTotal(a[1..], b[1..]);
      if a[1..] == b[1..] {
        assert a == [a[0]] + a[1..] && b == [b[0]] + b[1..];
      }
    }
  }

  lemma StrLessAsymmetric(a: string, b: string)
    requires StrLess(a, b)
    ensures !StrLess(b, a)
  {
    if StrLess(b, a) {
      StrLessTransitive(a, b, a);
      StrLessIrreflexive(a);
    }
  }

  lemma StrLeqTransitive(a: string, b: string, c: string)
    requires StrLeq(a, b) && StrLeq(b, c)
    ensures StrLeq(a, c)
  {
    if a != b && b != c {
      StrLessTransitive(a, b, c);
    }
  }

  /** Comparing two strings that start with pieces of equal length: the
      first pieces decide unless they are equal. */
  lemma {:induction false} StrLessConcat(a1: string, r1: string, a2: string, r2: string)
    requires |a1| == |a2|
    ensures StrLess(a1 + r1, a2 + r2) <==> StrLess(a1, a2) || (a1 == a2 && StrLess(r1, r2))
  {
    if a1 == [] {
      assert a1 + r1 == r1 && a2 + r2 == r2;
    } else {
      assert (a1 + r1)[0] == a1[0] && (a2 + r2)[0] == a2[0];
      assert (a1 + r1)[1..] == a1[1..] + r1 && (a2 + r2)[1..] == a2[1..] + r2;
      StrLessConcat(a1[1..], r1, a2[1..], r2);
      assert a1 == a2 <==> a1[0] == a2[0] && a1[1..] == a2[1..] by {
        if a1[0] == a2[0] && a1[1..] == a2[1..] {
          assert a1 == [a1[0]] + a1[1..] && a2 == [a2[0]] + a2[1..];
        }
      }
    }
  }

  predicate SortedStrs(s: seq<string>) {
    forall i, j :: 0 <= i < j < |s| ==> StrLeq(s[i], s[j])
  }

  function Insert(x: string, s: seq<string>): seq<string> {
    if s == [] then [x]
    else if StrLeq(x, s[0]) then [x] + s
    else [s[0]] + Insert(x, s[1..])
  }

  /** sorted() on a list of strings, as an insertion sort. */
  function SortStrings(s: seq<string>): seq<string> {
    if s == [] then [] else Insert(s[0], SortStrings(s[1..]))
  }

  lemma {:induction false} InsertPermutes(x: string, s: seq<string>)
    ensures multiset(Insert(x, s)) == multiset(s) + multiset{x}
    ensures |Insert(x, s)| == |s| + 1
  {
    if s != [] && !StrLeq(x, s[0]) {
      InsertPermutes(x, s[1..]);
      assert s == [s[0]] + s[1..];
    }
  }

  lemma {:induction false} InsertSorted(x: string, s: seq<string>)
    requires SortedStrs(s)
    ensures SortedStrs(Insert(x, s))
  {
    if s == [] {
    } else if StrLeq(x, s[0]) {
      forall j | 0 <= j < |s| ensures StrLeq(x, s[j]) {
        if j > 0 {
          StrLeqTransitive(x, s[0], s[j]);
        }
      }
      ConsSorted(x, s);
    } else {
      StrLessTotal(x, s[0]);
      InsertSorted(x, s[1..]);
      assert forall k :: 0 <= k < |s[1..]| ==> s[1..][k] == s[k + 1];
      InsertBelow(s[0], x, s[1..]);
      ConsSorted(s[0], Insert(x, s[1..]));
    }
  }

  /** A lower bound of x and of every element of u bounds Insert(x, u). */
  lemma InsertBelow(h: string, x: string, u: seq<string>)
    requires StrLeq(h, x)
    requires forall k :: 0 <= k < |u| ==> StrLeq(h, u[k])
    ensures forall j :: 0 <= j < |Insert(x, u)| ==> StrLeq(h, Insert(x, u)[j])
  {
    var t := Insert(x, u);
    InsertPermutes(x, u);
    forall j | 0 <= j < |t| ensures StrLeq(h, t[j]) {
      assert t[j] in multiset(t);
      if t[j] != x {
        assert t[j] in multiset(u);
        var k :| 0 <= k < |u| && u[k] == t[j];
      }
    }
  }

  /** An ordered list stays ordered under a new first element that bounds it. */
  lemma ConsSorted(h: string, t: seq<string>)
    requires SortedStrs(t)
    requires forall j :: 0 <= j < |t| ==> StrLeq(h, t[j])
    ensures SortedStrs([h] + t)
  {
    var r := [h] + t;
    forall i, j | 0 <= i < j < |r| ensures StrLeq(r[i], r[j]) {
      assert r[j] == t[j - 1];
      if i > 0 {
        assert r[i] == t[i - 1];
      }
    }
  }

  /** sorted() returns an ordered permutation of its input. */
  lemma SortStringsCorrect(s: seq<string>)
    ensures SortedStrs(SortStrings(s))
    ensures multiset(SortStrings(s)) == multiset(s)
    ensures |SortStrings(s)| == |s|
  {
    SortStringsSorted(s);
    SortStringsPermutes(s);
  }

  lemma {:induction false} SortStringsSorted(s: seq<string>)
    ensures SortedStrs(SortStrings(s))
  {
    if s != [] {
      SortStringsSorted(s[1..]);
      InsertSorted(s[0], SortStrings(s[1..]));
    }
  }

  lemma {:induction false} SortStringsPermutes(s: seq<string>)
    ensures multiset(SortStrings(s)) == multiset(s)
    ensures |SortStrings(s)| == |s|
  {
    if s != [] {
      SortStringsPermutes(s[1..]);
      InsertPermutes(s[0], SortStrings(s[1..]));
      TailMultiset(s);
    }
  }

  /** Any two ordered permutations of one list are equal, so the insertion sort
      above yields exactly what Python's sorted() yields. */
  lemma {:induction false} SortedUnique(a: seq<string>, b: seq<string>)
    requires SortedStrs(a) && SortedStrs(b)
    requires multiset(a) == multiset(b)
    ensures a == b
  {
    if a != [] {
      SortedHeads(a, b);
      SortedTail(a);
      SortedTail(b);
      TailMultiset(a);
      TailMultiset(b);
      SortedUnique(a[1..], b[1..]);
      assert a == [a[0]] + a[1..] && b == [b[0]] + b[1..];
    }
  }

  lemma TailMultiset(a: seq<string>)
    requires a != []
    ensures multiset(a[1..]) == multiset(a) - multiset{a[0]}
    ensures multiset(a) == multiset(a[1..]) + multiset{a[0]}
  {
    assert a == [a[0]] + a[1..];
  }

  /** Two ordered permutations of a non-empty list start alike. */
  lemma SortedHeads(a: seq<string>, b: seq<string>)
    requires SortedStrs(a) && SortedStrs(b) && a != []
    requires multiset(a) == multiset(b)
    ensures b != [] && a[0] == b[0]
  {
    assert a[0] in multiset(b);
    assert b[0] in multiset(a);
    var i :| 0 <= i < |a| && a[i] == b[0];
    var j :| 0 <= j < |b| && b[j] == a[0];
    assert StrLeq(a[0], b[0]) by { assert i == 0 || StrLeq(a[0], a[i]); }
    assert StrLeq(b[0], a[0]) by { assert j == 0 || StrLeq(b[0], b[j]); }
    if a[0] != b[0] {
      StrLessAsymmetric(a[0], b[0]);
    }
  }

  lemma SortedTail(a: seq<string>)
    requires SortedStrs(a) && a != []
    ensures SortedStrs(a[1..])
  {
    assert forall i, j :: 0 <= i < j < |a| - 1 ==> a[1..][i] == a[i + 1] && a[1..][j] == a[j + 1];
  }

  /** The end index Python uses for s[:stop]. */
  function PyStop(len: nat, stop: int): (k: nat)
    ensures k <= len
  {
    if stop < 0 then (if len + stop < 0 then 0 else len + stop)
    else if stop > len then len
    else stop
  }

  /** s[:stop] with Python's negative-index and clamping rules: a prefix of
      `s`; a non-negative stop keeps `stop` elements (all when there are
      fewer); a negative stop drops the last `-stop` (all when there are
      fewer). */
  function SliceTo<T>(s: seq<T>, stop: int): (r: seq<T>)
    ensures |r| <= |s| && r == s[..|r|]
    ensures 0 <= stop ==> |r| == (if stop < |s| then stop else |s|)
    ensures stop < 0 ==> |s| - |r| == (if -stop < |s| then -stop else |s|)
  {
    s[..PyStop(|s|, stop)]
  }

  /** `a < b` on Python lists of ints: the first differing element decides,
      a proper prefix comes first. */
  predicate IntListLess(a: seq<int>, b: seq<int>) {
    if a == [] then b != []
    else b != [] && (a[0] < b[0] || (a[0] == b[0] && IntListLess(a[1..], b[1..])))
  }

  /** The shape of a witness that a < b: a common prefix of length k, after which
      either a ends and b does not, or a[k] < b[k]. */
  ghost predicate LessAt(a: seq<int>, b: seq<int>, k: int) {
    0 <= k <= |a| && k <= |b| && a[..k] == b[..k]
    && ((k == |a| && k < |b|) || (k < |a| && k < |b| && a[k] < b[k]))
  }

  lemma {:induction false} IntListLessHasWitness(a: seq<int>, b: seq<int>)
    requires IntListLess(a, b)
    ensures exists k :: LessAt(a, b, k)
  {
    if a == [] || a[0] < b[0] {
      assert LessAt(a, b, 0);
    } else {
      IntListLessHasWitness(a[1..], b[1..]);
      var k :| LessAt(a[1..], b[1..], k);
      assert a[..k + 1] == [a[0]] + a[1..][..k];
      assert b[..k + 1] == [b[0]] + b[1..][..k];
      assert LessAt(a, b, k + 1);
    }
  }

  lemma {:induction false} WitnessGivesIntListLess(a: seq<int>, b: seq<int>, k: int)
    requires LessAt(a, b, k)
    ensures IntListLess(a, b)
    decreases k
  {
    if k > 0 {
      assert a[0] == a[..k][0] && b[0] == b[..k][0];
      assert a[1..][..k - 1] == a[..k][1..];
      assert b[1..][..k - 1] == b[..k][1..];
      WitnessGivesIntListLess(a[1..], b[1..], k - 1);
    }
  }

  /** The comparison is component-wise: a < b exactly when, after a common
      prefix of length k, either a ends there and b does not, or a[k] < b[k]. */
  lemma IntListLessComponentwise(a: seq<int>, b: seq<int>)
    ensures IntListLess(a, b) <==> exists k :: LessAt(a, b, k)
  {
    if IntListLess(a, b) {
      IntListLessHasWitness(a, b);
    }
    forall k | LessAt(a, b, k) ensures IntListLess(a, b) {
      WitnessGivesIntListLess(a, b, k);
    }
  }

  lemma {:induction false} IntListLessIrreflexive(a: seq<int>)
    ensures !IntListLess(a, a)
  {
    if a != [] {
      IntListLessIrreflexive(a[1..]);
    }
  }

  lemma {:induction false} IntListLessAsymmetric(a: seq<int>, b: seq<int>)
    requires IntListLess(a, b)
    ensures !IntListLess(b, a)
  {
    if a != [] && a[0] == b[0] {
      IntListLessAsymmetric(a[1..], b[1..]);
    }
  }
}
