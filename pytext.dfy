/** Python string semantics that the manager and the updater script rely on:
    whitespace, strip(), startswith/endswith, `in`, split('.'), split(),
    splitlines(), isdigit() and int(). */
module PyText {

  datatype Option<+T> = None | Some(value: T)

  /** str.isspace(): the characters that strip() and split() treat as whitespace. */
  predicate IsSpace(c: char) {
    var n := c as int;
    (9 <= n <= 13) || (28 <= n <= 32) || n == 0x85 || n == 0xA0 || n == 0x1680
    || (0x2000 <= n <= 0x200A) || n == 0x2028 || n == 0x2029 || n == 0x202F
    || n == 0x205F || n == 0x3000
  }

  /** The line boundaries of str.splitlines(). */
  predicate IsLineBreak(c: char) {
    var n := c as int;
    (10 <= n <= 13) || (28 <= n <= 30) || n == 0x85 || n == 0x2028 || n == 0x2029
  }

  predicate IsDigit(c: char) {
    '0' <= c <= '9'
  }

  /** str.isdigit() on ASCII: non-empty and every character a digit. */
  predicate IsDigits(s: string) {
    s != [] && forall i :: 0 <= i < |s| ==> IsDigit(s[i])
  }

  predicate StartsWith(s: string, prefix: string) {
    |prefix| <= |s| && s[..|prefix|] == prefix
  }

  predicate EndsWith(s: string, suffix: string) {
    |suffix| <= |s| && s[|s| - |suffix|..] == suffix
  }

  /** Python's `sub in s`. */
  predicate Contains(s: string, sub: string) {
    StartsWith(s, sub) || (s != [] && Contains(s[1..], sub))
  }

  lemma {:induction false} ContainsInfix(a: string, sub: string, b: string)
    ensures Contains(a + sub + b, sub)
  {
    if a == [] {
      assert a + sub + b == sub + b;
      assert (sub + b)[..|sub|] == sub;
    } else {
      assert (a + sub + b)[1..] == a[1..] + sub + b;
      ContainsInfix(a[1..], sub, b);
    }
  }

  /** Every character of a string found in `s` lies inside `s`. */
  lemma {:induction false} ContainsChar(s: string, c: char)
    requires Contains(s, [c])
    ensures c in s
  {
    if StartsWith(s, [c]) {
      assert s[0] == c;
    } else {
      ContainsChar(s[1..], c);
    }
  }

  /** str.lstrip(): drops the longest whitespace prefix. */
  function TrimLeft(s: string): (r: string)
    ensures |r| <= |s| && r == s[|s| - |r|..]
    ensures r == [] || !IsSpace(r[0])
    ensures forall i :: 0 <= i < |s| - |r| ==> IsSpace(s[i])
  {
    if s != [] && IsSpace(s[0]) then TrimLeft(s[1..]) else s
  }

  /** str.rstrip(): drops the longest whitespace suffix. */
  function TrimRight(s: string): (r: string)
    ensures |r| <= |s| && r == s[..|r|]
    ensures r == [] || !IsSpace(r[|r| - 1])
    ensures forall i :: |r| <= i < |s| ==> IsSpace(s[i])
  {
    if s != [] && IsSpace(s[|s| - 1]) then TrimRight(s[..|s| - 1]) else s
  }

  /** str.strip(). */
  function Strip(s: string): (r: string)
    ensures r == [] || (!IsSpace(r[0]) && !IsSpace(r[|r| - 1]))
  {
    var l := TrimLeft(s);
    var r := TrimRight(l);
    assert r != [] ==> r[0] == l[0];
    r
  }

  /** `r` is the slice of `s` starting at `a`, with only whitespace before
      and after it. */
  predicate StrippedAt(s: string, r: string, a: int) {
    && 0 <= a && a + |r| <= |s| && r == s[a..a + |r|]
    && (forall i :: 0 <= i < a ==> IsSpace(s[i]))
    && (forall i :: a + |r| <= i < |s| ==> IsSpace(s[i]))
  }

  /** strip() removes whitespace from the two ends and nothing else. */
  lemma StripSpec(s: string)
    ensures exists a :: StrippedAt(s, Strip(s), a)
  {
    var l := TrimLeft(s);
    var r := TrimRight(l);
    var a := |s| - |l|;
    SliceOfSuffix(s, l, r, a);
    forall i | a + |r| <= i < |s|
      ensures IsSpace(s[i])
    {
      assert s[i] == l[i - a];
    }
    assert Strip(s) == r;
    assert StrippedAt(s, r, a);
  }

  /** A prefix `r` of the suffix `l` of `s` that starts at `a` is the slice
      of `s` from `a`, and what follows it in `s` is what follows it in `l`. */
  lemma SliceOfSuffix(s: string, l: string, r: string, a: int)
    requires 0 <= a <= |s| && l == s[a..]
    requires |r| <= |l| && r == l[..|r|]
    ensures a + |r| <= |s| && r == s[a..a + |r|]
    ensures forall i :: a + |r| <= i < |s| ==> s[i] == l[i - a]
  {
  }

  /** strip() leaves nothing exactly when every character is whitespace. */
  lemma StripEmpty(s: string)
    ensures Strip(s) == [] <==> forall i :: 0 <= i < |s| ==> IsSpace(s[i])
  {
    var l := TrimLeft(s);
    if Strip(s) == [] {
      assert l == [];
    } else if forall i :: 0 <= i < |s| ==> IsSpace(s[i]) {
      if l != [] {
        assert l[0] == s[|s| - |l|];
      }
    }
  }

  /** A string that starts and ends with non-whitespace is its own strip(). */
  lemma StripTrimmed(s: string)
    requires s != [] && !IsSpace(s[0]) && !IsSpace(s[|s| - 1])
    ensures Strip(s) == s
  {
  }

  /** str.lstrip(q) for a single character q. */
  function TrimLeftChar(s: string, q: char): string {
    if s != [] && s[0] == q then TrimLeftChar(s[1..], q) else s
  }

  /** str.rstrip(q) for a single character q. */
  function TrimRightChar(s: string, q: char): string {
    if s != [] && s[|s| - 1] == q then TrimRightChar(s[..|s| - 1], q) else s
  }

  /** str.strip(q) for a single character q, as in `input(...).strip('"')`. */
  function StripChar(s: string, q: char): string {
    TrimRightChar(TrimLeftChar(s, q), q)
  }

  /** lstrip(q) removes exactly the leading run of q. */
  lemma {:induction false} TrimLeftCharSpec(s: string, q: char)
    ensures var r := TrimLeftChar(s, q);
      && |r| <= |s| && r == s[|s| - |r|..]
      && (r == [] || r[0] != q)
      && forall i :: 0 <= i < |s| - |r| ==> s[i] == q
  {
    if s != [] && s[0] == q {
      TrimLeftCharSpec(s[1..], q);
      var r := TrimLeftChar(s, q);
      assert s[1..][|s| - 1 - |r|..] == s[|s| - |r|..];
      forall i | 0 < i < |s| - |r| ensures s[i] == q {
        assert s[i] == s[1..][i - 1];
      }
    }
  }

  /** rstrip(q) removes exactly the trailing run of q. */
  lemma {:induction false} TrimRightCharSpec(s: string, q: char)
    ensures var r := TrimRightChar(s, q);
      && |r| <= |s| && r == s[..|r|]
      && (r == [] || r[|r| - 1] != q)
      && forall i :: |r| <= i < |s| ==> s[i] == q
  {
    if s != [] && s[|s| - 1] == q {
      TrimRightCharSpec(s[..|s| - 1], q);
      var r := TrimRightChar(s, q);
      assert s[..|s| - 1][..|r|] == s[..|r|];
      forall i | |r| <= i < |s| - 1 ensures s[i] == q {
        assert s[i] == s[..|s| - 1][i];
      }
    }
  }

  /** strip(q) keeps a middle slice of s that neither starts nor ends with
      q, and every character it removes is q. */
  lemma StripCharSpec(s: string, q: char)
    ensures var r := StripChar(s, q);
      var k := |s| - |TrimLeftChar(s, q)|;
      && (r == [] || (r[0] != q && r[|r| - 1] != q))
      && 0 <= k && k + |r| <= |s| && r == s[k..k + |r|]
      && forall i :: 0 <= i < |s| && !(k <= i < k + |r|) ==> s[i] == q
  {
    var l := TrimLeftChar(s, q);
    TrimLeftCharSpec(s, q);
    TrimRightCharSpec(l, q);
    var r := StripChar(s, q);
    var k := |s| - |l|;
    assert r != [] ==> r[0] == l[0];
    assert r == s[k..k + |r|];
    forall i | k + |r| <= i < |s| ensures s[i] == q {
      assert s[i] == l[i - k];
    }
  }

  /** str.split(sep) for a one-character separator: always at least one piece,
      no piece contains the separator. */
  function SplitOn(s: string, sep: char): (r: seq<string>)
    ensures |r| >= 1
    ensures forall i :: 0 <= i < |r| ==> sep !in r[i]
  {
    if s == [] then [""]
    else
      var rest := SplitOn(s[1..], sep);
      if s[0] == sep then [""] + rest else [[s[0]] + rest[0]] + rest[1..]
  }

  /** sep.join(parts), the inverse of SplitOn. */
  function JoinOn(parts: seq<string>, sep: char): string {
    if parts == [] then ""
    else if |parts| == 1 then parts[0]
    else parts[0] + [sep] + JoinOn(parts[1..], sep)
  }

  lemma {:induction false} SplitJoin(s: string, sep: char)
    ensures JoinOn(SplitOn(s, sep), sep) == s
  {
    if s != [] {
      var rest := SplitOn(s[1..], sep);
      SplitJoin(s[1..], sep);
      if s[0] == sep {
        assert ([""] + rest)[1..] == rest;
        assert s == [sep] + s[1..];
      } else if |rest| == 1 {
        assert s == [s[0]] + s[1..];
      } else {
        var r := [[s[0]] + rest[0]] + rest[1..];
        assert r[1..] == rest[1..];
        assert JoinOn(rest, sep) == rest[0] + [sep] + JoinOn(rest[1..], sep);
        assert s == [s[0]] + s[1..];
      }
    }
  }

  /** Splitting a join of separator-free parts gives the parts back. */
  lemma {:induction false} JoinSplit(parts: seq<string>, sep: char)
    requires |parts| >= 1
    requires forall i :: 0 <= i < |parts| ==> sep !in parts[i]
    ensures SplitOn(JoinOn(parts, sep), sep) == parts
  {
    if |parts| == 1 {
      SplitNoSep(parts[0], sep);
    } else {
      JoinSplit(parts[1..], sep);
      SplitPrefix(parts[0], JoinOn(parts[1..], sep), sep);
      assert parts == [parts[0]] + parts[1..];
    }
  }

  lemma {:induction false} SplitNoSep(a: string, sep: char)
    requires sep !in a
    ensures SplitOn(a, sep) == [a]
  {
    if a != [] {
      SplitNoSep(a[1..], sep);
      assert a == [a[0]] + a[1..];
    }
  }

  lemma {:induction false} SplitPrefix(a: string, t: string, sep: char)
    requires sep !in a
    ensures SplitOn(a + [sep] + t, sep) == [a] + SplitOn(t, sep)
  {
    var s := a + [sep] + t;
    if a == [] {
      assert s == [sep] + t;
      assert s[1..] == t;
    } else {
      assert s[0] == a[0];
      assert s[1..] == a[1..] + [sep] + t;
      SplitPrefix(a[1..], t, sep);
      assert a == [a[0]] + a[1..];
    }
  }

  /** str.split() with no argument: the maximal runs of non-whitespace. */
  function Words(s: string): seq<string> {
    if s == [] then []
    else
      var rest := Words(s[1..]);
      if IsSpace(s[0]) then rest
      else if |s| == 1 || IsSpace(s[1]) then [[s[0]]] + rest
      else [[s[0]] + rest[0]] + rest[1..]
  }

  /** Every word is non-empty and free of whitespace; text starting with a
      non-space starts its first word. */
  lemma {:induction false} WordsAreWords(s: string)
    ensures var r := Words(s);
      && (forall i :: 0 <= i < |r| ==> r[i] != [] && forall c :: c in r[i] ==> !IsSpace(c))
      && (s != [] && !IsSpace(s[0]) ==> |r| >= 1 && r[0][0] == s[0])
  {
    if s != [] {
      WordsAreWords(s[1..]);
      var rest := Words(s[1..]);
      var r := Words(s);
      if !IsSpace(s[0]) && !(|s| == 1 || IsSpace(s[1])) {
        assert s[1..][0] == s[1];
        assert forall i :: 1 <= i < |r| ==> r[i] == rest[i];
        assert r[0] == [s[0]] + rest[0];
      } else if !IsSpace(s[0]) {
        assert forall i :: 1 <= i < |r| ==> r[i] == rest[i - 1];
      }
    }
  }

  /** Index of the first line boundary, or |s| when there is none. */
  function FirstBreak(s: string): (j: nat)
    ensures j <= |s|
    ensures j < |s| ==> IsLineBreak(s[j])
    ensures forall k :: 0 <= k < j ==> !IsLineBreak(s[k])
  {
    if s == [] || IsLineBreak(s[0]) then 0 else 1 + FirstBreak(s[1..])
  }

  /** str.splitlines(): "\r\n" is one boundary, a final boundary opens no empty line. */
  function SplitLines(s: string): (r: seq<string>)
    ensures s == [] <==> r == []
    ensures s != [] ==> r[0] == s[..FirstBreak(s)]
    ensures forall i, k :: 0 <= i < |r| && 0 <= k < |r[i]| ==> !IsLineBreak(r[i][k])
    decreases |s|
  {
    if s == [] then []
    else
      var j := FirstBreak(s);
      if j == |s| then [s]
      else
        var next := if s[j] == '\r' && j + 1 < |s| && s[j + 1] == '\n' then j + 2 else j + 1;
        [s[..j]] + SplitLines(s[next..])
  }

  function DigitValue(c: char): nat
    requires IsDigit(c)
  {
    (c as int) - ('0' as int)
  }

  function DigitChar(d: nat): (c: char)
    requires d < 10
    ensures IsDigit(c) && DigitValue(c) == d
  {
    (('0' as int) + d) as char
  }

  /** The number written by a string of decimal digits. */
  function DigitsValue(s: string): nat
    requires forall i :: 0 <= i < |s| ==> IsDigit(s[i])
  {
    if s == [] then 0 else DigitsValue(s[..|s| - 1]) * 10 + DigitValue(s[|s| - 1])
  }

  /** int(s) for a string: surrounding whitespace, an optional sign, decimal digits;
      None where Python raises ValueError. */
  function ParseInt(s: string): Option<int> {
    var t := Strip(s);
    if t != [] && (t[0] == '-' || t[0] == '+') then
      if IsDigits(t[1..]) then
        Some(if t[0] == '-' then -(DigitsValue(t[1..]) as int) else DigitsValue(t[1..]))
      else None
    else if IsDigits(t) then Some(DigitsValue(t))
    else None
  }

  /** str(n) for a natural number. */
  function NatToStr(n: nat): (r: string)
    ensures IsDigits(r)
  {
    if n < 10 then [DigitChar(n)] else NatToStr(n / 10) + [DigitChar(n % 10)]
  }

  /** str(i) for an int. */
  function IntToStr(i: int): string {
    if i < 0 then "-" + NatToStr(-i) else NatToStr(i)
  }

  lemma {:induction false} NatToStrValue(n: nat)
    ensures DigitsValue(NatToStr(n)) == n
  {
    if n >= 10 {
      var s := NatToStr(n);
      assert s[..|s| - 1] == NatToStr(n / 10);
      NatToStrValue(n / 10);
    }
  }

  /** int(str(i)) == i. */
  lemma IntToStrRoundTrip(i: int)
    ensures ParseInt(IntToStr(i)) == Some(i)
  {
    var n: nat := if i < 0 then -i else i;
    var d := NatToStr(n);
    NatToStrValue(n);
    var s := IntToStr(i);
    assert s[|s| - 1] == d[|d| - 1];
    if i < 0 {
      assert s == "-" + d;
      StripTrimmed(s);
      assert s[1..] == d;
    } else {
      StripTrimmed(s);
    }
  }
}
