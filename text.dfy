/** The `None`/value results the scripts return from their matchers. */
module Wrappers {
  datatype Option<+T> = None | Some(value: T)
}

/**
 * The parts of Python's `str` and `re` that the scripts rely on, over ASCII:
 * whitespace and digit classes, `strip`/`rstrip`, `lower`/`upper`, `startswith`,
 * `endswith`, `in`, `replace(pat, '')`, `split('\n')`/`'\n'.join`, `int` and `str`
 * on natural numbers.
 */
module Text {

  /** `\s` and `str.isspace`, restricted to ASCII. */
  predicate IsSpace(c: char) {
    c == ' ' || c == '\t' || c == '\n' || c == '\r' || c == '\U{B}' || c == '\U{C}'
  }

  /** `\d`, restricted to ASCII. */
  predicate IsDigit(c: char) {
    '0' <= c <= '9'
  }

  /** `\w`, restricted to ASCII. */
  predicate IsWordChar(c: char) {
    'a' <= c <= 'z' || 'A' <= c <= 'Z' || IsDigit(c) || c == '_'
  }

  predicate AllSpace(s: string) {
    forall i :: 0 <= i < |s| ==> IsSpace(s[i])
  }

  predicate AllDigits(s: string) {
    forall i :: 0 <= i < |s| ==> IsDigit(s[i])
  }

  /** Length of the longest run of whitespace starting at `i` (a greedy `\s*`). */
  function SpaceRun(s: string, i: nat): (n: nat)
    requires i <= |s|
    ensures i + n <= |s|
    ensures forall k :: i <= k < i + n ==> IsSpace(s[k])
    ensures i + n < |s| ==> !IsSpace(s[i + n])
    decreases |s| - i
  {
    if i < |s| && IsSpace(s[i]) then 1 + SpaceRun(s, i + 1) else 0
  }

  /** Length of the longest run of digits starting at `i` (a greedy `\d*`). */
  function DigitRun(s: string, i: nat): (n: nat)
    requires i <= |s|
    ensures i + n <= |s|
    ensures forall k :: i <= k < i + n ==> IsDigit(s[k])
    ensures i + n < |s| ==> !IsDigit(s[i + n])
    decreases |s| - i
  {
    if i < |s| && IsDigit(s[i]) then 1 + DigitRun(s, i + 1) else 0
  }

  /** Length of the longest run of word characters starting at `i` (a greedy `\w*`). */
  function WordRun(s: string, i: nat): (n: nat)
    requires i <= |s|
    ensures i + n <= |s|
    ensures forall k :: i <= k < i + n ==> IsWordChar(s[k])
    ensures i + n < |s| ==> !IsWordChar(s[i + n])
    decreases |s| - i
  {
    if i < |s| && IsWordChar(s[i]) then 1 + WordRun(s, i + 1) else 0
  }

  /** Index of the first `c` at or after `from`, or `|s|` when there is none. */
  function IndexOf(s: string, c: char, from: nat): (k: nat)
    requires from <= |s|
    ensures from <= k <= |s|
    ensures forall j :: from <= j < k ==> s[j] != c
    ensures k < |s| ==> s[k] == c
    decreases |s| - from
  {
    if from == |s| || s[from] == c then from else IndexOf(s, c, from + 1)
  }

  /** `str.rstrip()`: the longest prefix that does not end in whitespace. */
  function RStrip(s: string): (r: string)
    ensures |r| <= |s| && StartsWith(s, r)
    ensures forall k :: |r| <= k < |s| ==> IsSpace(s[k])
    ensures r == [] || !IsSpace(r[|r| - 1])
    decreases |s|
  {
    if s != [] && IsSpace(s[|s| - 1]) then RStrip(s[..|s| - 1]) else s
  }

  /** `str.lstrip()`: drops the leading whitespace. */
  function LStrip(s: string): (r: string)
    ensures |r| <= |s| && EndsWith(s, r)
    ensures forall k :: 0 <= k < |s| - |r| ==> IsSpace(s[k])
    ensures r == [] || !IsSpace(r[0])
  {
    s[SpaceRun(s, 0)..]
  }

  /** Where the trailing whitespace of `s` starts (`|s|` when there is none). */
  function TrailEnd(s: string): (e: nat)
    ensures e <= |s|
    ensures forall k :: e <= k < |s| ==> IsSpace(s[k])
    ensures e == 0 || !IsSpace(s[e - 1])
    decreases |s|
  {
    if s != [] && IsSpace(s[|s| - 1]) then TrailEnd(s[..|s| - 1]) else |s|
  }

  /** `str.strip()`: the text between the leading and the trailing whitespace. */
  function Strip(s: string): string {
    var a := SpaceRun(s, 0);
    var e := TrailEnd(s);
    if a < e then s[a..e] else []
  }

  /** `rstrip()` keeps the text before the trailing whitespace. */
  lemma {:induction false} RStripTrailEnd(s: string)
    ensures RStrip(s) == s[..TrailEnd(s)]
    decreases |s|
  {
    if s != [] && IsSpace(s[|s| - 1]) {
      var t := s[..|s| - 1];
      RStripTrailEnd(t);
      assert t[..TrailEnd(t)] == s[..TrailEnd(t)];
    }
  }

  /** `strip()` is `lstrip()` after `rstrip()`. */
  lemma {:induction false} StripBoth(s: string)
    ensures Strip(s) == LStrip(RStrip(s))
  {
    var a := SpaceRun(s, 0);
    var e := TrailEnd(s);
    RStripTrailEnd(s);
    LeadBeforeTrail(s);
    if a < e {
      LStripPrefix(s, a, e);
    }
  }

  /** Unless the text is all whitespace, its leading whitespace ends before its trailing whitespace starts. */
  lemma {:induction false} LeadBeforeTrail(s: string)
    ensures TrailEnd(s) == 0 || SpaceRun(s, 0) < TrailEnd(s)
  {
    if TrailEnd(s) > 0 {
      assert !IsSpace(s[TrailEnd(s) - 1]);
    }
  }

  /** Cutting the text at `e` after its leading whitespace `a` leaves that whitespace to `lstrip`. */
  lemma {:induction false} LStripPrefix(s: string, a: nat, e: nat)
    requires a == SpaceRun(s, 0) && a < e <= |s|
    ensures LStrip(s[..e]) == s[a..e]
  {
    var r := s[..e];
    assert forall k :: 0 <= k < a ==> r[k] == s[k];
    assert r[a] == s[a];
    SpaceRunExact(r, 0, a);
    assert r[a..] == s[a..e];
  }

  /** Neither starts nor ends with whitespace. */
  predicate Trimmed(s: string) {
    s == [] || (!IsSpace(s[0]) && !IsSpace(s[|s| - 1]))
  }

  /** `strip()` leaves a trimmed text as it is. */
  lemma {:induction false} TrimmedStrip(s: string)
    requires Trimmed(s)
    ensures Strip(s) == s
  {
    if s != [] {
      assert TrailEnd(s) == |s|;
      assert SpaceRun(s, 0) == 0;
    }
  }

  /** `str.rstrip('\n')`: drops the trailing newlines only. */
  function RStripNewlines(s: string): (r: string)
    ensures |r| <= |s| && StartsWith(s, r)
    ensures forall k :: |r| <= k < |s| ==> s[k] == '\n'
    ensures r == [] || r[|r| - 1] != '\n'
    decreases |s|
  {
    if s != [] && s[|s| - 1] == '\n' then RStripNewlines(s[..|s| - 1]) else s
  }

  function LowerChar(c: char): char {
    if 'A' <= c <= 'Z' then (c as int + 32) as char else c
  }

  function UpperChar(c: char): char {
    if 'a' <= c <= 'z' then (c as int - 32) as char else c
  }

  /** `str.lower()` on ASCII letters. */
  function Lower(s: string): (r: string)
    ensures |r| == |s|
  {
    seq(|s|, i requires 0 <= i < |s| => LowerChar(s[i]))
  }

  /** `str.upper()` on ASCII letters. */
  function Upper(s: string): (r: string)
    ensures |r| == |s|
  {
    seq(|s|, i requires 0 <= i < |s| => UpperChar(s[i]))
  }

  /** Regrouping a concatenation of three sequences. */
  lemma {:induction false} AppendAssoc<T>(x: seq<T>, y: seq<T>, z: seq<T>)
    ensures x + (y + z) == x + y + z
  {
  }

  /** A prefix one longer is the prefix and the next element. */
  lemma {:induction false} TakeSnoc<T>(s: seq<T>, i: nat)
    requires i < |s|
    ensures s[..i + 1] == s[..i] + [s[i]]
  {
  }

  predicate StartsWith(s: string, p: string) {
    |p| <= |s| && s[..|p|] == p
  }

  predicate EndsWith(s: string, p: string) {
    |p| <= |s| && s[|s| - |p|..] == p
  }

  /** `p` occurs in `s` at index `i`. */
  predicate OccursAt(s: string, p: string, i: nat) {
    i + |p| <= |s| && s[i..i + |p|] == p
  }

  /** Python's `p in s` on strings. */
  predicate Contains(s: string, p: string) {
    exists i: nat :: i <= |s| && OccursAt(s, p, i)
  }

  lemma {:induction false} ContainsMiddle(a: string, p: string, b: string)
    ensures Contains(a + p + b, p)
  {
    var s := a + p + b;
    assert s[|a|..|a| + |p|] == p;
    assert OccursAt(s, p, |a|);
  }

  /** `s.replace(pat, '')`: removes the occurrences of `pat` found scanning left to right. */
  function RemoveAll(s: string, pat: string): (r: string)
    requires |pat| > 0
    ensures |r| <= |s|
    decreases |s|
  {
    if s == [] then []
    else if StartsWith(s, pat) then RemoveAll(s[|pat|..], pat)
    else [s[0]] + RemoveAll(s[1..], pat)
  }

  /** `s.split(sep)`: the pieces between separators; always at least one piece. */
  function Split(s: string, sep: char): (r: seq<string>)
    ensures |r| >= 1
    ensures forall i :: 0 <= i < |r| ==> sep !in r[i]
    decreases |s|
  {
    var k := IndexOf(s, sep, 0);
    if k == |s| then
      assert forall j :: 0 <= j < |s| ==> s[j] != sep;
      [s]
    else
      [s[..k]] + Split(s[k + 1..], sep)
  }

  /** `sep.join(ls)`. */
  function Join(ls: seq<string>, sep: char): (r: string)
    decreases |ls|
  {
    if ls == [] then []
    else if |ls| == 1 then ls[0]
    else ls[0] + [sep] + Join(ls[1..], sep)
  }

  /** Joining one more piece appends the separator and the piece. */
  lemma {:induction false} JoinSnoc(a: seq<string>, x: string, sep: char)
    ensures Join(a + [x], sep) == if a == [] then x else Join(a, sep) + [sep] + x
    decreases |a|
  {
    if |a| > 1 {
      assert (a + [x])[1..] == a[1..] + [x];
      JoinSnoc(a[1..], x, sep);
    } else if |a| == 1 {
      assert (a + [x])[1..] == [x];
    }
  }

  /** Joining the pieces of a split gives back the text. */
  lemma {:induction false} JoinSplit(s: string, sep: char)
    ensures Join(Split(s, sep), sep) == s
    decreases |s|
  {
    var k := IndexOf(s, sep, 0);
    if k < |s| {
      JoinSplit(s[k + 1..], sep);
      assert s == s[..k] + [sep] + s[k + 1..];
    }
  }

  /** Splitting a join of separator-free pieces gives back the pieces. */
  lemma {:induction false} SplitJoin(ls: seq<string>, sep: char)
    requires |ls| >= 1
    requires forall i :: 0 <= i < |ls| ==> sep !in ls[i]
    ensures Split(Join(ls, sep), sep) == ls
    decreases |ls|
  {
    var s := Join(ls, sep);
    if |ls| == 1 {
      assert IndexOf(s, sep, 0) == |s| by {
        assert s + [] == s;
        IndexOfAfter(s, sep, []);
      }
    } else {
      var rest := Join(ls[1..], sep);
      assert s == ls[0] + ([sep] + rest);
      assert IndexOf(s, sep, 0) == |ls[0]| by {
        IndexOfAfter(ls[0], sep, [sep] + rest);
      }
      assert s[..|ls[0]|] == ls[0];
      assert s[|ls[0]| + 1..] == rest;
      assert Split(rest, sep) == ls[1..] by {
        SplitJoin(ls[1..], sep);
      }
      assert ls == [ls[0]] + ls[1..];
    }
  }

  /** A line read back with its newline strips like its text when that text does not end in whitespace. */
  lemma {:induction false} StripWithNewline(s: string)
    requires s != [] && !IsSpace(s[|s| - 1])
    ensures Strip(s + "\n") == LStrip(s)
  {
    assert (s + "\n")[..|s|] == s;
    assert RStrip(s + "\n") == RStrip(s) == s;
    StripBoth(s + "\n");
  }

  /** Leading whitespace in front of a non-space character is exactly what `lstrip` drops. */
  lemma {:induction false} LStripSpaces(sp: string, x: string)
    requires AllSpace(sp) && x != [] && !IsSpace(x[0])
    ensures LStrip(sp + x) == x
  {
    var s := sp + x;
    assert s[|sp|] == x[0];
    assert forall k :: 0 <= k < |sp| ==> s[k] == sp[k];
    assert SpaceRun(s, 0) == |sp|;
    assert s[|sp|..] == x;
  }

  /** An indented line read back with its newline strips to its text. */
  lemma {:induction false} StripIndented(sp: string, s: string)
    requires AllSpace(sp) && s != [] && !IsSpace(s[0]) && !IsSpace(s[|s| - 1])
    ensures Strip(sp + s + "\n") == s
  {
    assert (sp + s)[|sp + s| - 1] == s[|s| - 1];
    StripWithNewline(sp + s);
    LStripSpaces(sp, s);
  }

  /** A line read back with its newline strips to its text when the text has no surrounding whitespace. */
  lemma {:induction false} StripLine(s: string)
    requires s != [] && !IsSpace(s[0]) && !IsSpace(s[|s| - 1])
    ensures Strip(s + "\n") == s
  {
    StripWithNewline(s);
    assert SpaceRun(s, 0) == 0;
  }

  /** A line without a newline at its end reads the same with one. */
  lemma {:induction false} StripsNewline(line: string)
    requires line != [] && line[|line| - 1] != '\n'
    ensures RStripNewlines(line + "\n") == line
  {
    assert (line + "\n")[..|line|] == line;
  }

  /** Digits between a prefix and a text that does not start with a digit are the whole digit run there. */
  lemma {:induction false} DigitsBetween(pre: string, d: string, post: string)
    requires AllDigits(d) && (post == [] || !IsDigit(post[0]))
    ensures DigitRun(pre + d + post, |pre|) == |d|
  {
    var s := pre + d + post;
    assert forall k :: |pre| <= k < |pre| + |d| ==> s[k] == d[k - |pre|];
    assert |pre| + |d| < |s| ==> s[|pre| + |d|] == post[0];
    DigitRunExact(s, |pre|, |d|);
  }

  /** A text between a prefix and a suffix occurs right after the prefix. */
  lemma {:induction false} OccursBetween(pre: string, p: string, post: string)
    ensures OccursAt(pre + p + post, p, |pre|)
  {
    var s := pre + p + post;
    assert s[|pre|..|pre| + |p|] == p;
  }

  /** A run of `m` digits ended by a non-digit (or the end) is the whole greedy `\d+` match. */
  lemma {:induction false} DigitRunExact(s: string, i: nat, m: nat)
    requires i + m <= |s|
    requires forall k :: i <= k < i + m ==> IsDigit(s[k])
    requires i + m == |s| || !IsDigit(s[i + m])
    ensures DigitRun(s, i) == m
  {
  }

  /** The first `c` of `pre + tail`, for a `pre` without one, is in `tail`; right at its start if `tail` starts with `c`. */
  lemma {:induction false} IndexOfAfter(pre: string, c: char, tail: string)
    requires c !in pre
    ensures IndexOf(pre + tail, c, 0) >= |pre|
    ensures tail != [] && tail[0] == c ==> IndexOf(pre + tail, c, 0) == |pre|
  {
    var s := pre + tail;
    assert forall j :: 0 <= j < |pre| ==> s[j] == pre[j];
    if tail != [] {
      assert s[|pre|] == tail[0];
    }
  }

  /** The first `c` at or after `from` is at `k` when `k` holds one and nothing before it does. */
  lemma {:induction false} IndexOfExact(s: string, c: char, from: nat, k: nat)
    requires from <= k < |s| && s[k] == c
    requires forall j :: from <= j < k ==> s[j] != c
    ensures IndexOf(s, c, from) == k
  {
  }

  /** A run of `m` whitespace characters ended by a non-space (or the end) is the whole greedy `\s*` match. */
  lemma {:induction false} SpaceRunExact(s: string, i: nat, m: nat)
    requires i + m <= |s|
    requires forall k :: i <= k < i + m ==> IsSpace(s[k])
    requires i + m == |s| || !IsSpace(s[i + m])
    ensures SpaceRun(s, i) == m
  {
  }

  function DigitChar(d: nat): (c: char)
    requires d < 10
    ensures IsDigit(c)
  {
    ('0' as int + d) as char
  }

  /** `int(s)` for a digit string (leading zeros allowed, so `012` reads as 12). */
  function DigitsToNat(s: string): nat
    requires AllDigits(s)
    decreases |s|
  {
    if s == [] then 0 else 10 * DigitsToNat(s[..|s| - 1]) + (s[|s| - 1] as int - '0' as int)
  }

  /** `str(n)`: the shortest decimal spelling; it reads back as `n`. */
  function NatToString(n: nat): (r: string)
    ensures |r| > 0 && AllDigits(r)
    ensures DigitsToNat(r) == n
    decreases n
  {
    if n < 10 then [DigitChar(n)]
    else
      var r := NatToString(n / 10) + [DigitChar(n % 10)];
      assert r[..|r| - 1] == NatToString(n / 10);
      r
  }

  // ---------------------------------------------------------------------------
  // Files as lists of lines

  /** A line as `readlines` returns it: not empty, with a '\n' at most as its last character. */
  predicate IsLine(s: string) {
    s != [] && forall k :: 0 <= k < |s| - 1 ==> s[k] != '\n'
  }

  /** The lines of one file: every line but the last ends with '\n'. */
  predicate IsLineList(ls: seq<string>) {
    forall i :: 0 <= i < |ls| ==> IsLine(ls[i]) && (i + 1 < |ls| ==> EndsWith(ls[i], "\n"))
  }

  /** `writelines`: the lines written one after the other. */
  function Concat(ls: seq<string>): string {
    if ls == [] then [] else ls[0] + Concat(ls[1..])
  }

  /** `readlines`: the text cut after each '\n'; the pieces are lines and make up the text. */
  function ReadLines(s: string): (r: seq<string>)
    ensures IsLineList(r)
    ensures Concat(r) == s
    decreases |s|
  {
    if s == [] then []
    else
      var k := IndexOf(s, '\n', 0);
      if k == |s| then [s]
      else
        var r := [s[..k + 1]] + ReadLines(s[k + 1..]);
        assert r[1..] == ReadLines(s[k + 1..]);
        r
  }

  /** Reading back what `writelines` wrote gives the same lines when every '\n' ends one of them. */
  lemma {:induction false} ReadLinesConcat(ls: seq<string>)
    requires IsLineList(ls)
    ensures ReadLines(Concat(ls)) == ls
  {
    if ls != [] {
      var line := ls[0];
      var rest := Concat(ls[1..]);
      assert IsLineList(ls[1..]) by {
        forall i | 0 <= i < |ls[1..]|
          ensures IsLine(ls[1..][i]) && (i + 1 < |ls[1..]| ==> EndsWith(ls[1..][i], "\n"))
        {
          assert ls[1..][i] == ls[i + 1];
        }
      }
      ReadLinesConcat(ls[1..]);
      assert 1 < |ls| ==> EndsWith(line, "\n");
      if EndsWith(line, "\n") {
        assert line[|line| - 1..][0] == line[|line| - 1];
      }
      var pre := line[..|line| - 1];
      assert '\n' !in pre by {
        forall k | 0 <= k < |pre| ensures pre[k] != '\n' { assert pre[k] == line[k]; }
      }
      if line[|line| - 1] == '\n' {
        assert line == pre + "\n";
        assert line + rest == pre + ("\n" + rest);
        IndexOfAfter(pre, '\n', "\n" + rest);
        assert (line + rest)[..|line|] == line;
        assert (line + rest)[|line|..] == rest;
      } else {
        assert |ls| == 1;
        assert rest == [];
        assert '\n' !in line by { assert line == pre + [line[|line| - 1]]; }
        IndexOfAfter(line, '\n', []);
        assert line + rest == line;
      }
    }
  }
}
