/**
 * The reading half of `remove_lang_start_tags.py`: the start-tag removal log is
 * scanned for its "Dialogue N (file line L) in PATH" lines, and the dialogue numbers
 * are collected per source file. Reading back the log `remove_start_tags.py` writes
 * gives exactly the entries it logged.
 */
module StartRemovalLog {
  import opened Wrappers
  import opened Text
  import opened Tags
  import RemoveStartTags
  // ---------------------------------------------------------------------------
  // Reading start_removed.txt

  /**
   * `Dialogue (\d+) \(file line \d+\) in ([^\n]+)` tried at index `i` of a line:
   * the dialogue number and the path text, which runs to the end of the line.
   */
  function MatchAt(line: string, i: nat): (r: Option<(string, string)>)
    requires i <= |line|
    ensures r.Some? ==> |r.value.0| > 0 && AllDigits(r.value.0) && r.value.1 != []
    ensures r.Some? ==> OccursAt(line, "Dialogue ", i)
  {
    if !OccursAt(line, "Dialogue ", i) then None
    else
      var p := i + 9;
      var n := DigitRun(line, p);
      if n == 0 || !OccursAt(line, " (file line ", p + n) then None
      else
        var q := p + n + 12;
        var m := DigitRun(line, q);
        if m == 0 || !OccursAt(line, ") in ", q + m) then None
        else
          var s := q + m + 5;
          if s < |line| then
            var d := line[p..p + n];
            assert forall k :: 0 <= k < |d| ==> d[k] == line[p + k];
            Some((line[p..p + n], line[s..]))
          else None
  }

  /** `re.search` from index `i`: the match at the leftmost index at or after `i`, if any. */
  function MatchFrom(line: string, i: nat): Option<(string, string)>
    requires i <= |line|
    decreases |line| - i
  {
    if MatchAt(line, i).Some? then MatchAt(line, i)
    else if i == |line| then None
    else MatchFrom(line, i + 1)
  }

  /**
   * What `re.finditer` finds on one line of the log: its leftmost match. No match
   * spans a '\n', and `[^\n]+` runs to the end of the line, so a line holds at most one.
   */
  function LineMatch(line: string): Option<(string, string)> {
    MatchFrom(line, 0)
  }

  /** A line matches only where `Dialogue ` occurs, with a digit-string number. */
  lemma {:induction false} MatchFromShape(line: string, i: nat)
    requires i <= |line|
    ensures MatchFrom(line, i).Some? ==> |MatchFrom(line, i).value.0| > 0 && AllDigits(MatchFrom(line, i).value.0)
    ensures MatchFrom(line, i).Some? ==> Contains(line, "Dialogue ")
    decreases |line| - i
  {
    if MatchAt(line, i).None? && i < |line| {
      MatchFromShape(line, i + 1);
    }
  }

  function LineMatches(lines: seq<string>): (r: seq<Option<(string, string)>>)
    ensures |r| == |lines|
  {
    seq(|lines|, i requires 0 <= i < |lines| => LineMatch(lines[i]))
  }

  /** `removals`: the paths in the order they were first seen, and each path's dialogue numbers in log order. */
  datatype Removals = Removals(order: seq<string>, nums: map<string, seq<string>>)

  const NoRemovals := Removals([], map[])

  /** Every path is listed once in `order`, and `order` lists exactly the keys of `nums`. */
  ghost predicate WellFormed(r: Removals) {
    (forall p :: p in r.nums <==> p in r.order) &&
    (forall i, j :: 0 <= i < j < |r.order| ==> r.order[i] != r.order[j])
  }

  /** Lines 30-32: start an empty list for a new path, then append the number. */
  function AddRemoval(r: Removals, path: string, d: string): (r': Removals)
    ensures path in r'.nums && r'.nums[path] == (if path in r.nums then r.nums[path] else []) + [d]
    ensures forall p :: p != path ==> (p in r'.nums <==> p in r.nums)
    ensures forall p :: p != path && p in r.nums ==> r'.nums[p] == r.nums[p]
    ensures WellFormed(r) ==> WellFormed(r')
  {
    if path in r.nums then Removals(r.order, r.nums[path := r.nums[path] + [d]])
    else Removals(r.order + [path], r.nums[path := [d]])
  }

  /** One match found by `finditer`: its stripped path gets its number. */
  function CollectStep(st: Removals, m: Option<(string, string)>): Removals {
    match m
    case Some(hit) => AddRemoval(st, Strip(hit.1), hit.0)
    case None => st
  }

  /** The parse loop over the matches found so far, oldest first. */
  function Collect(st: Removals, ms: seq<Option<(string, string)>>): Removals
    decreases |ms|
  {
    if ms == [] then st else CollectStep(Collect(st, ms[..|ms| - 1]), ms[|ms| - 1])
  }

  /** The `removals` dictionary built from the log's text. */
  function ParseLog(content: string): Removals {
    Collect(NoRemovals, LineMatches(Split(content, '\n')))
  }

  /** The number a match gives for `path`: none, or the one it holds when its stripped path is `path`. */
  function KeyedNumber(m: Option<(string, string)>, path: string): seq<string> {
    if m.Some? && Strip(m.value.1) == path then [m.value.0] else []
  }

  /** The numbers the matches give for `path`, in order. */
  function DialoguesFor(ms: seq<Option<(string, string)>>, path: string): seq<string>
    decreases |ms|
  {
    if ms == [] then [] else DialoguesFor(ms[..|ms| - 1], path) + KeyedNumber(ms[|ms| - 1], path)
  }

  /** What the parse builds: each matched path, once, with all of its numbers in log order. */
  lemma {:induction false} CollectMeaning(ms: seq<Option<(string, string)>>)
    ensures WellFormed(Collect(NoRemovals, ms))
    ensures forall p :: p in Collect(NoRemovals, ms).nums <==> DialoguesFor(ms, p) != []
    ensures forall p :: p in Collect(NoRemovals, ms).nums ==> Collect(NoRemovals, ms).nums[p] == DialoguesFor(ms, p)
    decreases |ms|
  {
    if ms != [] {
      CollectMeaning(ms[..|ms| - 1]);
    }
  }

  lemma {:induction false} CollectAppend(st: Removals, a: seq<Option<(string, string)>>, b: seq<Option<(string, string)>>)
    ensures Collect(st, a + b) == Collect(Collect(st, a), b)
    decreases |b|
  {
    if b == [] {
      assert a + b == a;
    } else {
      assert (a + b)[..|a + b| - 1] == a + b[..|b| - 1];
      CollectAppend(st, a, b[..|b| - 1]);
    }
  }

  lemma {:induction false} LineMatchesAppend(a: seq<string>, b: seq<string>)
    ensures LineMatches(a + b) == LineMatches(a) + LineMatches(b)
  {
  }

  /** Steps of the parse loop: one more line of the log adds its match. */
  lemma {:induction false} ParseStep(lines: seq<string>, i: nat)
    requires i < |lines|
    ensures Collect(NoRemovals, LineMatches(lines[..i + 1])) ==
      CollectStep(Collect(NoRemovals, LineMatches(lines[..i])), LineMatch(lines[i]))
  {
    var ms := LineMatches(lines[..i + 1]);
    assert ms[..i] == LineMatches(lines[..i]);
  }

  /** The leftmost match of one line, scanning from its start. */
  method FindMatch(line: string) returns (m: Option<(string, string)>)
    ensures m == LineMatch(line)
  {
    var j := 0;
    while j < |line| && MatchAt(line, j).None?
      invariant 0 <= j <= |line|
      invariant MatchFrom(line, j) == MatchFrom(line, 0)
      decreases |line| - j
    {
      j := j + 1;
    }
    m := MatchAt(line, j);
  }

  /** Lines 21-32: the `removals` map built from the log's text. */
  method ParseStartRemovalLog(content: string) returns (removals: Removals)
    ensures removals == ParseLog(content)
  {
    var lines := Split(content, '\n');
    removals := NoRemovals;
    var i := 0;
    while i < |lines|
      invariant 0 <= i <= |lines|
      invariant removals == Collect(NoRemovals, LineMatches(lines[..i]))
    {
      ParseStep(lines, i);
      var m := FindMatch(lines[i]);
      if m.Some? {
        removals := AddRemoval(removals, Strip(m.value.1), m.value.0);
      }
      i := i + 1;
    }
    assert lines[..i] == lines;
  }

  // ---------------------------------------------------------------------------
  // The round trip with the log remove_start_tags writes

  /** What an entry of the log contributes to the parse: its number and path, when its heading names a dialogue. */
  function EntryMatch(e: RemoveStartTags.Entry): Option<(string, string)> {
    if e.dialogue.Some? && e.dialogue.value != [] then Some((e.dialogue.value, e.path)) else None
  }

  function EntryMatches(log: seq<RemoveStartTags.Entry>): (r: seq<Option<(string, string)>>)
    ensures |r| == |log|
  {
    seq(|log|, i requires 0 <= i < |log| => EntryMatch(log[i]))
  }

  /** The numbers logged for `path` under `Dialogue` headings, in log order. */
  function LoggedDialogues(log: seq<RemoveStartTags.Entry>, path: string): seq<string>
    decreases |log|
  {
    if log == [] then []
    else
      var e := log[|log| - 1];
      LoggedDialogues(log[..|log| - 1], path) + (if EntryMatch(e).Some? && e.path == path then [e.dialogue.value] else [])
  }

  /**
   * An entry whose lines read back: digit dialogue numbers, a plain tag, a non-empty
   * path without surrounding whitespace or newline, an original line without newline
   * and no `Dialogue ` inside the text the parser could mistake for a heading.
   */
  predicate Readable(e: RemoveStartTags.Entry) {
    RemoveStartTags.DigitsOrNone(e.dialogue) && RemoveStartTags.PlainTag(e.tag) &&
    e.path != [] && Trimmed(e.path) && '\n' !in e.path &&
    '\n' !in e.original && !Contains(e.original, "Dialogue ") &&
    (EntryMatch(e).None? ==> !Contains(e.path, "Dialogue "))
  }

  lemma {:induction false} NoMatchFrom(line: string, i: nat)
    requires i <= |line| && !Contains(line, "Dialogue ")
    ensures MatchFrom(line, i) == None
    decreases |line| - i
  {
    assert !OccursAt(line, "Dialogue ", i);
    if i < |line| {
      NoMatchFrom(line, i + 1);
    }
  }

  lemma {:induction false} NoMatchWithout(line: string)
    requires !Contains(line, "Dialogue ")
    ensures LineMatch(line) == None
  {
    NoMatchFrom(line, 0);
  }

  lemma {:induction false} NoD(s: string)
    requires 'D' !in s
    ensures !Contains(s, "Dialogue ")
  {
    forall i: nat | i <= |s| ensures !OccursAt(s, "Dialogue ", i) {
      if i + 9 <= |s| {
        assert s[i..i + 9][0] == s[i];
      }
    }
  }

  /** A text free of `Dialogue ` stays free of it behind a prefix with no 'D'. */
  lemma {:induction false} PrefixedNoD(pre: string, s: string)
    requires 'D' !in pre && !Contains(s, "Dialogue ")
    ensures !Contains(pre + s, "Dialogue ")
  {
    var t := pre + s;
    forall i: nat | i <= |t| ensures !OccursAt(t, "Dialogue ", i) {
      if i < |pre| {
        assert t[i] == pre[i];
        if i + 9 <= |t| {
          assert t[i..i + 9][0] == t[i];
        }
      } else if i + 9 <= |t| {
        assert t[i..i + 9] == s[i - |pre|..i - |pre| + 9];
        assert !OccursAt(s, "Dialogue ", i - |pre|);
      }
    }
  }

  lemma {:induction false} DigitsPlain(s: string)
    requires AllDigits(s)
    ensures 'D' !in s && '\n' !in s
  {
  }

  lemma {:induction false} PlainTagPlain(t: string)
    requires RemoveStartTags.PlainTag(t)
    ensures 'D' !in t && '\n' !in t && '\'' !in t
  {
  }

  lemma {:induction false} ReprItemsPlain(tags: seq<string>)
    requires forall k :: 0 <= k < |tags| ==> RemoveStartTags.PlainTag(tags[k])
    ensures 'D' !in RemoveStartTags.ReprItems(tags) && '\n' !in RemoveStartTags.ReprItems(tags)
    decreases |tags|
  {
    if tags != [] {
      PlainTagPlain(tags[0]);
      if |tags| > 1 {
        ReprItemsPlain(tags[1..]);
      }
    }
  }

  /** A `Dialogue d (file line n) in path` heading gives back `d` and `path`. */
  lemma {:induction false} DialogueHeadingMatch(d: string, n: string, path: string)
    requires |d| > 0 && AllDigits(d) && |n| > 0 && AllDigits(n) && path != []
    ensures LineMatch("Dialogue " + d + " (file line " + n + ") in " + path) == Some((d, path))
  {
    var line := "Dialogue " + d + " (file line " + n + ") in " + path;
    HeadingPieces("Dialogue ", d, " (file line ", n, ") in ", path);
    MatchAtFound(line, 0, |d|, |n|);
  }

  /** Where the pieces of a heading `a + d + b + n + c + path` are, for digit strings `d` and `n` and separators that start with a non-digit. */
  lemma {:induction false} HeadingPieces(a: string, d: string, b: string, n: string, c: string, path: string)
    requires AllDigits(d) && AllDigits(n)
    requires b != [] && !IsDigit(b[0]) && c != [] && !IsDigit(c[0])
    ensures var line := a + d + b + n + c + path;
      var q := |a| + |d| + |b|;
      && OccursAt(line, a, 0)
      && DigitRun(line, |a|) == |d| && OccursAt(line, b, |a| + |d|)
      && DigitRun(line, q) == |n| && OccursAt(line, c, q + |n|)
      && line[|a|..|a| + |d|] == d && line[q + |n| + |c|..] == path
  {
    HeadingRegroup(a, d, b, n, c, path);
    OccursBetween([], a, d + b + n + c + path);
    HeadingNumber(a, d, b + n + c + path);
    OccursBetween(a + d, b, n + c + path);
    HeadingNumber(a + d + b, n, c + path);
    OccursBetween(a + d + b + n, c, path);
  }

  /** The ways a heading is cut into pieces are the same text. */
  lemma {:induction false} HeadingRegroup(a: string, d: string, b: string, n: string, c: string, path: string)
    ensures var line := a + d + b + n + c + path;
      && line == [] + a + (d + b + n + c + path) && line == a + d + (b + n + c + path)
      && line == (a + d) + b + (n + c + path) && line == (a + d + b) + n + (c + path)
      && line == (a + d + b + n) + c + path
  {
  }

  /** A digit string between a prefix and a text that starts with a non-digit: its run and its place. */
  lemma {:induction false} HeadingNumber(pre: string, d: string, post: string)
    requires AllDigits(d) && post != [] && !IsDigit(post[0])
    ensures DigitRun(pre + d + post, |pre|) == |d| && (pre + d + post)[|pre|..|pre| + |d|] == d
  {
    DigitsBetween(pre, d, post);
    OccursBetween(pre, d, post);
  }

  /** `Dialogue `, a digit run, ` (file line `, a digit run, `) in ` and some text at `i`: a match there. */
  lemma {:induction false} MatchAtFound(line: string, i: nat, n: nat, m: nat)
    requires i <= |line| && OccursAt(line, "Dialogue ", i)
    requires 0 < n && i + 9 <= |line| && DigitRun(line, i + 9) == n && OccursAt(line, " (file line ", i + 9 + n)
    requires 0 < m && DigitRun(line, i + 9 + n + 12) == m && OccursAt(line, ") in ", i + 9 + n + 12 + m)
    requires i + 9 + n + 12 + m + 5 < |line|
    ensures MatchFrom(line, i) == Some((line[i + 9..i + 9 + n], line[i + 9 + n + 12 + m + 5..]))
  {
    MatchAtHere(line, i, n, m);
  }

  lemma {:induction false} MatchAtHere(line: string, i: nat, n: nat, m: nat)
    requires i <= |line| && OccursAt(line, "Dialogue ", i)
    requires 0 < n && i + 9 <= |line| && DigitRun(line, i + 9) == n && OccursAt(line, " (file line ", i + 9 + n)
    requires 0 < m && DigitRun(line, i + 9 + n + 12) == m && OccursAt(line, ") in ", i + 9 + n + 12 + m)
    requires i + 9 + n + 12 + m + 5 < |line|
    ensures MatchAt(line, i) == Some((line[i + 9..i + 9 + n], line[i + 9 + n + 12 + m + 5..]))
  {
  }

  /** A heading gives the entry's number and path back, or nothing for a `File line` heading. */
  lemma {:induction false} HeadingMatch(e: RemoveStartTags.Entry)
    requires RemoveStartTags.DigitsOrNone(e.dialogue) && e.path != []
    requires EntryMatch(e).None? ==> !Contains(e.path, "Dialogue ")
    ensures LineMatch(RemoveStartTags.EntryHeading(e)) == EntryMatch(e)
  {
    var n := NatToString(e.fileLine);
    if EntryMatch(e).Some? {
      DialogueHeadingMatch(e.dialogue.value, n, e.path);
    } else {
      DigitsPlain(n);
      PrefixedNoD("File line " + n + " in ", e.path);
      NoMatchWithout(RemoveStartTags.EntryHeading(e));
    }
  }

  lemma {:induction false} HeadingNoNewline(e: RemoveStartTags.Entry)
    requires RemoveStartTags.DigitsOrNone(e.dialogue) && '\n' !in e.path
    ensures '\n' !in RemoveStartTags.EntryHeading(e)
  {
    var n := NatToString(e.fileLine);
    DigitsPlain(n);
    if EntryMatch(e).Some? {
      DigitsPlain(e.dialogue.value);
      assert RemoveStartTags.EntryHeading(e) == "Dialogue " + e.dialogue.value + " (file line " + n + ") in " + e.path;
    } else {
      assert RemoveStartTags.EntryHeading(e) == "File line " + n + " in " + e.path;
    }
  }

  lemma {:induction false} TagLineMatch(tag: string)
    requires RemoveStartTags.PlainTag(tag)
    ensures LineMatch("  Tag: " + RemoveStartTags.Bracketed(tag)) == None
    ensures '\n' !in "  Tag: " + RemoveStartTags.Bracketed(tag)
  {
    PlainTagPlain(tag);
    PlainLine("  Tag: [", tag, "]");
    assert "  Tag: " + RemoveStartTags.Bracketed(tag) == "  Tag: [" + tag + "]";
  }

  lemma {:induction false} OriginalLineMatch(original: string)
    requires '\n' !in original && !Contains(original, "Dialogue ")
    ensures LineMatch("  Original: " + original) == None
    ensures '\n' !in "  Original: " + original
  {
    PrefixedNoD("  Original: ", original);
    NoMatchWithout("  Original: " + original);
  }

  lemma {:induction false} BlankLineMatch()
    ensures LineMatch("") == None
  {
    NoD("");
    NoMatchWithout("");
  }

  /** No line holds a newline, so the lines survive a `'\n'.join` and `split('\n')`. */
  predicate NoNewlines(ls: seq<string>) {
    forall k :: 0 <= k < |ls| ==> '\n' !in ls[k]
  }

  lemma {:induction false} NoNewlinesAppend(a: seq<string>, b: seq<string>)
    requires NoNewlines(a) && NoNewlines(b)
    ensures NoNewlines(a + b)
  {
    forall k | 0 <= k < |a + b| ensures '\n' !in (a + b)[k] {
      if k < |a| {
        assert (a + b)[k] == a[k];
      } else {
        assert (a + b)[k] == b[k - |a|];
      }
    }
  }

  lemma {:induction false} FourLines(w: string, x: string, y: string, z: string)
    requires '\n' !in w && '\n' !in x && '\n' !in y && '\n' !in z
    ensures NoNewlines([w, x, y, z])
    ensures LineMatches([w, x, y, z]) == [LineMatch(w), LineMatch(x), LineMatch(y), LineMatch(z)]
  {
    var ls := [w, x, y, z];
    forall k | 0 <= k < 4 ensures '\n' !in ls[k] {
      if k == 0 {} else if k == 1 {} else if k == 2 {} else {}
    }
  }

  lemma {:induction false} ThreeLines(x: string, y: string, z: string)
    requires '\n' !in x && '\n' !in y && '\n' !in z
    ensures NoNewlines([x, y, z])
    ensures LineMatches([x, y, z]) == [LineMatch(x), LineMatch(y), LineMatch(z)]
  {
    var ls := [x, y, z];
    forall k | 0 <= k < 3 ensures '\n' !in ls[k] {
      if k == 0 {} else if k == 1 {} else {}
    }
  }

  /** The four lines of an entry: the heading's match, then three lines the parser passes over. */
  lemma {:induction false} EntryLinesMatch(e: RemoveStartTags.Entry)
    requires Readable(e)
    ensures LineMatches(RemoveStartTags.EntryLines(e)) == [EntryMatch(e), None, None, None]
    ensures NoNewlines(RemoveStartTags.EntryLines(e))
  {
    var ls := RemoveStartTags.EntryLines(e);
    HeadingMatch(e);
    HeadingNoNewline(e);
    TagLineMatch(e.tag);
    OriginalLineMatch(e.original);
    BlankLineMatch();
    FourLines(ls[0], ls[1], ls[2], ls[3]);
  }

  /** The three header lines: no match and no newline. */
  lemma {:induction false} HeaderLinesMatch(count: nat, tags: seq<string>)
    requires forall k :: 0 <= k < |tags| ==> RemoveStartTags.PlainTag(tags[k])
    ensures LineMatches(RemoveStartTags.HeaderLines(count, tags)) == [None, None, None]
    ensures NoNewlines(RemoveStartTags.HeaderLines(count, tags))
  {
    var ls := RemoveStartTags.HeaderLines(count, tags);
    CountLineMatch(count);
    TagsLineMatch(tags);
    BlankLineMatch();
    ThreeLines(ls[0], ls[1], ls[2]);
  }

  /** A line pieced together from three parts without a 'D' or a newline has neither. */
  lemma {:induction false} PlainLine(a: string, b: string, c: string)
    requires 'D' !in a && 'D' !in b && 'D' !in c
    requires '\n' !in a && '\n' !in b && '\n' !in c
    ensures LineMatch(a + b + c) == None
    ensures '\n' !in a + b + c
  {
    NoD(a + b + c);
    NoMatchWithout(a + b + c);
  }

  lemma {:induction false} CountLineMatch(count: nat)
    ensures LineMatch("# Removed " + NatToString(count) + " silent tags from start of lines") == None
    ensures '\n' !in "# Removed " + NatToString(count) + " silent tags from start of lines"
  {
    DigitsPlain(NatToString(count));
    PlainLine("# Removed ", NatToString(count), " silent tags from start of lines");
  }

  lemma {:induction false} TagsLineMatch(tags: seq<string>)
    requires forall k :: 0 <= k < |tags| ==> RemoveStartTags.PlainTag(tags[k])
    ensures LineMatch("# Tags removed: [" + RemoveStartTags.ReprItems(tags) + "]") == None
    ensures '\n' !in "# Tags removed: [" + RemoveStartTags.ReprItems(tags) + "]"
  {
    ReprItemsPlain(tags);
    ItemsLineMatch(RemoveStartTags.ReprItems(tags));
  }

  lemma {:induction false} ItemsLineMatch(items: string)
    requires 'D' !in items && '\n' !in items
    ensures LineMatch("# Tags removed: [" + items + "]") == None
    ensures '\n' !in "# Tags removed: [" + items + "]"
  {
    PlainLine("# Tags removed: [", items, "]");
  }

  /** The four matches of an entry's lines add what its heading adds. */
  lemma {:induction false} CollectEntryStep(ms: seq<Option<(string, string)>>, m: Option<(string, string)>)
    ensures Collect(NoRemovals, ms + [m, None, None, None]) == Collect(NoRemovals, ms + [m])
  {
    var nones: seq<Option<(string, string)>> := [None, None, None];
    assert ms + [m, None, None, None] == (ms + [m]) + nones;
    CollectAppend(NoRemovals, ms + [m], nones);
    CollectSkip(Collect(NoRemovals, ms + [m]), nones);
  }

  lemma {:induction false} EntryMatchesSnoc(log: seq<RemoveStartTags.Entry>)
    requires log != []
    ensures EntryMatches(log) == EntryMatches(log[..|log| - 1]) + [EntryMatch(log[|log| - 1])]
  {
  }

  /** The entries' lines parse as the entries' own matches, and hold no newline. */
  lemma {:induction false} BodyLinesMatch(log: seq<RemoveStartTags.Entry>)
    requires forall k :: 0 <= k < |log| ==> Readable(log[k])
    ensures Collect(NoRemovals, LineMatches(RemoveStartTags.BodyLines(log))) == Collect(NoRemovals, EntryMatches(log))
    ensures NoNewlines(RemoveStartTags.BodyLines(log))
    decreases |log|
  {
    if log != [] {
      var init := log[..|log| - 1];
      var e := log[|log| - 1];
      BodyLinesMatch(init);
      EntryLinesMatch(e);
      var a := RemoveStartTags.BodyLines(init);
      var b := RemoveStartTags.EntryLines(e);
      assert RemoveStartTags.BodyLines(log) == a + b;
      NoNewlinesAppend(a, b);
      LineMatchesAppend(a, b);
      CollectEntryStep(LineMatches(a), EntryMatch(e));
      EntryMatchesSnoc(log);
      CollectAppend(NoRemovals, LineMatches(a), [EntryMatch(e)]);
      CollectAppend(NoRemovals, EntryMatches(init), [EntryMatch(e)]);
    }
  }

  /** The log splits back into its lines and a final empty piece. */
  lemma {:induction false} LogTextLines(log: seq<RemoveStartTags.Entry>, tags: seq<string>)
    requires forall k :: 0 <= k < |tags| ==> RemoveStartTags.PlainTag(tags[k])
    requires forall k :: 0 <= k < |log| ==> Readable(log[k])
    ensures Split(RemoveStartTags.LogText(log, tags), '\n') == RemoveStartTags.LogLines(log, tags) + [""]
  {
    var ls := RemoveStartTags.LogLines(log, tags);
    HeaderLinesMatch(|log|, tags);
    BodyLinesMatch(log);
    NoNewlinesAppend(RemoveStartTags.HeaderLines(|log|, tags), RemoveStartTags.BodyLines(log));
    NoNewlinesAppend(ls, [""]);
    RemoveStartTags.UnlinesJoin(ls);
    SplitJoin(ls + [""], '\n');
  }

  /** Lines without a match leave the parse as it was. */
  lemma {:induction false} CollectSkip(st: Removals, ms: seq<Option<(string, string)>>)
    requires forall k :: 0 <= k < |ms| ==> ms[k].None?
    ensures Collect(st, ms) == st
    decreases |ms|
  {
    if ms != [] {
      CollectSkip(st, ms[..|ms| - 1]);
    }
  }

  /** Matchless lines before and after the body leave its parse as it is. */
  lemma {:induction false} CollectFramed(mh: seq<Option<(string, string)>>, mb: seq<Option<(string, string)>>, mz: seq<Option<(string, string)>>)
    requires forall k :: 0 <= k < |mh| ==> mh[k].None?
    requires forall k :: 0 <= k < |mz| ==> mz[k].None?
    ensures Collect(NoRemovals, mh + mb + mz) == Collect(NoRemovals, mb)
  {
    CollectAppend(NoRemovals, mh + mb, mz);
    CollectSkip(Collect(NoRemovals, mh + mb), mz);
    CollectAppend(NoRemovals, mh, mb);
    CollectSkip(NoRemovals, mh);
  }

  /** Reading back the log remove_start_tags writes gives the entries' numbers and paths, in log order. */
  lemma {:induction false} LogParsesBack(log: seq<RemoveStartTags.Entry>, tags: seq<string>)
    requires forall k :: 0 <= k < |tags| ==> RemoveStartTags.PlainTag(tags[k])
    requires forall k :: 0 <= k < |log| ==> Readable(log[k])
    ensures ParseLog(RemoveStartTags.LogText(log, tags)) == Collect(NoRemovals, EntryMatches(log))
  {
    var h := RemoveStartTags.HeaderLines(|log|, tags);
    var b := RemoveStartTags.BodyLines(log);
    var mh, mb, mz := LineMatches(h), LineMatches(b), LineMatches([""]);
    assert Split(RemoveStartTags.LogText(log, tags), '\n') == h + b + [""] by {
      LogTextLines(log, tags);
    }
    assert LineMatches(h + b + [""]) == mh + mb + mz by {
      LineMatchesAppend(h + b, [""]);
      LineMatchesAppend(h, b);
    }
    assert forall k :: 0 <= k < |mh| ==> mh[k].None? by {
      HeaderLinesMatch(|log|, tags);
    }
    assert forall k :: 0 <= k < |mz| ==> mz[k].None? by {
      BlankLineMatch();
    }
    CollectFramed(mh, mb, mz);
    BodyLinesMatch(log);
  }

  /** An entry's match is keyed by its own path when that path is trimmed. */
  lemma {:induction false} EntryKeyedNumber(e: RemoveStartTags.Entry, path: string)
    requires Trimmed(e.path)
    ensures KeyedNumber(EntryMatch(e), path) == if EntryMatch(e).Some? && e.path == path then [e.dialogue.value] else []
  {
    var m := EntryMatch(e);
    if m.Some? {
      assert m.value.1 == e.path;
      TrimmedKey(e.path, path);
    }
  }

  lemma {:induction false} TrimmedKey(p: string, path: string)
    requires Trimmed(p)
    ensures Strip(p) == path <==> p == path
  {
    TrimmedStrip(p);
  }

  lemma {:induction false} DialoguesForEntries(log: seq<RemoveStartTags.Entry>, path: string)
    requires forall k :: 0 <= k < |log| ==> Trimmed(log[k].path)
    ensures DialoguesFor(EntryMatches(log), path) == LoggedDialogues(log, path)
    decreases |log|
  {
    if log != [] {
      var init := log[..|log| - 1];
      var e := log[|log| - 1];
      DialoguesForEntries(init, path);
      EntryKeyedNumber(e, path);
      EntryMatchesSnoc(log);
      var ms := EntryMatches(log);
      assert ms[..|ms| - 1] == EntryMatches(init);
    }
  }

  /**
   * The log round trip: a path is a key of the parsed map exactly when some
   * `Dialogue` entry names it, and its list is those entries' numbers in log order;
   * `File line` entries contribute nothing.
   */
  lemma {:induction false} StartLogRoundTrip(log: seq<RemoveStartTags.Entry>, tags: seq<string>, path: string)
    requires forall k :: 0 <= k < |tags| ==> RemoveStartTags.PlainTag(tags[k])
    requires forall k :: 0 <= k < |log| ==> Readable(log[k])
    ensures WellFormed(ParseLog(RemoveStartTags.LogText(log, tags)))
    ensures path in ParseLog(RemoveStartTags.LogText(log, tags)).nums <==> LoggedDialogues(log, path) != []
    ensures path in ParseLog(RemoveStartTags.LogText(log, tags)).nums ==>
      ParseLog(RemoveStartTags.LogText(log, tags)).nums[path] == LoggedDialogues(log, path)
  {
    LogParsesBack(log, tags);
    CollectMeaning(EntryMatches(log));
    DialoguesForEntries(log, path);
  }
}
