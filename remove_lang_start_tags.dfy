/**
 * `remove_lang_start_tags.py`: maps each non-English source file named in the
 * start-tag removal log to the `_tag_match_` file in its folder, and removes the
 * start tag from that file's lines whose dialogue number was logged.
 */
module RemoveLangStartTags {
  import opened Wrappers
  import opened Text
  import opened Tags
  import opened StartRemovalLog

  // ---------------------------------------------------------------------------
  // Finding the tag_match file (`get_tag_match_path`)

  /** The index just past the last '/' of `p`, 0 when `p` has none. */
  function SlashEnd(p: string): (k: nat)
    ensures k <= |p|
    ensures k > 0 ==> p[k - 1] == '/'
    ensures forall j :: k <= j < |p| ==> p[j] != '/'
    decreases |p|
  {
    if p == [] then 0
    else if p[|p| - 1] == '/' then |p|
    else SlashEnd(p[..|p| - 1])
  }

  predicate AllSlashes(s: string) {
    forall k :: 0 <= k < |s| ==> s[k] == '/'
  }

  /** `s.rstrip('/')`. */
  function RStripSlashes(s: string): (r: string)
    ensures |r| <= |s| && r == s[..|r|]
    ensures r == [] || r[|r| - 1] != '/'
    ensures AllSlashes(s[|r|..])
  {
    if s != [] && s[|s| - 1] == '/' then
      var r := RStripSlashes(s[..|s| - 1]);
      assert s[|r|..] == s[..|s| - 1][|r|..] + ['/'];
      r
    else s
  }

  /** `os.path.dirname`: everything before the last '/', trailing slashes removed unless that is all there is. */
  function DirName(p: string): (r: string)
    ensures r == [] || AllSlashes(r) || r[|r| - 1] != '/'
  {
    var head := p[..SlashEnd(p)];
    if head != [] && !AllSlashes(head) then RStripSlashes(head) else head
  }

  /** `os.path.basename`: everything after the last '/'. */
  function BaseName(p: string): (r: string)
    ensures '/' !in r
    ensures EndsWith(p, r)
  {
    var r := p[SlashEnd(p)..];
    assert forall j :: 0 <= j < |r| ==> r[j] == p[SlashEnd(p) + j];
    r
  }

  /** `os.path.join(a, b)` for two parts. */
  function JoinPath(a: string, b: string): (r: string)
    ensures EndsWith(r, b)
  {
    if StartsWith(b, "/") then b
    else if a == [] || a[|a| - 1] == '/' then a + b
    else a + "/" + b
  }

  /** Python's `s[:-k]` for `k > 0`: `s` without its last `k` characters, empty when `s` is shorter. */
  function DropLast(s: string, k: nat): (r: string)
    requires k > 0
    ensures |r| == if k <= |s| then |s| - k else 0
    ensures r == s[..|r|]
  {
    if k <= |s| then s[..|s| - k] else []
  }

  const NumberedSuffix := "_lines_numbered.txt"
  const PlainSuffix := "_lines.txt"

  /** The length of the suffix that is cut off to get a base name. */
  function SuffixLength(isNumbered: bool): nat {
    if isNumbered then |NumberedSuffix| else |PlainSuffix|
  }

  /**
   * A directory entry `f` survives every `continue` of the listing loop and has the
   * same base as the source file once `_tag_match` is removed from it.
   */
  predicate IsTagMatchFor(f: string, isNumbered: bool, base: string) {
    && !Contains(f, "_annotated.txt")
    && Contains(f, "_tag_match_")
    && !(isNumbered && !EndsWith(f, NumberedSuffix))
    && !(!isNumbered && !EndsWith(f, PlainSuffix))
    && !(!isNumbered && EndsWith(f, NumberedSuffix))
    && RemoveAll(DropLast(f, SuffixLength(isNumbered)), "_tag_match") == base
  }

  /** The index of the first entry from `i` on that is the tag_match file. */
  function FirstTagMatch(fs: seq<string>, i: nat, isNumbered: bool, base: string): (r: Option<nat>)
    requires i <= |fs|
    ensures r.Some? ==> i <= r.value < |fs| && IsTagMatchFor(fs[r.value], isNumbered, base)
    ensures r.Some? ==> forall j :: i <= j < r.value ==> !IsTagMatchFor(fs[j], isNumbered, base)
    ensures r.None? ==> forall j :: i <= j < |fs| ==> !IsTagMatchFor(fs[j], isNumbered, base)
    decreases |fs| - i
  {
    if i == |fs| then None
    else if IsTagMatchFor(fs[i], isNumbered, base) then Some(i)
    else FirstTagMatch(fs, i + 1, isNumbered, base)
  }

  /** The source file is numbered when its name ends with `_lines_numbered.txt`. */
  function IsNumbered(src: string): bool {
    EndsWith(BaseName(src), NumberedSuffix)
  }

  /** The base name the tag_match file must reduce to. */
  function SourceBase(src: string): string {
    DropLast(BaseName(src), SuffixLength(IsNumbered(src)))
  }

  /**
   * `get_tag_match_path(source_path)`, with the file system given as `listing`: the
   * directories that exist, each with its entries in `os.listdir` order. The path of
   * the first entry of the source's folder that is its tag_match file; None for a
   * tag_match or English source, a missing folder, or no such entry.
   */
  function TagMatchPath(src: string, listing: map<string, seq<string>>): (r: Option<string>)
    ensures Contains(BaseName(src), "_tag_match_") || Contains(src, "/english_") ==> r.None?
    ensures DirName(src) == [] || DirName(src) !in listing ==> r.None?
    ensures r.Some? ==>
      var dir := DirName(src);
      exists i :: 0 <= i < |listing[dir]| && r.value == JoinPath(dir, listing[dir][i])
        && IsTagMatchFor(listing[dir][i], IsNumbered(src), SourceBase(src))
        && forall j :: 0 <= j < i ==> !IsTagMatchFor(listing[dir][j], IsNumbered(src), SourceBase(src))
    ensures (r.None? && !Contains(BaseName(src), "_tag_match_") && !Contains(src, "/english_")
             && DirName(src) != [] && DirName(src) in listing) ==>
      forall f :: f in listing[DirName(src)] ==> !IsTagMatchFor(f, IsNumbered(src), SourceBase(src))
  {
    var dir := DirName(src);
    if Contains(BaseName(src), "_tag_match_") || Contains(src, "/english_") then None
    else if dir == [] || dir !in listing then None
    else
      match FirstTagMatch(listing[dir], 0, IsNumbered(src), SourceBase(src))
      case Some(i) => Some(JoinPath(dir, listing[dir][i]))
      case None => None
  }

  /** `get_tag_match_path`: the listing loop, with its `continue`s. */
  method GetTagMatchPath(src: string, listing: map<string, seq<string>>) returns (r: Option<string>)
    ensures r == TagMatchPath(src, listing)
  {
    var directory := DirName(src);
    var filename := BaseName(src);
    if Contains(filename, "_tag_match_") {
      return None;
    }
    if Contains(src, "/english_") {
      return None;
    }
    if directory == [] || directory !in listing {
      return None;
    }
    var isNumbered := EndsWith(filename, NumberedSuffix);
    var base := DropLast(filename, SuffixLength(isNumbered));
    var entries := listing[directory];
    var i := 0;
    while i < |entries|
      invariant 0 <= i <= |entries|
      invariant FirstTagMatch(entries, i, isNumbered, base) == FirstTagMatch(entries, 0, isNumbered, base)
    {
      var f := entries[i];
      if Contains(f, "_annotated.txt") {
        i := i + 1;
        continue;
      }
      if !Contains(f, "_tag_match_") {
        i := i + 1;
        continue;
      }
      if isNumbered && !EndsWith(f, NumberedSuffix) {
        i := i + 1;
        continue;
      }
      if !isNumbered && !EndsWith(f, PlainSuffix) {
        i := i + 1;
        continue;
      }
      if !isNumbered && EndsWith(f, NumberedSuffix) {
        i := i + 1;
        continue;
      }
      var tagMatchBase := DropLast(f, SuffixLength(isNumbered));
      if RemoveAll(tagMatchBase, "_tag_match") == base {
        return Some(JoinPath(directory, f));
      }
      i := i + 1;
    }
    return None;
  }

  /** A name ending in `_lines.txt` never ends in `_lines_numbered.txt`: the third suffix check of the loop never skips an entry. */
  lemma {:induction false} SuffixesExclusive(f: string)
    requires EndsWith(f, PlainSuffix)
    ensures !EndsWith(f, NumberedSuffix)
  {
    assert f[|f| - 10..][0] == '_';
    if |f| >= |NumberedSuffix| {
      assert f[|f| - |NumberedSuffix|..][9] == f[|f| - 10..][0];
    }
  }

  /** The last '/' of `a + f` is the one ending `a` when `f` has none. */
  lemma {:induction false} SlashEndAppend(a: string, f: string)
    requires a != [] && a[|a| - 1] == '/' && '/' !in f
    ensures SlashEnd(a + f) == |a|
  {
    var t := a + f;
    assert t[|a| - 1] == '/';
    assert forall j :: |a| <= j < |t| ==> t[j] == f[j - |a|];
  }

  /** Joining a folder name with an entry name and splitting the result again gives both back. */
  lemma {:induction false} JoinPathSplits(dir: string, f: string)
    requires dir != [] && (AllSlashes(dir) || dir[|dir| - 1] != '/')
    requires f != [] && '/' !in f
    ensures DirName(JoinPath(dir, f)) == dir
    ensures BaseName(JoinPath(dir, f)) == f
  {
    assert !StartsWith(f, "/") by { assert f[0] != '/'; }
    if dir[|dir| - 1] == '/' {
      SplitAfterSlash(dir, f);
    } else {
      var head := dir + "/";
      assert JoinPath(dir, f) == head + f;
      SplitAfterSlash(head, f);
      assert !AllSlashes(head) by { assert head[|dir| - 1] != '/'; }
      assert head[..|head| - 1] == dir;
    }
  }

  /** A name without '/' after a folder part that ends in '/': the base name and the folder part. */
  lemma {:induction false} SplitAfterSlash(head: string, f: string)
    requires head != [] && head[|head| - 1] == '/' && '/' !in f
    ensures BaseName(head + f) == f
    ensures DirName(head + f) == if AllSlashes(head) then head else RStripSlashes(head)
  {
    var t := head + f;
    SlashEndAppend(head, f);
    assert t[..|head|] == head;
    assert t[|head|..] == f;
  }

  /** Every name `os.listdir` can return: not empty, and without a '/'. */
  predicate EntryNames(listing: map<string, seq<string>>) {
    forall dir, f :: dir in listing && f in listing[dir] ==> f != [] && '/' !in f
  }

  /**
   * The tag_match file found lies in the source's folder, has the same numbered or
   * plain suffix, has `_tag_match_` in its name, and has the source's base name once
   * `_tag_match` is removed.
   */
  lemma {:induction false} TagMatchPathInFolder(src: string, listing: map<string, seq<string>>)
    requires EntryNames(listing)
    requires TagMatchPath(src, listing).Some?
    ensures var t := TagMatchPath(src, listing).value;
      && DirName(t) == DirName(src)
      && BaseName(t) in listing[DirName(src)]
      && Contains(BaseName(t), "_tag_match_")
      && !Contains(BaseName(t), "_annotated.txt")
      && IsNumbered(t) == IsNumbered(src)
      && RemoveAll(SourceBase(t), "_tag_match") == SourceBase(src)
  {
    var dir := DirName(src);
    var t := TagMatchPath(src, listing).value;
    var i :| 0 <= i < |listing[dir]| && t == JoinPath(dir, listing[dir][i])
      && IsTagMatchFor(listing[dir][i], IsNumbered(src), SourceBase(src));
    var f := listing[dir][i];
    JoinPathSplits(dir, f);
  }

  // ---------------------------------------------------------------------------
  // Removing the start tag (`remove_start_tag_from_line`)

  /**
   * `re.sub(r'^(\d+)\.\s*\[[^\]]+\]\s*', r'\1. ', line)` as written: the number and
   * ". ", then what follows the tag and every whitespace character after it.
   */
  function StripStartTagAsWritten(line: string): (r: string)
    ensures StartTagMatch(line).None? ==> r == line
    ensures StartTagMatch(line).Some? ==> |r| + 2 <= |line|
  {
    match StartTagMatch(line)
    case None => line
    case Some(m) =>
      var k := |m.Matched()|;
      m.number + ". " + line[k + SpaceRun(line, k)..]
  }

  /** As written, a line holding only its tag and '\n' loses the '\n' with the tag. */
  lemma {:induction false} AsWrittenOnlyTag(m: StartMatch)
    requires m.WellFormed()
    ensures StripStartTagAsWritten(m.Matched() + "\n") == m.number + ". "
  {
    AsWrittenAfterTag(m, "\n");
    SpaceRunExact("\n", 0, 1);
  }

  /** Two pieces written one after the other read back as one line when together they form one. */
  lemma {:induction false} ReadsAsOneLine(w: string, next: string)
    requires IsLine(w + next)
    ensures ReadLines(Concat([w, next])) == [w + next]
  {
    var two: seq<string> := [w, next];
    assert two[1..] == [next];
    assert two[1..][1..] == [];
    assert Concat(two[1..]) == next + Concat([]);
    assert Concat(two) == w + next;
    var one: seq<string> := [w + next];
    assert one[1..] == [];
    assert Concat(one) == w + next;
    ReadLinesConcat(one);
  }

  /**
   * As written, the trailing `\s*` also takes the '\n' of a line that holds nothing
   * after its tag: the line written back has no line break, so the next line is
   * read back as part of it and the file has one line fewer.
   */
  lemma {:induction false} AsWrittenJoinsNextLine(m: StartMatch, next: string)
    requires m.WellFormed() && '\n' !in m.gap && '\n' !in m.contents
    requires IsLine(next)
    ensures IsLineList([m.Matched() + "\n", next])
    ensures ReadLines(Concat([StripStartTagAsWritten(m.Matched() + "\n"), next])) == [m.number + ". " + next]
  {
    var line := m.Matched() + "\n";
    TagLineIsLine(m);
    assert line[|line| - 1..] == "\n";
    AsWrittenOnlyTag(m);
    PrefixedRest(m.number, next);
    assert m.number + ". " + next == (m.number + ". ") + next;
    ReadsAsOneLine(m.number + ". ", next);
  }

  /** A start tag without a '\n' in it, then '\n': one line. */
  lemma {:induction false} TagLineIsLine(m: StartMatch)
    requires m.WellFormed() && '\n' !in m.gap && '\n' !in m.contents
    ensures IsLine(m.Matched() + "\n")
  {
    var s := m.Matched() + "\n";
    var g := |m.number| + 1;
    var p := g + |m.gap|;
    forall i | 0 <= i < |s| - 1 ensures s[i] != '\n' {
      if i < |m.number| { assert s[i] == m.number[i]; }
      else if g <= i < p { assert s[i] == m.gap[i - g]; }
      else if p + 1 <= i < |s| - 2 { assert s[i] == m.contents[i - p - 1]; }
    }
  }

  /** The line ends with '\n'. */
  predicate EndsInNewline(s: string) {
    s != [] && s[|s| - 1] == '\n'
  }

  /** Puts back the '\n' that `line` ended with when the rewritten `w` lost it. */
  function KeepNewline(line: string, w: string): (r: string)
    ensures EndsInNewline(line) ==> EndsInNewline(r)
    ensures !EndsInNewline(line) ==> r == w
  {
    if EndsInNewline(line) && !EndsInNewline(w) then w + "\n" else w
  }

  /**
   * `remove_start_tag_from_line` as evidently intended: the same substitution, but a
   * line that ended with '\n' keeps it.
   */
  function StripStartTag(line: string): (r: string)
    ensures StartTagMatch(line).None? ==> r == line
    ensures StartTagMatch(line).Some? ==> |r| < |line|
  {
    KeepNewline(line, StripStartTagAsWritten(line))
  }

  /** The whitespace run after a prefix is the one at the start of what follows it. */
  lemma {:induction false} SpaceRunAfter(pre: string, tail: string, i: nat)
    requires i <= |tail|
    ensures SpaceRun(pre + tail, |pre| + i) == SpaceRun(tail, i)
    decreases |tail| - i
  {
    if i < |tail| {
      assert (pre + tail)[|pre| + i] == tail[i];
      SpaceRunAfter(pre, tail, i + 1);
    }
  }

  /** A well-formed tag at the start of a line is the match found there. */
  lemma {:induction false} TagAtStart(m: StartMatch, tail: string)
    requires m.WellFormed()
    ensures StartTagMatch(m.Matched() + tail) == Some(m)
  {
    assert (m.Matched() + tail)[..|m.Matched()|] == m.Matched();
    StartTagMatchExact(m.Matched() + tail, m);
  }

  /** The substitution for a line whose start tag is `m`. */
  lemma {:induction false} AsWrittenOfMatch(line: string, m: StartMatch)
    requires StartTagMatch(line) == Some(m)
    ensures StripStartTagAsWritten(line) == m.number + ". " + line[|m.Matched()| + SpaceRun(line, |m.Matched()|)..]
  {
    var k := |m.Matched()|;
    assert k <= |line| && k + SpaceRun(line, k) <= |line|;
    var r := m.number + ". " + line[k + SpaceRun(line, k)..];
    assert StripStartTagAsWritten(line) == r;
  }

  /** What follows a prefix: its whitespace run and the text after that run. */
  lemma {:induction false} AfterPrefix(pre: string, tail: string)
    ensures SpaceRun(pre + tail, |pre|) == SpaceRun(tail, 0)
    ensures (pre + tail)[|pre| + SpaceRun(tail, 0)..] == tail[SpaceRun(tail, 0)..]
  {
    SpaceRunAfter(pre, tail, 0);
  }

  /** After a start tag, the substitution keeps what follows the tag and its whitespace. */
  lemma {:induction false} AsWrittenAfterTag(m: StartMatch, tail: string)
    requires m.WellFormed()
    ensures StripStartTagAsWritten(m.Matched() + tail) == m.number + ". " + tail[SpaceRun(tail, 0)..]
  {
    TagAtStart(m, tail);
    AsWrittenOfMatch(m.Matched() + tail, m);
    AfterPrefix(m.Matched(), tail);
  }

  /** Digits, ". " and the end of a line: a line, ending with '\n' only if that end does. */
  lemma {:induction false} PrefixedRest(n: string, t: string)
    requires AllDigits(n)
    requires forall i :: 0 <= i < |t| - 1 ==> t[i] != '\n'
    ensures IsLine(n + ". " + t)
    ensures EndsInNewline(n + ". " + t) <==> EndsInNewline(t)
  {
    var w := n + ". " + t;
    forall i | 0 <= i < |w| - 1 ensures w[i] != '\n' {
      if i < |n| { assert w[i] == n[i]; }
      else if |n| + 2 <= i { assert w[i] == t[i - |n| - 2]; }
    }
    if t != [] { assert w[|w| - 1] == t[|t| - 1]; }
  }

  /** The text after position `j` of a line has no '\n' but possibly its last character, which is the line's. */
  lemma {:induction false} SuffixOfLine(line: string, j: nat)
    requires IsLine(line) && j <= |line|
    ensures forall i :: 0 <= i < |line[j..]| - 1 ==> line[j..][i] != '\n'
    ensures EndsInNewline(line[j..]) ==> EndsInNewline(line)
  {
    var t := line[j..];
    assert forall i :: 0 <= i < |t| ==> t[i] == line[j + i];
  }

  /** Putting back the '\n' keeps a line a line. */
  lemma {:induction false} KeepNewlineLine(line: string, w: string)
    requires IsLine(w)
    requires EndsInNewline(w) ==> EndsInNewline(line)
    ensures IsLine(KeepNewline(line, w))
    ensures EndsInNewline(KeepNewline(line, w)) <==> EndsInNewline(line)
  {
    var r := KeepNewline(line, w);
    if EndsInNewline(line) && !EndsInNewline(w) {
      assert forall i :: 0 <= i < |w| ==> r[i] == w[i];
    }
  }

  /** The corrected removal keeps a line a line: its '\n' stays at the end, and only there. */
  lemma {:induction false} StripStartTagKeepsLine(line: string)
    requires IsLine(line)
    ensures IsLine(StripStartTag(line))
    ensures EndsInNewline(StripStartTag(line)) <==> EndsInNewline(line)
  {
    match StartTagMatch(line)
    case None =>
    case Some(m) =>
      var k := |m.Matched()|;
      var tail := line[k..];
      assert line == m.Matched() + tail;
      AsWrittenAfterTag(m, tail);
      var j := SpaceRun(tail, 0);
      SuffixOfLine(line, k + j);
      assert tail[j..] == line[k + j..];
      PrefixedRest(m.number, tail[j..]);
      KeepNewlineLine(line, m.number + ". " + tail[j..]);
  }

  /** A tag followed by text: the number, ". " and the text, whitespace between tag and text dropped. */
  lemma {:induction false} StripStartTagBeforeText(m: StartMatch, sp: string, rest: string)
    requires m.WellFormed() && AllSpace(sp)
    requires rest != [] && !IsSpace(rest[0])
    ensures StripStartTag(m.Matched() + sp + rest) == m.number + ". " + rest
  {
    AsWrittenBeforeText(m, sp, rest);
    SameLastChar(m.Matched() + sp + rest, m.number + ". " + rest);
  }

  /** The substitution on a tag followed by text. */
  lemma {:induction false} AsWrittenBeforeText(m: StartMatch, sp: string, rest: string)
    requires m.WellFormed() && AllSpace(sp)
    requires rest != [] && !IsSpace(rest[0])
    ensures StripStartTagAsWritten(m.Matched() + sp + rest) == m.number + ". " + rest
  {
    var tail := sp + rest;
    assert m.Matched() + sp + rest == m.Matched() + tail;
    assert tail[|sp|] == rest[0];
    SpaceRunExact(tail, 0, |sp|);
    assert tail[|sp|..] == rest;
    AsWrittenAfterTag(m, tail);
  }

  /** Two texts with the same last character: nothing to put back. */
  lemma {:induction false} SameLastChar(line: string, w: string)
    requires line != [] && w != [] && line[|line| - 1] == w[|w| - 1]
    ensures KeepNewline(line, w) == w
  {
  }

  /** A tag with nothing after it: the number and ". ", and the line's '\n'. */
  lemma {:induction false} StripStartTagOnlyTag(m: StartMatch, sp: string)
    requires m.WellFormed() && AllSpace(sp)
    ensures StripStartTag(m.Matched() + sp + "\n") == m.number + ". \n"
  {
    AsWrittenOnlySpace(m, sp);
    var w := m.number + ". ";
    assert w[|w| - 1] == ' ';
  }

  /** The substitution on a tag followed by whitespace and '\n' only. */
  lemma {:induction false} AsWrittenOnlySpace(m: StartMatch, sp: string)
    requires m.WellFormed() && AllSpace(sp)
    ensures StripStartTagAsWritten(m.Matched() + sp + "\n") == m.number + ". "
  {
    var tail := sp + "\n";
    assert m.Matched() + sp + "\n" == m.Matched() + tail;
    SpaceRunExact(tail, 0, |tail|);
    assert tail[|tail|..] == [];
    AsWrittenAfterTag(m, tail);
    assert m.number + ". " + [] == m.number + ". ";
  }

  /** `EndsWith(s, "\n")` is a '\n' in the last place. */
  lemma {:induction false} EndsWithNewline(s: string)
    ensures EndsWith(s, "\n") <==> EndsInNewline(s)
  {
    if s != [] {
      assert s[|s| - 1..][0] == s[|s| - 1];
    }
  }

  // ---------------------------------------------------------------------------
  // Rewriting one tag_match file

  /** One entry of `removal_log`: the dialogue number, the file, the tag, the line before and after, both stripped. */
  datatype TagMatchRemoval = TagMatchRemoval(dialogue: string, path: string, tag: string, original: string, rewritten: string)

  /** The line's leading number (`^(\d+)\.`) is one of the targets. */
  predicate Targeted(line: string, targets: set<string>) {
    LeadingNumber(line).Some? && LeadingNumber(line).value in targets
  }

  /** The bracket contents of the line's start tag, or "unknown". */
  function RemovedTag(line: string): string {
    match StartTagMatch(line)
    case Some(m) => m.contents
    case None => "unknown"
  }

  /**
   * The log entry for one line of the tag_match file at `path`: there is one exactly
   * when the line's number is targeted and it has a start tag, so the tag is never
   * "unknown".
   */
  function RemovalAt(line: string, path: string, targets: set<string>): (r: Option<TagMatchRemoval>)
    ensures r.Some? <==> Targeted(line, targets) && StartTagMatch(line).Some?
    ensures r.Some? ==> && r.value.dialogue == LeadingNumber(line).value
                        && r.value.path == path
                        && r.value.tag == StartTagMatch(line).value.contents
                        && r.value.original == Strip(line)
                        && r.value.rewritten == Strip(StripStartTag(line))
  {
    match LeadingNumber(line)
    case None => None
    case Some(d) =>
      if d in targets then
        var newLine := StripStartTag(line);
        if newLine != line then Some(TagMatchRemoval(d, path, RemovedTag(line), Strip(line), Strip(newLine)))
        else None
      else None
  }

  /** The line as the loop leaves it. */
  function RewriteLine(line: string, targets: set<string>): (r: string)
    ensures r != line <==> Targeted(line, targets) && StartTagMatch(line).Some?
  {
    if Targeted(line, targets) then StripStartTag(line) else line
  }

  /** The file's lines after the loop, one for one. */
  function RewrittenLines(lines: seq<string>, targets: set<string>): (r: seq<string>)
    ensures |r| == |lines|
  {
    seq(|lines|, i requires 0 <= i < |lines| => RewriteLine(lines[i], targets))
  }

  /**
   * Line `i` after the loop: it changes only when its number is targeted and it has
   * a start tag, and then it is the line with the tag removed.
   */
  lemma {:induction false} RewrittenLineAt(lines: seq<string>, targets: set<string>, i: nat)
    requires i < |lines|
    ensures RewrittenLines(lines, targets)[i] != lines[i] <==> Targeted(lines[i], targets) && StartTagMatch(lines[i]).Some?
    ensures RewrittenLines(lines, targets)[i] != lines[i] ==> RewrittenLines(lines, targets)[i] == StripStartTag(lines[i])
  {
    RewrittenLineIs(lines, targets, i);
  }

  /** Line `i` after the loop is line `i` rewritten. */
  lemma {:induction false} RewrittenLineIs(lines: seq<string>, targets: set<string>, i: nat)
    requires i < |lines|
    ensures RewrittenLines(lines, targets)[i] == RewriteLine(lines[i], targets)
  {
  }

  /** A line whose start tag is `m` has the number of `m` as its leading number. */
  lemma {:induction false} MatchNumber(line: string, m: StartMatch)
    requires StartTagMatch(line) == Some(m)
    ensures LeadingNumber(line) == Some(m.number)
  {
    assert m.Matched()[..|m.number| + 1] == m.number + ".";
    assert line[..|m.number| + 1] == m.Matched()[..|m.number| + 1];
    LeadingNumberExact(line, m.number);
  }

  /** The corrected removal keeps the line's number: what it writes starts with that number and ". ". */
  lemma {:induction false} StripStartTagKeepsNumber(line: string)
    requires StartTagMatch(line).Some?
    ensures var m := StartTagMatch(line).value;
      StartsWith(StripStartTag(line), m.number + ". ") && LeadingNumber(StripStartTag(line)) == Some(m.number)
  {
    var m := StartTagMatch(line).value;
    var w := StripStartTagAsWritten(line);
    assert StartsWith(w, m.number + ". ") by {
      var k := |m.Matched()|;
      AsWrittenOfMatch(line, m);
      assert (m.number + ". " + line[k + SpaceRun(line, k)..])[..|m.number| + 2] == m.number + ". ";
    }
    KeepNewlineStarts(line, w, m.number + ". ");
    NumberDotSpace(StripStartTag(line), m.number);
  }

  /** Putting back the '\n' keeps what the text starts with. */
  lemma {:induction false} KeepNewlineStarts(line: string, w: string, p: string)
    requires StartsWith(w, p)
    ensures StartsWith(KeepNewline(line, w), p)
  {
    if KeepNewline(line, w) != w {
      assert (w + "\n")[..|p|] == w[..|p|];
    }
  }

  /** A text that starts with digits and ". " has those digits as its leading number. */
  lemma {:induction false} NumberDotSpace(r: string, n: string)
    requires |n| > 0 && AllDigits(n) && StartsWith(r, n + ". ")
    ensures LeadingNumber(r) == Some(n)
  {
    assert r[..|n| + 1] == (n + ". ")[..|n| + 1] == n + ".";
    LeadingNumberExact(r, n);
  }

  /**
   * Re-running the propagation with the same numbers changes a line only when the
   * first run removed a start tag from it and left another bracket group right after
   * the same number: `remove_start_tag_from_line` removes one group per run.
   */
  lemma {:induction false} ReapplyChangesOnlyStacked(line: string, targets: set<string>)
    ensures var once := RewriteLine(line, targets);
      RewriteLine(once, targets) != once ==>
        && once != line && once == StripStartTag(line)
        && StartTagMatch(once).Some? && LeadingNumber(once) == LeadingNumber(line)
  {
    var once := RewriteLine(line, targets);
    if once != line {
      StripStartTagKeepsNumber(line);
      MatchNumber(line, StartTagMatch(line).value);
    }
  }

  /** Digits, ". " and a text that opens with neither whitespace nor '[': no start tag. */
  lemma {:induction false} NoTagAfterNumber(n: string, text: string)
    requires |n| > 0 && AllDigits(n)
    requires text != [] && !IsSpace(text[0]) && text[0] != '['
    ensures StartTagMatch(n + ". " + text).None?
  {
    var s := n + ". " + text;
    var k := |n|;
    assert forall i :: 0 <= i < k ==> s[i] == n[i];
    assert s[k] == '.' && s[k + 1] == ' ' && s[k + 2] == text[0];
    DigitRunExact(s, 0, k);
    SpaceRunExact(s, k + 1, 1);
  }

  /** A start tag, one space and the rest: the rest after the number and ". ". */
  lemma {:induction false} StripOneSpace(m: StartMatch, rest: string, targets: set<string>)
    requires m.WellFormed() && m.number in targets
    requires rest != [] && !IsSpace(rest[0])
    ensures RewriteLine(m.Matched() + " " + rest, targets) == m.number + ". " + rest
  {
    StripStartTagBeforeText(m, " ", rest);
    TargetedAfterTag(m, " ", rest, targets);
    RewriteTargeted(m.Matched() + " " + rest, targets, m.number + ". " + rest);
  }

  /** A line that opens with a start tag is targeted when the tag's number is. */
  lemma {:induction false} TargetedAfterTag(m: StartMatch, sp: string, rest: string, targets: set<string>)
    requires m.WellFormed() && m.number in targets
    ensures Targeted(m.Matched() + sp + rest, targets)
  {
    var line := m.Matched() + sp + rest;
    assert line == m.Matched() + (sp + rest);
    TagAtStart(m, sp + rest);
    MatchNumber(line, m);
  }

  /** A targeted line is rewritten by the corrected removal. */
  lemma {:induction false} RewriteTargeted(line: string, targets: set<string>, w: string)
    requires Targeted(line, targets) && StripStartTag(line) == w
    ensures RewriteLine(line, targets) == w
  {
  }

  /**
   * Stacked start tags lose one group per run: `N. [a] [b] text` becomes
   * `N. [b] text`, then `N. text`, and only a third run leaves it unchanged. So
   * running the propagation twice is not the same as running it once.
   */
  lemma {:induction false} StackedStartTags(m: StartMatch, b: string, text: string, targets: set<string>)
    requires m.WellFormed() && m.number in targets
    requires |b| > 0 && ']' !in b
    requires text != [] && !IsSpace(text[0]) && text[0] != '['
    ensures var once := RewriteLine(m.Matched() + " [" + b + "] " + text, targets);
      && once == m.number + ". [" + b + "] " + text
      && RewriteLine(once, targets) == m.number + ". " + text
      && RewriteLine(m.number + ". " + text, targets) == m.number + ". " + text
  {
    StripOneSpace(m, "[" + b + "] " + text, targets);
    StackedText(m.Matched(), m.number, b, text);
    StripOneSpace(StartMatch(m.number, " ", b), text, targets);
    SecondTagText(m.number, b, text);
    NoTagAfterNumber(m.number, text);
  }


  /** The texts of a stacked line, grouped both ways. */
  lemma {:induction false} StackedText(t: string, n: string, b: string, text: string)
    ensures t + " " + ("[" + b + "] " + text) == t + " [" + b + "] " + text
    ensures n + ". " + ("[" + b + "] " + text) == n + ". [" + b + "] " + text
  {
    assert " [" == " " + "[";
    assert ". [" == ". " + "[";
  }
  /** The line the first run leaves opens with the second tag. */
  lemma {:induction false} SecondTagText(n: string, b: string, text: string)
    ensures StartMatch(n, " ", b).Matched() + " " + text == n + ". [" + b + "] " + text
  {
    assert ". [" == "." + " " + "[";
    assert "] " == "]" + " ";
  }


  /** The log entries for the file's lines, in line order; each names the file and a targeted number. */
  function RemovedIn(lines: seq<string>, path: string, targets: set<string>): (r: seq<TagMatchRemoval>)
    ensures |r| <= |lines|
  {
    if lines == [] then []
    else
      var prev := RemovedIn(lines[..|lines| - 1], path, targets);
      match RemovalAt(lines[|lines| - 1], path, targets)
      case Some(e) => prev + [e]
      case None => prev
  }

  /** Every entry logged for a file names that file and one of the targeted numbers, and comes from one of its lines. */
  lemma {:induction false} RemovedEntries(lines: seq<string>, path: string, targets: set<string>)
    ensures forall e :: e in RemovedIn(lines, path, targets) ==>
      e.path == path && e.dialogue in targets && exists i :: 0 <= i < |lines| && RemovalAt(lines[i], path, targets) == Some(e)
  {
    RemovedFrom(lines, path, targets);
    forall e | e in RemovedIn(lines, path, targets)
      ensures e.path == path && e.dialogue in targets
    {
      var i :| 0 <= i < |lines| && RemovalAt(lines[i], path, targets) == Some(e);
    }
  }

  /** Every entry logged for a file is the entry of one of its lines. */
  lemma {:induction false} RemovedFrom(lines: seq<string>, path: string, targets: set<string>)
    ensures forall e :: e in RemovedIn(lines, path, targets) ==>
      exists i :: 0 <= i < |lines| && RemovalAt(lines[i], path, targets) == Some(e)
  {
    if lines != [] {
      var k := |lines| - 1;
      var init := lines[..k];
      RemovedFrom(init, path, targets);
      forall e | e in RemovedIn(lines, path, targets)
        ensures exists i :: 0 <= i < |lines| && RemovalAt(lines[i], path, targets) == Some(e)
      {
        if e in RemovedIn(init, path, targets) {
          var i :| 0 <= i < k && RemovalAt(init[i], path, targets) == Some(e);
          assert init[i] == lines[i];
        } else {
          assert RemovalAt(lines[k], path, targets) == Some(e);
        }
      }
    }
  }

  /** The number of places where `a` and `b` differ. */
  function Changes(a: seq<string>, b: seq<string>): (n: nat)
    requires |a| == |b|
    ensures n == 0 <==> a == b
  {
    if a == [] then 0
    else
      var k := |a| - 1;
      assert a == b <==> a[..k] == b[..k] && a[k] == b[k] by {
        assert a == a[..k] + [a[k]];
        assert b == b[..k] + [b[k]];
      }
      Changes(a[..k], b[..k]) + (if a[k] != b[k] then 1 else 0)
  }

  /** One log entry per changed line. */
  lemma {:induction false} RemovedCountsChanges(lines: seq<string>, path: string, targets: set<string>)
    ensures |RemovedIn(lines, path, targets)| == Changes(lines, RewrittenLines(lines, targets))
  {
    if lines != [] {
      var k := |lines| - 1;
      RemovedCountsChanges(lines[..k], path, targets);
      var r := RewrittenLines(lines, targets);
      assert r[..k] == RewrittenLines(lines[..k], targets);
      assert r[k] == RewriteLine(lines[k], targets);
      assert Changes(lines, r) == Changes(lines[..k], r[..k]) + (if lines[k] != r[k] then 1 else 0);
      var prev := RemovedIn(lines[..k], path, targets);
      assert |RemovedIn(lines, path, targets)| == |prev| + (if RemovalAt(lines[k], path, targets).Some? then 1 else 0);
    }
  }

  /** A file is modified exactly when something was logged for it. */
  lemma {:induction false} ModifiedIffLogged(lines: seq<string>, path: string, targets: set<string>)
    ensures RewrittenLines(lines, targets) != lines <==> RemovedIn(lines, path, targets) != []
  {
    RemovedCountsChanges(lines, path, targets);
  }

  /** The rewritten lines are still the lines of a file, and `readlines` gives them back after `writelines`. */
  lemma {:induction false} RewrittenFileReadsBack(lines: seq<string>, targets: set<string>)
    requires IsLineList(lines)
    ensures IsLineList(RewrittenLines(lines, targets))
    ensures ReadLines(Concat(RewrittenLines(lines, targets))) == RewrittenLines(lines, targets)
  {
    var r := RewrittenLines(lines, targets);
    forall i | 0 <= i < |r|
      ensures IsLine(r[i]) && (i + 1 < |r| ==> EndsWith(r[i], "\n"))
    {
      RewrittenLineAt(lines, targets, i);
      EndsWithNewline(lines[i]);
      EndsWithNewline(r[i]);
      if r[i] != lines[i] {
        StripStartTagKeepsLine(lines[i]);
      }
    }
    ReadLinesConcat(r);
  }

  /** Going one line further in the file. */
  lemma {:induction false} RewriteSnoc(lines: seq<string>, i: nat, path: string, targets: set<string>)
    requires i < |lines|
    ensures RewrittenLines(lines[..i + 1], targets) == RewrittenLines(lines[..i], targets) + [RewriteLine(lines[i], targets)]
    ensures RemovedIn(lines[..i + 1], path, targets) ==
      RemovedIn(lines[..i], path, targets) + (match RemovalAt(lines[i], path, targets) case Some(e) => [e] case None => [])
  {
    assert lines[..i + 1][..i] == lines[..i];
    assert lines[..i + 1][i] == lines[i];
    var r := RewrittenLines(lines[..i + 1], targets);
    assert r == r[..i] + [r[i]];
    assert r[..i] == RewrittenLines(lines[..i], targets);
  }

  /** The body of the loop over the lines: the line to write back and the log entry, if any. */
  method RewriteOneLine(line: string, path: string, targets: set<string>)
    returns (newLine: string, entry: Option<TagMatchRemoval>)
    ensures newLine == RewriteLine(line, targets)
    ensures entry == RemovalAt(line, path, targets)
  {
    newLine := line;
    entry := None;
    var lineMatch := LeadingNumber(line);
    if lineMatch.Some? && lineMatch.value in targets {
      var stripped := StripStartTag(line);
      if stripped != line {
        entry := Some(TagMatchRemoval(lineMatch.value, path, RemovedTag(line), Strip(line), Strip(stripped)));
        newLine := stripped;
      }
    }
  }

  /** The loop over the lines of one tag_match file. */
  method RewriteTagMatchFile(lines: seq<string>, path: string, targets: set<string>)
    returns (newLines: seq<string>, removed: seq<TagMatchRemoval>)
    ensures newLines == RewrittenLines(lines, targets)
    ensures removed == RemovedIn(lines, path, targets)
  {
    newLines := [];
    removed := [];
    for i := 0 to |lines|
      invariant newLines == RewrittenLines(lines[..i], targets)
      invariant removed == RemovedIn(lines[..i], path, targets)
    {
      var line, entry := RewriteOneLine(lines[i], path, targets);
      RewriteSnoc(lines, i, path, targets);
      if entry.Some? {
        removed := removed + [entry.value];
      }
      newLines := newLines + [line];
    }
    assert lines[..|lines|] == lines;
  }

  // ---------------------------------------------------------------------------
  // The loop over the logged sources

  /** What the loop over the sources builds: the files as they stand (path to lines), its counters and lists. */
  datatype Propagation = Propagation(
    files: map<string, seq<string>>,
    modifiedFiles: nat,
    totalTagsRemoved: nat,
    removalLog: seq<TagMatchRemoval>,
    skippedEnglish: nat,
    skippedTagMatch: nat,
    notFound: seq<string>)

  function Begin(files: map<string, seq<string>>): Propagation {
    Propagation(files, 0, 0, [], 0, 0, [])
  }

  /** The dialogue numbers logged for a source, in log order. */
  function LoggedFor(removals: Removals, src: string): seq<string> {
    if src in removals.nums then removals.nums[src] else []
  }

  /** `set(dialogue_nums)`. */
  function TargetSet(nums: seq<string>): (r: set<string>)
    ensures forall d :: d in r <==> d in nums
  {
    set d | d in nums
  }

  /**
   * One pass of the loop for the source `src` and its numbers: an English source and
   * one that is already a tag_match file are counted; a source without a tag_match
   * file, or whose tag_match file is missing, is listed; otherwise the tag_match
   * file's targeted lines lose their start tags, and the file is written back unless
   * this is a dry run.
   */
  function PropagateOne(st: Propagation, src: string, nums: seq<string>,
                        listing: map<string, seq<string>>, dryRun: bool): Propagation
  {
    if Contains(src, "/english_") then st.(skippedEnglish := st.skippedEnglish + 1)
    else if Contains(src, "_tag_match_") then st.(skippedTagMatch := st.skippedTagMatch + 1)
    else
      match TagMatchPath(src, listing)
      case None => st.(notFound := st.notFound + [src])
      case Some(t) =>
        if t !in st.files then st.(notFound := st.notFound + [src + " -> " + t])
        else RewriteStep(st, t, TargetSet(nums), dryRun)
  }

  /** The tag_match file `t` rewritten for `targets`: counted and logged when a line changed, written back unless this is a dry run. */
  function RewriteStep(st: Propagation, t: string, targets: set<string>, dryRun: bool): Propagation
    requires t in st.files
  {
    var removed := RemovedIn(st.files[t], t, targets);
    if removed == [] then st
    else
      Propagation(if dryRun then st.files else st.files[t := RewrittenLines(st.files[t], targets)],
                  st.modifiedFiles + 1,
                  st.totalTagsRemoved + |removed|,
                  st.removalLog + removed,
                  st.skippedEnglish, st.skippedTagMatch, st.notFound)
  }

  /** The loop run over the sources `order`, from the files as they were. */
  function Propagate(files: map<string, seq<string>>, removals: Removals, order: seq<string>,
                     listing: map<string, seq<string>>, dryRun: bool): Propagation
  {
    if order == [] then Begin(files)
    else
      var src := order[|order| - 1];
      PropagateOne(Propagate(files, removals, order[..|order| - 1], listing, dryRun),
                   src, LoggedFor(removals, src), listing, dryRun)
  }

  /** The body of the loop over the sources. */
  method PropagateSource(st: Propagation, src: string, nums: seq<string>,
                         listing: map<string, seq<string>>, dryRun: bool) returns (r: Propagation)
    ensures r == PropagateOne(st, src, nums, listing, dryRun)
  {
    r := st;
    if Contains(src, "/english_") {
      r := r.(skippedEnglish := r.skippedEnglish + 1);
      return;
    }
    if Contains(src, "_tag_match_") {
      r := r.(skippedTagMatch := r.skippedTagMatch + 1);
      return;
    }
    var tagMatchPath := GetTagMatchPath(src, listing);
    if tagMatchPath.None? {
      r := r.(notFound := r.notFound + [src]);
      return;
    }
    var t := tagMatchPath.value;
    if t !in r.files {
      r := r.(notFound := r.notFound + [src + " -> " + t]);
      return;
    }
    r := RewriteTagMatch(r, t, TargetSet(nums), dryRun);
  }

  /** Two states with the same files, counters and lists are the same state. */
  lemma {:induction false} SameState(a: Propagation, b: Propagation)
    requires a.files == b.files && a.modifiedFiles == b.modifiedFiles && a.totalTagsRemoved == b.totalTagsRemoved
    requires a.removalLog == b.removalLog && a.skippedEnglish == b.skippedEnglish
    requires a.skippedTagMatch == b.skippedTagMatch && a.notFound == b.notFound
    ensures a == b
  {
  }

  /** Lines 130-168 for the tag_match file `t`. */
  method RewriteTagMatch(st: Propagation, t: string, targets: set<string>, dryRun: bool) returns (r: Propagation)
    requires t in st.files
    ensures r == RewriteStep(st, t, targets, dryRun)
  {
    r := st;
    var newLines, removed := RewriteTagMatchFile(st.files[t], t, targets);
    if removed != [] {
      if !dryRun {
        r := r.(files := r.files[t := newLines]);
      }
      r := r.(modifiedFiles := r.modifiedFiles + 1,
              totalTagsRemoved := r.totalTagsRemoved + |removed|,
              removalLog := r.removalLog + removed);
    }
    SameState(r, RewriteStep(st, t, targets, dryRun));
  }

  /** The loop of lines 109-168 over the sources of the parsed log, in log order. */
  method PropagateRemovals(removals: Removals, listing: map<string, seq<string>>,
                           files: map<string, seq<string>>, dryRun: bool) returns (st: Propagation)
    ensures st == Propagate(files, removals, removals.order, listing, dryRun)
  {
    st := Begin(files);
    for i := 0 to |removals.order|
      invariant st == Propagate(files, removals, removals.order[..i], listing, dryRun)
    {
      PropagateTake(files, removals, removals.order, listing, dryRun, i);
      var src := removals.order[i];
      st := PropagateSource(st, src, LoggedFor(removals, src), listing, dryRun);
    }
    assert removals.order[..|removals.order|] == removals.order;
  }

  /** The run over the first `i + 1` sources is the run over the first `i` followed by source `i`. */
  lemma {:induction false} PropagateTake(files: map<string, seq<string>>, removals: Removals, order: seq<string>,
                      listing: map<string, seq<string>>, dryRun: bool, i: nat)
    requires i < |order|
    ensures Propagate(files, removals, order[..i + 1], listing, dryRun)
         == PropagateOne(Propagate(files, removals, order[..i], listing, dryRun), order[i], LoggedFor(removals, order[i]), listing, dryRun)
  {
    assert order[..i + 1][..i] == order[..i];
  }

  /** The tag_match file a source is rewritten through: none for a skipped source or one without a tag_match file. */
  function Target(src: string, listing: map<string, seq<string>>): Option<string> {
    if Contains(src, "/english_") || Contains(src, "_tag_match_") then None else TagMatchPath(src, listing)
  }

  /** One source changes the files only at the tag_match file it reaches, and only in a real run. */
  lemma {:induction false} OneStepFiles(st: Propagation, src: string, nums: seq<string>, listing: map<string, seq<string>>, dryRun: bool)
    ensures var r := PropagateOne(st, src, nums, listing, dryRun);
      && r.files.Keys == st.files.Keys
      && (dryRun ==> r.files == st.files)
      && forall t :: t in st.files && Target(src, listing) != Some(t) ==> r.files[t] == st.files[t]
  {
  }

  /** One source adds at most one to the counted and listed sources, and one removed tag per new log entry. */
  lemma {:induction false} OneStepCounts(st: Propagation, src: string, nums: seq<string>, listing: map<string, seq<string>>, dryRun: bool)
    ensures var r := PropagateOne(st, src, nums, listing, dryRun);
      && r.totalTagsRemoved - st.totalTagsRemoved == |r.removalLog| - |st.removalLog|
      && r.skippedEnglish + r.skippedTagMatch + |r.notFound| + r.modifiedFiles
         <= st.skippedEnglish + st.skippedTagMatch + |st.notFound| + st.modifiedFiles + 1
  {
  }

  /**
   * The counters agree with the lists: one removed tag per log entry, and each source
   * is counted as English, counted as tag_match, listed as not found, or counted
   * as modified at most once. The set of files never changes.
   */
  lemma {:induction false} PropagateCounts(files: map<string, seq<string>>, removals: Removals, order: seq<string>,
                                           listing: map<string, seq<string>>, dryRun: bool)
    ensures var r := Propagate(files, removals, order, listing, dryRun);
      && r.totalTagsRemoved == |r.removalLog|
      && r.skippedEnglish + r.skippedTagMatch + |r.notFound| + r.modifiedFiles <= |order|
      && r.files.Keys == files.Keys
  {
    if order != [] {
      var n := |order| - 1;
      PropagateCounts(files, removals, order[..n], listing, dryRun);
      var prev := Propagate(files, removals, order[..n], listing, dryRun);
      OneStepCounts(prev, order[n], LoggedFor(removals, order[n]), listing, dryRun);
      OneStepFiles(prev, order[n], LoggedFor(removals, order[n]), listing, dryRun);
    }
  }

  /** A dry run writes no file. */
  lemma {:induction false} DryRunWritesNothing(files: map<string, seq<string>>, removals: Removals, order: seq<string>,
                                               listing: map<string, seq<string>>)
    ensures Propagate(files, removals, order, listing, true).files == files
  {
    if order != [] {
      var n := |order| - 1;
      DryRunWritesNothing(files, removals, order[..n], listing);
      OneStepFiles(Propagate(files, removals, order[..n], listing, true), order[n], LoggedFor(removals, order[n]), listing, true);
    }
  }

  /**
   * Every log entry comes from a source of the run: it names the tag_match file that
   * source maps to and one of the dialogue numbers logged for it.
   */
  lemma {:induction false} LogEntriesFromSources(files: map<string, seq<string>>, removals: Removals, order: seq<string>,
                                                 listing: map<string, seq<string>>, dryRun: bool)
    ensures forall e :: e in Propagate(files, removals, order, listing, dryRun).removalLog ==>
      exists k :: 0 <= k < |order| && Target(order[k], listing) == Some(e.path) && e.dialogue in LoggedFor(removals, order[k])
  {
    if order != [] {
      var n := |order| - 1;
      var prev := Propagate(files, removals, order[..n], listing, dryRun);
      LogEntriesFromSources(files, removals, order[..n], listing, dryRun);
      var src := order[n];
      var r := Propagate(files, removals, order, listing, dryRun);
      forall e | e in r.removalLog
        ensures exists k :: 0 <= k < |order| && Target(order[k], listing) == Some(e.path) && e.dialogue in LoggedFor(removals, order[k])
      {
        if e in prev.removalLog {
          var k :| 0 <= k < n && Target(order[..n][k], listing) == Some(e.path) && e.dialogue in LoggedFor(removals, order[..n][k]);
          assert order[..n][k] == order[k];
        } else {
          var t := Target(src, listing).value;
          var targets := TargetSet(LoggedFor(removals, src));
          assert e in RemovedIn(prev.files[t], t, targets);
          RemovedEntries(prev.files[t], t, targets);
          assert Target(order[n], listing) == Some(e.path);
        }
      }
    }
  }

  /** Two runs report the same: the same counters and lists, whatever their files. */
  predicate SameReport(a: Propagation, b: Propagation) {
    && a.modifiedFiles == b.modifiedFiles && a.totalTagsRemoved == b.totalTagsRemoved
    && a.removalLog == b.removalLog && a.skippedEnglish == b.skippedEnglish
    && a.skippedTagMatch == b.skippedTagMatch && a.notFound == b.notFound
  }

  /** No two sources are rewritten through the same tag_match file. */
  predicate DistinctTargets(order: seq<string>, listing: map<string, seq<string>>) {
    forall i, j :: 0 <= i < j < |order| && Target(order[i], listing).Some? ==> Target(order[i], listing) != Target(order[j], listing)
  }

  /** No source of `order` is rewritten through `t`. */
  predicate Untouched(order: seq<string>, listing: map<string, seq<string>>, t: string) {
    forall k :: 0 <= k < |order| ==> Target(order[k], listing) != Some(t)
  }

  /**
   * One source in a dry and a real run that have reported the same so far, and whose
   * files agree at the tag_match file it reaches: they report the same afterwards.
   */
  lemma {:induction false} OneStepSameReport(dry: Propagation, written: Propagation, src: string, nums: seq<string>,
                          listing: map<string, seq<string>>)
    requires SameReport(dry, written) && dry.files.Keys == written.files.Keys
    requires forall t :: Target(src, listing) == Some(t) && t in dry.files ==> dry.files[t] == written.files[t]
    ensures SameReport(PropagateOne(dry, src, nums, listing, true), PropagateOne(written, src, nums, listing, false))
  {
    if !Contains(src, "/english_") && !Contains(src, "_tag_match_") && TagMatchPath(src, listing).Some? {
      var t := TagMatchPath(src, listing).value;
      if t in dry.files {
        assert RewriteStep(dry, t, TargetSet(nums), true).removalLog == RewriteStep(written, t, TargetSet(nums), false).removalLog;
      }
    }
  }

  /** Before the last source, no source reaches the tag_match file the last one reaches. */
  lemma {:induction false} LastTargetUntouched(order: seq<string>, listing: map<string, seq<string>>, u: string)
    requires order != [] && DistinctTargets(order, listing) && Target(order[|order| - 1], listing) == Some(u)
    ensures Untouched(order[..|order| - 1], listing, u)
  {
    var pre := order[..|order| - 1];
    forall k | 0 <= k < |pre| ensures Target(pre[k], listing) != Some(u) {
      assert pre[k] == order[k];
    }
  }

  /** A file no source of `order` reaches is not reached by the sources before the last one either. */
  lemma {:induction false} UntouchedPrefix(order: seq<string>, listing: map<string, seq<string>>, u: string)
    requires order != [] && Untouched(order, listing, u)
    ensures Untouched(order[..|order| - 1], listing, u)
    ensures Target(order[|order| - 1], listing) != Some(u)
  {
    var pre := order[..|order| - 1];
    forall k | 0 <= k < |pre| ensures Target(pre[k], listing) != Some(u) {
      assert pre[k] == order[k];
    }
  }

  /** Distinct targets stay distinct without the last source. */
  lemma {:induction false} DistinctPrefix(order: seq<string>, listing: map<string, seq<string>>)
    requires order != [] && DistinctTargets(order, listing)
    ensures DistinctTargets(order[..|order| - 1], listing)
  {
    var pre := order[..|order| - 1];
    forall i, j | 0 <= i < j < |pre| && Target(pre[i], listing).Some?
      ensures Target(pre[i], listing) != Target(pre[j], listing)
    {
      assert pre[i] == order[i] && pre[j] == order[j];
    }
  }

  /**
   * With each tag_match file reached from one source at most, a dry run reports what
   * a real run does, and the real run leaves the files no source reaches as they were.
   */
  lemma {:induction false} DryRunReportsRealRun(files: map<string, seq<string>>, removals: Removals, order: seq<string>,
                                                listing: map<string, seq<string>>)
    requires DistinctTargets(order, listing)
    ensures SameReport(Propagate(files, removals, order, listing, true), Propagate(files, removals, order, listing, false))
    ensures Propagate(files, removals, order, listing, false).files.Keys == files.Keys
    ensures forall t :: t in files && Untouched(order, listing, t) ==> Propagate(files, removals, order, listing, false).files[t] == files[t]
  {
    PropagateCounts(files, removals, order, listing, false);
    if order != [] {
      var n := |order| - 1;
      var pre := order[..n];
      var src := order[n];
      var nums := LoggedFor(removals, src);
      DistinctPrefix(order, listing);
      DryRunReportsRealRun(files, removals, pre, listing);
      DryRunWritesNothing(files, removals, pre, listing);
      PropagateCounts(files, removals, pre, listing, false);
      var written := Propagate(files, removals, pre, listing, false);
      var dry := Propagate(files, removals, pre, listing, true);
      forall t | Target(src, listing) == Some(t) && t in dry.files
        ensures dry.files[t] == written.files[t]
      {
        LastTargetUntouched(order, listing, t);
      }
      OneStepSameReport(dry, written, src, nums, listing);
      OneStepFiles(written, src, nums, listing, false);
      forall u | u in files && Untouched(order, listing, u)
        ensures Propagate(files, removals, order, listing, false).files[u] == files[u]
      {
        UntouchedPrefix(order, listing, u);
      }
    }
  }

  /** One source keeps every file a list of lines. */
  lemma {:induction false} OneStepLines(st: Propagation, src: string, nums: seq<string>, listing: map<string, seq<string>>, dryRun: bool)
    requires forall t :: t in st.files ==> IsLineList(st.files[t])
    ensures forall t :: t in PropagateOne(st, src, nums, listing, dryRun).files ==>
      IsLineList(PropagateOne(st, src, nums, listing, dryRun).files[t])
  {
    var r := PropagateOne(st, src, nums, listing, dryRun);
    OneStepFiles(st, src, nums, listing, dryRun);
    forall t | t in r.files ensures IsLineList(r.files[t]) {
      if r.files[t] != st.files[t] {
        RewrittenFileReadsBack(st.files[t], TargetSet(nums));
      }
    }
  }

  /** The files of a run are still lists of lines, so `readlines` gives back what `writelines` wrote. */
  lemma {:induction false} FilesStayLines(files: map<string, seq<string>>, removals: Removals, order: seq<string>,
                                          listing: map<string, seq<string>>, dryRun: bool)
    requires forall t :: t in files ==> IsLineList(files[t])
    ensures forall t :: t in Propagate(files, removals, order, listing, dryRun).files ==>
      IsLineList(Propagate(files, removals, order, listing, dryRun).files[t])
  {
    if order != [] {
      var n := |order| - 1;
      FilesStayLines(files, removals, order[..n], listing, dryRun);
      OneStepLines(Propagate(files, removals, order[..n], listing, dryRun), order[n], LoggedFor(removals, order[n]), listing, dryRun);
    }
  }

  /** The script: the removal log is parsed, then the loop runs over its sources in log order. */
  method RemoveLangStartTagsScript(content: string, listing: map<string, seq<string>>,
                                   files: map<string, seq<string>>, dryRun: bool) returns (st: Propagation)
    ensures st == Propagate(files, ParseLog(content), ParseLog(content).order, listing, dryRun)
  {
    var removals := ParseStartRemovalLog(content);
    st := PropagateRemovals(removals, listing, files, dryRun);
  }
}
