/**
 * remove_end_tags.py: pools the dialogue numbers whose end tags were removed from
 * the English files (read from the removal log), then removes the end tag of every
 * line of a translated file whose dialogue number is in that pool, and logs each
 * removal as `  Line n | Dialogue d | [tag]` under a `### path` header.
 *
 * `process_target_file` and the entry pattern are shared with remove_translated.py,
 * which imports them from here.
 */
module RemoveEndTags {
  import opened Wrappers
  import opened Text
  import opened Tags
  import opened Lines

  // ---------------------------------------------------------------------------
  // process_target_file

  /**
   * The (dialogue number, end tag) `process_target_file` removes from a line read as
   * `raw`: only when the line has a dialogue number in `nums` and an end tag.
   */
  function Removal(raw: string, nums: set<string>): (r: Option<(string, string)>)
    ensures var line := RStripNewlines(raw);
      r.Some? <==> DialogueNumber(line).Some? && DialogueNumber(line).value in nums && HasEndTag(line)
    ensures var line := RStripNewlines(raw);
      r.Some? ==> DialogueNumber(line) == Some(r.value.0) && EndTag(line) == Some(r.value.1)
  {
    var line := RStripNewlines(raw);
    match DialogueNumber(line)
    case Some(d) => if d in nums && HasEndTag(line) then Some((d, EndTag(line).value)) else None
    case None => None
  }

  /**
   * A line loses the end tag `t` under dialogue number `d` exactly when its text starts
   * with the digits `d`, a '.' and a whitespace character, `d` is in the pool, and `t`
   * is its end tag.
   */
  lemma {:induction false} RemovalIff(raw: string, nums: set<string>, d: string, t: string)
    ensures var line := RStripNewlines(raw);
      Removal(raw, nums) == Some((d, t)) <==>
        |d| > 0 && AllDigits(d) && StartsWith(line, d + ".") && |d| + 1 < |line| && IsSpace(line[|d| + 1]) &&
        d in nums && EndTag(line) == Some(t)
  {
    DialogueNumberIff(RStripNewlines(raw), d);
  }

  /**
   * The line written back: a line with a removal is cut before its end tag and gets
   * a newline; any other line is kept verbatim, newline or not.
   */
  function PropagatedLine(raw: string, nums: set<string>): (r: string)
    ensures r != raw <==> Removal(raw, nums).Some?
    ensures Removal(raw, nums).Some? ==>
      |r| > 0 && r[|r| - 1] == '\n' && StartsWith(RStripNewlines(raw), r[..|r| - 1])
  {
    var line := RStripNewlines(raw);
    if Removal(raw, nums).Some? then
      var cleaned := RemoveEndTag(line);
      RemoveEndTagShrinks(line);
      assert (cleaned + "\n")[..|cleaned|] == cleaned;
      cleaned + "\n"
    else raw
  }

  /** Each line's removal, if any, in file order. */
  function Removals(lines: seq<string>, nums: set<string>): (rs: seq<Option<(string, string)>>)
    ensures |rs| == |lines|
  {
    seq(|lines|, i requires 0 <= i < |lines| => Removal(lines[i], nums))
  }

  /** The lines `process_target_file` writes back. */
  function Propagated(lines: seq<string>, nums: set<string>): (r: seq<string>)
    ensures |r| == |lines|
    ensures forall i :: 0 <= i < |lines| ==> r[i] == PropagatedLine(lines[i], nums)
  {
    seq(|lines|, i requires 0 <= i < |lines| => PropagatedLine(lines[i], nums))
  }

  /** The (file line, (dialogue number, tag)) list `process_target_file` returns. */
  function Removed(lines: seq<string>, nums: set<string>): seq<(nat, (string, string))> {
    Numbered(Removals(lines, nums))
  }

  /**
   * `process_target_file`: one pass over the lines building the rewritten lines and
   * the removals; the file is written back (`written`) only when something was removed.
   */
  method ProcessTargetFile(lines: seq<string>, nums: set<string>)
    returns (modified: seq<string>, removed: seq<(nat, (string, string))>, written: Option<seq<string>>)
    ensures modified == Propagated(lines, nums)
    ensures removed == Removed(lines, nums)
    ensures written == if removed != [] then Some(modified) else None
  {
    modified := [];
    removed := [];
    for i := 0 to |lines|
      invariant modified == Propagated(lines, nums)[..i]
      invariant removed == Numbered(Removals(lines, nums)[..i])
    {
      ProcessStep(lines, nums, i);
      var line := RStripNewlines(lines[i]);
      var dialogue := DialogueNumber(line);
      if dialogue.Some? && dialogue.value in nums && HasEndTag(line) {
        var tag := EndTag(line);
        modified := modified + [RemoveEndTag(line) + "\n"];
        removed := removed + [(i + 1, (dialogue.value, tag.value))];
        assert Removal(lines[i], nums) == Some((dialogue.value, tag.value));
        assert PropagatedLine(lines[i], nums) == RemoveEndTag(line) + "\n";
      } else {
        modified := modified + [lines[i]];
        assert Removal(lines[i], nums) == None;
      }
    }
    assert Removals(lines, nums)[..|lines|] == Removals(lines, nums);
    assert Propagated(lines, nums)[..|lines|] == Propagated(lines, nums);
    written := if removed != [] then Some(modified) else None;
  }

  /** Line `i + 1` adds its rewritten line and its removal, if any, after those of the lines before it. */
  lemma {:induction false} ProcessStep(lines: seq<string>, nums: set<string>, i: nat)
    requires i < |lines|
    ensures Propagated(lines, nums)[..i + 1] == Propagated(lines, nums)[..i] + [PropagatedLine(lines[i], nums)]
    ensures var m := Removal(lines[i], nums);
      Numbered(Removals(lines, nums)[..i + 1]) == Numbered(Removals(lines, nums)[..i]) + (if m.Some? then [(i + 1, m.value)] else [])
  {
    TakeSnoc(Propagated(lines, nums), i);
    NumberedTake(Removals(lines, nums), i);
  }

  /** A line changes exactly when it has a removal. */
  lemma {:induction false} PropagatedChanges(lines: seq<string>, nums: set<string>)
    ensures var out := Propagated(lines, nums); var rs := Removals(lines, nums);
      forall i :: 0 <= i < |lines| ==> (out[i] != lines[i] <==> rs[i].Some?)
  {
  }

  /** The removals name exactly the changed lines, in ascending order, with their dialogue number and tag. */
  lemma {:induction false} RemovedExact(lines: seq<string>, nums: set<string>)
    ensures var r := Removed(lines, nums); var rs := Removals(lines, nums);
      forall k :: 0 <= k < |r| ==> 1 <= r[k].0 <= |lines| && rs[r[k].0 - 1] == Some(r[k].1)
    ensures var r := Removed(lines, nums);
      forall k, k' :: 0 <= k < k' < |r| ==> r[k].0 < r[k'].0
    ensures var r := Removed(lines, nums); var rs := Removals(lines, nums);
      forall i :: 0 <= i < |lines| && rs[i].Some? ==> exists k :: 0 <= k < |r| && r[k] == (i + 1, rs[i].value)
  {
    var rs := Removals(lines, nums);
    assert Removed(lines, nums) == Numbered(rs);
    NumberedSound(rs);
    NumberedAscending(rs);
    NumberedComplete(rs);
  }

  /** The file is written back exactly when some line changed. */
  lemma {:induction false} WrittenIffChanged(lines: seq<string>, nums: set<string>)
    ensures Removed(lines, nums) == [] <==> Propagated(lines, nums) == lines
  {
    var rs := Removals(lines, nums);
    var out := Propagated(lines, nums);
    NumberedEmpty(rs);
    PropagatedChanges(lines, nums);
    if Removed(lines, nums) != [] {
      var i :| 0 <= i < |rs| && rs[i].Some?;
      assert out[i] != lines[i];
    } else {
      assert forall i :: 0 <= i < |lines| ==> out[i] == lines[i];
    }
  }

  /** With an empty pool (for example a log the parser cannot read) nothing changes. */
  lemma {:induction false} EmptyPoolChangesNothing(lines: seq<string>)
    ensures Propagated(lines, {}) == lines && Removed(lines, {}) == []
  {
    WrittenIffChanged(lines, {});
    NumberedEmpty(Removals(lines, {}));
  }

  /** A line with a removal is written back cut before its end tag, with a newline. */
  lemma {:induction false} PropagatedCut(raw: string, nums: set<string>)
    requires var line := RStripNewlines(raw);
      DialogueNumber(line).Some? && DialogueNumber(line).value in nums && HasEndTag(line)
    ensures PropagatedLine(raw, nums) == RemoveEndTag(RStripNewlines(raw)) + "\n"
  {
  }

  /** One pass removes the last bracket group of a numbered line whose earlier brackets are all closed. */
  lemma {:induction false} PassCutsLastGroup(p: string, y: string, d: string)
    requires p != [] && !IsSpace(p[|p| - 1]) && Closed(p) && DialogueNumber(p) == Some(d)
    requires |y| > 0 && ']' !in y
    ensures PropagatedLine(p + " [" + y + "]\n", {d}) == p + "\n"
  {
    var t := " [" + y + "]";
    var line := p + t;
    assert line + "\n" == p + " [" + y + "]\n";
    assert line == p + " [" + y + "]";
    CutGroup(p, y);
    assert line[|line| - 1] == ']';
    StripsNewline(line);
    DialogueNumberExtend(p, t);
    PropagatedCut(line + "\n", {d});
  }

  /** A line without any '[' has no end tag, so a pass keeps it. */
  lemma {:induction false} PassKeepsUnbracketed(q: string, nums: set<string>)
    requires q != [] && q[|q| - 1] != '\n' && '[' !in q
    ensures PropagatedLine(q + "\n", nums) == q + "\n"
  {
    StripsNewline(q);
    forall i: nat, j: nat ensures !EndGroup(q, i, j) {
      if i < |q| { assert q[i] != '['; }
    }
  }

  /**
   * Re-applying the same pool changes a line only when the first pass cut a tag
   * from it and left another end tag at its end.
   */
  lemma {:induction false} ReapplyChangesOnlyStacked(raw: string, nums: set<string>)
    ensures var once := PropagatedLine(raw, nums);
      PropagatedLine(once, nums) != once ==>
        Removal(raw, nums).Some? && HasEndTag(RemoveEndTag(RStripNewlines(raw)))
  {
    var line := RStripNewlines(raw);
    if Removal(raw, nums).Some? {
      var c := RemoveEndTag(line);
      PropagatedCut(raw, nums);
      if c != [] {
        StripsNewline(c);
      } else {
        assert RStripNewlines(c + "\n") == RStripNewlines([]);
      }
    }
  }

  /** `d. text` with no '[' in the text: its dialogue number is `d`. */
  lemma {:induction false} NumberedText(d: string, text: string)
    requires LogDialogue(d) && text != [] && !IsSpace(text[|text| - 1]) && '[' !in text
    ensures var q := d + ". " + text;
      '[' !in q && DialogueNumber(q) == Some(d) && !IsSpace(q[|q| - 1])
  {
    var q := d + ". " + text;
    assert q[|q| - 1] == text[|text| - 1];
    forall i | 0 <= i < |q| ensures q[i] != '[' {
      if i < |d| { assert q[i] == d[i]; }
      else if i >= |d| + 2 { assert q[i] == text[i - |d| - 2]; }
    }
    assert q[..|d| + 1] == d + "." && q[|d| + 1] == ' ';
    DialogueNumberIff(q, d);
  }

  /** Appending one closed group to text without '[' leaves every '[' closed. */
  lemma {:induction false} ClosedGroup(q: string, x: string)
    requires '[' !in q
    ensures Closed(q + " [" + x + "]")
  {
    var p := q + " [" + x + "]";
    assert forall k :: 0 <= k < |q| ==> p[k] == q[k];
    assert p[|p| - 1] == ']';
  }

  /**
   * Stacked end tags lose one group per pass: `d. text [x] [y]` becomes
   * `d. text [x]`, then `d. text`, and only then is the line left unchanged. So
   * applying the propagation twice is not the same as applying it once.
   */
  lemma {:induction false} StackedTags(d: string, text: string, x: string, y: string)
    requires LogDialogue(d) && text != [] && !IsSpace(text[|text| - 1]) && '[' !in text
    requires |x| > 0 && ']' !in x && |y| > 0 && ']' !in y
    ensures var q := d + ". " + text;
      && PropagatedLine(q + " [" + x + "] [" + y + "]\n", {d}) == q + " [" + x + "]\n"
      && PropagatedLine(q + " [" + x + "]\n", {d}) == q + "\n"
      && PropagatedLine(q + "\n", {d}) == q + "\n"
  {
    var q := d + ". " + text;
    NumberedText(d, text);
    StackedFirstPass(q, d, x, y);
    PassCutsLastGroup(q, x, d);
    PassKeepsUnbracketed(q, {d});
  }

  /** The first pass over `q [x] [y]` cuts `[y]` only. */
  lemma {:induction false} StackedFirstPass(q: string, d: string, x: string, y: string)
    requires '[' !in q && DialogueNumber(q) == Some(d)
    requires |x| > 0 && ']' !in x && |y| > 0 && ']' !in y
    ensures PropagatedLine(q + " [" + x + "] [" + y + "]\n", {d}) == q + " [" + x + "]\n"
  {
    var t := " [" + x + "]";
    var p := q + t;
    assert PropagatedLine(p + " [" + y + "]\n", {d}) == p + "\n" by {
      assert p == q + " [" + x + "]";
      assert Closed(p) by {
        ClosedGroup(q, x);
      }
      assert DialogueNumber(p) == Some(d) by {
        DialogueNumberExtend(q, t);
      }
      assert p[|p| - 1] == ']';
      PassCutsLastGroup(p, y, d);
    }
    StackedText(q, x, y);
  }

  /** `q [x]` followed by ` [y]` is the text `q [x] [y]`. */
  lemma {:induction false} StackedText(q: string, x: string, y: string)
    ensures (q + " [" + x + "]") + " [" + y + "]\n" == q + " [" + x + "] [" + y + "]\n"
    ensures (q + " [" + x + "]") + "\n" == q + " [" + x + "]\n"
  {
    assert "] [" == "]" + " [";
  }

  // ---------------------------------------------------------------------------
  // The removal log: writer and parser

  /** The log line of one removal, as written at remove_end_tags.py:290 (the newline included). */
  function EntryLine(n: nat, d: string, tag: string): string {
    "  Line " + NatToString(n) + " | Dialogue " + d + " | " + tag + "\n"
  }

  /** The header line of one file's section. */
  function HeaderLine(path: string): string {
    "### " + path + "\n"
  }

  /** One file's section: its header, one line per removal, then a blank line. */
  function SectionLines(path: string, removed: seq<(nat, (string, string))>): (r: seq<string>)
    ensures |r| == |removed| + 2
  {
    [HeaderLine(path)] + EntryLines(removed) + ["\n"]
  }

  function EntryLines(removed: seq<(nat, (string, string))>): (r: seq<string>)
    ensures |r| == |removed|
    ensures forall k :: 0 <= k < |removed| ==> r[k] == EntryLine(removed[k].0, removed[k].1.0, removed[k].1.1)
  {
    seq(|removed|, k requires 0 <= k < |removed| => EntryLine(removed[k].0, removed[k].1.0, removed[k].1.1))
  }

  /** The detailed part of the log: the sections of the files, in the given order, as the file's lines. */
  function LogLines(sections: seq<(string, seq<(nat, (string, string))>)>): (r: seq<string>)
    decreases |sections|
  {
    if sections == [] then []
    else SectionLines(sections[0].0, sections[0].1) + LogLines(sections[1..])
  }

  /**
   * `re.match(r'Line \d+ \| Dialogue (\d+) \| \[.+\]', s)`: the dialogue number of an
   * entry line. The pattern is matched piece by piece on what is left of the line.
   */
  function EntryDialogue(s: string): (r: Option<string>)
    ensures r.Some? ==> |r.value| > 0 && AllDigits(r.value) && StartsWith(s, "Line ")
  {
    if StartsWith(s, "Line ") then AfterLine(s[5..]) else None
  }

  /** `\d+ \| Dialogue ` then the rest. */
  function AfterLine(t: string): (r: Option<string>)
    ensures r.Some? ==> |r.value| > 0 && AllDigits(r.value)
  {
    var k := DigitRun(t, 0);
    if k > 0 && StartsWith(t[k..], " | Dialogue ") then AfterLabel(t[k + 12..]) else None
  }

  /** `(\d+) \| \[.+\]`: the captured digits, when the tag part follows them. */
  function AfterLabel(u: string): (r: Option<string>)
    ensures r.Some? ==> |r.value| > 0 && AllDigits(r.value)
  {
    var k := DigitRun(u, 0);
    if k > 0 && StartsWith(u[k..], " | [") && TagRest(u[k + 4..]) then
      assert forall i :: 0 <= i < k ==> u[..k][i] == u[i];
      Some(u[..k])
    else None
  }

  /** `.+\]`: at least one character, then a ']', with no newline on the way. */
  predicate TagRest(v: string) {
    v != [] && IndexOf(v, ']', 1) < IndexOf(v, '\n', 0)
  }

  /** A well-formed removal-log tag: `[c]` with `c` non-empty and no newline anywhere. */
  predicate LogTag(tag: string) {
    |tag| >= 3 && tag[0] == '[' && tag[|tag| - 1] == ']' && '\n' !in tag
  }

  /** A dialogue number as `extract_dialogue_number` returns it: a non-empty digit string. */
  predicate LogDialogue(d: string) {
    |d| > 0 && AllDigits(d)
  }

  /** A written entry line reads back, once stripped, with the dialogue number it was written with. */
  lemma {:induction false} EntryLineParses(n: nat, d: string, tag: string)
    requires LogDialogue(d) && LogTag(tag)
    ensures var s := "Line " + NatToString(n) + " | Dialogue " + d + " | " + tag;
      Strip(EntryLine(n, d, tag)) == s && EntryDialogue(s) == Some(d)
  {
    var s := "Line " + NatToString(n) + " | Dialogue " + d + " | " + tag;
    assert "  " + s + "\n" == EntryLine(n, d, tag);
    assert s[|s| - 1] == tag[|tag| - 1];
    StripIndented("  ", s);
    EntryMatches(NatToString(n), d, tag);
  }

  lemma {:induction false} EntryMatches(num: string, d: string, tag: string)
    requires LogDialogue(num) && LogDialogue(d) && LogTag(tag)
    ensures EntryDialogue("Line " + num + " | Dialogue " + d + " | " + tag) == Some(d)
  {
    var s := "Line " + num + " | Dialogue " + d + " | " + tag;
    var t := num + " | Dialogue " + d + " | " + tag;
    assert s == "Line " + t;
    assert s[5..] == t;
    AfterLineMatches(num, d, tag);
  }

  lemma {:induction false} AfterLineMatches(num: string, d: string, tag: string)
    requires LogDialogue(num) && LogDialogue(d) && LogTag(tag)
    ensures AfterLine(num + " | Dialogue " + d + " | " + tag) == Some(d)
  {
    var u := d + " | " + tag;
    var t := num + " | Dialogue " + u;
    assert t == num + " | Dialogue " + d + " | " + tag;
    assert DigitRun(t, 0) == |num| by {
      assert t[|num|] == ' ';
      DigitRunExact(t, 0, |num|);
    }
    assert StartsWith(t[|num|..], " | Dialogue ") && t[|num| + 12..] == u by {
      assert t[|num|..] == " | Dialogue " + u;
    }
    assert AfterLabel(u) == Some(d) by {
      AfterLabelMatches(d, tag);
    }
  }

  lemma {:induction false} AfterLabelMatches(d: string, tag: string)
    requires LogDialogue(d) && LogTag(tag)
    ensures AfterLabel(d + " | " + tag) == Some(d)
  {
    var u := d + " | " + tag;
    assert u[|d|] == ' ';
    DigitRunExact(u, 0, |d|);
    assert u[|d|..] == " | " + tag;
    assert u[|d| + 4..] == tag[1..];
    assert u[..|d|] == d;
    TagTail(tag);
  }

  /** The text after a log tag's '[' is `.+\]`. */
  lemma {:induction false} TagTail(tag: string)
    requires LogTag(tag)
    ensures TagRest(tag[1..])
  {
    var v := tag[1..];
    assert v[|v| - 1] == ']';
    assert forall k :: 0 <= k < |v| ==> v[k] == tag[k + 1];
    assert IndexOf(v, ']', 1) <= |v| - 1;
    assert IndexOf(v, '\n', 0) == |v|;
  }

  /** The header line of a section reads back as the section's path when the path does not end in whitespace. */
  lemma {:induction false} HeaderLineParses(path: string)
    requires LogPath(path)
    ensures var line := Strip(HeaderLine(path)); StartsWith(line, "### ") && line[4..] == path
  {
    var h := "### " + path;
    assert h[|h| - 1] == path[|path| - 1];
    StripLine(h);
    assert h[..4] == "### " && h[4..] == path;
  }

  /** A section path as a header line can carry it: non-empty and not ending in whitespace. */
  predicate LogPath(path: string) {
    path != [] && !IsSpace(path[|path| - 1])
  }

  // ---------------------------------------------------------------------------
  // parse_removal_log: pooling the English dialogue numbers

  /** `'/english_' in current_file`. */
  predicate IsEnglishPath(path: string) {
    Contains(path, "/english_")
  }

  /** The parser's state: whether the current section is an English file, and the numbers pooled so far. */
  datatype PoolState = PoolState(english: bool, nums: set<string>)

  /** What `parse_removal_log` does with one line of the log. */
  function PoolStep(st: PoolState, raw: string): PoolState {
    PoolLine(st, Strip(raw))
  }

  /** What `parse_removal_log` does with a stripped line: a header sets the language, an English entry adds its number. */
  function PoolLine(st: PoolState, line: string): PoolState {
    if StartsWith(line, "### ") then PoolState(IsEnglishPath(line[4..]), st.nums)
    else if st.english && StartsWith(line, "Line ") && EntryDialogue(line).Some? then
      PoolState(st.english, st.nums + {EntryDialogue(line).value})
    else st
  }

  /** The state after reading `log` from state `st`. */
  function PoolFrom(st: PoolState, log: seq<string>): PoolState
    decreases |log|
  {
    if log == [] then st else PoolFrom(PoolStep(st, log[0]), log[1..])
  }

  /** The dialogue numbers `parse_removal_log` returns for the log read as `log`. */
  function EnglishPool(log: seq<string>): set<string> {
    PoolFrom(PoolState(false, {}), log).nums
  }

  /** `parse_removal_log`: one pass over the log's lines. */
  method ParseRemovalLog(log: seq<string>) returns (nums: set<string>)
    ensures nums == EnglishPool(log)
  {
    var english := false;
    nums := {};
    var i := 0;
    while i < |log|
      invariant 0 <= i <= |log|
      invariant PoolFrom(PoolState(english, nums), log[i..]) == PoolFrom(PoolState(false, {}), log)
    {
      assert log[i..][1..] == log[i + 1..];
      var line := Strip(log[i]);
      if StartsWith(line, "### ") {
        english := IsEnglishPath(line[4..]);
      } else if english && StartsWith(line, "Line ") {
        var m := EntryDialogue(line);
        if m.Some? {
          nums := nums + {m.value};
        }
      }
      i := i + 1;
    }
  }

  /** Reading `a + b` is reading `a`, then `b`. */
  lemma {:induction false} PoolFromAppend(st: PoolState, a: seq<string>, b: seq<string>)
    ensures PoolFrom(st, a + b) == PoolFrom(PoolFrom(st, a), b)
    decreases |a|
  {
    if a == [] {
      assert a + b == b;
    } else {
      assert (a + b)[0] == a[0];
      assert (a + b)[1..] == a[1..] + b;
      PoolFromAppend(PoolStep(st, a[0]), a[1..], b);
    }
  }

  /** The dialogue numbers of a file's removals. */
  function Dialogues(removed: seq<(nat, (string, string))>): set<string> {
    set k | 0 <= k < |removed| :: removed[k].1.0
  }

  /** The pool the log should yield: the dialogue numbers of the English files' removals. */
  function PooledNumbers(sections: seq<(string, seq<(nat, (string, string))>)>): set<string>
    decreases |sections|
  {
    if sections == [] then {}
    else (if IsEnglishPath(sections[0].0) then Dialogues(sections[0].1) else {}) + PooledNumbers(sections[1..])
  }

  /** The paths, dialogue numbers and tags of the sections can all be written and read back. */
  predicate LogSections(sections: seq<(string, seq<(nat, (string, string))>)>) {
    forall i :: 0 <= i < |sections| ==> LogPath(sections[i].0) && LogEntries(sections[i].1)
  }

  predicate LogEntries(removed: seq<(nat, (string, string))>) {
    forall k :: 0 <= k < |removed| ==> LogDialogue(removed[k].1.0) && LogTag(removed[k].1.1)
  }

  /** One entry line adds its dialogue number when the section is English. */
  lemma {:induction false} EntryStep(st: PoolState, n: nat, d: string, tag: string)
    requires LogDialogue(d) && LogTag(tag)
    ensures PoolStep(st, EntryLine(n, d, tag)) == PoolState(st.english, if st.english then st.nums + {d} else st.nums)
  {
    EntryLineParses(n, d, tag);
    EntryLineStep(st, Strip(EntryLine(n, d, tag)), d);
  }

  /** A stripped line that matches the entry pattern is not a header, so it adds its number to an English section. */
  lemma {:induction false} EntryLineStep(st: PoolState, line: string, d: string)
    requires EntryDialogue(line) == Some(d)
    ensures PoolLine(st, line) == PoolState(st.english, if st.english then st.nums + {d} else st.nums)
  {
    assert line[0] == "Line "[0];
    assert !StartsWith(line, "### ");
  }

  lemma {:induction false} DialoguesCons(removed: seq<(nat, (string, string))>)
    requires removed != []
    ensures Dialogues(removed) == {removed[0].1.0} + Dialogues(removed[1..])
  {
    forall x | x in Dialogues(removed) ensures x in {removed[0].1.0} + Dialogues(removed[1..]) {
      var k :| 0 <= k < |removed| && removed[k].1.0 == x;
      if k > 0 {
        assert removed[1..][k - 1] == removed[k];
      }
    }
    forall x | x in Dialogues(removed[1..]) ensures x in Dialogues(removed) {
      var k :| 0 <= k < |removed[1..]| && removed[1..][k].1.0 == x;
      assert removed[k + 1] == removed[1..][k];
    }
  }

  /** The entry lines of a section add their dialogue numbers when the section is English, and nothing otherwise. */
  lemma {:induction false} EntriesPool(st: PoolState, removed: seq<(nat, (string, string))>)
    requires LogEntries(removed)
    ensures PoolFrom(st, EntryLines(removed)) ==
      PoolState(st.english, if st.english then st.nums + Dialogues(removed) else st.nums)
    decreases |removed|
  {
    if removed != [] {
      var lines := EntryLines(removed);
      assert lines[1..] == EntryLines(removed[1..]);
      assert lines[0] == EntryLine(removed[0].0, removed[0].1.0, removed[0].1.1);
      EntryStep(st, removed[0].0, removed[0].1.0, removed[0].1.1);
      var st' := PoolStep(st, lines[0]);
      EntriesPool(st', removed[1..]);
      assert PoolFrom(st, lines) == PoolFrom(st', lines[1..]);
      DialoguesCons(removed);
    }
  }

  /** A whole section sets the section's language and pools its dialogue numbers when it is English. */
  lemma {:induction false} SectionPool(st: PoolState, path: string, removed: seq<(nat, (string, string))>)
    requires LogPath(path) && LogEntries(removed)
    ensures PoolFrom(st, SectionLines(path, removed)) ==
      PoolState(IsEnglishPath(path), st.nums + if IsEnglishPath(path) then Dialogues(removed) else {})
  {
    HeaderLineParses(path);
    var st1 := PoolStep(st, HeaderLine(path));
    assert st1 == PoolState(IsEnglishPath(path), st.nums);
    EntriesPool(st1, removed);
    var st2 := PoolFrom(st1, EntryLines(removed));
    assert Strip("\n") == [];
    assert PoolFrom(st2, ["\n"]) == st2;
    PoolFromAppend(st, [HeaderLine(path)], EntryLines(removed));
    PoolFromAppend(st, [HeaderLine(path)] + EntryLines(removed), ["\n"]);
  }

  /** Reading the written sections adds exactly the English files' dialogue numbers. */
  lemma {:induction false} LogPool(st: PoolState, sections: seq<(string, seq<(nat, (string, string))>)>)
    requires LogSections(sections)
    ensures PoolFrom(st, LogLines(sections)).nums == st.nums + PooledNumbers(sections)
    decreases |sections|
  {
    if sections != [] {
      var path := sections[0].0;
      var removed := sections[0].1;
      var first := SectionLines(path, removed);
      var rest := sections[1..];
      assert LogLines(sections) == first + LogLines(rest);
      assert PooledNumbers(sections) == (if IsEnglishPath(path) then Dialogues(removed) else {}) + PooledNumbers(rest);
      assert LogSections(rest) by {
        forall i | 0 <= i < |rest| ensures LogPath(rest[i].0) && LogEntries(rest[i].1) {
          assert rest[i] == sections[i + 1];
        }
      }
      SectionPool(st, path, removed);
      PoolFromAppend(st, first, LogLines(rest));
      var st' := PoolFrom(st, first);
      LogPool(st', rest);
    }
  }

  /**
   * The log written at remove_end_tags.py:287-291 (and in the same layout by
   * remove_translated.py) reads back as the dialogue numbers of the English files'
   * removals: English files are pooled, the others are ignored.
   */
  lemma {:induction false} LogRoundTrip(sections: seq<(string, seq<(nat, (string, string))>)>)
    requires LogSections(sections)
    ensures EnglishPool(LogLines(sections)) == PooledNumbers(sections)
  {
    LogPool(PoolState(false, {}), sections);
  }
}