/**
 * remove_unlisted.py: removes from each line the end tag that is not on the
 * allow-list (compared without regard to letter case), writes the file back when
 * something was removed, and logs the removals as `  Line n: [tag]` under a
 * `### path` header, in the log that remove_end_tags.py and remove_translated.py
 * read.
 */
module RemoveUnlisted {
  import opened Wrappers
  import opened Text
  import opened Tags
  import opened Lines
  import opened CheckTags
  import opened RemoveEndTags

  // ---------------------------------------------------------------------------
  // process_file

  /**
   * The line written back for a line read as `raw`: with an unlisted end tag it is
   * cut before the tag and gets a newline; otherwise it is kept verbatim.
   */
  function CleanedLine(raw: string, allowedLower: set<string>): (r: string)
    ensures r != raw <==> UnlistedTag(raw, allowedLower).Some?
    ensures UnlistedTag(raw, allowedLower).Some? ==>
      |r| > 0 && r[|r| - 1] == '\n' && StartsWith(RStripNewlines(raw), r[..|r| - 1])
  {
    var line := RStripNewlines(raw);
    if UnlistedTag(raw, allowedLower).Some? then
      var cleaned := RemoveEndTag(line);
      RemoveEndTagShrinks(line);
      assert (cleaned + "\n")[..|cleaned|] == cleaned;
      cleaned + "\n"
    else raw
  }

  /** A line with an unlisted end tag is written back cut before the tag, with a newline. */
  lemma {:induction false} CleanedCut(raw: string, allowedLower: set<string>)
    requires UnlistedTag(raw, allowedLower).Some?
    ensures CleanedLine(raw, allowedLower) == RemoveEndTag(RStripNewlines(raw)) + "\n"
  {
  }

  /** The lines `process_file` writes back. */
  function CleanedLines(lines: seq<string>, allowedLower: set<string>): (r: seq<string>)
    ensures |r| == |lines|
    ensures forall i :: 0 <= i < |lines| ==> r[i] == CleanedLine(lines[i], allowedLower)
  {
    seq(|lines|, i requires 0 <= i < |lines| => CleanedLine(lines[i], allowedLower))
  }

  /**
   * `process_file`: one pass building the rewritten lines and the (line, tag)
   * removals; the file is written back (`written`) only when something was removed.
   * The removals are exactly what check_tags.py reports for the same file.
   */
  method ProcessFile(lines: seq<string>, allowedLower: set<string>)
    returns (modified: seq<string>, removed: seq<(nat, string)>, written: Option<seq<string>>)
    ensures modified == CleanedLines(lines, allowedLower)
    ensures removed == UnlistedEntries(lines, allowedLower)
    ensures written == if removed != [] then Some(modified) else None
  {
    modified := [];
    removed := [];
    for i := 0 to |lines|
      invariant modified == CleanedLines(lines, allowedLower)[..i]
      invariant removed == Numbered(UnlistedTags(lines, allowedLower)[..i])
    {
      ProcessStep(lines, allowedLower, i);
      var line := RStripNewlines(lines[i]);
      var tag := EndTag(line);
      if tag.Some? && IsUnlisted(tag.value, allowedLower) {
        modified := modified + [RemoveEndTag(line) + "\n"];
        removed := removed + [(i + 1, tag.value)];
        assert UnlistedTag(lines[i], allowedLower) == Some(tag.value);
        CleanedCut(lines[i], allowedLower);
      } else {
        modified := modified + [lines[i]];
        assert UnlistedTag(lines[i], allowedLower) == None;
      }
    }
    assert UnlistedTags(lines, allowedLower)[..|lines|] == UnlistedTags(lines, allowedLower);
    assert CleanedLines(lines, allowedLower)[..|lines|] == CleanedLines(lines, allowedLower);
    written := if removed != [] then Some(modified) else None;
  }

  /** Line `i + 1` adds its rewritten line and its removal, if any, after those of the lines before it. */
  lemma {:induction false} ProcessStep(lines: seq<string>, allowedLower: set<string>, i: nat)
    requires i < |lines|
    ensures CleanedLines(lines, allowedLower)[..i + 1] ==
      CleanedLines(lines, allowedLower)[..i] + [CleanedLine(lines[i], allowedLower)]
    ensures var t := UnlistedTag(lines[i], allowedLower);
      Numbered(UnlistedTags(lines, allowedLower)[..i + 1]) ==
        Numbered(UnlistedTags(lines, allowedLower)[..i]) + (if t.Some? then [(i + 1, t.value)] else [])
  {
    TakeSnoc(CleanedLines(lines, allowedLower), i);
    NumberedTake(UnlistedTags(lines, allowedLower), i);
  }

  /**
   * A line changes exactly when it has an unlisted end tag, and the file is written
   * back exactly when some line changed.
   */
  lemma {:induction false} CleanedExact(lines: seq<string>, allowedLower: set<string>)
    ensures var out := CleanedLines(lines, allowedLower); var ts := UnlistedTags(lines, allowedLower);
      forall i :: 0 <= i < |lines| ==> (out[i] != lines[i] <==> ts[i].Some?)
    ensures UnlistedEntries(lines, allowedLower) == [] <==> CleanedLines(lines, allowedLower) == lines
  {
    var ts := UnlistedTags(lines, allowedLower);
    var out := CleanedLines(lines, allowedLower);
    NumberedEmpty(ts);
    if UnlistedEntries(lines, allowedLower) != [] {
      var i :| 0 <= i < |ts| && ts[i].Some?;
      assert out[i] != lines[i];
    } else {
      assert forall i :: 0 <= i < |lines| ==> out[i] == lines[i];
    }
  }

  // ---------------------------------------------------------------------------
  // The removal log as written (remove_unlisted.py:185-196)

  /** The log line of one removal: the line number and the tag, with no dialogue number. */
  function ShortEntryLine(n: nat, tag: string): string {
    "  Line " + NatToString(n) + ": " + tag + "\n"
  }

  function ShortEntryLines(removed: seq<(nat, string)>): (r: seq<string>)
    ensures |r| == |removed|
    ensures forall k :: 0 <= k < |removed| ==> r[k] == ShortEntryLine(removed[k].0, removed[k].1)
  {
    seq(|removed|, k requires 0 <= k < |removed| => ShortEntryLine(removed[k].0, removed[k].1))
  }

  /** One file's section: its header, one line per removal, then a blank line. */
  function LogSection(path: string, removed: seq<(nat, string)>): (r: seq<string>)
    ensures |r| == |removed| + 2
  {
    [HeaderLine(path)] + ShortEntryLines(removed) + ["\n"]
  }

  /** The detailed part of the log as the file's lines. */
  function Log(sections: seq<(string, seq<(nat, string)>)>): seq<string>
    decreases |sections|
  {
    if sections == [] then [] else LogSection(sections[0].0, sections[0].1) + Log(sections[1..])
  }

  /** The tags of the removals have the `[c]` shape and no newline. */
  predicate ShortEntries(removed: seq<(nat, string)>) {
    forall k :: 0 <= k < |removed| ==> LogTag(removed[k].1)
  }

  /** A short entry line has no ` | Dialogue ` after its line number, so the entry pattern does not match it. */
  lemma {:induction false} ShortEntryStep(st: PoolState, n: nat, tag: string)
    requires LogTag(tag)
    ensures PoolStep(st, ShortEntryLine(n, tag)) == st
  {
    ShortEntryStripped(n, tag);
    ShortEntryLineStep(st, Strip(ShortEntryLine(n, tag)));
  }

  lemma {:induction false} ShortEntryStripped(n: nat, tag: string)
    requires LogTag(tag)
    ensures var s := Strip(ShortEntryLine(n, tag)); s != [] && s[0] == 'L' && EntryDialogue(s) == None
  {
    var num := NatToString(n);
    var s := "Line " + num + ": " + tag;
    assert "  " + s + "\n" == ShortEntryLine(n, tag);
    assert s[|s| - 1] == tag[|tag| - 1];
    StripIndented("  ", s);
    ShortEntryNoMatch(num, tag);
  }

  lemma {:induction false} ShortEntryLineStep(st: PoolState, line: string)
    requires line != [] && line[0] == 'L' && EntryDialogue(line) == None
    ensures PoolLine(st, line) == st
  {
    assert !StartsWith(line, "### ");
  }

  lemma {:induction false} ShortEntryNoMatch(num: string, tag: string)
    requires LogDialogue(num)
    ensures EntryDialogue("Line " + num + ": " + tag) == None
  {
    var s := "Line " + num + ": " + tag;
    var t := num + ": " + tag;
    assert s == "Line " + t;
    assert s[5..] == t;
    assert t[|num|] == ':';
    DigitRunExact(t, 0, |num|);
    assert t[|num|..][0] == ':';
  }

  /** A header line never adds a dialogue number, whatever the path. */
  lemma {:induction false} HeaderKeepsPool(st: PoolState, path: string)
    ensures PoolStep(st, HeaderLine(path)).nums == st.nums
  {
    var h := "### " + path;
    assert HeaderLine(path) == h + "\n";
    assert (h + "\n")[0] == '#';
    var r := RStrip(h + "\n");
    assert StartsWith(h + "\n", r);
    assert |r| >= 1 by {
      assert !IsSpace((h + "\n")[0]);
    }
    assert r[0] == '#';
    assert SpaceRun(r, 0) == 0;
    assert Strip(h + "\n") == r;
  }

  /** Reading the entry lines of a section as written adds nothing. */
  lemma {:induction false} ShortEntriesKeepPool(st: PoolState, removed: seq<(nat, string)>)
    requires ShortEntries(removed)
    ensures PoolFrom(st, ShortEntryLines(removed)) == st
    decreases |removed|
  {
    if removed != [] {
      var lines := ShortEntryLines(removed);
      assert lines[1..] == ShortEntryLines(removed[1..]);
      assert lines[0] == ShortEntryLine(removed[0].0, removed[0].1);
      ShortEntryStep(st, removed[0].0, removed[0].1);
      ShortEntriesKeepPool(st, removed[1..]);
      assert PoolFrom(st, lines) == PoolFrom(PoolStep(st, lines[0]), lines[1..]);
    }
  }

  /**
   * Reading the log as remove_unlisted.py writes it pools no dialogue number, English
   * files or not, because no entry line matches remove_end_tags.py's entry pattern.
   */
  lemma {:induction false} AsWrittenLogPoolsNothing(st: PoolState, sections: seq<(string, seq<(nat, string)>)>)
    requires forall i :: 0 <= i < |sections| ==> ShortEntries(sections[i].1)
    ensures PoolFrom(st, Log(sections)).nums == st.nums
    decreases |sections|
  {
    if sections != [] {
      var path := sections[0].0;
      var removed := sections[0].1;
      var rest := sections[1..];
      assert Log(sections) == LogSection(path, removed) + Log(rest);
      assert forall i :: 0 <= i < |rest| ==> rest[i] == sections[i + 1];
      HeaderKeepsPool(st, path);
      var st1 := PoolStep(st, HeaderLine(path));
      ShortEntriesKeepPool(st1, removed);
      assert Strip("\n") == [];
      assert PoolFrom(st1, ["\n"]) == st1;
      PoolFromAppend(st, [HeaderLine(path)], ShortEntryLines(removed));
      PoolFromAppend(st, [HeaderLine(path)] + ShortEntryLines(removed), ["\n"]);
      PoolFromAppend(st, LogSection(path, removed), Log(rest));
      AsWrittenLogPoolsNothing(st1, rest);
    }
  }

  /**
   * The removal log remove_unlisted.py writes yields the empty pool when
   * remove_end_tags.py reads it, even for removals from English files.
   */
  lemma {:induction false} AsWrittenLogUnreadable(sections: seq<(string, seq<(nat, string)>)>)
    requires forall i :: 0 <= i < |sections| ==> ShortEntries(sections[i].1)
    ensures EnglishPool(Log(sections)) == {}
  {
    AsWrittenLogPoolsNothing(PoolState(false, {}), sections);
  }

  // ---------------------------------------------------------------------------
  // The removal log with dialogue numbers

  /**
   * The removals with the dialogue number of each removed line, where it has one:
   * what the log needs for the propagation to read it.
   */
  function WithDialogue(lines: seq<string>, removed: seq<(nat, string)>): (r: seq<(nat, (Option<string>, string))>)
    requires forall k :: 0 <= k < |removed| ==> 1 <= removed[k].0 <= |lines|
    ensures |r| == |removed|
    ensures forall k :: 0 <= k < |removed| ==>
      r[k] == (removed[k].0, (DialogueNumber(RStripNewlines(lines[removed[k].0 - 1])), removed[k].1))
  {
    seq(|removed|, k requires 0 <= k < |removed| =>
      (removed[k].0, (DialogueNumber(RStripNewlines(lines[removed[k].0 - 1])), removed[k].1)))
  }

  /** A removal with a dialogue number is logged in the propagation's format; one without keeps the short form. */
  function DialogueEntryLine(n: nat, d: Option<string>, tag: string): string {
    match d
    case Some(num) => EntryLine(n, num, tag)
    case None => ShortEntryLine(n, tag)
  }

  function DialogueEntryLines(removed: seq<(nat, (Option<string>, string))>): (r: seq<string>)
    ensures |r| == |removed|
    ensures forall k :: 0 <= k < |removed| ==> r[k] == DialogueEntryLine(removed[k].0, removed[k].1.0, removed[k].1.1)
  {
    seq(|removed|, k requires 0 <= k < |removed| => DialogueEntryLine(removed[k].0, removed[k].1.0, removed[k].1.1))
  }

  function DialogueSection(path: string, removed: seq<(nat, (Option<string>, string))>): (r: seq<string>)
    ensures |r| == |removed| + 2
  {
    [HeaderLine(path)] + DialogueEntryLines(removed) + ["\n"]
  }

  /** The corrected log: the sections with dialogue numbers, as the file's lines. */
  function DialogueLog(sections: seq<(string, seq<(nat, (Option<string>, string))>)>): seq<string>
    decreases |sections|
  {
    if sections == [] then [] else DialogueSection(sections[0].0, sections[0].1) + DialogueLog(sections[1..])
  }

  /** The dialogue numbers known for a file's removals. */
  function KnownDialogues(removed: seq<(nat, (Option<string>, string))>): set<string> {
    set k | 0 <= k < |removed| && removed[k].1.0.Some? :: removed[k].1.0.value
  }

  /** The pool the corrected log should yield: the known dialogue numbers of the English files. */
  function KnownPool(sections: seq<(string, seq<(nat, (Option<string>, string))>)>): set<string>
    decreases |sections|
  {
    if sections == [] then {}
    else (if IsEnglishPath(sections[0].0) then KnownDialogues(sections[0].1) else {}) + KnownPool(sections[1..])
  }

  predicate DialogueEntries(removed: seq<(nat, (Option<string>, string))>) {
    forall k :: 0 <= k < |removed| ==>
      LogTag(removed[k].1.1) && (removed[k].1.0.Some? ==> LogDialogue(removed[k].1.0.value))
  }

  lemma {:induction false} KnownDialoguesCons(removed: seq<(nat, (Option<string>, string))>)
    requires removed != []
    ensures KnownDialogues(removed) ==
      (if removed[0].1.0.Some? then {removed[0].1.0.value} else {}) + KnownDialogues(removed[1..])
  {
    var head := if removed[0].1.0.Some? then {removed[0].1.0.value} else {};
    forall x | x in KnownDialogues(removed) ensures x in head + KnownDialogues(removed[1..]) {
      var k :| 0 <= k < |removed| && removed[k].1.0.Some? && removed[k].1.0.value == x;
      if k > 0 {
        assert removed[1..][k - 1] == removed[k];
      }
    }
    forall x | x in KnownDialogues(removed[1..]) ensures x in KnownDialogues(removed) {
      var k :| 0 <= k < |removed[1..]| && removed[1..][k].1.0.Some? && removed[1..][k].1.0.value == x;
      assert removed[k + 1] == removed[1..][k];
    }
  }

  /** One corrected entry line adds its dialogue number, if it has one, to an English section's pool. */
  lemma {:induction false} DialogueEntryStep(st: PoolState, n: nat, d: Option<string>, tag: string)
    requires LogTag(tag) && (d.Some? ==> LogDialogue(d.value))
    ensures PoolStep(st, DialogueEntryLine(n, d, tag)) ==
      PoolState(st.english, if st.english && d.Some? then st.nums + {d.value} else st.nums)
  {
    if d.Some? {
      EntryStep(st, n, d.value, tag);
    } else {
      ShortEntryStep(st, n, tag);
    }
  }

  lemma {:induction false} DialogueEntriesPool(st: PoolState, removed: seq<(nat, (Option<string>, string))>)
    requires DialogueEntries(removed)
    ensures PoolFrom(st, DialogueEntryLines(removed)) ==
      PoolState(st.english, if st.english then st.nums + KnownDialogues(removed) else st.nums)
    decreases |removed|
  {
    if removed != [] {
      var lines := DialogueEntryLines(removed);
      assert lines[1..] == DialogueEntryLines(removed[1..]);
      assert lines[0] == DialogueEntryLine(removed[0].0, removed[0].1.0, removed[0].1.1);
      DialogueEntryStep(st, removed[0].0, removed[0].1.0, removed[0].1.1);
      var st' := PoolStep(st, lines[0]);
      DialogueEntriesPool(st', removed[1..]);
      assert PoolFrom(st, lines) == PoolFrom(st', lines[1..]);
      KnownDialoguesCons(removed);
    }
  }

  lemma {:induction false} DialogueSectionPool(st: PoolState, path: string, removed: seq<(nat, (Option<string>, string))>)
    requires LogPath(path) && DialogueEntries(removed)
    ensures PoolFrom(st, DialogueSection(path, removed)) ==
      PoolState(IsEnglishPath(path), st.nums + if IsEnglishPath(path) then KnownDialogues(removed) else {})
  {
    HeaderLineParses(path);
    var st1 := PoolStep(st, HeaderLine(path));
    assert st1 == PoolState(IsEnglishPath(path), st.nums);
    DialogueEntriesPool(st1, removed);
    var st2 := PoolFrom(st1, DialogueEntryLines(removed));
    assert Strip("\n") == [];
    assert PoolFrom(st2, ["\n"]) == st2;
    PoolFromAppend(st, [HeaderLine(path)], DialogueEntryLines(removed));
    PoolFromAppend(st, [HeaderLine(path)] + DialogueEntryLines(removed), ["\n"]);
  }

  lemma {:induction false} DialogueLogPool(st: PoolState, sections: seq<(string, seq<(nat, (Option<string>, string))>)>)
    requires forall i :: 0 <= i < |sections| ==> LogPath(sections[i].0) && DialogueEntries(sections[i].1)
    ensures PoolFrom(st, DialogueLog(sections)).nums == st.nums + KnownPool(sections)
    decreases |sections|
  {
    if sections != [] {
      var path := sections[0].0;
      var removed := sections[0].1;
      var first := DialogueSection(path, removed);
      var rest := sections[1..];
      assert DialogueLog(sections) == first + DialogueLog(rest);
      assert KnownPool(sections) == (if IsEnglishPath(path) then KnownDialogues(removed) else {}) + KnownPool(rest);
      assert forall i :: 0 <= i < |rest| ==> rest[i] == sections[i + 1];
      DialogueSectionPool(st, path, removed);
      PoolFromAppend(st, first, DialogueLog(rest));
      DialogueLogPool(PoolFrom(st, first), rest);
    }
  }

  /**
   * The corrected log reads back, through remove_end_tags.py's parser, as exactly the
   * dialogue numbers of the English files' removed lines.
   */
  lemma {:induction false} DialogueLogRoundTrip(sections: seq<(string, seq<(nat, (Option<string>, string))>)>)
    requires forall i :: 0 <= i < |sections| ==> LogPath(sections[i].0) && DialogueEntries(sections[i].1)
    ensures EnglishPool(DialogueLog(sections)) == KnownPool(sections)
  {
    DialogueLogPool(PoolState(false, {}), sections);
  }
}
