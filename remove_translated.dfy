/**
 * remove_translated.py: reads the removal log into a map from each `### path`
 * section to the dialogue numbers of its entries, plus the union of all of them,
 * and removes end tags from the target files against that union. Its
 * `process_target_file`, its helpers and its log layout are the ones of
 * remove_end_tags.py, so they are modelled once, in `RemoveEndTags`.
 */
module RemoveTranslated {
  import opened Wrappers
  import opened Text
  import opened RemoveEndTags

  /** The parser's state: the current section's path, the per-path sets, and their union. */
  datatype ByFileState = ByFileState(current: Option<string>, byFile: map<string, set<string>>, all: set<string>)

  /** `by_file[path].add(d)` on a `defaultdict(set)`: the key appears with its first number. */
  function AddNumber(m: map<string, set<string>>, path: string, d: string): (r: map<string, set<string>>)
    ensures r.Keys == m.Keys + {path}
    ensures r[path] == (if path in m then m[path] else {}) + {d}
    ensures forall p :: p in m && p != path ==> r[p] == m[p]
  {
    m[path := (if path in m then m[path] else {}) + {d}]
  }

  /** What `parse_removal_log` does with a stripped line. */
  function ByFileLine(st: ByFileState, line: string): ByFileState {
    if StartsWith(line, "### ") then st.(current := Some(line[4..]))
    else if st.current.Some? && st.current.value != [] && StartsWith(line, "Line ") && EntryDialogue(line).Some? then
      var d := EntryDialogue(line).value;
      st.(byFile := AddNumber(st.byFile, st.current.value, d), all := st.all + {d})
    else st
  }

  /** What `parse_removal_log` does with one line of the log. */
  function ByFileStep(st: ByFileState, raw: string): ByFileState {
    ByFileLine(st, Strip(raw))
  }

  function ByFileFrom(st: ByFileState, log: seq<string>): ByFileState
    decreases |log|
  {
    if log == [] then st else ByFileFrom(ByFileStep(st, log[0]), log[1..])
  }

  /** The `(by_file, all_dialogue_nums)` pair `parse_removal_log` returns, with the last path read. */
  function ParseByFile(log: seq<string>): ByFileState {
    ByFileFrom(ByFileState(None, map[], {}), log)
  }

  /** `parse_removal_log`: one pass over the log's lines. */
  method ParseRemovalLog(log: seq<string>) returns (byFile: map<string, set<string>>, all: set<string>)
    ensures byFile == ParseByFile(log).byFile && all == ParseByFile(log).all
  {
    var current: Option<string> := None;
    byFile := map[];
    all := {};
    var i := 0;
    while i < |log|
      invariant 0 <= i <= |log|
      invariant ByFileFrom(ByFileState(current, byFile, all), log[i..]) == ParseByFile(log)
    {
      assert log[i..][1..] == log[i + 1..];
      var line := Strip(log[i]);
      if StartsWith(line, "### ") {
        current := Some(line[4..]);
      } else if current.Some? && current.value != [] && StartsWith(line, "Line ") {
        var m := EntryDialogue(line);
        if m.Some? {
          var d := m.value;
          var prior := if current.value in byFile then byFile[current.value] else {};
          byFile := byFile[current.value := prior + {d}];
          all := all + {d};
        }
      }
      i := i + 1;
    }
  }

  // ---------------------------------------------------------------------------
  // The flat set is the union of the per-path sets

  /** The union of the map's sets. */
  function MapUnion(m: map<string, set<string>>): set<string> {
    set p, d | p in m && d in m[p] :: d
  }

  lemma {:induction false} AddNumberUnion(m: map<string, set<string>>, path: string, d: string)
    ensures MapUnion(AddNumber(m, path, d)) == MapUnion(m) + {d}
  {
    var r := AddNumber(m, path, d);
    forall x | x in MapUnion(r) ensures x in MapUnion(m) + {d} {
      var p :| p in r && x in r[p];
      if p != path {
        assert p in m && x in m[p];
      } else if x != d {
        assert path in m && x in m[path];
      }
    }
    forall x | x in MapUnion(m) + {d} ensures x in MapUnion(r) {
      if x == d {
        assert x in r[path];
      } else {
        var p :| p in m && x in m[p];
        assert x in r[p];
      }
    }
  }

  /** The flat set is the union of the per-path sets. */
  predicate Consistent(st: ByFileState) {
    st.all == MapUnion(st.byFile)
  }

  lemma {:induction false} ByFileFromConsistent(st: ByFileState, log: seq<string>)
    requires Consistent(st)
    ensures Consistent(ByFileFrom(st, log))
    decreases |log|
  {
    if log != [] {
      var line := Strip(log[0]);
      var st' := ByFileStep(st, log[0]);
      if !StartsWith(line, "### ") && st.current.Some? && st.current.value != [] && StartsWith(line, "Line ")
        && EntryDialogue(line).Some? {
        AddNumberUnion(st.byFile, st.current.value, EntryDialogue(line).value);
      }
      ByFileFromConsistent(st', log[1..]);
    }
  }

  /**
   * `all_dialogue_nums` is exactly the union of the per-path sets, whatever the log:
   * a number is in it iff some section (English or not) lists it.
   */
  lemma {:induction false} AllIsUnion(log: seq<string>)
    ensures ParseByFile(log).all == MapUnion(ParseByFile(log).byFile)
  {
    ByFileFromConsistent(ByFileState(None, map[], {}), log);
  }

  // ---------------------------------------------------------------------------
  // Round trip with the log writer (remove_translated.py:194-202)

  /** The per-path sets after adding a section's numbers; a section without removals adds no key. */
  function AddSection(m: map<string, set<string>>, path: string, removed: seq<(nat, (string, string))>): map<string, set<string>> {
    if removed == [] then m else m[path := (if path in m then m[path] else {}) + Dialogues(removed)]
  }

  /** The per-path sets the log should yield. */
  function ExpectedByFile(m: map<string, set<string>>, sections: seq<(string, seq<(nat, (string, string))>)>): map<string, set<string>>
    decreases |sections|
  {
    if sections == [] then m
    else ExpectedByFile(AddSection(m, sections[0].0, sections[0].1), sections[1..])
  }

  /** All the dialogue numbers of the sections. */
  function AllNumbers(sections: seq<(string, seq<(nat, (string, string))>)>): set<string>
    decreases |sections|
  {
    if sections == [] then {} else Dialogues(sections[0].1) + AllNumbers(sections[1..])
  }

  lemma {:induction false} ByFileFromAppend(st: ByFileState, a: seq<string>, b: seq<string>)
    ensures ByFileFrom(st, a + b) == ByFileFrom(ByFileFrom(st, a), b)
    decreases |a|
  {
    if a == [] {
      assert a + b == b;
    } else {
      assert (a + b)[0] == a[0];
      assert (a + b)[1..] == a[1..] + b;
      ByFileFromAppend(ByFileStep(st, a[0]), a[1..], b);
    }
  }

  lemma {:induction false} EntryLineByFile(st: ByFileState, line: string, d: string)
    requires EntryDialogue(line) == Some(d) && st.current.Some? && st.current.value != []
    ensures ByFileLine(st, line) == st.(byFile := AddNumber(st.byFile, st.current.value, d), all := st.all + {d})
  {
    assert line[0] == "Line "[0];
    assert !StartsWith(line, "### ");
  }

  lemma {:induction false} EntryStepByFile(st: ByFileState, n: nat, d: string, tag: string)
    requires LogDialogue(d) && LogTag(tag) && st.current.Some? && st.current.value != []
    ensures ByFileStep(st, EntryLine(n, d, tag)) ==
      st.(byFile := AddNumber(st.byFile, st.current.value, d), all := st.all + {d})
  {
    EntryLineParses(n, d, tag);
    EntryLineByFile(st, Strip(EntryLine(n, d, tag)), d);
  }

  /** The entry lines of a section add their numbers under the section's path. */
  lemma {:induction false} EntriesByFile(st: ByFileState, removed: seq<(nat, (string, string))>)
    requires st.current.Some? && st.current.value != [] && LogEntries(removed)
    ensures ByFileFrom(st, EntryLines(removed)) ==
      st.(byFile := AddSection(st.byFile, st.current.value, removed), all := st.all + Dialogues(removed))
    decreases |removed|
  {
    if removed == [] {
      assert Dialogues(removed) == {};
    } else {
      var path := st.current.value;
      var d := removed[0].1.0;
      var lines := EntryLines(removed);
      assert lines[1..] == EntryLines(removed[1..]);
      assert lines[0] == EntryLine(removed[0].0, d, removed[0].1.1);
      EntryStepByFile(st, removed[0].0, d, removed[0].1.1);
      var st' := ByFileStep(st, lines[0]);
      EntriesByFile(st', removed[1..]);
      assert ByFileFrom(st, lines) == ByFileFrom(st', lines[1..]);
      DialoguesCons(removed);
      AddSectionCons(st.byFile, path, d, removed[1..]);
    }
  }

  lemma {:induction false} AddSectionCons(m: map<string, set<string>>, path: string, d: string, rest: seq<(nat, (string, string))>)
    ensures AddSection(AddNumber(m, path, d), path, rest) ==
      m[path := (if path in m then m[path] else {}) + ({d} + Dialogues(rest))]
  {
    var prior := if path in m then m[path] else {};
    if rest == [] {
      assert Dialogues(rest) == {};
      assert {d} + Dialogues(rest) == {d};
    } else {
      assert prior + {d} + Dialogues(rest) == prior + ({d} + Dialogues(rest));
    }
  }

  /** A whole section sets the current path and adds the section's numbers under it. */
  lemma {:induction false} SectionByFile(st: ByFileState, path: string, removed: seq<(nat, (string, string))>)
    requires LogPath(path) && LogEntries(removed)
    ensures ByFileFrom(st, SectionLines(path, removed)) ==
      ByFileState(Some(path), AddSection(st.byFile, path, removed), st.all + Dialogues(removed))
  {
    HeaderLineParses(path);
    var st1 := ByFileStep(st, HeaderLine(path));
    assert st1 == st.(current := Some(path));
    EntriesByFile(st1, removed);
    var st2 := ByFileFrom(st1, EntryLines(removed));
    assert Strip("\n") == [];
    assert ByFileFrom(st2, ["\n"]) == st2;
    ByFileFromAppend(st, [HeaderLine(path)], EntryLines(removed));
    ByFileFromAppend(st, [HeaderLine(path)] + EntryLines(removed), ["\n"]);
  }

  lemma {:induction false} LogByFile(st: ByFileState, sections: seq<(string, seq<(nat, (string, string))>)>)
    requires LogSections(sections)
    ensures ByFileFrom(st, LogLines(sections)).byFile == ExpectedByFile(st.byFile, sections)
    ensures ByFileFrom(st, LogLines(sections)).all == st.all + AllNumbers(sections)
    decreases |sections|
  {
    if sections != [] {
      var path := sections[0].0;
      var removed := sections[0].1;
      var first := SectionLines(path, removed);
      var rest := sections[1..];
      assert LogLines(sections) == first + LogLines(rest);
      assert forall i :: 0 <= i < |rest| ==> rest[i] == sections[i + 1];
      SectionByFile(st, path, removed);
      ByFileFromAppend(st, first, LogLines(rest));
      LogByFile(ByFileFrom(st, first), rest);
    }
  }

  /**
   * The log written at remove_translated.py:194-202 (or remove_end_tags.py:283-291)
   * reads back as the same path-to-numbers sets, and the flat set as all the numbers,
   * provided the paths do not end in whitespace.
   */
  lemma {:induction false} LogRoundTripByFile(sections: seq<(string, seq<(nat, (string, string))>)>)
    requires LogSections(sections)
    ensures ParseByFile(LogLines(sections)).byFile == ExpectedByFile(map[], sections)
    ensures ParseByFile(LogLines(sections)).all == AllNumbers(sections)
  {
    LogByFile(ByFileState(None, map[], {}), sections);
  }

  // ---------------------------------------------------------------------------
  // The target loop (remove_translated.py:148-160)

  /**
   * Every target file is processed against the union of all sections' numbers,
   * whichever file contributed each number.
   */
  method ProcessTargets(log: seq<string>, targets: seq<seq<string>>)
    returns (outs: seq<seq<string>>, removed: seq<seq<(nat, (string, string))>>)
    ensures |outs| == |targets| && |removed| == |targets|
    ensures forall i :: 0 <= i < |targets| ==>
      outs[i] == Propagated(targets[i], ParseByFile(log).all) && removed[i] == Removed(targets[i], ParseByFile(log).all)
  {
    var byFile, all := ParseRemovalLog(log);
    outs := [];
    removed := [];
    for i := 0 to |targets|
      invariant |outs| == i && |removed| == i
      invariant forall k :: 0 <= k < i ==> outs[k] == Propagated(targets[k], all) && removed[k] == Removed(targets[k], all)
    {
      var modified, r, written := ProcessTargetFile(targets[i], all);
      assert forall k :: 0 <= k < i ==> (outs + [modified])[k] == outs[k] && (removed + [r])[k] == removed[k];
      outs := outs + [modified];
      removed := removed + [r];
    }
  }
}
