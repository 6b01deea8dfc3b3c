/**
 * remove_blank_lines.py: a file's lines become records. Blank lines are dropped,
 * the rest are right-trimmed, and every line that does not start with a dialogue
 * number is glued with one space onto the record before it.
 */
module Merger {
  import opened Wrappers
  import opened Text
  import opened Tags

  /** `is_numbered_line`: the stripped line starts with digits, a '.' and a whitespace character. */
  predicate IsNumberedLine(line: string) {
    DialogueNumber(Strip(line)).Some?
  }

  /** `12. x` is numbered. */
  lemma {:induction false} NumberedExample()
    ensures IsNumberedLine("12. x")
  {
    assert Strip("12. x") == "12. x" by {
      assert RStrip("12. x") == "12. x";
      assert SpaceRun("12. x", 0) == 0;
    }
    DialogueNumberIff("12. x", "12");
  }

  /** `12.` alone is not numbered: no whitespace follows the '.'. */
  lemma {:induction false} BareNumberExample()
    ensures !IsNumberedLine("12.")
  {
    assert Strip("12.") == "12.";
    assert DigitRun("12.", 0) == 2;
  }

  /** `12.x` is not numbered: the '.' is followed by text. */
  lemma {:induction false} GluedNumberExample()
    ensures !IsNumberedLine("12.x")
  {
    assert Strip("12.x") == "12.x";
    assert DigitRun("12.x", 0) == 2;
  }

  /** A line that holds text and does not end in whitespace: what the first pass keeps. */
  predicate KeptLine(line: string) {
    line != [] && !IsSpace(line[|line| - 1])
  }

  /** First pass: `[line.rstrip() for line in lines if line.strip()]`. */
  function NonBlankLines(lines: seq<string>): (r: seq<string>)
    ensures |r| <= |lines|
    ensures forall i :: 0 <= i < |r| ==> KeptLine(r[i])
    decreases |lines|
  {
    if lines == [] then []
    else
      var rest := NonBlankLines(lines[1..]);
      if Strip(lines[0]) != [] then [RStrip(lines[0])] + rest else rest
  }

  /** The merge loop's variables: the finished records and `current_line`. */
  datatype MergeState = MergeState(merged: seq<string>, current: Option<string>)

  /** One turn of the merge loop. */
  function MergeStep(st: MergeState, line: string): MergeState {
    if IsNumberedLine(line) then
      MergeState(if st.current.Some? then st.merged + [st.current.value] else st.merged, Some(line))
    else if st.current.Some? then
      MergeState(st.merged, Some(st.current.value + " " + line))
    else
      MergeState(st.merged, Some(line))
  }

  /** The merge loop run over `lines` from state `st`. */
  function MergeFrom(st: MergeState, lines: seq<string>): MergeState
    decreases |lines|
  {
    if lines == [] then st else MergeFrom(MergeStep(st, lines[0]), lines[1..])
  }

  /** The records after the loop, with the pending `current_line` flushed. */
  function Records(st: MergeState): seq<string> {
    if st.current.Some? then st.merged + [st.current.value] else st.merged
  }

  /** The records `clean_and_merge_lines` writes, one per output line. */
  function Merge(lines: seq<string>): seq<string> {
    Records(MergeFrom(MergeState([], None), NonBlankLines(lines)))
  }

  /** Number of numbered lines in `lines`. */
  function CountNumbered(lines: seq<string>): (n: nat)
    ensures n <= |lines|
    ensures lines != [] && !IsNumberedLine(lines[0]) ==> n < |lines|
    decreases |lines|
  {
    if lines == [] then 0 else (if IsNumberedLine(lines[0]) then 1 else 0) + CountNumbered(lines[1..])
  }

  /** `clean_and_merge_lines` between reading and writing the file. */
  method CleanAndMergeLines(lines: seq<string>) returns (merged: seq<string>)
    ensures merged == Merge(lines)
    ensures forall i :: 0 <= i < |merged| ==> KeptLine(merged[i])
    ensures forall i :: 0 < i < |merged| ==> IsNumberedLine(merged[i])
    ensures Join(merged, ' ') == Join(NonBlankLines(lines), ' ')
    ensures |merged| <= |lines|
  {
    var nonBlank := NonBlankLines(lines);
    merged := [];
    var current: Option<string> := None;
    var i := 0;
    while i < |nonBlank|
      invariant 0 <= i <= |nonBlank|
      invariant MergeFrom(MergeState(merged, current), nonBlank[i..]) == MergeFrom(MergeState([], None), nonBlank)
    {
      var line := nonBlank[i];
      if IsNumberedLine(line) {
        if current.Some? {
          merged := merged + [current.value];
        }
        current := Some(line);
      } else {
        if current.Some? {
          current := Some(current.value + " " + line);
        } else {
          current := Some(line);
        }
      }
      assert nonBlank[i..][1..] == nonBlank[i + 1..];
      i := i + 1;
    }
    if current.Some? {
      merged := merged + [current.value];
    }
    MergeShape(lines);
    MergeKeepsText(lines);
    MergeCount(lines);
  }

  // ---------------------------------------------------------------------------
  // Shape of the records

  /** Appending text after a non-space character does not change a whitespace run before it. */
  lemma {:induction false} SpaceRunAppend(x: string, y: string, i: nat)
    requires i <= |x| && i + SpaceRun(x, i) < |x|
    ensures SpaceRun(x + y, i) == SpaceRun(x, i)
    decreases |x| - i
  {
    assert (x + y)[i] == x[i];
    if IsSpace(x[i]) {
      SpaceRunAppend(x, y, i + 1);
    }
  }

  /** Leading whitespace of a line that holds text is all its `lstrip` removes, whatever follows. */
  lemma {:induction false} LStripAppend(x: string, y: string)
    requires KeptLine(x)
    ensures LStrip(x + y) == LStrip(x) + y
  {
    SpaceRunAppend(x, y, 0);
    var n := SpaceRun(x, 0);
    assert (x + y)[n..] == x[n..] + y;
  }

  /** A right-trimmed line strips to its left-trimmed self. */
  lemma {:induction false} StripKeptLine(x: string)
    requires KeptLine(x)
    ensures Strip(x) == LStrip(x)
  {
    assert RStrip(x) == x;
  }

  /** A numbered record stays numbered when a continuation is glued onto it. */
  lemma {:induction false} NumberedGlue(c: string, t: string)
    requires KeptLine(c) && KeptLine(t) && IsNumberedLine(c)
    ensures IsNumberedLine(c + " " + t) && KeptLine(c + " " + t)
  {
    var g := c + (" " + t);
    assert g == c + " " + t;
    assert g[|g| - 1] == t[|t| - 1];
    StripKeptLine(c);
    StripKeptLine(g);
    LStripAppend(c, " " + t);
    DialogueNumberExtend(LStrip(c), " " + t);
  }

  /** Invariant of the merge loop: records hold text, and all but the first are numbered. */
  ghost predicate GoodState(st: MergeState) {
    (forall i :: 0 <= i < |st.merged| ==> KeptLine(st.merged[i])) &&
    (forall i :: 0 < i < |st.merged| ==> IsNumberedLine(st.merged[i])) &&
    (st.merged != [] ==> st.current.Some? && IsNumberedLine(st.current.value)) &&
    (st.current.Some? ==> KeptLine(st.current.value))
  }

  lemma {:induction false} MergeFromGood(st: MergeState, lines: seq<string>)
    requires GoodState(st)
    requires forall i :: 0 <= i < |lines| ==> KeptLine(lines[i])
    ensures GoodState(MergeFrom(st, lines))
    decreases |lines|
  {
    if lines != [] {
      var l := lines[0];
      if !IsNumberedLine(l) && st.current.Some? {
        if IsNumberedLine(st.current.value) {
          NumberedGlue(st.current.value, l);
        } else {
          assert st.current.value + " " + l != [];
          assert (st.current.value + " " + l)[|st.current.value + " " + l| - 1] == l[|l| - 1];
        }
      }
      MergeFromGood(MergeStep(st, l), lines[1..]);
    }
  }

  /** Every record holds text without trailing whitespace, and every record but the first is numbered. */
  lemma {:induction false} MergeShape(lines: seq<string>)
    ensures forall i :: 0 <= i < |Merge(lines)| ==> KeptLine(Merge(lines)[i])
    ensures forall i :: 0 < i < |Merge(lines)| ==> IsNumberedLine(Merge(lines)[i])
  {
    MergeFromGood(MergeState([], None), NonBlankLines(lines));
  }

  // ---------------------------------------------------------------------------
  // No text is lost

  /** Gluing `l` onto the last record with one space reads the same as keeping it apart, once joined by spaces. */
  lemma {:induction false} JoinGlue(m: seq<string>, c: string, l: string)
    ensures Join(m + [c + " " + l], ' ') == Join(m + [c] + [l], ' ')
  {
    JoinSnoc(m, c + " " + l, ' ');
    JoinSnoc(m + [c], l, ' ');
    JoinSnoc(m, c, ' ');
  }

  /** The same with further pieces after the glued one. */
  lemma {:induction false} JoinGlueRest(m: seq<string>, c: string, l: string, rest: seq<string>)
    ensures Join(m + [c + " " + l] + rest, ' ') == Join(m + [c] + [l] + rest, ' ')
    decreases |rest|
  {
    if rest == [] {
      assert m + [c + " " + l] + rest == m + [c + " " + l];
      assert m + [c] + [l] + rest == m + [c] + [l];
      JoinGlue(m, c, l);
    } else {
      var last := rest[|rest| - 1];
      var init := rest[..|rest| - 1];
      assert m + [c + " " + l] + rest == (m + [c + " " + l] + init) + [last];
      assert m + [c] + [l] + rest == (m + [c] + [l] + init) + [last];
      JoinGlueRest(m, c, l, init);
      JoinSnoc(m + [c + " " + l] + init, last, ' ');
      JoinSnoc(m + [c] + [l] + init, last, ' ');
    }
  }

  /** One turn of the loop keeps the space-joined text. */
  lemma {:induction false} StepKeepsText(st: MergeState, l: string, rest: seq<string>)
    ensures Join(Records(MergeStep(st, l)) + rest, ' ') == Join(Records(st) + [l] + rest, ' ')
  {
    if !IsNumberedLine(l) && st.current.Some? {
      assert Records(st) + [l] + rest == st.merged + [st.current.value] + [l] + rest;
      JoinGlueRest(st.merged, st.current.value, l, rest);
    } else {
      assert Records(MergeStep(st, l)) == Records(st) + [l];
    }
  }

  lemma {:induction false} MergeFromKeepsText(st: MergeState, lines: seq<string>)
    ensures Join(Records(MergeFrom(st, lines)), ' ') == Join(Records(st) + lines, ' ')
    decreases |lines|
  {
    if lines == [] {
      assert Records(st) + lines == Records(st);
    } else {
      MergeFromKeepsText(MergeStep(st, lines[0]), lines[1..]);
      StepKeepsText(st, lines[0], lines[1..]);
      ConsAppend(Records(st), lines);
    }
  }

  lemma {:induction false} ConsAppend(a: seq<string>, b: seq<string>)
    requires b != []
    ensures a + [b[0]] + b[1..] == a + b
  {
  }

  /** Joined with single spaces, the records spell out the non-blank lines in order. */
  lemma {:induction false} MergeKeepsText(lines: seq<string>)
    ensures Join(Merge(lines), ' ') == Join(NonBlankLines(lines), ' ')
  {
    var nb := NonBlankLines(lines);
    MergeFromKeepsText(MergeState([], None), nb);
    assert Records(MergeState([], None)) + nb == nb;
  }

  // ---------------------------------------------------------------------------
  // Number of records

  lemma {:induction false} MergeFromCount(st: MergeState, lines: seq<string>)
    ensures |Records(MergeFrom(st, lines))| ==
      |Records(st)| + CountNumbered(lines) + (if st.current.None? && lines != [] && !IsNumberedLine(lines[0]) then 1 else 0)
    decreases |lines|
  {
    if lines != [] {
      MergeFromCount(MergeStep(st, lines[0]), lines[1..]);
    }
  }

  /**
   * One record per numbered non-blank line, plus one leading record when the first
   * non-blank line is a continuation; so there are never more records than lines.
   */
  lemma {:induction false} MergeCount(lines: seq<string>)
    ensures var nb := NonBlankLines(lines);
      |Merge(lines)| == CountNumbered(nb) + (if nb != [] && !IsNumberedLine(nb[0]) then 1 else 0)
    ensures |Merge(lines)| <= |lines|
  {
    MergeFromCount(MergeState([], None), NonBlankLines(lines));
  }

  // ---------------------------------------------------------------------------
  // Idempotence

  /** The file lines that writing the records produces: each record and a newline. */
  function AsFileLines(records: seq<string>): (r: seq<string>)
    ensures |r| == |records|
  {
    seq(|records|, i requires 0 <= i < |records| => records[i] + "\n")
  }

  /** Reading back written records drops nothing and trims only the newline. */
  lemma {:induction false} NonBlankOfWritten(records: seq<string>)
    requires forall i :: 0 <= i < |records| ==> KeptLine(records[i])
    ensures NonBlankLines(AsFileLines(records)) == records
    ensures NonBlankLines(records) == records
    decreases |records|
  {
    if records != [] {
      var r := records[0];
      WrittenRecord(r);
      var ws := AsFileLines(records);
      AsFileLinesTail(records);
      NonBlankOfWritten(records[1..]);
      NonBlankCons(ws);
      NonBlankCons(records);
      assert records == [r] + records[1..];
    }
  }

  /** A first line that is not blank is kept, right-stripped, ahead of the rest. */
  lemma {:induction false} NonBlankCons(lines: seq<string>)
    requires lines != [] && Strip(lines[0]) != []
    ensures NonBlankLines(lines) == [RStrip(lines[0])] + NonBlankLines(lines[1..])
  {
  }

  /** The written lines of the records after the first are the written lines after the first. */
  lemma {:induction false} AsFileLinesTail(records: seq<string>)
    requires records != []
    ensures AsFileLines(records)[0] == records[0] + "\n"
    ensures AsFileLines(records)[1..] == AsFileLines(records[1..])
  {
    var ws, ts := AsFileLines(records), AsFileLines(records[1..]);
    forall i | 0 <= i < |ts| ensures ws[1..][i] == ts[i] {
      assert ws[1..][i] == ws[i + 1];
    }
  }

  /** A written record is not blank, and `rstrip()` gives it back with or without its newline. */
  lemma {:induction false} WrittenRecord(r: string)
    requires KeptLine(r)
    ensures RStrip(r) == r && RStrip(r + "\n") == r
    ensures Strip(r) != [] && Strip(r + "\n") != []
  {
    var w := r + "\n";
    assert RStrip(w) == RStrip(r) by {
      assert w[..|w| - 1] == r;
    }
    assert SpaceRun(r, 0) < |r|;
    assert TrailEnd(r) == |r|;
    assert SpaceRun(w, 0) < |r| by {
      assert w[|r| - 1] == r[|r| - 1];
    }
    assert TrailEnd(w) == |r| by {
      assert w[..|w| - 1] == r;
    }
  }

  lemma {:induction false} MergeFromNumbered(a: seq<string>, c: string, ys: seq<string>)
    requires forall i :: 0 <= i < |ys| ==> IsNumberedLine(ys[i])
    ensures Records(MergeFrom(MergeState(a, Some(c)), ys)) == a + [c] + ys
    decreases |ys|
  {
    if ys != [] {
      assert MergeFrom(MergeState(a, Some(c)), ys) == MergeFrom(MergeState(a + [c], Some(ys[0])), ys[1..]) by {
        NumberedStep(MergeState(a, Some(c)), ys[0]);
      }
      assert forall i :: 0 <= i < |ys[1..]| ==> IsNumberedLine(ys[1..][i]) by {
        forall i | 0 <= i < |ys[1..]|
          ensures IsNumberedLine(ys[1..][i])
        {
          assert ys[1..][i] == ys[i + 1];
        }
      }
      MergeFromNumbered(a + [c], ys[0], ys[1..]);
      HeadTail(a + [c], ys);
    }
  }

  lemma {:induction false} HeadTail<T>(p: seq<T>, ys: seq<T>)
    requires ys != []
    ensures p + [ys[0]] + ys[1..] == p + ys
  {
    assert [ys[0]] + ys[1..] == ys;
  }

  /** A numbered line closes the pending record and opens its own. */
  lemma {:induction false} NumberedStep(st: MergeState, line: string)
    requires IsNumberedLine(line)
    ensures MergeStep(st, line) == MergeState(Records(st), Some(line))
  {
  }

  /** Records with text, all numbered but the first, merge to themselves. */
  lemma {:induction false} MergeOfRecords(records: seq<string>)
    requires forall i :: 0 <= i < |records| ==> KeptLine(records[i])
    requires forall i :: 0 < i < |records| ==> IsNumberedLine(records[i])
    ensures Merge(records) == records
    ensures Merge(AsFileLines(records)) == records
  {
    NonBlankOfWritten(records);
    if records != [] {
      MergeFromNumbered([], records[0], records[1..]);
      assert [] + [records[0]] + records[1..] == records;
    }
  }

  /** Merging is idempotent, both on the records and on the file written from them. */
  lemma {:induction false} MergeIdempotent(lines: seq<string>)
    ensures Merge(Merge(lines)) == Merge(lines)
    ensures Merge(AsFileLines(Merge(lines))) == Merge(lines)
  {
    MergeShape(lines);
    MergeOfRecords(Merge(lines));
  }
}
