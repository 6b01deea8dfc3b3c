/**
 * find_start.py: reports every line whose text starts with a numbered start tag
 * (`N. [tag]`), with its 1-based file line, its dialogue number when the '.' is
 * followed by whitespace, and the tag.
 */
module FindStart {
  import opened Wrappers
  import opened Text
  import opened Tags
  import opened Lines

  /** What `process_file` records for a line besides its number: the dialogue number (or none) and the `[tag]`. */
  datatype StartHit = StartHit(dialogue: Option<string>, tag: string)

  /** The entry for a line read as `raw` (newline included), if its text has a start tag. */
  function HitOf(raw: string): (r: Option<StartHit>)
    ensures r.Some? <==> StartTag(RStripNewlines(raw)).Some?
    ensures r.Some? ==> Some(r.value.tag) == StartTag(RStripNewlines(raw))
    ensures r.Some? ==> r.value.dialogue == DialogueNumber(RStripNewlines(raw))
  {
    var line := RStripNewlines(raw);
    match StartTag(line)
    case Some(t) => Some(StartHit(DialogueNumber(line), t))
    case None => None
  }

  /**
   * A line is recorded as `h` exactly when its text opens with a well-formed start-tag
   * match whose bracket group is `h.tag`; the dialogue number is the match's number
   * when whitespace follows its '.' (`7. [x]`), and none when the '[' does (`7.[x]`).
   */
  lemma {:induction false} HitOfIff(raw: string, h: StartHit)
    ensures HitOf(raw) == Some(h) <==>
      exists m: StartMatch :: m.WellFormed() && StartsWith(RStripNewlines(raw), m.Matched()) &&
        h == StartHit(if |m.gap| > 0 then Some(m.number) else None, "[" + m.contents + "]")
  {
    var line := RStripNewlines(raw);
    if HitOf(raw) == Some(h) {
      var m := StartTagMatch(line).value;
      DialogueOfMatch(line, m);
      assert m.WellFormed() && StartsWith(line, m.Matched()) &&
        h == StartHit(if |m.gap| > 0 then Some(m.number) else None, "[" + m.contents + "]");
    }
    if exists m: StartMatch :: m.WellFormed() && StartsWith(line, m.Matched()) &&
        h == StartHit(if |m.gap| > 0 then Some(m.number) else None, "[" + m.contents + "]") {
      var m: StartMatch :| m.WellFormed() && StartsWith(line, m.Matched()) &&
        h == StartHit(if |m.gap| > 0 then Some(m.number) else None, "[" + m.contents + "]");
      StartTagMatchExact(line, m);
      DialogueOfMatch(line, m);
    }
  }

  /** Each line's entry, if any, in file order. */
  function LineHits(lines: seq<string>): (hs: seq<Option<StartHit>>)
    ensures |hs| == |lines|
    ensures forall i :: 0 <= i < |lines| ==> hs[i] == HitOf(lines[i])
  {
    seq(|lines|, i requires 0 <= i < |lines| => HitOf(lines[i]))
  }

  /** The (file line, entry) pairs `process_file` returns. */
  function StartHits(lines: seq<string>): seq<(nat, StartHit)> {
    Numbered(LineHits(lines))
  }

  /**
   * `process_file` records exactly one entry per line with a start tag: each entry
   * is that line's own entry, entries come in ascending line order, and no tagged
   * line is missed.
   */
  lemma {:induction false} StartHitsExact(lines: seq<string>)
    ensures var hs := LineHits(lines); var r := Numbered(hs);
      forall k :: 0 <= k < |r| ==> 1 <= r[k].0 <= |hs| && hs[r[k].0 - 1] == Some(r[k].1)
    ensures var r := Numbered(LineHits(lines));
      forall k, k' :: 0 <= k < k' < |r| ==> r[k].0 < r[k'].0
    ensures var hs := LineHits(lines); var r := Numbered(hs);
      forall i :: 0 <= i < |hs| && hs[i].Some? ==> exists k :: 0 <= k < |r| && r[k] == (i + 1, hs[i].value)
  {
    NumberedSound(LineHits(lines));
    NumberedAscending(LineHits(lines));
    NumberedComplete(LineHits(lines));
  }

  /** `process_file`: one pass over the lines, appending each tagged line's entry. */
  method ScanStartTags(lines: seq<string>) returns (found: seq<(nat, StartHit)>)
    ensures found == StartHits(lines)
  {
    found := [];
    var i := 0;
    while i < |lines|
      invariant 0 <= i <= |lines|
      invariant found == Numbered(LineHits(lines)[..i])
    {
      NumberedTake(LineHits(lines), i);
      var line := RStripNewlines(lines[i]);
      var tag := StartTag(line);
      if tag.Some? {
        var dialogue := DialogueNumber(line);
        found := found + [(i + 1, StartHit(dialogue, tag.value))];
      }
      i := i + 1;
    }
    assert LineHits(lines)[..i] == LineHits(lines);
  }

  /** The report line written for an entry; a missing dialogue number shows as `N/A`. */
  function ReportLine(fileLine: nat, h: StartHit): string {
    "  Line " + NatToString(fileLine) + " | "
      + (if h.dialogue.Some? then "Dialogue " + h.dialogue.value else "N/A")
      + " | " + h.tag
  }

  /**
   * A tag glued to the '.' (`7.[sighs]`) is a start tag, but the line has no
   * dialogue number, so it is reported as `N/A`.
   */
  lemma {:induction false} TagWithoutDialogueNumber(d: string, c: string, rest: string)
    requires |d| > 0 && AllDigits(d) && |c| > 0 && ']' !in c
    requires rest == [] || rest[|rest| - 1] != '\n'
    ensures HitOf(d + ".[" + c + "]" + rest + "\n") == Some(StartHit(None, "[" + c + "]"))
  {
    var line := d + ".[" + c + "]" + rest;
    GluedTag(d, c, rest);
    if rest == [] {
      assert line[|line| - 1] == ']';
    } else {
      assert line[|line| - 1] == rest[|rest| - 1];
    }
    StripsNewline(line);
  }

  /** `d.[c]rest`: the start tag is `[c]`, and there is no dialogue number. */
  lemma {:induction false} GluedTag(d: string, c: string, rest: string)
    requires |d| > 0 && AllDigits(d) && |c| > 0 && ']' !in c
    ensures var line := d + ".[" + c + "]" + rest;
      StartTag(line) == Some("[" + c + "]") && DialogueNumber(line) == None
  {
    var m := StartMatch(d, "", c);
    var line := m.Matched() + rest;
    assert line == d + ".[" + c + "]" + rest;
    assert line[..|m.Matched()|] == m.Matched();
    StartTagMatchExact(line, m);
    DialogueOfMatch(line, m);
  }

  /** An entry without a dialogue number is reported as `N/A`; one with a number names it. */
  lemma {:induction false} ReportLineDialogue(fileLine: nat, h: StartHit)
    ensures h.dialogue.None? ==> ReportLine(fileLine, h) == "  Line " + NatToString(fileLine) + " | N/A | " + h.tag
    ensures h.dialogue.Some? ==>
      ReportLine(fileLine, h) == "  Line " + NatToString(fileLine) + " | Dialogue " + h.dialogue.value + " | " + h.tag
  {
  }

  /** `7. [sighs] x` is reported with dialogue number `7` and tag `[sighs]`. */
  lemma {:induction false} TagWithDialogueNumber(d: string, gap: string, c: string, rest: string)
    requires |d| > 0 && AllDigits(d) && |gap| > 0 && AllSpace(gap) && |c| > 0 && ']' !in c
    requires rest == [] || rest[|rest| - 1] != '\n'
    ensures HitOf(d + "." + gap + "[" + c + "]" + rest + "\n") == Some(StartHit(Some(d), "[" + c + "]"))
  {
    var m := StartMatch(d, gap, c);
    var line := m.Matched() + rest;
    assert line == d + "." + gap + "[" + c + "]" + rest;
    assert StartTag(line) == Some("[" + c + "]") && DialogueNumber(line) == Some(d) by {
      assert line[..|m.Matched()|] == m.Matched();
      StartTagMatchExact(line, m);
      DialogueOfMatch(line, m);
    }
    StripsNewline(line);
  }

  /** A line that does not start with a digit (such as `[pause] ...`) is not reported. */
  lemma {:induction false} UnnumberedLineNotReported(raw: string)
    requires raw != [] && !IsDigit(raw[0])
    ensures HitOf(raw) == None
  {
    var s := RStripNewlines(raw);
    if s != [] {
      assert s[0] == raw[0];
      assert DigitRun(s, 0) == 0;
    }
  }
}
