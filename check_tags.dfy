/**
 * check_tags.py: lists, for one file, the (line number, tag) pairs of the lines
 * whose end tag is not on the allow-list, compared without regard to letter case.
 */
module CheckTags {
  import opened Wrappers
  import opened Text
  import opened Tags
  import opened Lines

  /** The end tag of a line read as `raw` (newline included) when it is not allowed. */
  function UnlistedTag(raw: string, allowedLower: set<string>): (r: Option<string>)
    ensures r.Some? ==> r == EndTag(RStripNewlines(raw))
  {
    match EndTag(RStripNewlines(raw))
    case Some(t) => if IsUnlisted(t, allowedLower) then Some(t) else None
    case None => None
  }

  /**
   * A line is reported exactly when it has an end tag that no allowed tag matches
   * up to letter case, and the tag is reported as it is written in the line.
   */
  lemma {:induction false} UnlistedTagIff(raw: string, allowed: set<string>)
    ensures var line := RStripNewlines(raw);
      UnlistedTag(raw, AllowedLower(allowed)).Some? <==>
        HasEndTag(line) && forall t :: t in allowed ==> Lower(t) != Lower(EndTag(line).value)
    ensures var line := RStripNewlines(raw); var r := UnlistedTag(raw, AllowedLower(allowed));
      r.Some? ==> OccursAt(line, r.value, EndTagSpan(line).value.0)
  {
    var line := RStripNewlines(raw);
    if HasEndTag(line) {
      UnlistedIff(EndTag(line).value, allowed);
      EndTagInLine(line);
    }
  }

  /** Each line's unlisted tag, if any, in file order. */
  function UnlistedTags(lines: seq<string>, allowedLower: set<string>): (ts: seq<Option<string>>)
    ensures |ts| == |lines|
    ensures forall i :: 0 <= i < |lines| ==> ts[i] == UnlistedTag(lines[i], allowedLower)
  {
    seq(|lines|, i requires 0 <= i < |lines| => UnlistedTag(lines[i], allowedLower))
  }

  /** The (line number, tag) pairs `process_file` returns. */
  function UnlistedEntries(lines: seq<string>, allowedLower: set<string>): seq<(nat, string)> {
    Numbered(UnlistedTags(lines, allowedLower))
  }

  /**
   * One pair per line with an unlisted end tag: each pair carries its line's tag,
   * pairs come in ascending line order, and no such line is missed.
   */
  lemma {:induction false} UnlistedEntriesExact(lines: seq<string>, allowedLower: set<string>)
    ensures var r := UnlistedEntries(lines, allowedLower); var ts := UnlistedTags(lines, allowedLower);
      forall k :: 0 <= k < |r| ==> 1 <= r[k].0 <= |lines| && ts[r[k].0 - 1] == Some(r[k].1)
    ensures var r := UnlistedEntries(lines, allowedLower);
      forall k, k' :: 0 <= k < k' < |r| ==> r[k].0 < r[k'].0
    ensures var r := UnlistedEntries(lines, allowedLower); var ts := UnlistedTags(lines, allowedLower);
      forall i :: 0 <= i < |lines| && ts[i].Some? ==> exists k :: 0 <= k < |r| && r[k] == (i + 1, ts[i].value)
  {
    var ts := UnlistedTags(lines, allowedLower);
    NumberedSound(ts);
    NumberedAscending(ts);
    NumberedComplete(ts);
  }

  /** `process_file`: one pass over the lines, collecting the unlisted end tags. */
  method ScanUnlisted(lines: seq<string>, allowedLower: set<string>) returns (unlisted: seq<(nat, string)>)
    ensures unlisted == UnlistedEntries(lines, allowedLower)
  {
    unlisted := [];
    var i := 0;
    while i < |lines|
      invariant 0 <= i <= |lines|
      invariant unlisted == Numbered(UnlistedTags(lines, allowedLower)[..i])
    {
      NumberedTake(UnlistedTags(lines, allowedLower), i);
      var line := RStripNewlines(lines[i]);
      var tag := EndTag(line);
      if tag.Some? && IsUnlisted(tag.value, allowedLower) {
        unlisted := unlisted + [(i + 1, tag.value)];
      }
      i := i + 1;
    }
    assert UnlistedTags(lines, allowedLower)[..i] == UnlistedTags(lines, allowedLower);
  }
}
