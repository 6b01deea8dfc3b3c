/**
 * remove_start_tags.py: removes "silent" tags (ones that produce no audio) from the
 * start of script lines. Each line is tried against every entry of `SILENT_TAGS`
 * in list order, with three anchored patterns per entry: after the line number,
 * at the very start, and after a `Label:`. Every removal is appended to a log that
 * is kept across files and written out at the end.
 */
module RemoveStartTags {
  import opened Wrappers
  import opened Text
  import opened Tags
  import opened Lines

  /** `SILENT_TAGS`, in the order the script tries them. */
  const SilentTags: seq<string> := [
    "nodding", "shaking head", "leaning forward", "stiffening", "shifting uncomfortably",
    "wiping eyes", "shakily standing", "adjusting equipment quietly", "stepping back quickly",
    "lowering phone slowly", "pressing play", "staring at the half-built set", "withdrawing",
    "grinning", "recognition dawning",
    "pause", "long pause", "short pause", "thoughtful pause"
  ]

  /** A character of a silent tag: a lower-case letter, a space or a hyphen. */
  predicate TagChar(c: char) {
    'a' <= c <= 'z' || c == ' ' || c == '-'
  }

  /** The shape of every silent tag: non-empty, with no ']', ':', newline, quote or upper case. */
  predicate PlainTag(t: string) {
    |t| > 0 && forall i :: 0 <= i < |t| ==> TagChar(t[i])
  }

  lemma {:induction false} SilentTagsPlainA()
    ensures forall k :: 0 <= k < 4 ==> PlainTag(SilentTags[k])
  {
    assert PlainTag(SilentTags[0]) by { assert SilentTags[0] == "nodding"; }
    assert PlainTag(SilentTags[1]) by { assert SilentTags[1] == "shaking head"; }
    assert PlainTag(SilentTags[2]) by { assert SilentTags[2] == "leaning forward"; }
    assert PlainTag(SilentTags[3]) by { assert SilentTags[3] == "stiffening"; }
  }

  lemma {:induction false} SilentTagsPlainB()
    ensures forall k :: 4 <= k < 6 ==> PlainTag(SilentTags[k])
  {
    assert PlainTag(SilentTags[4]) by { assert SilentTags[4] == "shifting uncomfortably"; }
    assert PlainTag(SilentTags[5]) by { assert SilentTags[5] == "wiping eyes"; }
  }

  lemma {:induction false} SilentTagsPlainB2()
    ensures forall k :: 6 <= k < 8 ==> PlainTag(SilentTags[k])
  {
    assert PlainTag(SilentTags[6]) by { assert SilentTags[6] == "shakily standing"; }
    assert PlainTag(SilentTags[7]) by { assert SilentTags[7] == "adjusting equipment quietly"; }
  }

  lemma {:induction false} SilentTagsPlainC()
    ensures forall k :: 8 <= k < 10 ==> PlainTag(SilentTags[k])
  {
    assert PlainTag(SilentTags[8]) by { assert SilentTags[8] == "stepping back quickly"; }
    assert PlainTag(SilentTags[9]) by { assert SilentTags[9] == "lowering phone slowly"; }
  }

  lemma {:induction false} SilentTagsPlainC2()
    ensures forall k :: 10 <= k < 12 ==> PlainTag(SilentTags[k])
  {
    assert PlainTag(SilentTags[10]) by { assert SilentTags[10] == "pressing play"; }
    assert PlainTag(SilentTags[11]) by { assert SilentTags[11] == "staring at the half-built set"; }
  }

  lemma {:induction false} SilentTagsPlainD()
    ensures forall k :: 12 <= k < 16 ==> PlainTag(SilentTags[k])
  {
    assert PlainTag(SilentTags[12]) by { assert SilentTags[12] == "withdrawing"; }
    assert PlainTag(SilentTags[13]) by { assert SilentTags[13] == "grinning"; }
    assert PlainTag(SilentTags[14]) by { assert SilentTags[14] == "recognition dawning"; }
    assert PlainTag(SilentTags[15]) by { assert SilentTags[15] == "pause"; }
  }

  lemma {:induction false} SilentTagsPlainE()
    ensures forall k :: 16 <= k < 19 ==> PlainTag(SilentTags[k])
  {
    assert PlainTag(SilentTags[16]) by { assert SilentTags[16] == "long pause"; }
    assert PlainTag(SilentTags[17]) by { assert SilentTags[17] == "short pause"; }
    assert PlainTag(SilentTags[18]) by { assert SilentTags[18] == "thoughtful pause"; }
  }

  lemma {:induction false} SilentTagsPlain()
    ensures |SilentTags| == 19
    ensures forall k :: 0 <= k < |SilentTags| ==> PlainTag(SilentTags[k])
  {
    SilentTagsPlainA();
    SilentTagsPlainB();
    SilentTagsPlainB2();
    SilentTagsPlainC();
    SilentTagsPlainC2();
    SilentTagsPlainD();
    SilentTagsPlainE();
  }

  /** No entry of `SILENT_TAGS` is listed twice. */
  lemma {:induction false} SilentTagsDistinct()
    ensures forall k, k' :: 0 <= k < k' < |SilentTags| ==> SilentTags[k] != SilentTags[k']
  {
  }

  /** `[tag]`, the text `\[{re.escape(tag)}\]` matches. */
  function Bracketed(tag: string): string {
    "[" + tag + "]"
  }

  /** A pattern's match: the dialogue number it captured (pattern 1 only) and the rewritten line. */
  datatype Hit = Hit(dialogue: Option<string>, rewritten: string)

  /** Slices of a line without a newline have none either. */
  lemma {:induction false} NoNewlineSlices(line: string, i: nat)
    requires '\n' !in line && i <= |line|
    ensures '\n' !in line[..i] && '\n' !in line[i..]
  {
    assert forall k :: 0 <= k < i ==> line[..i][k] == line[k];
    assert forall k :: 0 <= k < |line| - i ==> line[i..][k] == line[i + k];
  }

  /** `re.sub(r'^(\d+)\.\s*\[tag\]\s*', r'\1. ', line)` when it matches: the number is kept, followed by `. `. */
  function NumberedHit(line: string, tag: string): (r: Option<Hit>)
    ensures r.Some? ==> r.value.dialogue == LeadingNumber(line) && LeadingNumber(line).Some?
    ensures r.Some? ==> StartsWith(r.value.rewritten, LeadingNumber(line).value + ". ")
    ensures r.Some? ==> |r.value.rewritten| + |tag| + 1 <= |line|
    ensures r.Some? && '\n' !in line ==> '\n' !in r.value.rewritten
  {
    match LeadingNumber(line)
    case None => None
    case Some(d) =>
      var w := |d| + 1 + SpaceRun(line, |d| + 1);
      if OccursAt(line, Bracketed(tag), w) then
        var e := w + |tag| + 2;
        var rest := line[e + SpaceRun(line, e)..];
        var rw := d + ". " + rest;
        assert rw[..|d| + 2] == d + ". ";
        assert '\n' !in line ==> '\n' !in rw by {
          if '\n' !in line {
            NoNewlineSlices(line, |d|);
            NoNewlineSlices(line, e + SpaceRun(line, e));
            assert d == line[..|d|];
          }
        }
        Some(Hit(Some(d), rw))
      else None
  }

  /** `re.sub(r'^\[tag\]\s*', '', line)` when it matches: the tag and the whitespace after it go. */
  function LeadingHit(line: string, tag: string): (r: Option<Hit>)
    ensures r.Some? <==> StartsWith(line, Bracketed(tag))
    ensures r.Some? ==> r.value.dialogue == None && EndsWith(line, r.value.rewritten)
    ensures r.Some? ==> r.value.rewritten == [] || !IsSpace(r.value.rewritten[0])
    ensures r.Some? ==> |r.value.rewritten| + |tag| + 2 <= |line|
  {
    if StartsWith(line, Bracketed(tag)) then
      var e := |tag| + 2;
      var rw := line[e + SpaceRun(line, e)..];
      Some(Hit(None, rw))
    else None
  }

  /**
   * `re.sub(r'^([^:\n]+:\s*)\[tag\]\s*', r'\1', line)` when it matches: the label is
   * the non-empty text before the first ':' (with no newline in it), and it is kept
   * together with the ':'.
   */
  function LabelHit(line: string, tag: string): (r: Option<Hit>)
    ensures r.Some? ==> r.value.dialogue == None
    ensures r.Some? ==> 0 < IndexOf(line, ':', 0) < |line|
    ensures r.Some? ==> StartsWith(r.value.rewritten, line[..IndexOf(line, ':', 0) + 1])
    ensures r.Some? ==> |r.value.rewritten| + |tag| + 2 <= |line|
    ensures r.Some? && '\n' !in line ==> '\n' !in r.value.rewritten
  {
    var c := IndexOf(line, ':', 0);
    if 0 < c < |line| && IndexOf(line, '\n', 0) > c then
      var r := AfterLabel(line, tag, c + 1 + SpaceRun(line, c + 1));
      assert r.Some? ==> StartsWith(r.value.rewritten, line[..c + 1]) by {
        if r.Some? {
          assert r.value.rewritten[..c + 1] == line[..c + 1];
        }
      }
      r
    else None
  }

  /** The part of pattern 3 after the label, its ':' and the whitespace up to `w`: `[tag]` and the whitespace after it go. */
  function AfterLabel(line: string, tag: string, w: nat): (r: Option<Hit>)
    requires w <= |line|
    ensures r.Some? <==> OccursAt(line, Bracketed(tag), w)
    ensures r.Some? ==> r.value.dialogue == None && StartsWith(r.value.rewritten, line[..w])
    ensures r.Some? ==> |r.value.rewritten| + |tag| + 2 <= |line|
    ensures r.Some? && '\n' !in line ==> '\n' !in r.value.rewritten
  {
    if OccursAt(line, Bracketed(tag), w) then
      var e := w + |tag| + 2;
      var rw := line[..w] + line[e + SpaceRun(line, e)..];
      assert rw[..w] == line[..w];
      assert '\n' !in line ==> '\n' !in rw by {
        if '\n' !in line {
          NoNewlineSlices(line, w);
          NoNewlineSlices(line, e + SpaceRun(line, e));
        }
      }
      Some(Hit(None, rw))
    else None
  }

  /** The three patterns for one tag, in the order the script tries them; the first match wins. */
  function TagHit(line: string, tag: string): Option<Hit> {
    if NumberedHit(line, tag).Some? then NumberedHit(line, tag)
    else if LeadingHit(line, tag).Some? then LeadingHit(line, tag)
    else LabelHit(line, tag)
  }

  /** `continue` after a match: the later patterns for the same tag are not tried. */
  lemma {:induction false} TagHitOrder(line: string, tag: string)
    ensures NumberedHit(line, tag).Some? ==> TagHit(line, tag) == NumberedHit(line, tag)
    ensures NumberedHit(line, tag).None? && LeadingHit(line, tag).Some? ==> TagHit(line, tag) == LeadingHit(line, tag)
    ensures NumberedHit(line, tag).None? && LeadingHit(line, tag).None? ==> TagHit(line, tag) == LabelHit(line, tag)
  {
  }

  /** One logged removal from a line: the captured dialogue number and the tag entry. */
  datatype Removal = Removal(dialogue: Option<string>, tag: string)

  /** What trying one tag does: the first pattern that matches rewrites the line and is logged. */
  function CleanStep(st: (string, seq<Removal>), tag: string): (r: (string, seq<Removal>))
    ensures r == st || (|r.0| < |st.0| && |r.1| == |st.1| + 1)
  {
    match TagHit(st.0, tag)
    case Some(h) => (h.rewritten, st.1 + [Removal(h.dialogue, tag)])
    case None => st
  }

  /**
   * The inner loop over the tag list: the line after trying `tags` in order, each
   * on the line the previous ones left, with the removals made.
   */
  function CleanLine(line: string, tags: seq<string>): (string, seq<Removal>)
    decreases |tags|
  {
    if tags == [] then (line, [])
    else CleanStep(CleanLine(line, tags[..|tags| - 1]), tags[|tags| - 1])
  }

  lemma {:induction false} CleanLineStep(line: string, tags: seq<string>, j: nat)
    requires j < |tags|
    ensures CleanLine(line, tags[..j + 1]) == CleanStep(CleanLine(line, tags[..j]), tags[j])
  {
    assert tags[..j + 1][..j] == tags[..j];
  }

  /**
   * Every removal shortens the line, so a line that lost no tag is unchanged, one
   * that lost a tag is different, and a line without a newline never gains one.
   */
  lemma {:induction false} CleanLineShrinks(line: string, tags: seq<string>)
    ensures var r := CleanLine(line, tags); |r.0| + |r.1| <= |line|
    ensures var r := CleanLine(line, tags); r.1 == [] <==> r.0 == line
    ensures '\n' !in line ==> '\n' !in CleanLine(line, tags).0
    decreases |tags|
  {
    if tags != [] {
      var prior := CleanLine(line, tags[..|tags| - 1]);
      CleanLineShrinks(line, tags[..|tags| - 1]);
      var h := TagHit(prior.0, tags[|tags| - 1]);
      if h.Some? {
        TagHitOrder(prior.0, tags[|tags| - 1]);
      }
    }
  }

  /** Each line of the text after the inner loop. */
  function CleanedLines(lines: seq<string>, tags: seq<string>): (r: seq<string>)
    ensures |r| == |lines|
    ensures forall i :: 0 <= i < |lines| ==> r[i] == CleanLine(lines[i], tags).0
  {
    seq(|lines|, i requires 0 <= i < |lines| => CleanLine(lines[i], tags).0)
  }

  /** `remove_silent_tags_at_start`'s result: split at '\n', clean each line, join with '\n'. */
  function CleanText(text: string, tags: seq<string>): string {
    Join(CleanedLines(Split(text, '\n'), tags), '\n')
  }

  /** An entry of `removed_log`. */
  datatype Entry = Entry(dialogue: Option<string>, fileLine: nat, path: string, tag: string, original: string)

  /** The log entries of one line's removals, in the order they were made. */
  function ToEntries(rs: seq<Removal>, fileLine: nat, path: string, original: string): (r: seq<Entry>)
    ensures |r| == |rs|
    decreases |rs|
  {
    if rs == [] then []
    else
      var x := rs[|rs| - 1];
      ToEntries(rs[..|rs| - 1], fileLine, path, original) + [Entry(x.dialogue, fileLine, path, x.tag, original)]
  }

  lemma {:induction false} ToEntriesSnoc(rs: seq<Removal>, x: Removal, fileLine: nat, path: string, original: string)
    ensures ToEntries(rs + [x], fileLine, path, original) ==
      ToEntries(rs, fileLine, path, original) + [Entry(x.dialogue, fileLine, path, x.tag, original)]
  {
    assert (rs + [x])[..|rs|] == rs;
  }

  lemma {:induction false} CleanStepEntries(st: (string, seq<Removal>), tag: string, fileLine: nat, path: string, original: string)
    ensures var h := TagHit(st.0, tag);
      ToEntries(CleanStep(st, tag).1, fileLine, path, original) ==
        ToEntries(st.1, fileLine, path, original) + (if h.Some? then [Entry(h.value.dialogue, fileLine, path, tag, original)] else [])
  {
    var h := TagHit(st.0, tag);
    if h.Some? {
      ToEntriesSnoc(st.1, Removal(h.value.dialogue, tag), fileLine, path, original);
    }
  }

  /** The log entries of each line of a text, with 1-based line numbers and the stripped original line. */
  function LineEntries(lines: seq<string>, path: string, tags: seq<string>): (r: seq<seq<Entry>>)
    ensures |r| == |lines|
  {
    seq(|lines|, i requires 0 <= i < |lines| => LineLog(lines[i], i + 1, path, tags))
  }

  /** The entries at index `i` are those of line `i + 1`. */
  lemma {:induction false} LineEntriesAt(lines: seq<string>, path: string, tags: seq<string>, i: nat)
    requires i < |lines|
    ensures LineEntries(lines, path, tags)[i] == LineLog(lines[i], i + 1, path, tags)
  {
  }

  /** The entries logged for one line: its removals, with the line number and the stripped original line. */
  function LineLog(line: string, fileLine: nat, path: string, tags: seq<string>): seq<Entry> {
    ToEntries(CleanLine(line, tags).1, fileLine, path, Strip(line))
  }

  /** What processing a text appends to `removed_log`. */
  function TextEntries(lines: seq<string>, path: string, tags: seq<string>): seq<Entry> {
    Flatten(LineEntries(lines, path, tags))
  }

  // ---------------------------------------------------------------------------
  // What one pattern does to a line of the expected shape

  /** A line that starts with '[' has no leading number, so pattern 1 never applies to it. */
  lemma {:induction false} BracketUnnumbered(line: string, tag: string)
    requires line != [] && line[0] == '['
    ensures NumberedHit(line, tag) == None
  {
    assert DigitRun(line, 0) == 0;
  }

  /** `\s*` at `i` consumes exactly the whitespace `sp` in front of a `tail` that does not start with whitespace. */
  lemma {:induction false} SpacesThen(s: string, i: nat, sp: string, tail: string)
    requires i <= |s| && s[i..] == sp + tail && AllSpace(sp)
    requires tail == [] || !IsSpace(tail[0])
    ensures i + |sp| <= |s| && SpaceRun(s, i) == |sp| && s[i + |sp|..] == tail
  {
    assert forall k :: i <= k < i + |sp| ==> s[k] == s[i..][k - i];
    if i + |sp| < |s| {
      assert s[i + |sp|] == s[i..][|sp|];
    }
    SpaceRunExact(s, i, |sp|);
    assert s[i + |sp|..] == s[i..][|sp|..];
  }

  /** `\[tag\]\s*` at `w` matches `[tag]` and the whitespace `sp` after it, leaving `rest`. */
  lemma {:induction false} BracketThen(s: string, w: nat, tag: string, sp: string, rest: string)
    requires w <= |s| && s[w..] == Bracketed(tag) + sp + rest && AllSpace(sp)
    requires rest == [] || !IsSpace(rest[0])
    ensures OccursAt(s, Bracketed(tag), w)
    ensures w + |tag| + 2 <= |s| && SpaceRun(s, w + |tag| + 2) == |sp| && s[w + |tag| + 2 + |sp|..] == rest
  {
    var e := w + |tag| + 2;
    assert s[w..e] == s[w..][..|tag| + 2];
    assert s[e..] == s[w..][|tag| + 2..];
    SpacesThen(s, e, sp, rest);
  }

  /** Pattern 1 where its pieces are already located: the number, the `[tag]` and the whitespace after it. */
  lemma {:induction false} NumberedHitAt(line: string, tag: string, d: string, w: nat, e: nat)
    requires LeadingNumber(line) == Some(d) && w == |d| + 1 + SpaceRun(line, |d| + 1)
    requires OccursAt(line, Bracketed(tag), w) && e == w + |tag| + 2 + SpaceRun(line, w + |tag| + 2)
    ensures NumberedHit(line, tag) == Some(Hit(Some(d), d + ". " + line[e..]))
  {
  }

  /** Pattern 1 on `d.` + whitespace + `[tag]` + whitespace + `rest`. */
  lemma {:induction false} NumberedHitExact(d: string, gap: string, tag: string, sp: string, rest: string)
    requires |d| > 0 && AllDigits(d) && AllSpace(gap) && AllSpace(sp)
    requires rest == [] || !IsSpace(rest[0])
    ensures NumberedHit(d + "." + gap + Bracketed(tag) + sp + rest, tag) == Some(Hit(Some(d), d + ". " + rest))
  {
    var line := d + "." + gap + Bracketed(tag) + sp + rest;
    assert line[..|d| + 1] == d + ".";
    LeadingNumberExact(line, d);
    var u := Bracketed(tag) + sp + rest;
    assert line[|d| + 1..] == gap + u;
    SpacesThen(line, |d| + 1, gap, u);
    var w := |d| + 1 + |gap|;
    BracketThen(line, w, tag, sp, rest);
    NumberedHitAt(line, tag, d, w, w + |tag| + 2 + |sp|);
  }

  /** Pattern 1: `240. [pause] Hello` becomes `240. Hello` and captures dialogue number 240. */
  lemma {:induction false} NumberedRemoval(d: string, gap: string, tag: string, sp: string, rest: string)
    requires |d| > 0 && AllDigits(d) && AllSpace(gap) && AllSpace(sp)
    requires rest == [] || !IsSpace(rest[0])
    ensures TagHit(d + "." + gap + Bracketed(tag) + sp + rest, tag) == Some(Hit(Some(d), d + ". " + rest))
  {
    NumberedHitExact(d, gap, tag, sp, rest);
    TagHitOrder(d + "." + gap + Bracketed(tag) + sp + rest, tag);
  }

  /** Pattern 2 on `[tag]` + whitespace + `rest`. */
  lemma {:induction false} LeadingHitExact(tag: string, sp: string, rest: string)
    requires AllSpace(sp)
    requires rest == [] || !IsSpace(rest[0])
    ensures LeadingHit(Bracketed(tag) + sp + rest, tag) == Some(Hit(None, rest))
  {
    var line := Bracketed(tag) + sp + rest;
    assert line[0..] == line;
    BracketThen(line, 0, tag, sp, rest);
    assert line[..|tag| + 2] == line[0..|tag| + 2];
  }

  /** Pattern 2: `[pause] Hello` becomes `Hello`; no dialogue number is captured. */
  lemma {:induction false} LeadingRemoval(tag: string, sp: string, rest: string)
    requires AllSpace(sp)
    requires rest == [] || !IsSpace(rest[0])
    ensures TagHit(Bracketed(tag) + sp + rest, tag) == Some(Hit(None, rest))
  {
    var line := Bracketed(tag) + sp + rest;
    BracketUnnumbered(line, tag);
    LeadingHitExact(tag, sp, rest);
    TagHitOrder(line, tag);
  }

  /** Pattern 3 where its pieces are already located: the first ':', the `[tag]` and the whitespace after it. */
  lemma {:induction false} LabelHitAt(line: string, tag: string, c: nat, w: nat, e: nat)
    requires IndexOf(line, ':', 0) == c && 0 < c < |line| && IndexOf(line, '\n', 0) > c
    requires w == c + 1 + SpaceRun(line, c + 1)
    requires OccursAt(line, Bracketed(tag), w) && e == w + |tag| + 2 + SpaceRun(line, w + |tag| + 2)
    ensures LabelHit(line, tag) == Some(Hit(None, line[..w] + line[e..]))
  {
    assert LabelHit(line, tag) == AfterLabel(line, tag, w) by {
      LabelHitColon(line, tag, c);
    }
    assert AfterLabel(line, tag, w) == Some(Hit(None, line[..w] + line[e..])) by {
      AfterLabelAt(line, tag, w, e);
    }
  }

  /** Pattern 3 on a line whose first ':' is at `c`, before any newline, goes on after the whitespace that follows it. */
  lemma {:induction false} LabelHitColon(line: string, tag: string, c: nat)
    requires IndexOf(line, ':', 0) == c && 0 < c < |line| && IndexOf(line, '\n', 0) > c
    ensures LabelHit(line, tag) == AfterLabel(line, tag, c + 1 + SpaceRun(line, c + 1))
  {
    LabelHitUnfold(line, tag);
  }

  /** Pattern 3 locates the first ':' and goes on after it only when no newline comes first. */
  lemma {:induction false} LabelHitUnfold(line: string, tag: string)
    ensures LabelHit(line, tag) ==
      (var c := IndexOf(line, ':', 0);
       if 0 < c < |line| && IndexOf(line, '\n', 0) > c then AfterLabel(line, tag, c + 1 + SpaceRun(line, c + 1)) else None)
  {
  }

  /** The rest of pattern 3 where `[tag]` is at `w` and the whitespace after it ends at `e`. */
  lemma {:induction false} AfterLabelAt(line: string, tag: string, w: nat, e: nat)
    requires OccursAt(line, Bracketed(tag), w)
    requires e == w + |tag| + 2 + SpaceRun(line, w + |tag| + 2)
    ensures AfterLabel(line, tag, w) == Some(Hit(None, line[..w] + line[e..]))
  {
  }

  /** How a label line splits at its ':' and after the whitespace that follows it. */
  lemma {:induction false} LabelLayout(name: string, gap: string, tag: string, sp: string, rest: string)
    requires '\n' !in name
    ensures var line := name + ":" + gap + Bracketed(tag) + sp + rest; var u := Bracketed(tag) + sp + rest;
      line == name + (":" + gap + u) && line == (name + ":") + (gap + u) &&
      line[..|name| + 1 + |gap|] == name + ":" + gap && line[|name| + 1..] == gap + u && '\n' !in name + ":"
  {
    var u := Bracketed(tag) + sp + rest;
    var line := name + ":" + gap + Bracketed(tag) + sp + rest;
    assert line == (name + ":" + gap) + u;
    assert forall k :: 0 <= k < |name| + 1 ==> (name + ":")[k] != '\n';
  }

  /** Pattern 3 on a label, ':', whitespace, `[tag]`, whitespace and `rest`. */
  lemma {:induction false} LabelHitExact(name: string, gap: string, tag: string, sp: string, rest: string)
    requires |name| > 0 && ':' !in name && '\n' !in name
    requires AllSpace(gap) && AllSpace(sp)
    requires rest == [] || !IsSpace(rest[0])
    ensures LabelHit(name + ":" + gap + Bracketed(tag) + sp + rest, tag) == Some(Hit(None, name + ":" + gap + rest))
  {
    var line := name + ":" + gap + Bracketed(tag) + sp + rest;
    var c := |name|;
    var u := Bracketed(tag) + sp + rest;
    var w := c + 1 + |gap|;
    LabelLayout(name, gap, tag, sp, rest);
    IndexOfAfter(name, ':', ":" + gap + u);
    IndexOfAfter(name + ":", '\n', gap + u);
    SpacesThen(line, c + 1, gap, u);
    BracketThen(line, w, tag, sp, rest);
    LabelHitAt(line, tag, c, w, w + |tag| + 2 + |sp|);
  }

  /**
   * Pattern 3: `Character 1: [pause] Hello` becomes `Character 1: Hello`, for a label
   * with no ':' or newline that starts with neither a digit nor '['.
   */
  lemma {:induction false} LabelRemoval(name: string, gap: string, tag: string, sp: string, rest: string)
    requires |name| > 0 && ':' !in name && '\n' !in name && !IsDigit(name[0]) && name[0] != '['
    requires AllSpace(gap) && AllSpace(sp)
    requires rest == [] || !IsSpace(rest[0])
    ensures TagHit(name + ":" + gap + Bracketed(tag) + sp + rest, tag) == Some(Hit(None, name + ":" + gap + rest))
  {
    var line := name + ":" + gap + Bracketed(tag) + sp + rest;
    assert line[0] == name[0];
    assert DigitRun(line, 0) == 0;
    assert line[..|tag| + 2] != Bracketed(tag) by {
      assert line[..|tag| + 2][0] == name[0];
    }
    LabelHitExact(name, gap, tag, sp, rest);
    TagHitOrder(line, tag);
  }

  /** The characters a silent tag cannot hold. */
  lemma {:induction false} PlainTagChars(t: string)
    requires PlainTag(t)
    ensures ']' !in t && ':' !in t && '[' !in t && '\n' !in t
  {
    assert forall k :: 0 <= k < |t| ==> t[k] != ']' && t[k] != ':' && t[k] != '[' && t[k] != '\n';
  }

  /** `[t]` does not start with `[tag]` for a different `t`: the bracket closes at another place or the text differs. */
  lemma {:induction false} BracketsDiffer(t: string, rest: string, tag: string)
    requires PlainTag(tag) && ']' !in t && t != tag
    ensures !StartsWith(Bracketed(t) + rest, Bracketed(tag))
  {
    var line := Bracketed(t) + rest;
    var b := Bracketed(tag);
    if |b| <= |line| {
      var l := |tag|;
      if l < |t| {
        assert line[l + 1] == t[l];
        assert line[..|b|][l + 1] != b[l + 1];
      } else if l > |t| {
        assert line[|t| + 1] == ']';
        assert TagChar(tag[|t|]);
        assert line[..|b|][|t| + 1] != b[|t| + 1];
      } else {
        var k :| 0 <= k < l && t[k] != tag[k];
        assert line[..|b|][k + 1] != b[k + 1];
      }
    }
  }

  /**
   * Matching is exact: a line that starts with a bracket group `[t]` other than
   * `[tag]`, with no ':' in it, is left alone by all three patterns for `tag`.
   * So entry `pause` removes neither `[long pause]` nor `[Pause]`.
   */
  lemma {:induction false} OtherBracketNoHit(t: string, rest: string, tag: string)
    requires PlainTag(tag) && ']' !in t && ':' !in t && ':' !in rest && t != tag
    ensures TagHit(Bracketed(t) + rest, tag) == None
  {
    var line := Bracketed(t) + rest;
    BracketUnnumbered(line, tag);
    BracketsDiffer(t, rest, tag);
    assert forall k :: 0 <= k < |line| ==> line[k] != ':';
  }

  /** None of the patterns can match a line without a '['. */
  lemma {:induction false} NoBracketNoHit(line: string, tag: string)
    requires '[' !in line
    ensures TagHit(line, tag) == None
  {
    forall w: nat | w + |tag| + 2 <= |line|
      ensures !OccursAt(line, Bracketed(tag), w)
    {
      assert line[w..w + |tag| + 2][0] == line[w];
    }
    if |tag| + 2 <= |line| {
      assert line[..|tag| + 2][0] == line[0];
    }
  }

  /** Tags that do not hit the line leave it and the removals made so far as they are. */
  lemma {:induction false} NoHitsKeep(line: string, tags: seq<string>, lo: nat, hi: nat)
    requires lo <= hi <= |tags|
    requires forall k :: lo <= k < hi ==> TagHit(CleanLine(line, tags[..lo]).0, tags[k]) == None
    ensures CleanLine(line, tags[..hi]) == CleanLine(line, tags[..lo])
    decreases hi
  {
    if lo < hi {
      NoHitsKeep(line, tags, lo, hi - 1);
      CleanLineStep(line, tags, hi - 1);
    }
  }

  /** A line that starts with a bracket group listed nowhere in `tags` (and has no ':') is kept and nothing is logged. */
  lemma {:induction false} UnlistedBracketKept(t: string, rest: string, tags: seq<string>)
    requires ']' !in t && ':' !in t && ':' !in rest
    requires forall k :: 0 <= k < |tags| ==> PlainTag(tags[k]) && tags[k] != t
    ensures CleanLine(Bracketed(t) + rest, tags) == (Bracketed(t) + rest, [])
  {
    var line := Bracketed(t) + rest;
    assert tags[..0] == [];
    forall k | 0 <= k < |tags|
      ensures TagHit(CleanLine(line, tags[..0]).0, tags[k]) == None
    {
      OtherBracketNoHit(t, rest, tags[k]);
    }
    NoHitsKeep(line, tags, 0, |tags|);
    assert tags[..|tags|] == tags;
  }

  /** Once the line has no '[' left, the remaining tags change nothing. */
  lemma {:induction false} NoBracketRange(line: string, tags: seq<string>, lo: nat, hi: nat, r: string)
    requires lo <= hi <= |tags|
    requires CleanLine(line, tags[..lo]).0 == r && '[' !in r
    ensures CleanLine(line, tags[..hi]) == CleanLine(line, tags[..lo])
  {
    forall k | lo <= k < hi
      ensures TagHit(CleanLine(line, tags[..lo]).0, tags[k]) == None
    {
      NoBracketNoHit(r, tags[k]);
    }
    NoHitsKeep(line, tags, lo, hi);
  }

  /** A line with no '[' is kept as it is and logs nothing. */
  lemma {:induction false} NoBracketKept(line: string, tags: seq<string>)
    requires '[' !in line
    ensures CleanLine(line, tags) == (line, [])
  {
    CleanLineNone(line, tags);
    NoBracketRange(line, tags, 0, |tags|, line);
    assert tags[..|tags|] == tags;
  }

  /** `[Pause] ...` keeps its tag: no entry of `SILENT_TAGS` has an upper-case letter. */
  lemma {:induction false} CapitalisedTagKept(t: string, rest: string)
    requires t != [] && 'A' <= t[0] <= 'Z' && ']' !in t && ':' !in t && ':' !in rest
    ensures CleanLine(Bracketed(t) + rest, SilentTags) == (Bracketed(t) + rest, [])
  {
    SilentTagsPlain();
    forall k | 0 <= k < |SilentTags|
      ensures PlainTag(SilentTags[k]) && SilentTags[k] != t
    {
      assert TagChar(SilentTags[k][0]);
    }
    UnlistedBracketKept(t, rest, SilentTags);
  }

  /** Before any tag is tried the line is as read and nothing is logged. */
  lemma {:induction false} CleanLineNone(line: string, tags: seq<string>)
    ensures CleanLine(line, tags[..0]) == (line, [])
  {
    assert tags[..0] == [];
  }

  /**
   * While the line starts with `[t]`, no ':' in sight, the tags from `lo` to `hi`
   * that differ from `t` change nothing.
   */
  lemma {:induction false} BracketKeptRange(line: string, tags: seq<string>, lo: nat, hi: nat, t: string, rest: string)
    requires lo <= hi <= |tags|
    requires CleanLine(line, tags[..lo]).0 == Bracketed(t) + rest
    requires ']' !in t && ':' !in t && ':' !in rest
    requires forall k :: lo <= k < hi ==> PlainTag(tags[k]) && tags[k] != t
    ensures CleanLine(line, tags[..hi]) == CleanLine(line, tags[..lo])
  {
    forall k | lo <= k < hi
      ensures TagHit(CleanLine(line, tags[..lo]).0, tags[k]) == None
    {
      OtherBracketNoHit(t, rest, tags[k]);
    }
    NoHitsKeep(line, tags, lo, hi);
  }

  /** Tag `j` at the very start of the line is removed with the whitespace after it, and logged. */
  lemma {:induction false} LeadingStep(line: string, tags: seq<string>, j: nat, sp: string, rest: string, rs: seq<Removal>)
    requires j < |tags| && AllSpace(sp) && (rest == [] || !IsSpace(rest[0]))
    requires CleanLine(line, tags[..j]) == (Bracketed(tags[j]) + sp + rest, rs)
    ensures CleanLine(line, tags[..j + 1]) == (rest, rs + [Removal(None, tags[j])])
  {
    CleanLineStep(line, tags, j);
    LeadingRemoval(tags[j], sp, rest);
  }

  /**
   * A line `[a]` + whitespace + `after`, where `after` starts with '[' and has no ':',
   * keeps its text until `a`'s turn, then loses `[a]` and the whitespace.
   */
  lemma {:induction false} FirstTagRemoved(tags: seq<string>, j: nat, sp: string, after: string)
    requires j < |tags| && PlainTag(tags[j])
    requires forall k :: 0 <= k < j ==> PlainTag(tags[k]) && tags[k] != tags[j]
    requires AllSpace(sp) && after != [] && after[0] == '[' && ':' !in after
    ensures CleanLine(Bracketed(tags[j]) + sp + after, tags[..j + 1]) == (after, [Removal(None, tags[j])])
  {
    var a := tags[j];
    var line := Bracketed(a) + sp + after;
    assert line == Bracketed(a) + (sp + after);
    PlainTagChars(a);
    assert forall k :: 0 <= k < |sp| ==> IsSpace(sp[k]);
    assert forall k :: 0 <= k < |sp + after| ==> (sp + after)[k] != ':';
    CleanLineNone(line, tags);
    BracketKeptRange(line, tags, 0, j, a, sp + after);
    LeadingStep(line, tags, j, sp, after, []);
    assert [] + [Removal(None, a)] == [Removal(None, a)];
  }

  /**
   * Stacked tags out of list order: in `[a] [b]rest` with `b` listed before `a`,
   * `b` is tried while `[a]` still hides it, so only `[a]` is removed and the line
   * keeps `[b]` at its start.
   */
  lemma {:induction false} OutOfOrderSurvives(tags: seq<string>, i: nat, j: nat, rest: string)
    requires i < j < |tags|
    requires forall k :: 0 <= k < |tags| ==> PlainTag(tags[k])
    requires forall k, k' :: 0 <= k < k' < |tags| ==> tags[k] != tags[k']
    requires ':' !in rest
    ensures CleanLine(Bracketed(tags[j]) + " " + Bracketed(tags[i]) + rest, tags) ==
      (Bracketed(tags[i]) + rest, [Removal(None, tags[j])])
  {
    OutOfOrderKept(tags, i, j, rest);
  }

  /** `OutOfOrderSurvives`, given only the facts about the tags its proof uses. */
  lemma {:induction false} OutOfOrderKept(tags: seq<string>, i: nat, j: nat, rest: string)
    requires i < j < |tags| && PlainTag(tags[i]) && PlainTag(tags[j])
    requires forall k :: 0 <= k < j ==> PlainTag(tags[k]) && tags[k] != tags[j]
    requires forall k :: j < k < |tags| ==> PlainTag(tags[k]) && tags[k] != tags[i]
    requires ':' !in rest
    ensures CleanLine(Bracketed(tags[j]) + " " + Bracketed(tags[i]) + rest, tags) ==
      (Bracketed(tags[i]) + rest, [Removal(None, tags[j])])
  {
    var a, b := tags[j], tags[i];
    var after := Bracketed(b) + rest;
    var line := Bracketed(a) + " " + after;
    assert CleanLine(line, tags[..j + 1]) == (after, [Removal(None, a)]) by {
      BracketedNoColon(b, rest);
      FirstTagRemoved(tags, j, " ", after);
    }
    assert CleanLine(line, tags) == CleanLine(line, tags[..j + 1]) by {
      BracketedNoColon(b, rest);
      BracketKeptRange(line, tags, j + 1, |tags|, b, rest);
      assert tags[..|tags|] == tags;
    }
    assert line == Bracketed(a) + " " + Bracketed(b) + rest by {
      AppendAssoc(Bracketed(a) + " ", Bracketed(b), rest);
    }
  }

  /** A silent tag in brackets before text without ':' brings no ':'. */
  lemma {:induction false} BracketedNoColon(t: string, rest: string)
    requires PlainTag(t) && ':' !in rest
    ensures ']' !in t && ':' !in t && ':' !in Bracketed(t) + rest
  {
    PlainTagChars(t);
    var s := Bracketed(t) + rest;
    assert forall k :: 0 <= k < |s| ==> s[k] != ':';
  }

  /** Stacked tags in list order all go: with `a` listed before `b`, `[a] [b]rest` becomes `rest`. */
  lemma {:induction false} InOrderRemoved(tags: seq<string>, i: nat, j: nat, rest: string)
    requires i < j < |tags|
    requires forall k :: 0 <= k < |tags| ==> PlainTag(tags[k])
    requires forall k, k' :: 0 <= k < k' < |tags| ==> tags[k] != tags[k']
    requires ':' !in rest && '[' !in rest
    requires rest == [] || !IsSpace(rest[0])
    ensures CleanLine(Bracketed(tags[i]) + " " + Bracketed(tags[j]) + rest, tags) ==
      (rest, [Removal(None, tags[i]), Removal(None, tags[j])])
  {
    InOrderGone(tags, i, j, rest);
  }

  /** `InOrderRemoved`, given only the facts about the tags its proof uses. */
  lemma {:induction false} InOrderGone(tags: seq<string>, i: nat, j: nat, rest: string)
    requires i < j < |tags| && PlainTag(tags[i]) && PlainTag(tags[j])
    requires forall k :: 0 <= k < i ==> PlainTag(tags[k]) && tags[k] != tags[i]
    requires forall k :: i < k < j ==> PlainTag(tags[k]) && tags[k] != tags[j]
    requires ':' !in rest && '[' !in rest
    requires rest == [] || !IsSpace(rest[0])
    ensures CleanLine(Bracketed(tags[i]) + " " + Bracketed(tags[j]) + rest, tags) ==
      (rest, [Removal(None, tags[i]), Removal(None, tags[j])])
  {
    var a, b := tags[i], tags[j];
    var mid := Bracketed(b) + rest;
    var line := Bracketed(a) + " " + mid;
    BracketedNoColon(b, rest);
    assert CleanLine(line, tags[..i + 1]) == (mid, [Removal(None, a)]) by {
      FirstTagRemoved(tags, i, " ", mid);
    }
    assert CleanLine(line, tags[..j]) == (mid, [Removal(None, a)]) by {
      BracketKeptRange(line, tags, i + 1, j, b, rest);
    }
    assert CleanLine(line, tags[..|tags|]) == (rest, [Removal(None, a)] + [Removal(None, b)]) by {
      InOrderTail(line, tags, j, rest, [Removal(None, a)]);
    }
    assert line == Bracketed(a) + " " + Bracketed(b) + rest by {
      AppendAssoc(Bracketed(a) + " ", Bracketed(b), rest);
    }
    assert [Removal(None, a)] + [Removal(None, b)] == [Removal(None, a), Removal(None, b)];
    assert tags[..|tags|] == tags;
  }

  /** The last of a stack of tags goes at its turn, and nothing bracketed is left for the later tags. */
  lemma {:induction false} InOrderTail(line: string, tags: seq<string>, j: nat, rest: string, rs: seq<Removal>)
    requires j < |tags| && '[' !in rest && (rest == [] || !IsSpace(rest[0]))
    requires CleanLine(line, tags[..j]) == (Bracketed(tags[j]) + rest, rs)
    ensures CleanLine(line, tags[..|tags|]) == (rest, rs + [Removal(None, tags[j])])
  {
    assert Bracketed(tags[j]) + rest == Bracketed(tags[j]) + "" + rest;
    LeadingStep(line, tags, j, "", rest, rs);
    NoBracketRange(line, tags, j + 1, |tags|, rest);
  }

  // ---------------------------------------------------------------------------
  // Whole texts

  /** Cleaning keeps the lines: as many as before, in order, each the cleaned original. */
  lemma {:induction false} CleanTextLines(text: string, tags: seq<string>)
    ensures Split(CleanText(text, tags), '\n') == CleanedLines(Split(text, '\n'), tags)
  {
    var lines := Split(text, '\n');
    var cl := CleanedLines(lines, tags);
    forall i | 0 <= i < |cl|
      ensures '\n' !in cl[i]
    {
      CleanLineShrinks(lines[i], tags);
    }
    SplitJoin(cl, '\n');
  }

  /** The lines come out unchanged exactly when nothing was logged for them. */
  lemma {:induction false} UnchangedIffNothingLogged(lines: seq<string>, path: string, tags: seq<string>)
    ensures CleanedLines(lines, tags) == lines <==> TextEntries(lines, path, tags) == []
  {
    var cl := CleanedLines(lines, tags);
    var es := LineEntries(lines, path, tags);
    FlattenEmpty(es);
    forall i | 0 <= i < |lines|
      ensures es[i] == [] <==> cl[i] == lines[i]
    {
      LineEntriesAt(lines, path, tags, i);
      CleanLineShrinks(lines[i], tags);
    }
    if cl != lines {
      var i :| 0 <= i < |lines| && cl[i] != lines[i];
      assert es[i] != [];
    }
  }

  /** The text comes out unchanged exactly when each of its lines does. */
  lemma {:induction false} TextUnchangedIff(text: string, tags: seq<string>)
    ensures CleanText(text, tags) == text <==> CleanedLines(Split(text, '\n'), tags) == Split(text, '\n')
  {
    CleanTextLines(text, tags);
    JoinSplit(text, '\n');
  }

  /** `process_file` writes the file back exactly when some tag was removed from it and logged. */
  lemma {:induction false} WrittenIffLogged(text: string, path: string, tags: seq<string>)
    ensures CleanText(text, tags) != text <==> TextEntries(Split(text, '\n'), path, tags) != []
  {
    TextUnchangedIff(text, tags);
    UnchangedIffNothingLogged(Split(text, '\n'), path, tags);
  }

  /** A line whose first character is not '[' or a digit, and which has no ':', is kept and logs nothing. */
  lemma {:induction false} PlainLineKept(line: string, tags: seq<string>)
    requires line == [] || (line[0] != '[' && !IsDigit(line[0]))
    requires ':' !in line
    ensures CleanLine(line, tags) == (line, [])
  {
    forall k | 0 <= k < |tags|
      ensures TagHit(CleanLine(line, tags[..0]).0, tags[k]) == None
    {
      CleanLineNone(line, tags);
      var tag := tags[k];
      if line != [] {
        assert DigitRun(line, 0) == 0;
        assert |Bracketed(tag)| <= |line| ==> line[..|Bracketed(tag)|][0] != Bracketed(tag)[0];
      }
    }
    CleanLineNone(line, tags);
    NoHitsKeep(line, tags, 0, |tags|);
    assert tags[..|tags|] == tags;
  }

  /** A captured dialogue number is the line's non-empty leading digit string. */
  predicate DigitsOrNone(d: Option<string>) {
    d.Some? ==> |d.value| > 0 && AllDigits(d.value)
  }

  /** Every removal logged for a line carries either no dialogue number or a non-empty digit string. */
  lemma {:induction false} CleanLineDialogues(line: string, tags: seq<string>)
    ensures forall k :: 0 <= k < |CleanLine(line, tags).1| ==> DigitsOrNone(CleanLine(line, tags).1[k].dialogue)
    decreases |tags|
  {
    if tags != [] {
      var prior := CleanLine(line, tags[..|tags| - 1]);
      CleanLineDialogues(line, tags[..|tags| - 1]);
      var tag := tags[|tags| - 1];
      if NumberedHit(prior.0, tag).Some? {
        TagHitOrder(prior.0, tag);
      }
    }
  }

  /** The three patterns for one tag, tried in order until one matches. */
  method MatchTag(line: string, tag: string) returns (hit: Option<Hit>)
    ensures hit == TagHit(line, tag)
  {
    TagHitOrder(line, tag);
    hit := NumberedHit(line, tag);
    if hit.None? {
      hit := LeadingHit(line, tag);
    }
    if hit.None? {
      hit := LabelHit(line, tag);
    }
  }

  /** The inner loop for the line at `fileLine`: the cleaned line and the entries it logs. */
  method CleanLogged(originalLine: string, fileLine: nat, filepath: string, tags: seq<string>)
    returns (line: string, entries: seq<Entry>)
    ensures line == CleanLine(originalLine, tags).0
    ensures entries == ToEntries(CleanLine(originalLine, tags).1, fileLine, filepath, Strip(originalLine))
  {
    var original := Strip(originalLine);
    line := originalLine;
    entries := [];
    for j := 0 to |tags|
      invariant line == CleanLine(originalLine, tags[..j]).0
      invariant entries == ToEntries(CleanLine(originalLine, tags[..j]).1, fileLine, filepath, original)
    {
      var tag := tags[j];
      var hit := MatchTag(line, tag);
      CleanLoggedStep(originalLine, tags, j, fileLine, filepath);
      if hit.Some? {
        line := hit.value.rewritten;
        entries := entries + [Entry(hit.value.dialogue, fileLine, filepath, tag, original)];
      }
    }
    assert tags[..|tags|] == tags;
  }

  /** One more tag: the line its hit leaves (or the line as it was), and its entry after the earlier ones. */
  lemma {:induction false} CleanLoggedStep(line: string, tags: seq<string>, j: nat, fileLine: nat, path: string)
    requires j < |tags|
    ensures var st := CleanLine(line, tags[..j]); var h := TagHit(st.0, tags[j]);
      CleanLine(line, tags[..j + 1]).0 == (if h.Some? then h.value.rewritten else st.0) &&
      ToEntries(CleanLine(line, tags[..j + 1]).1, fileLine, path, Strip(line)) ==
        ToEntries(st.1, fileLine, path, Strip(line)) + (if h.Some? then [Entry(h.value.dialogue, fileLine, path, tags[j], Strip(line))] else [])
  {
    var st := CleanLine(line, tags[..j]);
    assert CleanLine(line, tags[..j + 1]) == CleanStep(st, tags[j]) by {
      CleanLineStep(line, tags, j);
    }
    CleanStepEntries(st, tags[j], fileLine, path, Strip(line));
  }

  /** One more line adds its cleaned line and its entries after the earlier ones. */
  lemma {:induction false} CleanLinesStep(lines: seq<string>, filepath: string, tags: seq<string>, i: nat)
    requires i < |lines|
    ensures CleanedLines(lines, tags)[..i + 1] == CleanedLines(lines, tags)[..i] + [CleanLine(lines[i], tags).0]
    ensures TextEntries(lines[..i + 1], filepath, tags) ==
      TextEntries(lines[..i], filepath, tags) + ToEntries(CleanLine(lines[i], tags).1, i + 1, filepath, Strip(lines[i]))
  {
    TakeSnoc(CleanedLines(lines, tags), i);
    var es := LineEntries(lines, filepath, tags);
    LineEntriesAt(lines, filepath, tags, i);
    assert Flatten(es[..i + 1]) == Flatten(es[..i]) + es[i] by {
      FlattenSnoc(es, i);
    }
    assert LineEntries(lines[..i + 1], filepath, tags) == es[..i + 1] by {
      LineEntriesPrefix(lines, filepath, tags, i + 1);
    }
    assert LineEntries(lines[..i], filepath, tags) == es[..i] by {
      LineEntriesPrefix(lines, filepath, tags, i);
    }
  }

  /** The entries of the first `n` lines are the first `n` lines' entries. */
  lemma {:induction false} LineEntriesPrefix(lines: seq<string>, path: string, tags: seq<string>, n: nat)
    requires n <= |lines|
    ensures LineEntries(lines[..n], path, tags) == LineEntries(lines, path, tags)[..n]
  {
    var a, b := LineEntries(lines[..n], path, tags), LineEntries(lines, path, tags)[..n];
    forall k | 0 <= k < n
      ensures a[k] == b[k]
    {
      assert lines[..n][k] == lines[k];
      LineEntriesAt(lines[..n], path, tags, k);
      LineEntriesAt(lines, path, tags, k);
    }
  }

  /** The outer loop of `remove_silent_tags_at_start`: each line cleaned, and the entries logged for the text. */
  method CleanLines(lines: seq<string>, filepath: string, tags: seq<string>)
    returns (newLines: seq<string>, entries: seq<Entry>)
    ensures newLines == CleanedLines(lines, tags)
    ensures entries == TextEntries(lines, filepath, tags)
  {
    newLines := [];
    entries := [];
    var i := 0;
    while i < |lines|
      invariant 0 <= i <= |lines|
      invariant newLines == CleanedLines(lines, tags)[..i]
      invariant entries == TextEntries(lines[..i], filepath, tags)
    {
      var line, logged := CleanLogged(lines[i], i + 1, filepath, tags);
      CleanLinesStep(lines, filepath, tags, i);
      entries := entries + logged;
      newLines := newLines + [line];
      i := i + 1;
    }
    assert lines[..i] == lines;
  }

  // ---------------------------------------------------------------------------
  // The log file

  /** `repr` of a silent tag inside a list: the tag between single quotes. */
  function Quoted(t: string): string {
    "'" + t + "'"
  }

  /** The items of `str(SILENT_TAGS)`, separated by `, `. */
  function ReprItems(tags: seq<string>): string
    decreases |tags|
  {
    if tags == [] then ""
    else if |tags| == 1 then Quoted(tags[0])
    else Quoted(tags[0]) + ", " + ReprItems(tags[1..])
  }

  /** The first line of an entry: `Dialogue d (file line n) in path` when there is a (non-empty) dialogue number. */
  function EntryHeading(e: Entry): (r: string)
    ensures StartsWith(r, "Dialogue ") <==> e.dialogue.Some? && e.dialogue.value != []
    ensures StartsWith(r, "File line ") <==> !(e.dialogue.Some? && e.dialogue.value != [])
  {
    if e.dialogue.Some? && e.dialogue.value != [] then
      var r := "Dialogue " + e.dialogue.value + " (file line " + NatToString(e.fileLine) + ") in " + e.path;
      assert r[..9] == "Dialogue ";
      assert r[..10][0] != "File line "[0];
      r
    else
      var r := "File line " + NatToString(e.fileLine) + " in " + e.path;
      assert r[..10] == "File line ";
      assert r[..9][0] != "Dialogue "[0];
      r
  }

  /** The four lines written for an entry: heading, tag, stripped original line, blank. */
  function EntryLines(e: Entry): seq<string> {
    [EntryHeading(e), "  Tag: " + Bracketed(e.tag), "  Original: " + e.original, ""]
  }

  /** The two comment lines and the blank line that open the log. */
  function HeaderLines(count: nat, tags: seq<string>): seq<string> {
    ["# Removed " + NatToString(count) + " silent tags from start of lines", "# Tags removed: [" + ReprItems(tags) + "]", ""]
  }

  /** The entries' lines, in log order. */
  function BodyLines(log: seq<Entry>): (r: seq<string>)
    ensures |r| == 4 * |log|
    decreases |log|
  {
    if log == [] then [] else BodyLines(log[..|log| - 1]) + EntryLines(log[|log| - 1])
  }

  /** Every line of the log file, without the newlines. */
  function LogLines(log: seq<Entry>, tags: seq<string>): seq<string> {
    HeaderLines(|log|, tags) + BodyLines(log)
  }

  /** Lines written one `write` each, every one followed by '\n'. */
  function Unlines(ls: seq<string>): (r: string)
    decreases |ls|
  {
    if ls == [] then [] else Unlines(ls[..|ls| - 1]) + ls[|ls| - 1] + "\n"
  }

  /** The log file's text. */
  function LogText(log: seq<Entry>, tags: seq<string>): string {
    Unlines(LogLines(log, tags))
  }

  /** Entry `k` of the log occupies lines `4k` to `4k + 3` of the body, in order. */
  lemma {:induction false} BodyLinesEntry(log: seq<Entry>, k: nat)
    requires k < |log|
    ensures BodyLines(log)[4 * k..4 * k + 4] == EntryLines(log[k])
    decreases |log|
  {
    var init := log[..|log| - 1];
    if k < |log| - 1 {
      BodyLinesEntry(init, k);
      assert init[k] == log[k];
      assert BodyLines(log)[4 * k..4 * k + 4] == BodyLines(init)[4 * k..4 * k + 4];
    } else {
      assert BodyLines(log)[4 * k..] == EntryLines(log[k]);
    }
  }

  /** Writing lines one after another: the text of `a + b` is the text of `a` followed by that of `b`. */
  lemma {:induction false} UnlinesAppend(a: seq<string>, b: seq<string>)
    ensures Unlines(a + b) == Unlines(a) + Unlines(b)
    decreases |b|
  {
    if b != [] {
      var b' := b[..|b| - 1];
      assert (a + b)[..|a + b| - 1] == a + b';
      UnlinesAppend(a, b');
    } else {
      assert a + b == a;
    }
  }

  /** Each line followed by '\n' is the `'\n'.join` of the lines and one empty line after them. */
  lemma {:induction false} UnlinesJoin(ls: seq<string>)
    ensures Unlines(ls) == Join(ls + [""], '\n')
    decreases |ls|
  {
    if ls == [] {
    } else {
      var init := ls[..|ls| - 1];
      var x := ls[|ls| - 1];
      UnlinesJoin(init);
      JoinSnoc(init + [""], x, '\n');
      JoinSnoc(init, x, '\n');
      JoinSnoc(init + [x], "", '\n');
      assert init + [x] == ls;
      if init == [] {
        assert Join(init + [""], '\n') == "";
        assert Unlines(ls) == x + "\n";
      } else {
        JoinSnoc(init, "", '\n');
      }
    }
  }

  lemma {:induction false} UnlinesOne(x: string)
    ensures Unlines([x]) == x + "\n"
  {
    assert [x][..0] == [];
  }

  /** The text of a line followed by more lines. */
  lemma {:induction false} UnlinesCons(x: string, ls: seq<string>)
    ensures Unlines([x] + ls) == x + "\n" + Unlines(ls)
  {
    UnlinesAppend([x], ls);
    UnlinesOne(x);
  }

  /** What the two header `write` calls put out. */
  lemma {:induction false} HeaderText(count: nat, tags: seq<string>)
    ensures Unlines(HeaderLines(count, tags)) ==
      ("# Removed " + NatToString(count) + " silent tags from start of lines\n") + (("# Tags removed: [" + ReprItems(tags) + "]\n") + "\n")
  {
    var h := HeaderLines(count, tags);
    assert h == [h[0]] + ([h[1]] + [h[2]]);
    UnlinesCons(h[0], [h[1]] + [h[2]]);
    UnlinesCons(h[1], [h[2]]);
    UnlinesOne(h[2]);
  }

  /** What the three `write` calls for one entry put out. */
  lemma {:induction false} EntryText(e: Entry)
    ensures Unlines(EntryLines(e)) ==
      (EntryHeading(e) + "\n") + (("  Tag: " + Bracketed(e.tag) + "\n") + (("  Original: " + e.original + "\n") + "\n"))
  {
    var ls := EntryLines(e);
    assert ls == [ls[0]] + ([ls[1]] + ([ls[2]] + [ls[3]]));
    UnlinesCons(ls[0], [ls[1]] + ([ls[2]] + [ls[3]]));
    UnlinesCons(ls[1], [ls[2]] + [ls[3]]);
    UnlinesCons(ls[2], [ls[3]]);
    UnlinesOne(ls[3]);
  }

  /** One more entry appends its four lines to the text written so far. */
  lemma {:induction false} LogPrefixStep(head: seq<string>, log: seq<Entry>, i: nat)
    requires i < |log|
    ensures Unlines(head + BodyLines(log[..i + 1])) == Unlines(head + BodyLines(log[..i])) + Unlines(EntryLines(log[i]))
  {
    assert log[..i + 1][..i] == log[..i];
    assert head + BodyLines(log[..i + 1]) == (head + BodyLines(log[..i])) + EntryLines(log[i]);
    UnlinesAppend(head + BodyLines(log[..i]), EntryLines(log[i]));
  }

  /** The script's state: `SILENT_TAGS` and the module-level `removed_log`, shared by every file it processes. */
  class StartTagRemover {
    const silentTags: seq<string>
    var removedLog: seq<Entry>

    constructor()
      ensures silentTags == SilentTags && removedLog == []
    {
      silentTags := SilentTags;
      removedLog := [];
    }

    /** `remove_silent_tags_at_start(text, filepath)`: clean every line and log what was removed. */
    method RemoveSilentTagsAtStart(text: string, filepath: string) returns (cleaned: string)
      modifies this
      ensures cleaned == CleanText(text, silentTags)
      ensures removedLog == old(removedLog) + TextEntries(Split(text, '\n'), filepath, silentTags)
    {
      var newLines, entries := CleanLines(Split(text, '\n'), filepath, silentTags);
      removedLog := removedLog + entries;
      cleaned := Join(newLines, '\n');
    }

    /** The loop at the end of the script that writes `removed_log` out, entry by entry. */
    method WriteLog() returns (text: string)
      ensures text == LogText(removedLog, silentTags)
    {
      var head := HeaderLines(|removedLog|, silentTags);
      text := ("# Removed " + NatToString(|removedLog|) + " silent tags from start of lines\n")
        + (("# Tags removed: [" + ReprItems(silentTags) + "]\n") + "\n");
      HeaderText(|removedLog|, silentTags);
      assert removedLog[..0] == [];
      assert head + BodyLines(removedLog[..0]) == head;
      var i := 0;
      while i < |removedLog|
        invariant 0 <= i <= |removedLog|
        invariant text == Unlines(head + BodyLines(removedLog[..i]))
      {
        var e := removedLog[i];
        var written := (EntryHeading(e) + "\n")
          + (("  Tag: " + Bracketed(e.tag) + "\n") + (("  Original: " + e.original + "\n") + "\n"));
        EntryText(e);
        text := text + written;
        LogPrefixStep(head, removedLog, i);
        i := i + 1;
      }
      assert removedLog[..i] == removedLog;
    }

    /** `process_file`: the text to write back, only when cleaning changed the content. */
    method ProcessFile(content: string, filepath: string) returns (written: Option<string>)
      modifies this
      ensures written == if CleanText(content, silentTags) != content then Some(CleanText(content, silentTags)) else None
      ensures removedLog == old(removedLog) + TextEntries(Split(content, '\n'), filepath, silentTags)
    {
      var cleaned := RemoveSilentTagsAtStart(content, filepath);
      if content != cleaned {
        written := Some(cleaned);
      } else {
        written := None;
      }
    }
  }
}
