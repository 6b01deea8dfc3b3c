/**
 * The line parsers of the header index: the inline content tag `16. [customer_support|professional]`,
 * the bare line number `16.` and the section header `# --- DIALOGUE ---`. Each of them looks at
 * the line with its surrounding whitespace stripped.
 */
module HeaderParse {
  import opened Wrappers
  import opened Text
  import opened Tags

  /** The language-mode tags: a bracket group starting with one of these is not a content type. */
  const ModeTags: set<string> := {"pure", "mix", "en"}

  /** The content types, in the order the header lists them. */
  const ContentOrder: seq<string> := ["dialogue", "general_tags", "simple_tags", "customer_support", "monologue"]

  /** Section names (upper case) and the content type each stands for. */
  const SectionToTag: map<string, string> := map[
    "DIALOGUE" := "dialogue",
    "GENERAL_TAGS" := "general_tags",
    "SIMPLE_TAGS" := "simple_tags",
    "CUSTOMER_SUPPORT" := "customer_support",
    "MONOLOGUE" := "monologue"]

  // ---------------------------------------------------------------------------
  // Inline tags

  /** A numbered line's inline tag: its line number and the text inside the brackets. */
  datatype InlineTag = InlineTag(number: nat, tag: string)

  /** `tag.split('|')[0]`: the text before the first '|'. */
  function BaseTag(tag: string): (r: string)
    ensures '|' !in r && StartsWith(tag, r)
    ensures r == tag || tag[|r|] == '|'
  {
    var k := IndexOf(tag, '|', 0);
    assert forall j :: 0 <= j < k ==> tag[..k][j] != '|';
    tag[..k]
  }

  /**
   * `parse_line_with_inline_tag`: the number and bracket contents of `^(\d+)\.\s*\[([^\]]+)\]`
   * on the stripped line, unless the part before the first '|' is a mode tag.
   */
  function ParseLineWithInlineTag(line: string): (r: Option<InlineTag>)
    ensures r.Some? ==> exists m: StartMatch :: (m.WellFormed() && StartsWith(Strip(line), m.Matched()) &&
      r.value == InlineTag(DigitsToNat(m.number), m.contents) && BaseTag(m.contents) !in ModeTags)
  {
    match StartTagMatch(Strip(line))
    case None => None
    case Some(m) => if BaseTag(m.contents) in ModeTags then None else Some(InlineTag(DigitsToNat(m.number), m.contents))
  }

  /** Whatever a line starts with, its tag is found, and it is reported exactly when it is not a mode tag. */
  lemma {:induction false} InlineTagExact(line: string, m: StartMatch)
    requires m.WellFormed() && StartsWith(Strip(line), m.Matched())
    ensures ParseLineWithInlineTag(line) ==
      if BaseTag(m.contents) in ModeTags then None else Some(InlineTag(DigitsToNat(m.number), m.contents))
  {
    StartTagMatchExact(Strip(line), m);
  }

  /** `5. [mix|casual] text` is a language-mode line, not a content-type line. */
  lemma {:induction false} ModeTagIgnored(sp: string, rest: string)
    requires AllSpace(sp)
    ensures ParseLineWithInlineTag("5." + sp + "[mix|casual]" + rest) == None
  {
    var line := "5." + sp + "[mix|casual]" + rest;
    var m := StartMatch("5", sp, "mix|casual");
    assert m.WellFormed() && StartsWith(Strip(line), m.Matched()) by {
      assert line == m.Matched() + rest;
      StripKeepsStart(line, m.Matched());
    }
    MixBase();
    InlineTagExact(line, m);
  }

  lemma {:induction false} MixBase()
    ensures BaseTag("mix|casual") == "mix" && "mix" in ModeTags
  {
    assert IndexOf("mix|casual", '|', 0) == 3;
  }

  // ---------------------------------------------------------------------------
  // Line numbers

  /** `parse_line_number`: the number in front of the first '.' of the stripped line. */
  function ParseLineNumber(line: string): (r: Option<nat>)
    ensures r.Some? ==> exists d :: |d| > 0 && AllDigits(d) && StartsWith(Strip(line), d + ".") && r.value == DigitsToNat(d)
  {
    match LeadingNumber(Strip(line))
    case Some(d) => Some(DigitsToNat(d))
    case None => None
  }

  /** A stripped line that starts with digits and a '.' has that number. */
  lemma {:induction false} ParseLineNumberExact(line: string, d: string)
    requires |d| > 0 && AllDigits(d) && StartsWith(Strip(line), d + ".")
    ensures ParseLineNumber(line) == Some(DigitsToNat(d))
  {
    LeadingNumberExact(Strip(line), d);
  }

  /** A line with an inline tag has the tag's number as its line number. */
  lemma {:induction false} InlineNumberIsLineNumber(line: string)
    requires ParseLineWithInlineTag(line).Some?
    ensures ParseLineNumber(line) == Some(ParseLineWithInlineTag(line).value.number)
  {
    var m := StartTagMatch(Strip(line)).value;
    var s := Strip(line);
    assert s[..|m.number| + 1] == m.Matched()[..|m.number| + 1] == m.number + ".";
    ParseLineNumberExact(line, m.number);
  }

  /** A text that starts with a non-space character strips to a text with the same start, up to its last non-space character. */
  lemma {:induction false} StripKeepsStart(s: string, p: string)
    requires StartsWith(s, p) && p != [] && !IsSpace(p[0]) && !IsSpace(p[|p| - 1])
    ensures StartsWith(Strip(s), p)
  {
    var r := RStrip(s);
    assert s[|p| - 1] == p[|p| - 1];
    assert |r| >= |p|;
    assert r[..|p|] == s[..|p|];
    assert r[0] == p[0];
    var l := LStrip(r);
    assert !IsSpace(r[0]);
    assert |l| == |r|;
    assert l == r[|r| - |l|..] == r;
  }

  // ---------------------------------------------------------------------------
  // Section headers

  /**
   * A match of `^#\s*---\s*(\w+)(?:\s*\(continued\))?\s*---`: the whitespace after '#', after the
   * first dashes and after the name, whether the `(continued)` group is present, and the
   * whitespace after it.
   */
  datatype HeaderMatch = HeaderMatch(lead: string, gap: string, name: string, space: string, continued: bool, trail: string) {
    /** What follows the name: optional `(continued)` and the closing dashes. */
    function Tail(): string {
      space + (if continued then "(continued)" + trail else "") + "---"
    }

    /** The part up to the name. */
    function Head(): string {
      "#" + lead + "---" + gap + name
    }

    /** The text the pattern consumed. */
    function Matched(): string {
      Head() + Tail()
    }

    predicate WellFormed() {
      AllSpace(lead) && AllSpace(gap) && |name| > 0 && AllWord(name) && AllSpace(space) && AllSpace(trail) &&
      (!continued ==> trail == [])
    }
  }

  predicate AllWord(s: string) {
    forall i :: 0 <= i < |s| ==> IsWordChar(s[i])
  }

  /** A text that continues with `q` after its prefix `p` starts with `p + q`. */
  lemma {:induction false} StartsWithMore(s: string, p: string, q: string)
    requires StartsWith(s, p) && OccursAt(s, q, |p|)
    ensures StartsWith(s, p + q)
  {
    assert s[..|p| + |q|] == s[..|p|] + s[|p|..|p| + |q|];
  }

  /** A text starting with `p + q` starts with `p` and continues with `q`. */
  lemma {:induction false} StartsWithLess(s: string, p: string, q: string)
    requires StartsWith(s, p + q)
    ensures StartsWith(s, p) && OccursAt(s, q, |p|)
  {
    assert s[..|p|] == (p + q)[..|p|];
    assert s[|p|..|p| + |q|] == (p + q)[|p|..];
  }

  /** The length of the whitespace run at `i`: what a greedy `\s*` consumes. */
  function Blanks(s: string, i: nat): (n: nat)
    requires i <= |s|
    ensures i + n <= |s|
    decreases |s| - i
  {
    if i < |s| && IsSpace(s[i]) then 1 + Blanks(s, i + 1) else 0
  }

  /** The length of the word-character run at `i`: what a greedy `\w*` consumes. */
  function WordLen(s: string, i: nat): (n: nat)
    requires i <= |s|
    ensures i + n <= |s|
    decreases |s| - i
  {
    if i < |s| && IsWordChar(s[i]) then 1 + WordLen(s, i + 1) else 0
  }

  /** The whitespace run at `i`, as a text, is all whitespace. */
  lemma {:induction false} BlanksText(s: string, i: nat, j: nat)
    requires i <= |s| && j == i + Blanks(s, i)
    ensures AllSpace(s[i..j])
    decreases |s| - i
  {
    if i < |s| && IsSpace(s[i]) {
      BlanksText(s, i + 1, j);
      assert s[i..j] == [s[i]] + s[i + 1..j];
    }
  }

  /** The word run at `i`, as a text, is all word characters. */
  lemma {:induction false} WordLenText(s: string, i: nat, j: nat)
    requires i <= |s| && j == i + WordLen(s, i)
    ensures AllWord(s[i..j])
    decreases |s| - i
  {
    if i < |s| && IsWordChar(s[i]) {
      WordLenText(s, i + 1, j);
      assert s[i..j] == [s[i]] + s[i + 1..j];
    }
  }

  /** The run of whitespace at `i` is exactly `sp` when a non-space character follows it. */
  lemma {:induction false} BlanksOf(s: string, i: nat, sp: string)
    requires OccursAt(s, sp, i) && AllSpace(sp) && i + |sp| < |s| && !IsSpace(s[i + |sp|])
    ensures Blanks(s, i) == |sp|
    decreases |sp|
  {
    if sp != [] {
      assert s[i] == sp[0];
      assert s[i + 1..i + 1 + |sp[1..]|] == sp[1..];
      BlanksOf(s, i + 1, sp[1..]);
    }
  }

  /** A name's word characters end where the header text puts a non-word character. */
  lemma {:induction false} WordLenOf(s: string, i: nat, name: string)
    requires OccursAt(s, name, i) && AllWord(name) && i + |name| < |s| && !IsWordChar(s[i + |name|])
    ensures WordLen(s, i) == |name|
    decreases |name|
  {
    if name != [] {
      assert s[i] == name[0];
      assert s[i + 1..i + 1 + |name[1..]|] == name[1..];
      WordLenOf(s, i + 1, name[1..]);
    }
  }

  /** The three dashes of a section header start at `i`. */
  predicate DashesAt(s: string, i: nat) {
    i + 3 <= |s| && s[i] == '-' && s[i + 1] == '-' && s[i + 2] == '-'
  }

  lemma {:induction false} DashesOccur(s: string, i: nat)
    ensures DashesAt(s, i) <==> OccursAt(s, "---", i)
  {
    if DashesAt(s, i) {
      assert s[i..i + 3] == "---";
    }
    if OccursAt(s, "---", i) {
      assert s[i..i + 3][0] == '-' && s[i..i + 3][1] == '-' && s[i..i + 3][2] == '-';
    }
  }

  /** `(continued)` starts at `i`. */
  predicate ContinuedAt(s: string, i: nat) {
    i + 11 <= |s| && s[i] == '(' && s[i + 1] == 'c' && s[i + 2] == 'o' && s[i + 3] == 'n' && s[i + 4] == 't' &&
    s[i + 5] == 'i' && s[i + 6] == 'n' && s[i + 7] == 'u' && s[i + 8] == 'e' && s[i + 9] == 'd' && s[i + 10] == ')'
  }

  lemma {:induction false} ContinuedOccurs(s: string, i: nat)
    ensures ContinuedAt(s, i) <==> OccursAt(s, "(continued)", i)
  {
    if ContinuedAt(s, i) {
      assert s[i..i + 11] == "(continued)";
    }
    if OccursAt(s, "(continued)", i) {
      var t := s[i..i + 11];
      assert t[0] == '(' && t[1] == 'c' && t[2] == 'o' && t[3] == 'n' && t[4] == 't' && t[5] == 'i';
      assert t[6] == 'n' && t[7] == 'u' && t[8] == 'e' && t[9] == 'd' && t[10] == ')';
    }
  }

  /** Where the closing dashes start, after a name ending at `c`, and whether `(continued)` came first. */
  function DashesAfterName(s: string, c: nat): Option<(nat, bool)>
    requires c <= |s|
  {
    var d := c + Blanks(s, c);
    if DashesAt(s, d) then Some((d, false))
    else if ContinuedAt(s, d) then
      var f := d + 11 + Blanks(s, d + 11);
      if DashesAt(s, f) then Some((f, true)) else None
    else None
  }

  /** The closing dashes right after the blanks that follow the name. */
  lemma {:induction false} DashesAfterNamePlain(s: string, c: nat, d: nat)
    requires c <= |s| && d == c + Blanks(s, c) && DashesAt(s, d)
    ensures DashesAfterName(s, c) == Some((d, false))
  {
  }

  /** `(continued)` right after the blanks that follow the name, then blanks and the closing dashes. */
  lemma {:induction false} DashesAfterNameContinued(s: string, c: nat, d: nat, f: nat)
    requires c <= |s| && d == c + Blanks(s, c) && !DashesAt(s, d) && ContinuedAt(s, d)
    requires f == d + 11 + Blanks(s, d + 11) && DashesAt(s, f)
    ensures DashesAfterName(s, c) == Some((f, true))
  {
  }

  /** The positions the pattern reaches: after the first blanks, after the second, after the name, after the third, the closing dashes. */
  datatype Spans = Spans(a: nat, b: nat, c: nat, d: nat, f: nat, cont: bool)

  predicate SpansFit(s: string, p: Spans) {
    1 <= p.a && p.a + 3 <= p.b < p.c <= p.d <= p.f <= |s| && (p.cont ==> p.d + 11 <= p.f)
  }

  /** The positions `re.match` of the section-header pattern reaches, if it matches. */
  function SectionSpans(s: string): (r: Option<Spans>)
    ensures r.Some? ==> SpansFit(s, r.value)
  {
    if |s| == 0 || s[0] != '#' then None
    else
      var a := 1 + Blanks(s, 1);
      if !DashesAt(s, a) then None
      else
        var b := a + 3 + Blanks(s, a + 3);
        var c := b + WordLen(s, b);
        if c == b then None
        else
          var r := DashesAfterName(s, c);
          if r.None? then None else Some(Spans(a, b, c, c + Blanks(s, c), r.value.0, r.value.1))
  }

  /** The match made of the pieces between the positions the pattern reached. */
  function Assemble(s: string, p: Spans): HeaderMatch
    requires SpansFit(s, p)
  {
    HeaderMatch(s[1..p.a], s[p.a + 3..p.b], s[p.b..p.c], s[p.c..p.d], p.cont, if p.cont then s[p.d + 11..p.f] else [])
  }

  /** `re.match` of the section-header pattern. The name is the longest run of word characters. */
  function SectionMatch(s: string): Option<HeaderMatch> {
    match SectionSpans(s)
    case None => None
    case Some(p) => Some(Assemble(s, p))
  }

  /** The positions found are where each part of the pattern stops. */
  lemma {:induction false} SpansFacts(s: string)
    requires SectionSpans(s).Some?
    ensures var p := SectionSpans(s).value;
      s[0] == '#' && p.a == 1 + Blanks(s, 1) && DashesAt(s, p.a) && p.b == p.a + 3 + Blanks(s, p.a + 3) &&
      p.c == p.b + WordLen(s, p.b) && p.d == p.c + Blanks(s, p.c) && DashesAfterName(s, p.c) == Some((p.f, p.cont))
  {
  }

  /** Positions that are where each part of the pattern stops are the ones found. */
  lemma {:induction false} SpansAt(s: string, p: Spans)
    requires |s| > 0 && s[0] == '#'
    requires p.a == 1 + Blanks(s, 1)
    requires DashesAt(s, p.a)
    requires p.b == p.a + 3 + Blanks(s, p.a + 3)
    requires p.c == p.b + WordLen(s, p.b)
    requires p.b < p.c
    requires p.d == p.c + Blanks(s, p.c)
    requires DashesAfterName(s, p.c) == Some((p.f, p.cont))
    ensures SectionSpans(s) == Some(p)
  {
  }

  /** What the pattern matched has the shape it demands and is the start of the text. */
  lemma {:induction false} SectionMatchSound(s: string)
    requires SectionMatch(s).Some?
    ensures SectionMatch(s).value.WellFormed() && StartsWith(s, SectionMatch(s).value.Matched())
  {
    var p := SectionSpans(s).value;
    assert SectionMatch(s) == Some(Assemble(s, p));
    SpansWellFormed(s);
    SpansPrefix(s);
  }

  lemma {:induction false} SpansWellFormed(s: string)
    requires SectionSpans(s).Some?
    ensures Assemble(s, SectionSpans(s).value).WellFormed()
  {
    var p := SectionSpans(s).value;
    SpansFacts(s);
    BlanksText(s, 1, p.a);
    BlanksText(s, p.a + 3, p.b);
    WordLenText(s, p.b, p.c);
    BlanksText(s, p.c, p.d);
    if p.cont {
      BlanksText(s, p.d + 11, p.f);
    }
    AssembledWellFormed(s, p);
  }

  lemma {:induction false} SpansPrefix(s: string)
    requires SectionSpans(s).Some?
    ensures StartsWith(s, Assemble(s, SectionSpans(s).value).Matched())
  {
    var p := SectionSpans(s).value;
    SpansFacts(s);
    if p.cont {
      ContinuedOccurs(s, p.d);
    }
    DashesOccur(s, p.a);
    DashesOccur(s, p.f);
    assert s[..1] == "#";
    AssembledPrefix(s, p);
  }

  /** Pieces of the right kinds make a well-formed match. */
  lemma {:induction false} AssembledWellFormed(s: string, p: Spans)
    requires SpansFit(s, p) && AllSpace(s[1..p.a]) && AllSpace(s[p.a + 3..p.b]) && AllWord(s[p.b..p.c])
    requires AllSpace(s[p.c..p.d]) && (p.cont ==> AllSpace(s[p.d + 11..p.f]))
    ensures Assemble(s, p).WellFormed()
  {
  }

  /** The assembled pieces, put back together, are the start of the text. */
  lemma {:induction false} AssembledPrefix(s: string, p: Spans)
    requires SpansFit(s, p) && StartsWith(s, "#") && OccursAt(s, "---", p.a) && OccursAt(s, "---", p.f)
    requires p.cont ==> OccursAt(s, "(continued)", p.d)
    requires !p.cont ==> p.d == p.f
    ensures StartsWith(s, Assemble(s, p).Matched())
  {
    var m := Assemble(s, p);
    HeadPrefix(s, m.lead, m.gap, m.name);
    TailOccurs(s, p.c, m.space, p.cont, m.trail);
    StartsWithMore(s, m.Head(), m.Tail());
  }

  /** The pieces up to the name, found one after the other, start the text. */
  lemma {:induction false} HeadPrefix(s: string, lead: string, gap: string, name: string)
    requires StartsWith(s, "#") && OccursAt(s, lead, 1) && OccursAt(s, "---", 1 + |lead|)
    requires OccursAt(s, gap, 4 + |lead|) && OccursAt(s, name, 4 + |lead| + |gap|)
    ensures StartsWith(s, "#" + lead + "---" + gap + name)
  {
    StartsWithMore(s, "#", lead);
    StartsWithMore(s, "#" + lead, "---");
    StartsWithMore(s, "#" + lead + "---", gap);
    StartsWithMore(s, "#" + lead + "---" + gap, name);
  }

  /** The pieces after the name, found one after the other, occur together. */
  lemma {:induction false} TailOccurs(s: string, c: nat, space: string, cont: bool, trail: string)
    requires OccursAt(s, space, c)
    requires cont ==> (OccursAt(s, "(continued)", c + |space|) && OccursAt(s, trail, c + |space| + 11) &&
      OccursAt(s, "---", c + |space| + 11 + |trail|))
    requires !cont ==> OccursAt(s, "---", c + |space|)
    ensures OccursAt(s, space + (if cont then "(continued)" + trail else "") + "---", c)
  {
    if cont {
      OccursMore(s, c + |space|, "(continued)", trail);
      OccursMore(s, c, space, "(continued)" + trail);
      OccursMore(s, c, space + ("(continued)" + trail), "---");
    } else {
      assert space + [] == space;
      OccursMore(s, c, space + [], "---");
    }
  }

  /** Two texts occurring one after the other occur together. */
  lemma {:induction false} OccursMore(s: string, i: nat, p: string, q: string)
    requires OccursAt(s, p, i) && OccursAt(s, q, i + |p|)
    ensures OccursAt(s, p + q, i)
  {
    assert s[i..i + |p| + |q|] == s[i..i + |p|] + s[i + |p|..i + |p| + |q|];
  }

  /** Two texts occurring together occur one after the other. */
  lemma {:induction false} OccursLess(s: string, i: nat, p: string, q: string)
    requires OccursAt(s, p + q, i)
    ensures OccursAt(s, p, i) && OccursAt(s, q, i + |p|)
  {
    assert s[i..i + |p|] == (p + q)[..|p|];
    assert s[i + |p|..i + |p| + |q|] == (p + q)[|p|..];
  }

  /** After the name, the optional group and the closing dashes are found where the match puts them. */
  lemma {:induction false} DashesAfterNameExact(s: string, c: nat, m: HeaderMatch)
    requires m.WellFormed() && OccursAt(s, m.Tail(), c)
    ensures DashesAfterName(s, c) == Some((c + |m.space| + (if m.continued then 11 + |m.trail| else 0), m.continued))
    ensures Blanks(s, c) == |m.space| && OccursAt(s, m.space, c)
    ensures m.continued ==> OccursAt(s, m.trail, c + |m.space| + 11)
  {
    if m.continued {
      ContinuedTailExact(s, c, m);
    } else {
      PlainTailExact(s, c, m);
    }
  }

  lemma {:induction false} PlainTailExact(s: string, c: nat, m: HeaderMatch)
    requires m.WellFormed() && !m.continued && OccursAt(s, m.Tail(), c)
    ensures DashesAfterName(s, c) == Some((c + |m.space|, false))
    ensures Blanks(s, c) == |m.space| && OccursAt(s, m.space, c)
  {
    var d := c + |m.space|;
    assert m.Tail() == m.space + "---";
    OccursLess(s, c, m.space, "---");
    DashesOccur(s, d);
    BlanksOf(s, c, m.space);
    DashesAfterNamePlain(s, c, d);
  }

  lemma {:induction false} ContinuedTailExact(s: string, c: nat, m: HeaderMatch)
    requires m.WellFormed() && m.continued && OccursAt(s, m.Tail(), c)
    ensures DashesAfterName(s, c) == Some((c + |m.space| + 11 + |m.trail|, true))
    ensures Blanks(s, c) == |m.space| && OccursAt(s, m.space, c)
    ensures OccursAt(s, m.trail, c + |m.space| + 11)
  {
    var d := c + |m.space|;
    var f := d + 11 + |m.trail|;
    ContinuedPieces(s, c, m);
    assert Blanks(s, c) == |m.space| by {
      BlanksOf(s, c, m.space);
    }
    assert Blanks(s, d + 11) == |m.trail| by {
      BlanksOf(s, d + 11, m.trail);
    }
    DashesAfterNameContinued(s, c, d, f);
  }

  /** The pieces of a continued tail, each where the tail puts it. */
  lemma {:induction false} ContinuedPieces(s: string, c: nat, m: HeaderMatch)
    requires m.continued && OccursAt(s, m.Tail(), c)
    ensures var d := c + |m.space|;
      OccursAt(s, m.space, c) && ContinuedAt(s, d) && OccursAt(s, m.trail, d + 11) && DashesAt(s, d + 11 + |m.trail|)
  {
    var d := c + |m.space|;
    OccursLess(s, c, m.space + ("(continued)" + m.trail), "---");
    OccursLess(s, c, m.space, "(continued)" + m.trail);
    OccursLess(s, d, "(continued)", m.trail);
    ContinuedOccurs(s, d);
    DashesOccur(s, d + 11 + |m.trail|);
  }

  /** The match is determined by the line: any well-formed match at its start is the one found. */
  lemma {:induction false} SectionMatchExact(s: string, m: HeaderMatch)
    requires m.WellFormed() && StartsWith(s, m.Matched())
    ensures SectionMatch(s) == Some(m)
  {
    MatchPieces(s, m);
    PiecesExact(s, m);
  }

  /** The pieces of a match, each found where the match puts it. */
  predicate PiecesAt(s: string, m: HeaderMatch) {
    |s| > 0 && s[0] == '#' && OccursAt(s, m.lead, 1) && OccursAt(s, "---", 1 + |m.lead|) &&
    OccursAt(s, m.gap, 4 + |m.lead|) && OccursAt(s, m.name, 4 + |m.lead| + |m.gap|) &&
    OccursAt(s, m.Tail(), 4 + |m.lead| + |m.gap| + |m.name|)
  }

  lemma {:induction false} PiecesExact(s: string, m: HeaderMatch)
    requires m.WellFormed() && PiecesAt(s, m)
    ensures SectionMatch(s) == Some(m)
  {
    var p := MatchSpans(m);
    SpansExact(s, m);
    assert OccursAt(s, m.space, p.c) && (m.continued ==> OccursAt(s, m.trail, p.d + 11)) by {
      DashesAfterNameExact(s, p.c, m);
    }
    AssembleOf(s, p, m);
  }

  /** The positions at which the pieces of a match end. */
  function MatchSpans(m: HeaderMatch): (p: Spans)
    ensures p.a == 1 + |m.lead| && p.b == p.a + 3 + |m.gap| && p.c == p.b + |m.name| && p.d == p.c + |m.space|
    ensures p.cont == m.continued && p.f == p.d + (if m.continued then 11 + |m.trail| else 0)
  {
    var a := 1 + |m.lead|;
    var b := a + 3 + |m.gap|;
    var c := b + |m.name|;
    var d := c + |m.space|;
    Spans(a, b, c, d, d + (if m.continued then 11 + |m.trail| else 0), m.continued)
  }

  /** The scan of a text holding the pieces of a match stops at the match's own piece boundaries. */
  lemma {:induction false} SpansExact(s: string, m: HeaderMatch)
    requires m.WellFormed() && PiecesAt(s, m)
    ensures SectionSpans(s) == Some(MatchSpans(m))
  {
    var p := MatchSpans(m);
    LeadExact(s, m);
    NameExact(s, m);
    CloseExact(s, m);
    SpansAt(s, p);
  }

  lemma {:induction false} LeadExact(s: string, m: HeaderMatch)
    requires m.WellFormed() && PiecesAt(s, m)
    ensures MatchSpans(m).a == 1 + Blanks(s, 1) && DashesAt(s, MatchSpans(m).a)
  {
    LeadRun(s, m.lead);
  }

  lemma {:induction false} NameExact(s: string, m: HeaderMatch)
    requires m.WellFormed() && PiecesAt(s, m)
    ensures MatchSpans(m).b == MatchSpans(m).a + 3 + Blanks(s, MatchSpans(m).a + 3)
    ensures MatchSpans(m).c == MatchSpans(m).b + WordLen(s, MatchSpans(m).b)
  {
    var p := MatchSpans(m);
    TailNotWord(s, p.c, m);
    HeadRuns(s, p.a + 3, m.gap, m.name);
  }

  lemma {:induction false} CloseExact(s: string, m: HeaderMatch)
    requires m.WellFormed() && PiecesAt(s, m)
    ensures MatchSpans(m).d == MatchSpans(m).c + Blanks(s, MatchSpans(m).c)
    ensures DashesAfterName(s, MatchSpans(m).c) == Some((MatchSpans(m).f, MatchSpans(m).cont))
  {
    DashesAfterNameExact(s, MatchSpans(m).c, m);
  }

  /** Pieces found at the positions are the fields of the match they came from. */
  lemma {:induction false} AssembleOf(s: string, p: Spans, m: HeaderMatch)
    requires SpansFit(s, p) && p.cont == m.continued && (!m.continued ==> m.trail == [])
    requires p.a == 1 + |m.lead| && p.b == p.a + 3 + |m.gap| && p.c == p.b + |m.name| && p.d == p.c + |m.space|
    requires OccursAt(s, m.lead, 1) && OccursAt(s, m.gap, p.a + 3) && OccursAt(s, m.name, p.b) && OccursAt(s, m.space, p.c)
    requires m.continued ==> p.f == p.d + 11 + |m.trail| && OccursAt(s, m.trail, p.d + 11)
    ensures Assemble(s, p) == m
  {
  }

  /** The character after a header name does not continue the name. */
  lemma {:induction false} TailNotWord(s: string, c: nat, m: HeaderMatch)
    requires m.WellFormed() && OccursAt(s, m.Tail(), c)
    ensures c < |s| && !IsWordChar(s[c])
  {
    TailStart(m);
    FirstOf(s, c, m.Tail());
  }

  lemma {:induction false} FirstOf(s: string, i: nat, t: string)
    requires OccursAt(s, t, i) && t != []
    ensures i < |s| && s[i] == t[0]
  {
    assert s[i..i + |t|][0] == t[0];
  }

  /** A text starting with a match holds each of its pieces in turn. */
  lemma {:induction false} MatchPieces(s: string, m: HeaderMatch)
    requires StartsWith(s, m.Matched())
    ensures PiecesAt(s, m)
  {
    StartsWithLess(s, m.Head(), m.Tail());
    StartsWithLess(s, "#" + m.lead + "---" + m.gap, m.name);
    StartsWithLess(s, "#" + m.lead + "---", m.gap);
    StartsWithLess(s, "#" + m.lead, "---");
    StartsWithLess(s, "#", m.lead);
    assert s[0] == s[..1][0];
  }

  /** The runs before the tail stop where the match's pieces end. */
  lemma {:induction false} HeadRuns(s: string, b: nat, gap: string, name: string)
    requires AllSpace(gap) && name != [] && AllWord(name)
    requires OccursAt(s, gap, b) && OccursAt(s, name, b + |gap|)
    requires b + |gap| + |name| < |s| && !IsWordChar(s[b + |gap| + |name|])
    ensures Blanks(s, b) == |gap| && WordLen(s, b + |gap|) == |name|
  {
    GapRun(s, b, gap, name);
    WordLenOf(s, b + |gap|, name);
  }

  /** The blanks after '#' end at the first dashes. */
  lemma {:induction false} LeadRun(s: string, lead: string)
    requires OccursAt(s, lead, 1) && AllSpace(lead) && OccursAt(s, "---", 1 + |lead|)
    ensures Blanks(s, 1) == |lead| && DashesAt(s, 1 + |lead|)
  {
    DashesOccur(s, 1 + |lead|);
    BlanksOf(s, 1, lead);
  }

  /** Blanks followed by a name end where the name begins. */
  lemma {:induction false} GapRun(s: string, i: nat, gap: string, name: string)
    requires OccursAt(s, gap, i) && AllSpace(gap) && OccursAt(s, name, i + |gap|) && name != [] && AllWord(name)
    ensures Blanks(s, i) == |gap|
  {
    assert s[i + |gap|] == name[0] by { assert s[i + |gap|..i + |gap| + |name|][0] == name[0]; }
    BlanksOf(s, i, gap);
  }

  /** What follows a name in a header does not start with a word character. */
  lemma {:induction false} TailStart(m: HeaderMatch)
    requires m.WellFormed()
    ensures |m.Tail()| > 0 && !IsWordChar(m.Tail()[0])
  {
    if m.space != [] {
      assert m.Tail()[0] == m.space[0];
    } else if m.continued {
      assert m.Tail()[0] == '(';
    } else {
      assert m.Tail()[0] == '-';
    }
  }

  /** The content type a section name stands for, compared in upper case. */
  function SectionTag(name: string): (r: Option<string>)
    ensures r.Some? ==> r.value in ContentOrder
    ensures r.Some? <==> Upper(name) in SectionToTag
  {
    var u := Upper(name);
    if u in SectionToTag then Some(SectionToTag[u]) else None
  }

  /** `parse_section_header`: the content type of a `# --- NAME ---` line, or nothing. */
  function ParseSectionHeader(line: string): (r: Option<string>)
    ensures r.Some? ==> r.value in ContentOrder
    ensures r.Some? ==> Strip(line) != [] && Strip(line)[0] == '#'
  {
    match SectionMatch(Strip(line))
    case None => None
    case Some(m) => SectionTag(m.name)
  }

  /** A line opening with a header match is the section its name stands for, in any letter case. */
  lemma {:induction false} SectionHeaderExact(line: string, m: HeaderMatch)
    requires m.WellFormed() && StartsWith(Strip(line), m.Matched())
    ensures ParseSectionHeader(line) == SectionTag(m.name)
  {
    SectionMatchExact(Strip(line), m);
  }

  /** A line whose stripped text starts with a digit is no section header. */
  lemma {:induction false} NumberedNotHeader(line: string)
    requires Strip(line) != [] && IsDigit(Strip(line)[0])
    ensures ParseSectionHeader(line) == None
  {
  }

  /** `# --- Dialogue (continued) ---` continues the dialogue section. */
  lemma {:induction false} ContinuedDialogue()
    ensures ParseSectionHeader("# --- Dialogue (continued) ---") == Some("dialogue")
  {
    var line := "# --- Dialogue (continued) ---";
    var m := HeaderMatch(" ", " ", "Dialogue", " ", true, " ");
    ContinuedDialogueMatch();
    assert Trimmed(line);
    TrimmedStrip(line);
    SectionHeaderExact(line, m);
    DialogueTag();
  }

  lemma {:induction false} ContinuedDialogueMatch()
    ensures HeaderMatch(" ", " ", "Dialogue", " ", true, " ").WellFormed()
    ensures HeaderMatch(" ", " ", "Dialogue", " ", true, " ").Matched() == "# --- Dialogue (continued) ---"
  {
    var m := HeaderMatch(" ", " ", "Dialogue", " ", true, " ");
    assert AllWord(m.name);
    assert m.Head() == "# --- Dialogue";
    assert m.Tail() == " (continued) ---";
  }

  lemma {:induction false} DialogueTag()
    ensures SectionTag("Dialogue") == Some("dialogue")
  {
    assert Upper("Dialogue") == "DIALOGUE";
  }

  /** `# --- NOTES ---` is a well-formed header of a section that is no content type. */
  lemma {:induction false} UnknownSection()
    ensures ParseSectionHeader("# --- NOTES ---") == None
  {
    var line := "# --- NOTES ---";
    var m := HeaderMatch(" ", " ", "NOTES", " ", false, []);
    NotesMatch();
    assert Trimmed(line);
    TrimmedStrip(line);
    SectionHeaderExact(line, m);
    NotesTag();
  }

  lemma {:induction false} NotesMatch()
    ensures HeaderMatch(" ", " ", "NOTES", " ", false, []).WellFormed()
    ensures HeaderMatch(" ", " ", "NOTES", " ", false, []).Matched() == "# --- NOTES ---"
  {
    var m := HeaderMatch(" ", " ", "NOTES", " ", false, []);
    assert AllWord(m.name);
    assert m.Head() == "# --- NOTES";
    assert m.Tail() == " ---";
  }

  lemma {:induction false} NotesTag()
    ensures SectionTag("NOTES") == None
  {
    assert Upper("NOTES") == "NOTES";
  }
}
