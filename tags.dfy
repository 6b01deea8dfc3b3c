/**
 * The line matchers the scripts share: the leading dialogue number, the start tag
 * right after it, the end tag before the end of the line and its removal, and the
 * case-insensitive allow-list check. Each regular expression of the scripts is
 * written out as a matcher over characters.
 */
module Tags {
  import opened Wrappers
  import opened Text

  // ---------------------------------------------------------------------------
  // Leading numbers

  /** `^(\d+)\.`: the digits in front of the first '.' of the line. */
  function LeadingNumber(s: string): (r: Option<string>)
    ensures r.Some? ==> |r.value| > 0 && AllDigits(r.value) && StartsWith(s, r.value + ".")
  {
    var k := DigitRun(s, 0);
    if 0 < k < |s| && s[k] == '.' then
      assert s[..k + 1] == s[..k] + ".";
      Some(s[..k])
    else None
  }

  /** A line that starts with digits and a '.' has exactly those digits as its leading number. */
  lemma {:induction false} LeadingNumberExact(s: string, d: string)
    requires |d| > 0 && AllDigits(d) && StartsWith(s, d + ".")
    ensures LeadingNumber(s) == Some(d)
  {
    assert s[|d|] == (d + ".")[|d|];
    assert forall k :: 0 <= k < |d| ==> s[k] == d[k];
    assert DigitRun(s, 0) == |d|;
    assert s[..|d|] == d;
  }

  /**
   * `^(\d+)\.\s` (`extract_dialogue_number`): the leading digit string, only when a
   * whitespace character follows the '.'. The number stays a string, so `012` and
   * `12` are different dialogue numbers.
   */
  function DialogueNumber(s: string): (r: Option<string>)
    ensures r.Some? ==> LeadingNumber(s) == r && |r.value| + 1 < |s| && IsSpace(s[|r.value| + 1])
  {
    match LeadingNumber(s)
    case Some(d) => if |d| + 1 < |s| && IsSpace(s[|d| + 1]) then Some(d) else None
    case None => None
  }

  /** `DialogueNumber(s) == Some(d)` exactly when `s` starts with the digits `d`, a '.' and a whitespace character. */
  lemma {:induction false} DialogueNumberIff(s: string, d: string)
    ensures DialogueNumber(s) == Some(d) <==>
      (|d| > 0 && AllDigits(d) && StartsWith(s, d + ".") && |d| + 1 < |s| && IsSpace(s[|d| + 1]))
  {
    if |d| > 0 && AllDigits(d) && StartsWith(s, d + ".") {
      LeadingNumberExact(s, d);
    }
  }

  /** Text after a numbered prefix does not change the dialogue number. */
  lemma {:induction false} DialogueNumberExtend(s: string, t: string)
    requires DialogueNumber(s).Some?
    ensures DialogueNumber(s + t) == DialogueNumber(s)
  {
    var d := DialogueNumber(s).value;
    assert (s + t)[..|d| + 1] == s[..|d| + 1];
    assert (s + t)[|d| + 1] == s[|d| + 1];
    DialogueNumberIff(s + t, d);
  }

  // ---------------------------------------------------------------------------
  // Start tags

  /** A match of `^(\d+)\.\s*\[([^\]]+)\]`: the number, the whitespace after the '.', the bracket contents. */
  datatype StartMatch = StartMatch(number: string, gap: string, contents: string) {
    /** The text the pattern consumed. */
    function Matched(): string {
      number + "." + gap + "[" + contents + "]"
    }

    predicate WellFormed() {
      |number| > 0 && AllDigits(number) && AllSpace(gap) && |contents| > 0 && ']' !in contents
    }
  }

  /** `re.match(r'^(\d+)\.\s*\[([^\]]+)\]', s)`. */
  function StartTagMatch(s: string): (r: Option<StartMatch>)
    ensures r.Some? ==> r.value.WellFormed() && StartsWith(s, r.value.Matched())
  {
    var k := DigitRun(s, 0);
    if 0 < k < |s| && s[k] == '.' then
      var p := k + 1 + SpaceRun(s, k + 1);
      if p < |s| && s[p] == '[' then
        var q := IndexOf(s, ']', p + 1);
        if p + 1 < q < |s| then
          MatchFound(s, k, p, q);
          Some(StartMatch(s[..k], s[k + 1..p], s[p + 1..q]))
        else None
      else None
    else None
  }

  /** The pieces found by the greedy runs form a well-formed match that opens the line. */
  lemma {:induction false} MatchFound(s: string, k: nat, p: nat, q: nat)
    requires k == DigitRun(s, 0) && 0 < k < |s| && s[k] == '.'
    requires p == k + 1 + SpaceRun(s, k + 1) && p < |s| && s[p] == '['
    requires q == IndexOf(s, ']', p + 1) && p + 1 < q < |s|
    ensures var m := StartMatch(s[..k], s[k + 1..p], s[p + 1..q]);
      m.WellFormed() && StartsWith(s, m.Matched())
  {
    var d, g, c := s[..k], s[k + 1..p], s[p + 1..q];
    assert AllDigits(d) by {
      assert forall i :: 0 <= i < |d| ==> d[i] == s[i];
    }
    assert AllSpace(g) by {
      assert forall i :: 0 <= i < |g| ==> g[i] == s[k + 1 + i];
    }
    assert ']' !in c by {
      assert forall i :: 0 <= i < |c| ==> c[i] == s[p + 1 + i];
    }
    OpensWith(s, k, p, q);
  }

  /** A line with a '.', a '[' and a ']' in that order opens with the match cut at them. */
  lemma {:induction false} OpensWith(s: string, k: nat, p: nat, q: nat)
    requires k < p < q < |s| && s[k] == '.' && s[p] == '[' && s[q] == ']'
    ensures StartsWith(s, StartMatch(s[..k], s[k + 1..p], s[p + 1..q]).Matched())
  {
    assert s[..k + 1] == s[..k] + ".";
    assert s[..p] == s[..k + 1] + s[k + 1..p];
    assert s[..p + 1] == s[..p] + "[";
    assert s[..q] == s[..p + 1] + s[p + 1..q];
    assert s[..q + 1] == s[..q] + "]";
  }

  /** The match found once the number, the '[' and the ']' are located. */
  lemma {:induction false} StartTagMatchAt(s: string, k: nat, p: nat, q: nat)
    requires k == DigitRun(s, 0) && 0 < k < |s| && s[k] == '.'
    requires p == k + 1 + SpaceRun(s, k + 1) && p < |s| && s[p] == '['
    requires q == IndexOf(s, ']', p + 1) && p + 1 < q < |s|
    ensures StartTagMatch(s) == Some(StartMatch(s[..k], s[k + 1..p], s[p + 1..q]))
  {
  }

  /** The match is determined by the line: any well-formed match prefix is the one found. */
  lemma {:induction false} StartTagMatchExact(s: string, m: StartMatch)
    requires m.WellFormed() && StartsWith(s, m.Matched())
    ensures StartTagMatch(s) == Some(m)
  {
    StartPieces(s, m);
    StartPiecesExact(s, m);
  }

  /** Where the pieces of a match sit in a line that opens with it. */
  predicate StartPiecesAt(s: string, m: StartMatch) {
    var g := |m.number| + 1; var p := g + |m.gap|; var q := p + 1 + |m.contents|;
    q < |s| && StartsWith(s, m.number + ".") && s[g..p] == m.gap && s[p] == '[' && s[p + 1..q] == m.contents && s[q] == ']'
  }

  lemma {:induction false} StartPiecesExact(s: string, m: StartMatch)
    requires m.WellFormed() && StartPiecesAt(s, m)
    ensures StartTagMatch(s) == Some(m)
  {
    var k := |m.number|;
    var p := k + 1 + |m.gap|;
    var q := p + 1 + |m.contents|;
    PiecesNumber(s, m);
    PiecesGap(s, m);
    PiecesClose(s, m);
    StartTagMatchAt(s, k, p, q);
  }

  /** The digits of a match are the greedy `\d+` in front of its '.'. */
  lemma {:induction false} PiecesNumber(s: string, m: StartMatch)
    requires m.WellFormed() && StartPiecesAt(s, m)
    ensures DigitRun(s, 0) == |m.number| && s[..|m.number|] == m.number && s[|m.number|] == '.'
  {
    var k := |m.number|;
    assert s[..k + 1] == m.number + ".";
    assert s[..k] == s[..k + 1][..k];
    assert s[k] == s[..k + 1][k];
    assert forall i :: 0 <= i < k ==> s[i] == m.number[i];
    DigitRunExact(s, 0, k);
  }

  /** The gap of a match is the greedy `\s*` after its '.'. */
  lemma {:induction false} PiecesGap(s: string, m: StartMatch)
    requires m.WellFormed() && StartPiecesAt(s, m)
    ensures SpaceRun(s, |m.number| + 1) == |m.gap|
  {
    var g := |m.number| + 1;
    var p := g + |m.gap|;
    assert forall i :: g <= i < p ==> s[i] == s[g..p][i - g];
    SpaceRunExact(s, g, |m.gap|);
  }

  /** The ']' closing a match is the first one after its '['. */
  lemma {:induction false} PiecesClose(s: string, m: StartMatch)
    requires m.WellFormed() && StartPiecesAt(s, m)
    ensures IndexOf(s, ']', |m.number| + 1 + |m.gap| + 1) == |m.number| + 1 + |m.gap| + 1 + |m.contents|
  {
    var p := |m.number| + 1 + |m.gap|;
    var q := p + 1 + |m.contents|;
    assert forall i :: p + 1 <= i < q ==> s[i] == s[p + 1..q][i - p - 1];
    IndexOfExact(s, ']', p + 1, q);
  }

  /** The pieces of a line that opens with a match. */
  lemma {:induction false} StartPieces(s: string, m: StartMatch)
    requires StartsWith(s, m.Matched())
    ensures StartPiecesAt(s, m)
  {
    var g := |m.number| + 1;
    var p := g + |m.gap|;
    var q := p + 1 + |m.contents|;
    var t := m.Matched();
    assert s[..|t|] == t;
    assert t[..g] == m.number + ".";
    assert t[g..p] == m.gap;
    assert t[p] == '[';
    assert t[p + 1..q] == m.contents;
    assert t[q] == ']';
    assert s[..g] == t[..g];
    assert s[g..p] == t[g..p];
    assert s[p + 1..q] == t[p + 1..q];
  }

  /** Text after a start tag is ignored: only the first bracket group after the number is matched. */
  lemma {:induction false} StartTagMatchExtend(s: string, t: string)
    requires StartTagMatch(s).Some?
    ensures StartTagMatch(s + t) == StartTagMatch(s)
  {
    var m := StartTagMatch(s).value;
    assert (s + t)[..|m.Matched()|] == s[..|m.Matched()|];
    StartTagMatchExact(s + t, m);
  }

  /** `extract_start_tag`: the start tag with its brackets. */
  function StartTag(s: string): (r: Option<string>)
    ensures r.Some? <==> StartTagMatch(s).Some?
    ensures r.Some? ==> r.value == "[" + StartTagMatch(s).value.contents + "]"
  {
    match StartTagMatch(s)
    case Some(m) => Some("[" + m.contents + "]")
    case None => None
  }

  /** The start tag is `t` exactly when the line opens with a well-formed match whose bracket group is `t`. */
  lemma {:induction false} StartTagIff(s: string, t: string)
    ensures StartTag(s) == Some(t) <==>
      exists m: StartMatch :: m.WellFormed() && StartsWith(s, m.Matched()) && t == "[" + m.contents + "]"
  {
    if StartTag(s) == Some(t) {
      var m := StartTagMatch(s).value;
      assert m.WellFormed() && StartsWith(s, m.Matched()) && t == "[" + m.contents + "]";
    }
    if exists m: StartMatch :: m.WellFormed() && StartsWith(s, m.Matched()) && t == "[" + m.contents + "]" {
      var m: StartMatch :| m.WellFormed() && StartsWith(s, m.Matched()) && t == "[" + m.contents + "]";
      StartTagMatchExact(s, m);
    }
  }

  /**
   * On a line that opens with a start-tag match, the dialogue number is the match's
   * number when whitespace separates its '.' from its '[', and there is none otherwise.
   */
  lemma {:induction false} DialogueOfMatch(s: string, m: StartMatch)
    requires m.WellFormed() && StartsWith(s, m.Matched())
    ensures DialogueNumber(s) == if |m.gap| > 0 then Some(m.number) else None
  {
    StartPieces(s, m);
    var g := |m.number| + 1;
    LeadingNumberExact(s, m.number);
    if |m.gap| > 0 {
      assert s[g] == s[g..g + |m.gap|][0];
    } else {
      assert s[g] == '[';
    }
  }

  // ---------------------------------------------------------------------------
  // End tags

  /**
   * The end-tag pattern `\[([^\]]+)\]\s*$` matches with its '[' at `i` and its ']'
   * at `j`: non-empty contents without ']', then only whitespace to the end.
   */
  ghost predicate EndGroup(s: string, i: nat, j: nat) {
    i + 1 < j < |s| && s[i] == '[' && s[j] == ']' &&
    (forall k :: i < k < j ==> s[k] != ']') && AllSpace(s[j + 1..])
  }

  /**
   * `re.search(r'\[([^\]]+)\]\s*$', s)` scanning from `from`: the leftmost position
   * where the pattern matches, with the index of its closing bracket.
   */
  function EndTagFrom(s: string, from: nat): (r: Option<(nat, nat)>)
    requires from <= |s|
    ensures r.Some? ==> from <= r.value.0 && EndGroup(s, r.value.0, r.value.1)
    ensures forall i, j :: from <= i && EndGroup(s, i, j) ==> r.Some? && r.value.0 <= i
    decreases |s| - from
  {
    if from == |s| then None
    else
      var j := IndexOf(s, ']', from + 1);
      if s[from] == '[' && from + 1 < j < |s| && AllSpace(s[j + 1..]) then Some((from, j))
      else EndTagFrom(s, from + 1)
  }

  /** The leftmost end-tag match of the line, as the indexes of its brackets. */
  function EndTagSpan(s: string): (r: Option<(nat, nat)>)
    ensures r.Some? ==> EndGroup(s, r.value.0, r.value.1)
    ensures forall i, j :: EndGroup(s, i, j) ==> r.Some? && r.value.0 <= i
  {
    EndTagFrom(s, 0)
  }

  /** `extract_end_tag` / `get_end_tag`: the end tag with its brackets, in its original case. */
  function EndTag(s: string): (r: Option<string>)
    ensures r.Some? <==> EndTagSpan(s).Some?
    ensures r.Some? ==> |r.value| >= 3 && r.value[0] == '[' && r.value[|r.value| - 1] == ']'
    ensures r.Some? ==> forall k :: 0 < k < |r.value| - 1 ==> r.value[k] != ']'
  {
    match EndTagSpan(s)
    case Some((i, j)) => Some(s[i..j + 1])
    case None => None
  }

  /** `has_end_tag`. */
  predicate HasEndTag(s: string) {
    EndTagSpan(s).Some?
  }

  /**
   * The end tag closes at the line's last ']' and only whitespace follows it; so a
   * line with a non-whitespace character after its last ']' has no end tag.
   */
  lemma {:induction false} EndTagAtLastBracket(s: string)
    requires HasEndTag(s)
    ensures forall k :: EndTagSpan(s).value.1 < k < |s| ==> s[k] != ']' && IsSpace(s[k])
  {
    var (i, j) := EndTagSpan(s).value;
    forall k | j < k < |s| ensures s[k] != ']' && IsSpace(s[k]) {
      assert s[j + 1..][k - j - 1] == s[k];
    }
  }

  /** The reported tag is the line's own text between the brackets, in its original case. */
  lemma {:induction false} EndTagInLine(s: string)
    requires HasEndTag(s)
    ensures OccursAt(s, EndTag(s).value, EndTagSpan(s).value.0)
  {
  }

  /** Start of the run of whitespace that ends just before `i`. */
  function SpaceRunBefore(s: string, i: nat): (p: nat)
    requires i <= |s|
    ensures p <= i
    ensures forall k :: p <= k < i ==> IsSpace(s[k])
    ensures p == 0 || !IsSpace(s[p - 1])
    decreases i
  {
    if i > 0 && IsSpace(s[i - 1]) then SpaceRunBefore(s, i - 1) else i
  }

  /**
   * `remove_end_tag`: `re.sub(r'\s*\[([^\]]+)\]\s*$', '', s)`. The leftmost match of
   * that pattern starts at the whitespace run in front of the leftmost end-tag '['
   * (an earlier start would need an earlier valid '[') and runs to the end of the
   * line, so the result is the line cut just before that whitespace.
   */
  function RemoveEndTag(s: string): (r: string)
    ensures StartsWith(s, r)
    ensures !HasEndTag(s) ==> r == s
    ensures HasEndTag(s) ==>
      var (i, j) := EndTagSpan(s).value;
      |r| <= i && AllSpace(s[|r|..i]) && s[i..j + 1] == EndTag(s).value && AllSpace(s[j + 1..]) &&
      (r == [] || !IsSpace(r[|r| - 1]))
  {
    match EndTagSpan(s)
    case Some((i, j)) =>
      var p := SpaceRunBefore(s, i);
      assert AllSpace(s[p..i]) by {
        forall k | 0 <= k < i - p ensures IsSpace(s[p..i][k]) {
          assert s[p..i][k] == s[p + k];
        }
      }
      s[..p]
    case None => s
  }

  /** Every '[' of `p` is closed by a later ']' of `p`. */
  predicate Closed(p: string) {
    forall i :: 0 <= i < |p| && p[i] == '[' ==> exists m :: i < m < |p| && p[m] == ']'
  }

  /**
   * A line ending in ` [y]` after text whose every '[' is closed and whose last
   * character is not whitespace: its end tag is `[y]` and removing it leaves the text.
   */
  lemma {:induction false} CutGroup(p: string, y: string)
    requires p != [] && !IsSpace(p[|p| - 1]) && Closed(p)
    requires |y| > 0 && ']' !in y
    ensures var s := p + " [" + y + "]";
      EndTagSpan(s) == Some((|p| + 1, |s| - 1)) && RemoveEndTag(s) == p && EndTag(s) == Some("[" + y + "]")
  {
    var s := p + " [" + y + "]";
    assert s[|p|] == ' ' && s[|p| + 1] == '[' && s[|s| - 1] == ']';
    assert forall k :: 0 <= k < |p| ==> s[k] == p[k];
    assert forall k :: |p| + 2 <= k < |s| - 1 ==> s[k] == y[k - |p| - 2];
    assert s[|s|..] == [];
    assert EndGroup(s, |p| + 1, |s| - 1);
    forall i: nat, j: nat | i <= |p| ensures !EndGroup(s, i, j) {
      if j + 1 < |s| {
        assert s[j + 1..][|s| - 2 - j] == ']';
      } else if i < |p| && s[i] == '[' {
        var m :| i < m < |p| && p[m] == ']';
        assert s[m] == ']';
      }
    }
    var (i, j) := EndTagSpan(s).value;
    assert i == |p| + 1;
    assert j == |s| - 1;
    assert SpaceRunBefore(s, |p|) == |p|;
    assert SpaceRunBefore(s, |p| + 1) == |p|;
    assert s[..|p|] == p;
    assert s[|p| + 1..|s|] == "[" + y + "]";
  }

  /** Removing an end tag deletes at least the three characters of `[x]`, so a rewritten line always differs. */
  lemma {:induction false} RemoveEndTagShrinks(s: string)
    requires HasEndTag(s)
    ensures |RemoveEndTag(s)| + 3 <= |s|
  {
  }

  // ---------------------------------------------------------------------------
  // The allow-list

  /** `ALLOWED_TAGS_LOWER`: the allow-list in lower case. */
  function AllowedLower(allowed: set<string>): (r: set<string>)
    ensures forall t :: t in allowed ==> Lower(t) in r
    ensures forall x :: x in r ==> exists t :: t in allowed && Lower(t) == x
  {
    set t | t in allowed :: Lower(t)
  }

  /** `tag.lower() not in ALLOWED_TAGS_LOWER`. */
  predicate IsUnlisted(tag: string, allowedLower: set<string>) {
    Lower(tag) !in allowedLower
  }

  /** A tag is unlisted exactly when no allowed tag equals it up to letter case. */
  lemma {:induction false} UnlistedIff(tag: string, allowed: set<string>)
    ensures IsUnlisted(tag, AllowedLower(allowed)) <==> forall t :: t in allowed ==> Lower(t) != Lower(tag)
  {
  }

  /** `[Sighs]` and `[sighs]` are both allowed when the configuration lists `[sighs]`. */
  lemma {:induction false} SighsAllowedInAnyCase(allowed: set<string>)
    requires "[sighs]" in allowed
    ensures !IsUnlisted("[Sighs]", AllowedLower(allowed)) && !IsUnlisted("[sighs]", AllowedLower(allowed))
  {
    assert Lower("[Sighs]") == "[sighs]";
    assert Lower("[sighs]") == "[sighs]";
  }
}
