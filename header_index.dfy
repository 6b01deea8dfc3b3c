/**
 * `process_file` of the header tool, without the file access and the header splice: the lines
 * are classified by content type and professionalism (inline tags, or section headers), the header
 * is generated from that index, and in section-header files each numbered line can be given the
 * inline tag of its section.
 */
module HeaderIndex {
  import opened Wrappers
  import opened Text
  import opened Tags
  import opened HeaderParse
  import opened HeaderBlock

  // ---------------------------------------------------------------------------
  // The index

  /** The list recorded for `k`, or none yet (a `defaultdict(list)` lookup). */
  function Get(lists: Lists, k: string): seq<nat> {
    if k in lists then lists[k] else []
  }

  /** `lists[k].append(n)` on a `defaultdict(list)`. */
  function Add(lists: Lists, k: string, n: nat): (r: Lists)
    ensures r.Keys == lists.Keys + {k}
    ensures Get(r, k) == Get(lists, k) + [n]
    ensures forall j :: j != k ==> Get(r, j) == Get(lists, j)
  {
    lists[k := Get(lists, k) + [n]]
  }

  /** A key is present only once something was appended to it. */
  predicate NoEmptyLists(lists: Lists) {
    forall k :: k in lists ==> lists[k] != []
  }

  /** What the classification collects: per category the line numbers, the largest number, and each number's section. */
  datatype Index = Index(contentTypes: Lists, professionalism: Lists, total: nat, lineToSection: map<nat, string>)

  const Empty: Index := Index(map[], map[], 0, map[])

  function Max(a: nat, b: nat): nat {
    if a < b then b else a
  }

  // ---------------------------------------------------------------------------
  // First pass: which style the file uses

  /** A line `parse_section_header` recognises. */
  predicate IsHeaderLine(line: string) {
    ParseSectionHeader(line).Some?
  }

  /** `line_num and tag`: an inline content tag on a line whose number is not 0. */
  predicate IsTaggedLine(line: string) {
    ParseLineWithInlineTag(line).Some? && ParseLineWithInlineTag(line).value.number != 0
  }

  /** Some line before index `i` is a section header. */
  predicate HeaderBefore(lines: seq<string>, i: nat)
    requires i <= |lines|
  {
    exists j {:trigger IsHeaderLine(lines[j])} :: 0 <= j < i && IsHeaderLine(lines[j])
  }

  /** Some line before index `i` carries an inline content tag. */
  predicate TagBefore(lines: seq<string>, i: nat)
    requires i <= |lines|
  {
    exists j {:trigger IsTaggedLine(lines[j])} :: 0 <= j < i && IsTaggedLine(lines[j])
  }

  predicate HasSectionHeaders(lines: seq<string>) {
    HeaderBefore(lines, |lines|)
  }

  predicate HasInlineTags(lines: seq<string>) {
    TagBefore(lines, |lines|)
  }

  lemma {:induction false} HeaderBeforeStep(lines: seq<string>, i: nat)
    requires i < |lines|
    ensures HeaderBefore(lines, i + 1) <==> HeaderBefore(lines, i) || IsHeaderLine(lines[i])
  {
  }

  lemma {:induction false} TagBeforeStep(lines: seq<string>, i: nat)
    requires i < |lines|
    ensures TagBefore(lines, i + 1) <==> TagBefore(lines, i) || IsTaggedLine(lines[i])
  {
  }

  /** The inline pass runs only for files with inline tags and no section header. */
  predicate InlineMode(lines: seq<string>) {
    HasInlineTags(lines) && !HasSectionHeaders(lines)
  }

  /** The first loop of `process_file`. */
  method DetectStyle(lines: seq<string>) returns (hasInlineTags: bool, hasSectionHeaders: bool)
    ensures hasInlineTags == HasInlineTags(lines) && hasSectionHeaders == HasSectionHeaders(lines)
  {
    hasInlineTags, hasSectionHeaders := false, false;
    for i := 0 to |lines|
      invariant hasSectionHeaders == HeaderBefore(lines, i)
      invariant hasInlineTags == TagBefore(lines, i)
    {
      HeaderBeforeStep(lines, i);
      TagBeforeStep(lines, i);
      if ParseSectionHeader(lines[i]).Some? {
        hasSectionHeaders := true;
      }
      var tagged := ParseLineWithInlineTag(lines[i]);
      if tagged.Some? && tagged.value.number != 0 {
        hasInlineTags := true;
      }
    }
  }

  // ---------------------------------------------------------------------------
  // Inline pass

  /** `tag.split('|', 1)[1]`: the text after the first '|'. */
  function SubTag(tag: string): (r: string)
    requires '|' in tag
    ensures tag == BaseTag(tag) + "|" + r
  {
    var b := BaseTag(tag);
    assert b != tag;
    assert tag == b + "|" + tag[|b| + 1..];
    tag[|b| + 1..]
  }

  /** One line of the inline loop: a tag `a|b` files the number under content type a and level b, a tag `a` under a. */
  function InlineStep(idx: Index, line: string): Index {
    match ParseLineWithInlineTag(line)
    case None => idx
    case Some(t) => FileTagged(idx, t)
  }

  /** Files the number of a line with inline tag `t`. */
  function FileTagged(idx: Index, t: InlineTag): Index {
    var total := Max(idx.total, t.number);
    if '|' in t.tag then
      idx.(contentTypes := Add(idx.contentTypes, BaseTag(t.tag), t.number),
           professionalism := Add(idx.professionalism, SubTag(t.tag), t.number), total := total)
    else
      idx.(contentTypes := Add(idx.contentTypes, t.tag, t.number), total := total)
  }

  /** The index the inline loop builds from the lines. */
  function InlineIndex(lines: seq<string>): Index
    decreases |lines|
  {
    if lines == [] then Empty else InlineStep(InlineIndex(lines[..|lines| - 1]), lines[|lines| - 1])
  }

  lemma {:induction false} InlineIndexSnoc(lines: seq<string>, i: nat)
    requires i < |lines|
    ensures InlineIndex(lines[..i + 1]) == InlineStep(InlineIndex(lines[..i]), lines[i])
  {
    assert lines[..i + 1][..i] == lines[..i];
  }

  /** Where the first '|' is, the tag splits into its base and its level. */
  lemma {:induction false} TagParts(tag: string)
    ensures var k := IndexOf(tag, '|', 0);
      (k < |tag| <==> '|' in tag) && (k < |tag| ==> tag[..k] == BaseTag(tag) && tag[k + 1..] == SubTag(tag))
  {
  }

  /** The inline loop of `process_file`. */
  method IndexInline(lines: seq<string>) returns (idx: Index)
    ensures idx == InlineIndex(lines)
  {
    var contentTypes: Lists := map[];
    var professionalism: Lists := map[];
    var total: nat := 0;
    for i := 0 to |lines|
      invariant Index(contentTypes, professionalism, total, map[]) == InlineIndex(lines[..i])
    {
      ghost var before := Index(contentTypes, professionalism, total, map[]);
      InlineIndexSnoc(lines, i);
      var tagged := ParseLineWithInlineTag(lines[i]);
      if tagged.Some? {
        var n := tagged.value.number;
        var tag := tagged.value.tag;
        total := Max(total, n);
        var k := IndexOf(tag, '|', 0);
        TagParts(tag);
        if k < |tag| {
          var main, sub := tag[..k], tag[k + 1..];
          contentTypes := Add(contentTypes, main, n);
          professionalism := Add(professionalism, sub, n);
        } else {
          contentTypes := Add(contentTypes, tag, n);
        }
        assert Index(contentTypes, professionalism, total, map[]) == FileTagged(before, tagged.value);
      }
    }
    assert lines[..|lines|] == lines;
    idx := Index(contentTypes, professionalism, total, map[]);
  }

  // ---------------------------------------------------------------------------
  // Section pass

  /** The section pass's state: the index so far and the section the last header named. */
  datatype Scan = Scan(idx: Index, current: Option<string>)

  /** One line of the section loop: a header sets the section; a numbered line after one is recorded under it. */
  function SectionStep(sc: Scan, line: string): Scan {
    match ParseSectionHeader(line)
    case Some(s) => sc.(current := Some(s))
    case None =>
      match ParseLineNumber(line)
      case None => sc
      case Some(n) =>
        match sc.current
        case None => sc
        case Some(s) => sc.(idx := FileNumbered(sc.idx, s, n))
  }

  /** Files line number `n` under section `s`. */
  function FileNumbered(idx: Index, s: string, n: nat): Index {
    idx.(contentTypes := Add(idx.contentTypes, s, n), total := Max(idx.total, n), lineToSection := idx.lineToSection[n := s])
  }

  function SectionScan(lines: seq<string>): Scan
    decreases |lines|
  {
    if lines == [] then Scan(Empty, None) else SectionStep(SectionScan(lines[..|lines| - 1]), lines[|lines| - 1])
  }

  lemma {:induction false} SectionScanSnoc(lines: seq<string>, i: nat)
    requires i < |lines|
    ensures SectionScan(lines[..i + 1]) == SectionStep(SectionScan(lines[..i]), lines[i])
  {
    assert lines[..i + 1][..i] == lines[..i];
  }

  /** A header line only changes the current section. */
  lemma {:induction false} HeaderStep(sc: Scan, line: string)
    requires ParseSectionHeader(line).Some?
    ensures SectionStep(sc, line) == sc.(current := ParseSectionHeader(line))
  {
  }

  /** Any other line is recorded when it is numbered and follows a header, and ignored otherwise. */
  lemma {:induction false} OtherStep(sc: Scan, line: string)
    requires ParseSectionHeader(line).None?
    ensures ParseLineNumber(line).Some? && sc.current.Some? ==>
      SectionStep(sc, line) == sc.(idx := FileNumbered(sc.idx, sc.current.value, ParseLineNumber(line).value))
    ensures ParseLineNumber(line).None? || sc.current.None? ==> SectionStep(sc, line) == sc
  {
  }

  /** The section loop of `process_file`. */
  method IndexSections(lines: seq<string>) returns (idx: Index)
    ensures idx == SectionScan(lines).idx
  {
    var contentTypes: Lists := map[];
    var total: nat := 0;
    var lineToSection: map<nat, string> := map[];
    var currentSection: Option<string> := None;
    for i := 0 to |lines|
      invariant Scan(Index(contentTypes, map[], total, lineToSection), currentSection) == SectionScan(lines[..i])
    {
      ghost var before := Scan(Index(contentTypes, map[], total, lineToSection), currentSection);
      SectionScanSnoc(lines, i);
      var section := ParseSectionHeader(lines[i]);
      if section.Some? {
        HeaderStep(before, lines[i]);
        currentSection := section;
      } else {
        OtherStep(before, lines[i]);
        var lineNum := ParseLineNumber(lines[i]);
        if lineNum.Some? && currentSection.Some? {
          var n := lineNum.value;
          total := Max(total, n);
          contentTypes := Add(contentTypes, currentSection.value, n);
          lineToSection := lineToSection[n := currentSection.value];
        }
      }
    }
    assert lines[..|lines|] == lines;
    idx := Index(contentTypes, map[], total, lineToSection);
  }

  /** The index `process_file` builds: the inline pass in inline mode, the section pass otherwise. */
  function BuildIndex(lines: seq<string>): Index {
    if InlineMode(lines) then InlineIndex(lines) else SectionScan(lines).idx
  }

  /** The classification part of `process_file`: the first pass, then one of the two passes. */
  method ClassifyLines(lines: seq<string>) returns (idx: Index)
    ensures idx == BuildIndex(lines)
  {
    var hasInlineTags, hasSectionHeaders := DetectStyle(lines);
    if hasInlineTags && !hasSectionHeaders {
      idx := IndexInline(lines);
    } else {
      idx := IndexSections(lines);
    }
  }

  // ---------------------------------------------------------------------------
  // What the index holds

  /** Every number filed under some key of `lists` is at most `total`. */
  predicate Bounded(lists: Lists, total: nat) {
    forall k, n :: k in lists && n in lists[k] ==> n <= total
  }

  /**
   * What both passes keep: no key without a number, `total` the largest number filed (0 when nothing
   * is), and each mapped number filed under the content type it maps to, which is a known one.
   */
  predicate Consistent(idx: Index) {
    && NoEmptyLists(idx.contentTypes) && NoEmptyLists(idx.professionalism)
    && Bounded(idx.contentTypes, idx.total) && Bounded(idx.professionalism, idx.total)
    && (idx.total == 0 || exists k :: k in idx.contentTypes && idx.total in idx.contentTypes[k])
    && (forall n :: n in idx.lineToSection ==> n in Get(idx.contentTypes, idx.lineToSection[n]))
    && (forall n :: n in idx.lineToSection ==> idx.lineToSection[n] in ContentOrder)
  }

  lemma {:induction false} AddKeeps(lists: Lists, k: string, n: nat, total: nat)
    requires NoEmptyLists(lists) && Bounded(lists, total) && n <= total
    ensures NoEmptyLists(Add(lists, k, n)) && Bounded(Add(lists, k, n), total)
    ensures n in Add(lists, k, n)[k]
  {
    var r := Add(lists, k, n);
    forall j, m | j in r && m in r[j]
      ensures m <= total
    {
      if j != k {
        assert r[j] == Get(lists, j);
      } else {
        assert r[j] == Get(lists, j) + [n];
      }
    }
    assert r[k] == Get(lists, k) + [n];
  }

  lemma {:induction false} BoundedMore(lists: Lists, total: nat, more: nat)
    requires Bounded(lists, total) && total <= more
    ensures Bounded(lists, more)
  {
  }

  lemma {:induction false} FileTaggedConsistent(idx: Index, t: InlineTag)
    requires Consistent(idx) && idx.lineToSection == map[]
    ensures Consistent(FileTagged(idx, t)) && FileTagged(idx, t).lineToSection == map[]
  {
    var total := Max(idx.total, t.number);
    BoundedMore(idx.contentTypes, idx.total, total);
    BoundedMore(idx.professionalism, idx.total, total);
    var key := if '|' in t.tag then BaseTag(t.tag) else t.tag;
    AddKeeps(idx.contentTypes, key, t.number, total);
    if '|' in t.tag {
      AddKeeps(idx.professionalism, SubTag(t.tag), t.number, total);
    }
    var r := FileTagged(idx, t);
    assert r.contentTypes == Add(idx.contentTypes, key, t.number);
    if total != t.number {
      var k :| k in idx.contentTypes && idx.total in idx.contentTypes[k];
      assert idx.total in r.contentTypes[k];
    }
  }

  lemma {:induction false} FileNumberedConsistent(idx: Index, s: string, n: nat)
    requires Consistent(idx) && s in ContentOrder
    ensures Consistent(FileNumbered(idx, s, n))
  {
    var total := Max(idx.total, n);
    BoundedMore(idx.contentTypes, idx.total, total);
    BoundedMore(idx.professionalism, idx.total, total);
    AddKeeps(idx.contentTypes, s, n, total);
    var r := FileNumbered(idx, s, n);
    if total != n {
      var k :| k in idx.contentTypes && idx.total in idx.contentTypes[k];
      assert idx.total in r.contentTypes[k];
    }
    forall m | m in r.lineToSection
      ensures m in Get(r.contentTypes, r.lineToSection[m])
    {
      if m != n {
        var j := idx.lineToSection[m];
        assert j == r.lineToSection[m];
        if j != s {
          assert Get(r.contentTypes, j) == Get(idx.contentTypes, j);
        } else {
          assert Get(r.contentTypes, j) == Get(idx.contentTypes, j) + [n];
        }
      }
    }
  }

  lemma {:induction false} InlineStepConsistent(idx: Index, line: string)
    requires Consistent(idx) && idx.lineToSection == map[]
    ensures Consistent(InlineStep(idx, line)) && InlineStep(idx, line).lineToSection == map[]
  {
    var tagged := ParseLineWithInlineTag(line);
    if tagged.Some? {
      FileTaggedConsistent(idx, tagged.value);
    }
  }

  lemma {:induction false} SectionStepConsistent(sc: Scan, line: string)
    requires Consistent(sc.idx) && sc.idx.professionalism == map[]
    requires sc.current.Some? ==> sc.current.value in ContentOrder
    ensures Consistent(SectionStep(sc, line).idx) && SectionStep(sc, line).idx.professionalism == map[]
    ensures SectionStep(sc, line).current.Some? ==> SectionStep(sc, line).current.value in ContentOrder
  {
    if ParseSectionHeader(line).Some? {
      HeaderStep(sc, line);
    } else {
      OtherStep(sc, line);
      if ParseLineNumber(line).Some? && sc.current.Some? {
        FileNumberedConsistent(sc.idx, sc.current.value, ParseLineNumber(line).value);
      }
    }
  }

  /** The inline pass leaves the line-to-section map empty and keeps the index consistent. */
  lemma {:induction false} InlineIndexConsistent(lines: seq<string>)
    ensures Consistent(InlineIndex(lines)) && InlineIndex(lines).lineToSection == map[]
    decreases |lines|
  {
    if lines != [] {
      InlineIndexConsistent(lines[..|lines| - 1]);
      InlineStepConsistent(InlineIndex(lines[..|lines| - 1]), lines[|lines| - 1]);
    }
  }

  /** The section pass files nothing under a professionalism level and keeps the index consistent. */
  lemma {:induction false} SectionScanConsistent(lines: seq<string>)
    ensures Consistent(SectionScan(lines).idx) && SectionScan(lines).idx.professionalism == map[]
    ensures SectionScan(lines).current.Some? ==> SectionScan(lines).current.value in ContentOrder
    decreases |lines|
  {
    if lines != [] {
      SectionScanConsistent(lines[..|lines| - 1]);
      SectionStepConsistent(SectionScan(lines[..|lines| - 1]), lines[|lines| - 1]);
    }
  }

  /** Whichever pass runs, the index is consistent. */
  lemma {:induction false} BuildIndexConsistent(lines: seq<string>)
    ensures Consistent(BuildIndex(lines))
  {
    if InlineMode(lines) {
      InlineIndexConsistent(lines);
    } else {
      SectionScanConsistent(lines);
    }
  }

  // ---------------------------------------------------------------------------
  // The lists, line by line

  /** The numbers of the lines whose inline tag has base `k`, in file order. */
  function TaggedNumbers(lines: seq<string>, k: string): seq<nat>
    decreases |lines|
  {
    if lines == [] then []
    else
      var t := ParseLineWithInlineTag(lines[|lines| - 1]);
      TaggedNumbers(lines[..|lines| - 1], k) + (if t.Some? && BaseTag(t.value.tag) == k then [t.value.number] else [])
  }

  /** The numbers of the lines whose inline tag is `a|k` for some `a`, in file order. */
  function LevelNumbers(lines: seq<string>, k: string): seq<nat>
    decreases |lines|
  {
    if lines == [] then []
    else
      var t := ParseLineWithInlineTag(lines[|lines| - 1]);
      LevelNumbers(lines[..|lines| - 1], k) +
        (if t.Some? && '|' in t.value.tag && SubTag(t.value.tag) == k then [t.value.number] else [])
  }

  lemma {:induction false} BaseOfPlain(tag: string)
    requires '|' !in tag
    ensures BaseTag(tag) == tag
  {
  }

  lemma {:induction false} FileTaggedLists(idx: Index, t: InlineTag, k: string)
    ensures Get(FileTagged(idx, t).contentTypes, k) ==
      Get(idx.contentTypes, k) + (if BaseTag(t.tag) == k then [t.number] else [])
    ensures Get(FileTagged(idx, t).professionalism, k) ==
      Get(idx.professionalism, k) + (if '|' in t.tag && SubTag(t.tag) == k then [t.number] else [])
  {
    if '|' !in t.tag {
      BaseOfPlain(t.tag);
    }
  }

  /**
   * In inline mode the content type `k` lists exactly the numbers of the lines tagged `k` or `k|…`,
   * and the level `k` exactly those of the lines tagged `…|k`, each in file order.
   */
  lemma {:induction false} InlineLists(lines: seq<string>, k: string)
    ensures Get(InlineIndex(lines).contentTypes, k) == TaggedNumbers(lines, k)
    ensures Get(InlineIndex(lines).professionalism, k) == LevelNumbers(lines, k)
    decreases |lines|
  {
    if lines != [] {
      var prefix, line := lines[..|lines| - 1], lines[|lines| - 1];
      InlineLists(prefix, k);
      var t := ParseLineWithInlineTag(line);
      if t.Some? {
        FileTaggedLists(InlineIndex(prefix), t.value, k);
      }
    }
  }

  /** The section named by the last header among the lines, if any. */
  function LastSection(lines: seq<string>): Option<string>
    decreases |lines|
  {
    if lines == [] then None
    else
      var h := ParseSectionHeader(lines[|lines| - 1]);
      if h.Some? then h else LastSection(lines[..|lines| - 1])
  }

  /** The numbers of the numbered lines that follow a header naming `k` with no other header in between. */
  function SectionNumbers(lines: seq<string>, k: string): seq<nat>
    decreases |lines|
  {
    if lines == [] then []
    else
      var prefix, line := lines[..|lines| - 1], lines[|lines| - 1];
      var n := ParseLineNumber(line);
      SectionNumbers(prefix, k) +
        (if ParseSectionHeader(line).None? && n.Some? && LastSection(prefix) == Some(k) then [n.value] else [])
  }

  lemma {:induction false} FileNumberedLists(idx: Index, s: string, n: nat, k: string)
    ensures Get(FileNumbered(idx, s, n).contentTypes, k) == Get(idx.contentTypes, k) + (if s == k then [n] else [])
  {
  }

  /**
   * In section mode the current section is the one the last header named, and the content type `k`
   * lists exactly the numbers of the lines under a header naming `k`, in file order.
   */
  lemma {:induction false} SectionLists(lines: seq<string>, k: string)
    ensures SectionScan(lines).current == LastSection(lines)
    ensures Get(SectionScan(lines).idx.contentTypes, k) == SectionNumbers(lines, k)
    decreases |lines|
  {
    if lines != [] {
      var prefix, line := lines[..|lines| - 1], lines[|lines| - 1];
      SectionLists(prefix, k);
      var sc := SectionScan(prefix);
      if ParseSectionHeader(line).Some? {
        HeaderStep(sc, line);
      } else {
        OtherStep(sc, line);
        if ParseLineNumber(line).Some? && sc.current.Some? {
          FileNumberedLists(sc.idx, sc.current.value, ParseLineNumber(line).value, k);
        }
      }
    }
  }

  lemma {:induction false} HeaderBeforePrefix(lines: seq<string>, i: nat)
    requires i <= |lines|
    ensures HeaderBefore(lines, i) == HeaderBefore(lines[..i], i)
  {
    if HeaderBefore(lines, i) {
      var j :| 0 <= j < i && IsHeaderLine(lines[j]);
      assert lines[..i][j] == lines[j];
    }
    if HeaderBefore(lines[..i], i) {
      var j :| 0 <= j < i && IsHeaderLine(lines[..i][j]);
      assert lines[..i][j] == lines[j];
    }
  }

  /** There is a last header exactly when there is a header at all. */
  lemma {:induction false} LastSectionSome(lines: seq<string>)
    ensures LastSection(lines).Some? <==> HasSectionHeaders(lines)
    decreases |lines|
  {
    if lines != [] {
      var prefix, last := lines[..|lines| - 1], lines[|lines| - 1];
      LastSectionSome(prefix);
      assert HasSectionHeaders(lines) == (HasSectionHeaders(prefix) || IsHeaderLine(last)) by {
        HeaderBeforeStep(lines, |lines| - 1);
        HeaderBeforePrefix(lines, |lines| - 1);
      }
      assert LastSection(lines).Some? == (IsHeaderLine(last) || LastSection(prefix).Some?);
    }
  }

  lemma {:induction false} NoSectionNothingFiled(lines: seq<string>)
    ensures SectionScan(lines).current.None? ==> SectionScan(lines).idx == Empty
    decreases |lines|
  {
    if lines != [] {
      var prefix, line := lines[..|lines| - 1], lines[|lines| - 1];
      NoSectionNothingFiled(prefix);
      if ParseSectionHeader(line).Some? {
        HeaderStep(SectionScan(prefix), line);
      } else {
        OtherStep(SectionScan(prefix), line);
      }
    }
  }

  /** Without any section header the section pass files nothing, so numbered lines before a first header never count. */
  lemma {:induction false} NoHeaderNoIndex(lines: seq<string>)
    requires !HasSectionHeaders(lines)
    ensures SectionScan(lines).idx == Empty
  {
    SectionLists(lines, "");
    LastSectionSome(lines);
    NoSectionNothingFiled(lines);
  }

  // ---------------------------------------------------------------------------
  // Back-filling inline tags

  /**
   * `re.sub(r'^(\d+\.)\s*', r'\1 [tag] ', line)` on the raw line: a line that starts with a number and
   * a '.' gets ` [tag] ` after them, in place of the blanks that followed; any other line is unchanged.
   */
  function InsertTag(line: string, tag: string): (r: string)
    ensures LeadingNumber(line).None? ==> r == line
    ensures LeadingNumber(line).Some? ==> StartsWith(r, LeadingNumber(line).value + ". [" + tag + "] ")
  {
    match LeadingNumber(line)
    case None => line
    case Some(d) =>
      var i := |d| + 1;
      d + ". [" + tag + "] " + line[i + SpaceRun(line, i)..]
  }

  /** The substitution on a line written as number, '.', blanks and the rest. */
  lemma {:induction false} InsertTagOf(d: string, sp: string, rest: string, tag: string)
    requires |d| > 0 && AllDigits(d) && AllSpace(sp) && (rest == [] || !IsSpace(rest[0]))
    ensures InsertTag(d + "." + sp + rest, tag) == d + ". [" + tag + "] " + rest
  {
    var line := d + "." + sp + rest;
    assert line[..|d| + 1] == d + ".";
    LeadingNumberExact(line, d);
    var i := |d| + 1;
    assert line[i..i + |sp|] == sp;
    SpaceRunExact(line, i, |sp|);
    assert line[i + |sp|..] == rest;
  }

  /** A line the substitution rewrote: number, ". [", the tag, "] " and the rest. */
  lemma {:induction false} InsertedShape(line: string, tag: string)
    requires LeadingNumber(line).Some?
    ensures var d := LeadingNumber(line).value;
      InsertTag(line, tag) == d + ". " + ("[" + tag + "]") + (" " + line[|d| + 1 + SpaceRun(line, |d| + 1)..])
  {
  }

  lemma {:induction false} StripNumbered(line: string, d: string)
    requires |d| > 0 && AllDigits(d) && StartsWith(line, d + ".")
    ensures StartsWith(Strip(line), d + ".") && IsDigit(Strip(line)[0])
  {
    var p := d + ".";
    assert p[0] == d[0] && IsDigit(p[0]);
    StripKeepsStart(line, p);
  }

  /** A line starting with a number and a '.' has that number whatever follows. */
  lemma {:induction false} NumberedStart(line: string, d: string)
    requires |d| > 0 && AllDigits(d) && StartsWith(line, d + ".")
    ensures ParseLineNumber(line) == Some(DigitsToNat(d))
  {
    StripNumbered(line, d);
    ParseLineNumberExact(line, d);
  }

  /** A line starting with a number and a '.' is no section header. */
  lemma {:induction false} NumberedStartNotHeader(line: string, d: string)
    requires |d| > 0 && AllDigits(d) && StartsWith(line, d + ".")
    ensures ParseSectionHeader(line) == None
  {
    StripNumbered(line, d);
    NumberedNotHeader(line);
  }

  /** The substitution keeps the line's number and never makes or unmakes a section header. */
  lemma {:induction false} InsertTagKeepsShape(line: string, tag: string)
    ensures ParseLineNumber(InsertTag(line, tag)) == ParseLineNumber(line)
    ensures ParseSectionHeader(InsertTag(line, tag)) == ParseSectionHeader(line)
  {
    var l := LeadingNumber(line);
    if l.Some? {
      var d := l.value;
      var r := InsertTag(line, tag);
      assert StartsWith(r, d + ".") by {
        assert r[..|d| + 1] == (d + ". [" + tag + "] ")[..|d| + 1];
      }
      NumberedStart(line, d);
      NumberedStart(r, d);
      NumberedStartNotHeader(line, d);
      NumberedStartNotHeader(r, d);
    }
  }

  /** One line of the back-fill loop: a numbered line mapped to a section gets that section's tag unless it already has it. */
  function BackfillLine(line: string, lineToSection: map<nat, string>): string {
    if ParseSectionHeader(line).Some? then line
    else
      match ParseLineNumber(line)
      case None => line
      case Some(n) =>
        if n !in lineToSection then line
        else
          var tag := lineToSection[n];
          if Contains(line, "[" + tag + "]") || Contains(line, "[" + tag + "|") then line else InsertTag(line, tag)
  }

  /** Back-filling keeps every line's number and header. */
  lemma {:induction false} BackfillKeepsShape(line: string, lineToSection: map<nat, string>)
    ensures ParseLineNumber(BackfillLine(line, lineToSection)) == ParseLineNumber(line)
    ensures ParseSectionHeader(BackfillLine(line, lineToSection)) == ParseSectionHeader(line)
  {
    var n := ParseLineNumber(line);
    if ParseSectionHeader(line).None? && n.Some? && n.value in lineToSection {
      InsertTagKeepsShape(line, lineToSection[n.value]);
    }
  }

  /** The case of the back-fill that rewrites the line. */
  lemma {:induction false} BackfillInserts(line: string, lineToSection: map<nat, string>, n: nat)
    requires ParseSectionHeader(line).None? && ParseLineNumber(line) == Some(n) && n in lineToSection
    requires !Contains(line, "[" + lineToSection[n] + "]") && !Contains(line, "[" + lineToSection[n] + "|")
    ensures BackfillLine(line, lineToSection) == InsertTag(line, lineToSection[n])
  {
  }

  /** A line the substitution rewrote carries the tag. */
  lemma {:induction false} InsertedTag(line: string, tag: string)
    requires LeadingNumber(line).Some?
    ensures Contains(InsertTag(line, tag), "[" + tag + "]")
  {
    InsertedShape(line, tag);
    var d := LeadingNumber(line).value;
    ContainsMiddle(d + ". ", "[" + tag + "]", " " + line[|d| + 1 + SpaceRun(line, |d| + 1)..]);
  }

  /**
   * A numbered line mapped to a section carries that section's tag after the back-fill, unless it is
   * indented (the substitution is anchored on the raw line).
   */
  lemma {:induction false} BackfillTags(line: string, lineToSection: map<nat, string>, n: nat)
    requires ParseSectionHeader(line).None? && ParseLineNumber(line) == Some(n) && n in lineToSection
    requires LeadingNumber(line).Some?
    ensures Contains(BackfillLine(line, lineToSection), "[" + lineToSection[n] + "]") ||
            Contains(BackfillLine(line, lineToSection), "[" + lineToSection[n] + "|")
  {
    var tag := lineToSection[n];
    if !Contains(line, "[" + tag + "]") && !Contains(line, "[" + tag + "|") {
      BackfillInserts(line, lineToSection, n);
      InsertedTag(line, tag);
    }
  }

  /** Back-filling a back-filled line changes nothing. */
  lemma {:induction false} BackfillIdempotent(line: string, lineToSection: map<nat, string>)
    ensures BackfillLine(BackfillLine(line, lineToSection), lineToSection) == BackfillLine(line, lineToSection)
  {
    var r := BackfillLine(line, lineToSection);
    if r != line {
      var n := ParseLineNumber(line).value;
      var tag := lineToSection[n];
      assert Contains(r, "[" + tag + "]") by {
        BackfillInserts(line, lineToSection, n);
        InsertedTag(line, tag);
      }
      BackfillKeepsShape(line, lineToSection);
    }
  }

  /** No content tag spans a line break. */
  lemma {:induction false} ContentTagsOneLine(tag: string)
    requires tag in ContentOrder
    ensures '\n' !in tag
  {
  }

  lemma {:induction false} InsertTagOneLine(line: string, tag: string)
    requires '\n' !in line && '\n' !in tag
    ensures '\n' !in InsertTag(line, tag)
  {
    if LeadingNumber(line).Some? {
      InsertedShape(line, tag);
      var d := LeadingNumber(line).value;
      assert d == line[..|d|];
      var k := |d| + 1 + SpaceRun(line, |d| + 1);
      assert '\n' !in line[k..];
    }
  }

  /** Back-filling with known content tags never breaks a line in two. */
  lemma {:induction false} BackfillOneLine(line: string, lineToSection: map<nat, string>)
    requires '\n' !in line && forall n :: n in lineToSection ==> lineToSection[n] in ContentOrder
    ensures '\n' !in BackfillLine(line, lineToSection)
  {
    if BackfillLine(line, lineToSection) != line {
      var n := ParseLineNumber(line).value;
      var tag := lineToSection[n];
      BackfillInserts(line, lineToSection, n);
      ContentTagsOneLine(tag);
      InsertTagOneLine(line, tag);
    }
  }

  /** `[f(x) for x in xs]`. */
  function Map(f: string -> string, xs: seq<string>): (r: seq<string>)
    ensures |r| == |xs| && forall k :: 0 <= k < |xs| ==> r[k] == f(xs[k])
    decreases |xs|
  {
    if xs == [] then [] else Map(f, xs[..|xs| - 1]) + [f(xs[|xs| - 1])]
  }

  lemma {:induction false} MapSnoc(f: string -> string, xs: seq<string>, i: nat)
    requires i < |xs|
    ensures Map(f, xs[..i + 1]) == Map(f, xs[..i]) + [f(xs[i])]
  {
    assert xs[..i + 1][..i] == xs[..i];
  }

  /** The lines after the back-fill loop. */
  function Backfilled(lines: seq<string>, lineToSection: map<nat, string>): seq<string> {
    Map(line => BackfillLine(line, lineToSection), lines)
  }

  /** The back-fill loop of `process_file`. */
  method Backfill(lines: seq<string>, lineToSection: map<nat, string>) returns (newLines: seq<string>)
    ensures newLines == Backfilled(lines, lineToSection)
  {
    ghost var f := line => BackfillLine(line, lineToSection);
    newLines := [];
    for i := 0 to |lines|
      invariant newLines == Map(f, lines[..i])
    {
      var line := BackfillLine(lines[i], lineToSection);
      MapSnoc(f, lines, i);
      newLines := newLines + [line];
    }
    assert lines[..|lines|] == lines;
  }

  // ---------------------------------------------------------------------------
  // Running the back-fill twice

  /** Two lists of lines with the same headers and the same line numbers, line by line. */
  predicate SameShape(a: seq<string>, b: seq<string>) {
    |a| == |b| &&
    forall i :: 0 <= i < |a| ==>
      ParseSectionHeader(a[i]) == ParseSectionHeader(b[i]) && ParseLineNumber(a[i]) == ParseLineNumber(b[i])
  }

  lemma {:induction false} SameShapeStep(sc: Scan, a: string, b: string)
    requires ParseSectionHeader(a) == ParseSectionHeader(b) && ParseLineNumber(a) == ParseLineNumber(b)
    ensures SectionStep(sc, a) == SectionStep(sc, b)
  {
  }

  /** The section pass sees only headers and line numbers. */
  lemma {:induction false} SameShapeScan(a: seq<string>, b: seq<string>)
    requires SameShape(a, b)
    ensures SectionScan(a) == SectionScan(b)
    decreases |a|
  {
    if a != [] {
      var k := |a| - 1;
      assert SameShape(a[..k], b[..k]) by {
        forall i | 0 <= i < k
          ensures a[..k][i] == a[i] && b[..k][i] == b[i]
        {
        }
      }
      SameShapeScan(a[..k], b[..k]);
      SameShapeStep(SectionScan(a[..k]), a[k], b[k]);
    }
  }

  lemma {:induction false} SameShapeHeaders(a: seq<string>, b: seq<string>)
    requires SameShape(a, b)
    ensures HasSectionHeaders(a) == HasSectionHeaders(b)
  {
    if HasSectionHeaders(a) {
      var j :| 0 <= j < |a| && IsHeaderLine(a[j]);
      assert IsHeaderLine(b[j]);
    }
    if HasSectionHeaders(b) {
      var j :| 0 <= j < |b| && IsHeaderLine(b[j]);
      assert IsHeaderLine(a[j]);
    }
  }

  lemma {:induction false} BackfilledShape(lines: seq<string>, lineToSection: map<nat, string>)
    ensures SameShape(lines, Backfilled(lines, lineToSection))
  {
    var b := Backfilled(lines, lineToSection);
    forall i | 0 <= i < |lines|
      ensures ParseSectionHeader(lines[i]) == ParseSectionHeader(b[i]) && ParseLineNumber(lines[i]) == ParseLineNumber(b[i])
    {
      BackfillKeepsShape(lines[i], lineToSection);
    }
  }

  /** A non-empty line-to-section map comes only from the section pass over a file with headers. */
  lemma {:induction false} MappedMeansSections(lines: seq<string>)
    requires BuildIndex(lines).lineToSection != map[]
    ensures !InlineMode(lines) && HasSectionHeaders(lines)
  {
    if InlineMode(lines) {
      InlineIndexConsistent(lines);
    } else if !HasSectionHeaders(lines) {
      NoHeaderNoIndex(lines);
    }
  }

  /** The back-fill leaves the index of the file unchanged: classifying the new lines gives the same index. */
  lemma {:induction false} BackfillKeepsIndex(lines: seq<string>)
    requires BuildIndex(lines).lineToSection != map[]
    ensures BuildIndex(Backfilled(lines, BuildIndex(lines).lineToSection)) == BuildIndex(lines)
  {
    var b := Backfilled(lines, BuildIndex(lines).lineToSection);
    MappedMeansSections(lines);
    BackfilledShape(lines, BuildIndex(lines).lineToSection);
    SameShapeScan(lines, b);
    SameShapeHeaders(lines, b);
  }

  lemma {:induction false} BackfilledTwice(lines: seq<string>, lineToSection: map<nat, string>)
    ensures Backfilled(Backfilled(lines, lineToSection), lineToSection) == Backfilled(lines, lineToSection)
  {
    forall i | 0 <= i < |lines| {
      BackfillIdempotent(lines[i], lineToSection);
    }
  }

  // ---------------------------------------------------------------------------
  // The whole file

  /** What `process_file` produces: the new header, and the text it is spliced into. */
  datatype Output = Output(header: string, content: string)

  /** `process_file` on the file's text; None when no numbered line was found (the largest number is 0). */
  function Process(content: string, addInlineTags: bool): Option<Output> {
    var lines := Split(content, '\n');
    var idx := BuildIndex(lines);
    if idx.total == 0 then None
    else
      var text := if addInlineTags && idx.lineToSection != map[] then Join(Backfilled(lines, idx.lineToSection), '\n') else content;
      Some(Output(HeaderText(idx.contentTypes, idx.professionalism, idx.total), text))
  }

  /** `process_file` without reading, splicing and writing the file. */
  method ProcessFile(content: string, addInlineTags: bool) returns (r: Option<Output>)
    ensures r == Process(content, addInlineTags)
  {
    var lines := Split(content, '\n');
    var idx := ClassifyLines(lines);
    if idx.total == 0 {
      return None;
    }
    var header := GenerateHeader(idx.contentTypes, idx.professionalism, idx.total);
    var text := content;
    if addInlineTags && idx.lineToSection != map[] {
      var newLines := Backfill(lines, idx.lineToSection);
      text := Join(newLines, '\n');
    }
    r := Some(Output(header, text));
  }

  /**
   * Running `process_file` again on the text it back-filled (before the header is
   * spliced in) changes nothing: the same header and the same text.
   */
  lemma {:induction false} SecondRunAddsNothing(content: string, addInlineTags: bool)
    requires Process(content, addInlineTags).Some?
    ensures Process(Process(content, addInlineTags).value.content, addInlineTags) == Process(content, addInlineTags)
  {
    var lines := Split(content, '\n');
    var idx := BuildIndex(lines);
    if addInlineTags && idx.lineToSection != map[] {
      var lts := idx.lineToSection;
      var b := Backfilled(lines, lts);
      assert Split(Join(b, '\n'), '\n') == b by {
        BuildIndexConsistent(lines);
        forall i | 0 <= i < |b|
          ensures '\n' !in b[i]
        {
          BackfillOneLine(lines[i], lts);
        }
        SplitJoin(b, '\n');
      }
      BackfillKeepsIndex(lines);
      BackfilledTwice(lines, lts);
    }
  }
}
