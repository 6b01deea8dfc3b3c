/**
 * `generate_header`: the comment block listing, per content type and per professionalism level,
 * the line numbers that carry it, followed by the total number of speaker lines.
 */
module HeaderBlock {
  import opened Text
  import opened HeaderRanges
  import HeaderParse

  /** Category name to the line numbers recorded for it, in file order and with repetitions. */
  type Lists = map<string, seq<nat>>

  /** The professionalism levels, in the order the header lists them. */
  const ProfessionalismOrder: seq<string> := ["casual", "professional"]

  /** The fixed lines before the content-type entries. */
  const TopLines: seq<string> := ["# Use these to select lines by category.", "#", "# === CONTENT TYPE ==="]

  /** The fixed lines between the two groups of entries. */
  const MiddleLines: seq<string> := ["#", "# === PROFESSIONALISM" + " (customer_support only) ==="]

  /** The text the header starts with: the top lines, each ended by a line break. */
  const Preamble: string := TopLines[0] + "\n" + TopLines[1] + "\n" + TopLines[2] + "\n"

  /** The text before the professionalism entries. */
  const ProfessionalismTitle: string := MiddleLines[0] + "\n" + MiddleLines[1] + "\n"

  /** The last part: the total and the closing `#`, which has no line break after it. */
  function Footer(total: nat): string {
    "#\n# TOTAL: " + NatToString(total) + " speaker lines\n#"
  }

  /** `# name: ranges  # k lines`, where k counts the recorded numbers, repetitions included. */
  function EntryLine(name: string, nums: seq<nat>): string {
    "# " + name + ": " + RangeText(nums) + "  # " + NatToString(|nums|) + " lines"
  }

  /** One entry line per key that has a list, in the order of the keys. */
  function EntryLines(keys: seq<string>, lists: Lists): seq<string>
    decreases |keys|
  {
    if keys == [] then []
    else
      var k := keys[|keys| - 1];
      EntryLines(keys[..|keys| - 1], lists) + (if k in lists then [EntryLine(k, lists[k])] else [])
  }

  /** Each line followed by a line break. */
  function Terminated(ls: seq<string>): string
    decreases |ls|
  {
    if ls == [] then [] else Terminated(ls[..|ls| - 1]) + ls[|ls| - 1] + "\n"
  }

  /** One more key with a list adds its entry line. */
  lemma {:induction false} EntryStepIn(keys: seq<string>, i: nat, lists: Lists)
    requires i < |keys| && keys[i] in lists
    ensures Terminated(EntryLines(keys[..i + 1], lists)) ==
      Terminated(EntryLines(keys[..i], lists)) + (EntryLine(keys[i], lists[keys[i]]) + "\n")
  {
    assert keys[..i + 1][..i] == keys[..i];
    var pre := EntryLines(keys[..i], lists);
    var e := EntryLine(keys[i], lists[keys[i]]);
    var ls := pre + [e];
    assert ls[..|ls| - 1] == pre;
    assert Terminated(ls) == Terminated(pre) + e + "\n";
  }

  /** One more key without a list adds nothing. */
  lemma {:induction false} EntryStepOut(keys: seq<string>, i: nat, lists: Lists)
    requires i < |keys| && keys[i] !in lists
    ensures EntryLines(keys[..i + 1], lists) == EntryLines(keys[..i], lists)
  {
    assert keys[..i + 1][..i] == keys[..i];
    assert EntryLines(keys[..i], lists) + [] == EntryLines(keys[..i], lists);
  }

  lemma {:induction false} Appended(a: string, b: string, c: string)
    ensures (a + b) + c == a + (b + c)
  {
  }

  /** The header `generate_header` returns. */
  function HeaderText(contentTypes: Lists, professionalism: Lists, total: nat): string {
    Preamble + Terminated(EntryLines(HeaderParse.ContentOrder, contentTypes)) +
    ProfessionalismTitle + Terminated(EntryLines(ProfessionalismOrder, professionalism)) +
    Footer(total)
  }

  /** `generate_header`: the fixed preamble, the two groups of entries and the footer. */
  method GenerateHeader(contentTypes: Lists, professionalism: Lists, total: nat) returns (header: string)
    ensures header == HeaderText(contentTypes, professionalism, total)
  {
    header := Preamble;
    header := AppendEntries(header, HeaderParse.ContentOrder, contentTypes);
    header := header + ProfessionalismTitle;
    header := AppendEntries(header, ProfessionalismOrder, professionalism);
    var footer := "#\n# TOTAL: " + NatToString(total) + " speaker lines\n#";
    assert footer == Footer(total);
    header := header + footer;
  }

  /** One loop of `generate_header`: an entry line for each key in order that has a list. */
  method AppendEntries(before: string, order: seq<string>, lists: Lists) returns (header: string)
    ensures header == before + Terminated(EntryLines(order, lists))
  {
    header := before;
    for i := 0 to |order|
      invariant header == before + Terminated(EntryLines(order[..i], lists))
    {
      var key := order[i];
      if key in lists {
        var nums := lists[key];
        var ranges := RangesToString(nums);
        var entry := "# " + key + ": " + ranges + "  # " + NatToString(|nums|) + " lines\n";
        assert entry == EntryLine(key, nums) + "\n";
        EntryStepIn(order, i, lists);
        Appended(before, Terminated(EntryLines(order[..i], lists)), entry);
        header := header + entry;
      } else {
        EntryStepOut(order, i, lists);
      }
    }
    assert order[..|order|] == order;
  }

  // ---------------------------------------------------------------------------
  // Reading the header back

  /** The lines of the header, one per line break. */
  function HeaderLinesOf(contentTypes: Lists, professionalism: Lists, total: nat): seq<string> {
    TopLines + EntryLines(HeaderParse.ContentOrder, contentTypes) + MiddleLines +
    EntryLines(ProfessionalismOrder, professionalism) + ["#", "# TOTAL: " + NatToString(total) + " speaker lines", "#"]
  }

  /**
   * Split at its line breaks, the header is the fixed lines with one entry line per category that
   * has a list, content types and then professionalism levels, each group in its fixed order.
   */
  lemma {:induction false} HeaderLines(contentTypes: Lists, professionalism: Lists, total: nat)
    ensures Split(HeaderText(contentTypes, professionalism, total), '\n') == HeaderLinesOf(contentTypes, professionalism, total)
  {
    var body := HeaderBody(contentTypes, professionalism, total);
    HeaderTerminated(contentTypes, professionalism, total);
    TerminatedJoin(body, "#");
    assert body + ["#"] == HeaderLinesOf(contentTypes, professionalism, total);
    NoBreaks(contentTypes, professionalism, total);
    SplitJoin(body + ["#"], '\n');
  }

  /** The header's lines up to the last, each of which the header ends with a line break. */
  function HeaderBody(contentTypes: Lists, professionalism: Lists, total: nat): seq<string> {
    TopLines + EntryLines(HeaderParse.ContentOrder, contentTypes) + MiddleLines +
    EntryLines(ProfessionalismOrder, professionalism) + ["#", "# TOTAL: " + NatToString(total) + " speaker lines"]
  }

  lemma {:induction false} HeaderTerminated(contentTypes: Lists, professionalism: Lists, total: nat)
    ensures HeaderText(contentTypes, professionalism, total) == Terminated(HeaderBody(contentTypes, professionalism, total)) + "#"
  {
    var e1 := EntryLines(HeaderParse.ContentOrder, contentTypes);
    var e2 := EntryLines(ProfessionalismOrder, professionalism);
    var totalLine := "# TOTAL: " + NatToString(total) + " speaker lines";
    FixedParts(total);
    TerminatedAppend(TopLines, e1);
    TerminatedAppend(TopLines + e1, MiddleLines);
    TerminatedAppend(TopLines + e1 + MiddleLines, e2);
    TerminatedAppend(TopLines + e1 + MiddleLines + e2, ["#", totalLine]);
  }

  /** The fixed texts are their lines, each ended by a line break. */
  lemma {:induction false} FixedParts(total: nat)
    ensures Preamble == Terminated(TopLines)
    ensures ProfessionalismTitle == Terminated(MiddleLines)
    ensures Footer(total) == Terminated(["#", "# TOTAL: " + NatToString(total) + " speaker lines"]) + "#"
  {
    TerminatedThree(TopLines);
    TerminatedTwo(MiddleLines);
    TerminatedTwo(["#", "# TOTAL: " + NatToString(total) + " speaker lines"]);
  }

  lemma {:induction false} TerminatedTwo(ls: seq<string>)
    requires |ls| == 2
    ensures Terminated(ls) == ls[0] + "\n" + ls[1] + "\n"
  {
    assert ls[..1][..0] == [] && ls[..1][0] == ls[0];
    assert Terminated(ls[..1]) == ls[0] + "\n";
  }

  lemma {:induction false} TerminatedThree(ls: seq<string>)
    requires |ls| == 3
    ensures Terminated(ls) == ls[0] + "\n" + ls[1] + "\n" + ls[2] + "\n"
  {
    TerminatedTwo(ls[..2]);
  }

  lemma {:induction false} TerminatedAppend(a: seq<string>, b: seq<string>)
    ensures Terminated(a + b) == Terminated(a) + Terminated(b)
    decreases |b|
  {
    if b == [] {
      assert a + b == a;
    } else {
      var pre := b[..|b| - 1];
      TerminatedAppend(a, pre);
      assert (a + b)[..|a + b| - 1] == a + pre;
    }
  }

  /** Lines each ended by a line break, then a last line: the lines joined by line breaks. */
  lemma {:induction false} TerminatedJoin(ls: seq<string>, last: string)
    ensures Terminated(ls) + last == Join(ls + [last], '\n')
    decreases |ls|
  {
    if ls != [] {
      var pre := ls[..|ls| - 1];
      var x := ls[|ls| - 1];
      TerminatedJoin(pre, x);
      assert ls == pre + [x];
      JoinSnoc(ls, last, '\n');
    }
  }

  predicate NoBreak(ls: seq<string>) {
    forall i :: 0 <= i < |ls| ==> '\n' !in ls[i]
  }

  lemma {:induction false} NoBreakJoin(a: seq<string>, b: seq<string>)
    requires NoBreak(a) && NoBreak(b)
    ensures NoBreak(a + b)
  {
    assert forall i :: |a| <= i < |a + b| ==> (a + b)[i] == b[i - |a|];
  }

  /** No line of the header holds a line break. */
  lemma {:induction false} NoBreaks(contentTypes: Lists, professionalism: Lists, total: nat)
    ensures NoBreak(HeaderLinesOf(contentTypes, professionalism, total))
  {
    var e1 := EntryLines(HeaderParse.ContentOrder, contentTypes);
    var e2 := EntryLines(ProfessionalismOrder, professionalism);
    var last := ["#", "# TOTAL: " + NatToString(total) + " speaker lines", "#"];
    EntryLinesNoBreak(HeaderParse.ContentOrder, contentTypes);
    EntryLinesNoBreak(ProfessionalismOrder, professionalism);
    FixedNoBreak();
    assert NoBreak(last) by {
      NumberNoBreak(total);
    }
    NoBreakJoin(TopLines, e1);
    NoBreakJoin(TopLines + e1, MiddleLines);
    NoBreakJoin(TopLines + e1 + MiddleLines, e2);
    NoBreakJoin(TopLines + e1 + MiddleLines + e2, last);
  }

  lemma {:induction false} FixedNoBreak()
    ensures NoBreak(TopLines) && NoBreak(MiddleLines)
  {
    UseTheseNoBreak();
    ContentTitleNoBreak();
    ProfessionalismTitleNoBreak();
  }

  lemma {:induction false} UseTheseNoBreak()
    ensures '\n' !in "# Use these to select lines by category."
  {
  }

  lemma {:induction false} ContentTitleNoBreak()
    ensures '\n' !in "# === CONTENT TYPE ==="
  {
  }

  lemma {:induction false} ProfessionalismTitleNoBreak()
    ensures '\n' !in "# === PROFESSIONALISM" + " (customer_support only) ==="
  {
    var a, b := "# === PROFESSIONALISM", " (customer_support only) ===";
    assert '\n' !in a;
    assert '\n' !in b;
    assert forall i :: |a| <= i < |a + b| ==> (a + b)[i] == b[i - |a|];
  }

  lemma {:induction false} NumberNoBreak(n: nat)
    ensures '\n' !in NatToString(n)
  {
    var s := NatToString(n);
    assert forall i :: 0 <= i < |s| ==> IsDigit(s[i]);
  }

  lemma {:induction false} EntryLinesNoBreak(keys: seq<string>, lists: Lists)
    requires forall i :: 0 <= i < |keys| ==> '\n' !in keys[i]
    ensures NoBreak(EntryLines(keys, lists))
    decreases |keys|
  {
    if keys != [] {
      var k := keys[|keys| - 1];
      EntryLinesNoBreak(keys[..|keys| - 1], lists);
      if k in lists {
        RangeTextChars(lists[k]);
        NumberNoBreak(|lists[k]|);
      }
    }
  }

  /** The category an entry line is about: the text between `# ` and the first `:`. */
  function EntryName(line: string): string {
    var k := IndexOf(line, ':', 0);
    if 2 <= k then line[2..k] else ""
  }

  /** The name of a category without a `:` is read back from its entry line. */
  lemma {:induction false} EntryNameOf(name: string, nums: seq<nat>)
    requires ':' !in name
    ensures EntryName(EntryLine(name, nums)) == name
  {
    var r, n := RangeText(nums), NatToString(|nums|);
    var tail := ": " + r + "  # " + n + " lines";
    assert EntryLine(name, nums) == "# " + name + tail by {
      AfterName("# ", name, ": ", r, "  # ", n, " lines");
    }
    assert tail[0] == ':';
    NameBeforeColon(name, tail);
  }

  /** `# name` followed by a text that starts with ':' names `name`, when `name` has no ':'. */
  lemma {:induction false} NameBeforeColon(name: string, tail: string)
    requires ':' !in name && tail != [] && tail[0] == ':'
    ensures EntryName("# " + name + tail) == name
  {
    var pre := "# " + name;
    assert ':' !in pre by {
      assert forall j :: 2 <= j < |pre| ==> pre[j] == name[j - 2];
    }
    IndexOfAfter(pre, ':', tail);
    assert (pre + tail)[2..|pre|] == name;
  }

  /** An entry line is its `# name` part followed by the rest. */
  lemma {:induction false} AfterName(a: string, name: string, b: string, r: string, c: string, n: string, d: string)
    ensures a + name + b + r + c + n + d == (a + name) + (b + r + c + n + d)
  {
  }

  /** The keys that have a list, in the order of the keys. */
  function Present(keys: seq<string>, lists: Lists): seq<string>
    decreases |keys|
  {
    if keys == [] then []
    else
      var k := keys[|keys| - 1];
      Present(keys[..|keys| - 1], lists) + (if k in lists then [k] else [])
  }

  function Names(ls: seq<string>): (r: seq<string>)
    ensures |r| == |ls| && forall i :: 0 <= i < |ls| ==> r[i] == EntryName(ls[i])
  {
    seq(|ls|, i requires 0 <= i < |ls| => EntryName(ls[i]))
  }

  /** The entry lines name exactly the keys that have a list, in order, each once per occurrence in the keys. */
  lemma {:induction false} EntryLinesNames(keys: seq<string>, lists: Lists)
    requires forall i :: 0 <= i < |keys| ==> ':' !in keys[i]
    ensures Names(EntryLines(keys, lists)) == Present(keys, lists)
    decreases |keys|
  {
    if keys != [] {
      var k := keys[|keys| - 1];
      EntryLinesNames(keys[..|keys| - 1], lists);
      if k in lists {
        EntryNameOf(k, lists[k]);
      }
    }
  }

  /** The content-type entries of a header are those of the five types that have lines, in the fixed order. */
  lemma {:induction false} HeaderContentTypes(contentTypes: Lists)
    ensures Names(EntryLines(HeaderParse.ContentOrder, contentTypes)) == Present(HeaderParse.ContentOrder, contentTypes)
  {
    EntryLinesNames(HeaderParse.ContentOrder, contentTypes);
  }

  /** The professionalism entries are those of `casual` and `professional` that have lines, in that order. */
  lemma {:induction false} HeaderProfessionalism(professionalism: Lists)
    ensures Names(EntryLines(ProfessionalismOrder, professionalism)) == Present(ProfessionalismOrder, professionalism)
  {
    assert ':' !in ProfessionalismOrder[0] && ':' !in ProfessionalismOrder[1];
    EntryLinesNames(ProfessionalismOrder, professionalism);
  }
}
