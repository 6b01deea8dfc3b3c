/**
 * `ranges_to_string`: a list of line numbers written as ascending runs, `1-20, 31-40, 45`.
 * The numbers are first made a sorted list without duplicates; consecutive numbers then form
 * one run, written `lo-hi`, or just `lo` when the run holds one number.
 */
module HeaderRanges {
  import opened Text

  predicate Increasing(xs: seq<nat>) {
    forall i, j :: 0 <= i < j < |xs| ==> xs[i] < xs[j]
  }

  function Elems(xs: seq<nat>): set<nat> {
    set x | x in xs
  }

  // ---------------------------------------------------------------------------
  // sorted(set(numbers))

  /** Puts `x` into its place in an increasing sequence, unless it is already there. */
  function Insert(x: nat, ys: seq<nat>): (r: seq<nat>)
    ensures Elems(r) == Elems(ys) + {x}
    decreases |ys|
  {
    if ys == [] then [x]
    else if x < ys[0] then [x] + ys
    else if x == ys[0] then
      assert ys == [ys[0]] + ys[1..];
      ys
    else
      assert ys == [ys[0]] + ys[1..];
      ElemsCons(ys[0], Insert(x, ys[1..]));
      ElemsCons(ys[0], ys[1..]);
      [ys[0]] + Insert(x, ys[1..])
  }

  lemma {:induction false} ElemsCons(a: nat, t: seq<nat>)
    ensures Elems([a] + t) == {a} + Elems(t)
  {
    assert forall z :: z in [a] + t <==> z == a || z in t;
  }

  lemma {:induction false} ElemsEmpty(b: seq<nat>)
    ensures Elems(b) == {} <==> b == []
  {
    if b != [] {
      assert b[0] in Elems(b);
    }
  }

  lemma {:induction false} InsertIncreasing(x: nat, ys: seq<nat>)
    requires Increasing(ys)
    ensures Increasing(Insert(x, ys))
    decreases |ys|
  {
    if ys != [] && x > ys[0] {
      var t := Insert(x, ys[1..]);
      InsertIncreasing(x, ys[1..]);
      assert forall k :: 0 <= k < |t| ==> t[k] in Elems(t);
      assert forall k :: 0 <= k < |ys[1..]| ==> ys[1..][k] > ys[0];
    }
  }

  /** `sorted(set(numbers))`: the distinct numbers, in increasing order. */
  function SortedDistinct(xs: seq<nat>): (r: seq<nat>)
    ensures Increasing(r) && Elems(r) == Elems(xs)
    decreases |xs|
  {
    if xs == [] then []
    else
      assert xs == xs[..|xs| - 1] + [xs[|xs| - 1]];
      InsertIncreasing(xs[|xs| - 1], SortedDistinct(xs[..|xs| - 1]));
      Insert(xs[|xs| - 1], SortedDistinct(xs[..|xs| - 1]))
  }

  /** An increasing sequence is determined by its set of elements. */
  lemma {:induction false} IncreasingUnique(a: seq<nat>, b: seq<nat>)
    requires Increasing(a) && Increasing(b) && Elems(a) == Elems(b)
    ensures a == b
    decreases |a|
  {
    if a == [] {
      ElemsEmpty(a);
      ElemsEmpty(b);
    } else {
      assert a[0] in Elems(b);
      assert b != [] && b[0] in Elems(a);
      assert a[0] == b[0];
      assert Elems(a[1..]) == Elems(a) - {a[0]} by {
        assert a == [a[0]] + a[1..];
        assert forall k :: 0 <= k < |a[1..]| ==> a[1..][k] > a[0];
      }
      assert Elems(b[1..]) == Elems(b) - {b[0]} by {
        assert b == [b[0]] + b[1..];
        assert forall k :: 0 <= k < |b[1..]| ==> b[1..][k] > b[0];
      }
      IncreasingUnique(a[1..], b[1..]);
      assert a == [a[0]] + a[1..] && b == [b[0]] + b[1..];
    }
  }

  /** Only the set of numbers matters: their order and repetitions do not. */
  lemma {:induction false} SortedDistinctSetOnly(xs: seq<nat>, ys: seq<nat>)
    requires Elems(xs) == Elems(ys)
    ensures SortedDistinct(xs) == SortedDistinct(ys)
  {
    IncreasingUnique(SortedDistinct(xs), SortedDistinct(ys));
  }

  /** Numbers already sorted and distinct are left as they are. */
  lemma {:induction false} SortedDistinctOfIncreasing(xs: seq<nat>)
    requires Increasing(xs)
    ensures SortedDistinct(xs) == xs
  {
    IncreasingUnique(SortedDistinct(xs), xs);
  }

  // ---------------------------------------------------------------------------
  // Runs

  /** The run `lo-hi` of consecutive numbers. */
  datatype Run = Run(lo: nat, hi: nat)

  /**
   * The runs the loop builds over an increasing sequence: a number one past the end of the open
   * run extends it, any other number closes it and opens a new one.
   */
  function Runs(ys: seq<nat>): (r: seq<Run>)
    ensures |ys| > 0 ==> |r| > 0 && r[|r| - 1].hi == ys[|ys| - 1]
    decreases |ys|
  {
    if ys == [] then []
    else if |ys| == 1 then [Run(ys[0], ys[0])]
    else
      var rs := Runs(ys[..|ys| - 1]);
      var n := ys[|ys| - 1];
      var open := rs[|rs| - 1];
      if n == open.hi + 1 then rs[..|rs| - 1] + [Run(open.lo, n)] else rs + [Run(n, n)]
  }

  /** One more number past the prefix updates the runs as the loop body does. */
  lemma {:induction false} RunsSnoc(ys: seq<nat>, i: nat)
    requires 0 < i < |ys|
    ensures var rs := Runs(ys[..i]);
      Runs(ys[..i + 1]) ==
        if ys[i] == rs[|rs| - 1].hi + 1 then rs[..|rs| - 1] + [Run(rs[|rs| - 1].lo, ys[i])] else rs + [Run(ys[i], ys[i])]
  {
    assert ys[..i + 1][..i] == ys[..i];
  }

  /** `x` lies in one of the runs. */
  predicate InRuns(x: nat, rs: seq<Run>) {
    exists i :: 0 <= i < |rs| && rs[i].lo <= x <= rs[i].hi
  }

  /** Each run is ascending, and between two neighbouring runs at least one number is missing. */
  predicate Gapped(rs: seq<Run>) {
    (forall i :: 0 <= i < |rs| ==> rs[i].lo <= rs[i].hi) &&
    (forall i :: 0 <= i < |rs| - 1 ==> rs[i].hi + 1 < rs[i + 1].lo)
  }

  /** The runs are ascending and maximal: no two of them could be merged. */
  lemma {:induction false} RunsGapped(ys: seq<nat>)
    requires Increasing(ys)
    ensures Gapped(Runs(ys))
    decreases |ys|
  {
    if |ys| > 1 {
      var pre := ys[..|ys| - 1];
      RunsGapped(pre);
      var rs := Runs(pre);
      assert rs[|rs| - 1].hi == ys[|ys| - 2];
    }
  }

  /** Every number inside a run is one of the numbers. */
  lemma {:induction false} RunsInside(ys: seq<nat>, x: nat)
    requires Increasing(ys) && InRuns(x, Runs(ys))
    ensures x in Elems(ys)
    decreases |ys|
  {
    if |ys| > 1 {
      var pre := ys[..|ys| - 1];
      var n := ys[|ys| - 1];
      var rs := Runs(pre);
      assert ys == pre + [n];
      var i :| 0 <= i < |Runs(ys)| && Runs(ys)[i].lo <= x <= Runs(ys)[i].hi;
      if x == n {
      } else if i < |rs| - 1 || (i == |rs| - 1 && n != rs[|rs| - 1].hi + 1) {
        assert rs[i] == Runs(ys)[i];
        RunsInside(pre, x);
      } else if i == |rs| - 1 {
        assert x <= rs[i].hi;
        assert InRuns(x, rs) by {
          assert rs[i].lo <= x <= rs[i].hi;
        }
        RunsInside(pre, x);
      }
    }
  }

  /** Every number lies in a run. */
  lemma {:induction false} RunsReach(ys: seq<nat>, x: nat)
    requires Increasing(ys) && x in Elems(ys)
    ensures InRuns(x, Runs(ys))
    decreases |ys|
  {
    var r := Runs(ys);
    if |ys| == 1 {
      assert r[0].lo <= x <= r[0].hi;
    } else {
      var pre := ys[..|ys| - 1];
      var n := ys[|ys| - 1];
      var rs := Runs(pre);
      assert ys == pre + [n];
      if x == n {
        assert r[|r| - 1].lo <= x <= r[|r| - 1].hi by {
          RunsGapped(ys);
        }
      } else {
        assert x in Elems(pre);
        RunsReach(pre, x);
        var i :| 0 <= i < |rs| && rs[i].lo <= x <= rs[i].hi;
        if i < |rs| - 1 || n != rs[|rs| - 1].hi + 1 {
          assert r[i] == rs[i];
        } else {
          assert r[i].lo <= x <= r[i].hi;
        }
      }
    }
  }

  /** The runs cover exactly the numbers. */
  lemma {:induction false} RunsCover(ys: seq<nat>)
    requires Increasing(ys)
    ensures forall x :: x in Elems(ys) <==> InRuns(x, Runs(ys))
  {
    forall x
      ensures x in Elems(ys) <==> InRuns(x, Runs(ys))
    {
      if x in Elems(ys) {
        RunsReach(ys, x);
      }
      if InRuns(x, Runs(ys)) {
        RunsInside(ys, x);
      }
    }
  }

  // ---------------------------------------------------------------------------
  // Text

  /** `str(start)` for a run of one number, `f"{start}-{end}"` otherwise. */
  function RunText(r: Run): string {
    if r.lo == r.hi then NatToString(r.lo) else NatToString(r.lo) + "-" + NatToString(r.hi)
  }

  function RunTexts(rs: seq<Run>): (ts: seq<string>)
    ensures |ts| == |rs| && forall i :: 0 <= i < |rs| ==> ts[i] == RunText(rs[i])
  {
    seq(|rs|, i requires 0 <= i < |rs| => RunText(rs[i]))
  }

  /** `", ".join(ls)`. */
  function JoinComma(ls: seq<string>): string
    decreases |ls|
  {
    if ls == [] then []
    else if |ls| == 1 then ls[0]
    else ls[0] + ", " + JoinComma(ls[1..])
  }

  /** The characters a range text is written with. */
  predicate RangeChar(c: char) {
    IsDigit(c) || c == '-' || c == ',' || c == ' '
  }

  predicate AllRangeChars(s: string) {
    forall i :: 0 <= i < |s| ==> RangeChar(s[i])
  }

  /** The text `ranges_to_string` returns: empty exactly for no numbers, else the runs joined by `, `. */
  function RangeText(numbers: seq<nat>): (s: string)
    ensures s == [] <==> numbers == []
  {
    if numbers == [] then ""
    else
      var ys := SortedDistinct(numbers);
      assert ys != [] by {
        assert numbers[0] in Elems(numbers);
      }
      var ts := RunTexts(Runs(ys));
      JoinNonEmpty(ts);
      JoinComma(ts)
  }

  lemma {:induction false} JoinNonEmpty(ts: seq<string>)
    requires |ts| > 0 && forall i :: 0 <= i < |ts| ==> ts[i] != []
    ensures JoinComma(ts) != []
  {
  }

  lemma {:induction false} RunTextChars(r: Run)
    ensures AllRangeChars(RunText(r))
  {
    var a := NatToString(r.lo);
    var b := NatToString(r.hi);
    assert forall i :: 0 <= i < |a| ==> IsDigit(a[i]);
    assert forall i :: 0 <= i < |b| ==> IsDigit(b[i]);
  }

  lemma {:induction false} JoinCommaChars(ts: seq<string>)
    requires forall i :: 0 <= i < |ts| ==> AllRangeChars(ts[i])
    ensures AllRangeChars(JoinComma(ts))
    decreases |ts|
  {
    if |ts| > 1 {
      JoinCommaChars(ts[1..]);
    }
  }

  /** A range text holds only digits, `-`, `,` and spaces: never a line break. */
  lemma {:induction false} RangeTextChars(numbers: seq<nat>)
    ensures AllRangeChars(RangeText(numbers))
    ensures '\n' !in RangeText(numbers)
  {
    if numbers != [] {
      var rs := Runs(SortedDistinct(numbers));
      forall r | r in rs {
        RunTextChars(r);
      }
      JoinCommaChars(RunTexts(rs));
    }
  }

  /** The text lists ascending, maximal runs that together hold exactly the given numbers. */
  lemma {:induction false} RangeTextRuns(numbers: seq<nat>)
    requires numbers != []
    ensures var rs := Runs(SortedDistinct(numbers));
      RangeText(numbers) == JoinComma(RunTexts(rs)) && Gapped(rs) &&
      forall x :: x in Elems(numbers) <==> InRuns(x, rs)
  {
    RangeTextOf(numbers);
    RunsGapped(SortedDistinct(numbers));
    RunsCover(SortedDistinct(numbers));
  }

  /** Numbers with the same set of values give the same text. */
  lemma {:induction false} RangeTextSetOnly(xs: seq<nat>, ys: seq<nat>)
    requires Elems(xs) == Elems(ys)
    ensures RangeText(xs) == RangeText(ys)
  {
    ElemsEmpty(xs);
    ElemsEmpty(ys);
    if xs != [] {
      SortedDistinctSetOnly(xs, ys);
      RangeTextOf(xs);
      RangeTextOf(ys);
    }
  }

  // ---------------------------------------------------------------------------
  // The loop

  /** `ranges_to_string`, with the loop over the sorted distinct numbers. */
  method RangesToString(numbers: seq<nat>) returns (s: string)
    ensures s == RangeText(numbers)
  {
    if |numbers| == 0 {
      return "";
    }
    var ys := SortedDistinct(numbers);
    assert numbers[0] in Elems(numbers);
    var ranges: seq<string> := [];
    var start, end := ys[0], ys[0];
    ghost var closed: seq<Run> := [];
    assert ys[..1] == [ys[0]];
    for i := 1 to |ys|
      invariant Runs(ys[..i]) == closed + [Run(start, end)]
      invariant ranges == RunTexts(closed)
    {
      var n := ys[i];
      RunsSnoc(ys, i);
      if n == end + 1 {
        end := n;
      } else {
        if start == end {
          ranges := ranges + [NatToString(start)];
        } else {
          ranges := ranges + [NatToString(start) + "-" + NatToString(end)];
        }
        RunTextsSnoc(closed, Run(start, end));
        closed := closed + [Run(start, end)];
        start, end := n, n;
      }
    }
    if start == end {
      ranges := ranges + [NatToString(start)];
    } else {
      ranges := ranges + [NatToString(start) + "-" + NatToString(end)];
    }
    RunTextsSnoc(closed, Run(start, end));
    closed := closed + [Run(start, end)];
    assert ys[..|ys|] == ys;
    assert ranges == RunTexts(Runs(ys));
    s := JoinComma(ranges);
    RangeTextOf(numbers);
  }

  lemma {:induction false} RunTextsSnoc(rs: seq<Run>, r: Run)
    ensures RunTexts(rs + [r]) == RunTexts(rs) + [RunText(r)]
  {
  }

  lemma {:induction false} RangeTextOf(numbers: seq<nat>)
    requires numbers != []
    ensures RangeText(numbers) == JoinComma(RunTexts(Runs(SortedDistinct(numbers))))
  {
  }

  /** `ranges_to_string([1, 2, 3, 5, 7, 8, 9])` is `1-3, 5, 7-9`. */
  lemma {:induction false} ExampleRanges()
    ensures RangeText([1, 2, 3, 5, 7, 8, 9]) == "1-3, 5, 7-9"
  {
    ExampleRangesOf([1, 2, 3, 5, 7, 8, 9]);
  }

  lemma {:induction false} ExampleRangesOf(ys: seq<nat>)
    requires ys == [1, 2, 3, 5, 7, 8, 9]
    ensures RangeText(ys) == "1-3, 5, 7-9"
  {
    ExampleRuns(ys);
    ExampleTexts(Runs(ys));
    assert SortedDistinct(ys) == ys by {
      IncreasingBySteps(ys);
      SortedDistinctOfIncreasing(ys);
    }
    RangeTextOf(ys);
    ExampleJoin(RunTexts(Runs(ys)));
  }

  lemma {:induction false} ExampleJoin(ts: seq<string>)
    requires ts == ["1-3", "5", "7-9"]
    ensures JoinComma(ts) == "1-3, 5, 7-9"
  {
    assert ts[1..] == ["5", "7-9"];
    assert JoinComma(ts[1..]) == "5, 7-9" by {
      assert ts[1..][1..] == ["7-9"];
    }
  }

  lemma {:induction false} DigitText(n: nat)
    requires n < 10
    ensures NatToString(n) == [('0' as int + n) as char]
  {
  }

  /** Each number below the next one makes the whole sequence increasing. */
  lemma {:induction false} IncreasingBySteps(xs: seq<nat>)
    requires forall i :: 0 <= i < |xs| - 1 ==> xs[i] < xs[i + 1]
    ensures Increasing(xs)
    decreases |xs|
  {
    if |xs| > 1 {
      IncreasingBySteps(xs[1..]);
      forall i, j | 0 <= i < j < |xs|
        ensures xs[i] < xs[j]
      {
        if i > 0 {
          assert xs[i] == xs[1..][i - 1] && xs[j] == xs[1..][j - 1];
        } else if j > 1 {
          assert xs[1] == xs[1..][0] && xs[j] == xs[1..][j - 1];
        }
      }
    }
  }

  lemma {:induction false} ExampleTexts(rs: seq<Run>)
    requires rs == [Run(1, 3), Run(5, 5), Run(7, 9)]
    ensures RunTexts(rs) == ["1-3", "5", "7-9"]
  {
    DigitText(1);
    DigitText(3);
    DigitText(5);
    DigitText(7);
    DigitText(9);
    assert RunText(rs[0]) == "1-3";
    assert RunText(rs[1]) == "5";
    assert RunText(rs[2]) == "7-9";
  }

  lemma {:induction false} ExampleRuns(ys: seq<nat>)
    requires ys == [1, 2, 3, 5, 7, 8, 9]
    ensures Runs(ys) == [Run(1, 3), Run(5, 5), Run(7, 9)]
  {
    assert ys[..1] == [1];
    RunsSnoc(ys, 1);
    RunsSnoc(ys, 2);
    RunsSnoc(ys, 3);
    RunsSnoc(ys, 4);
    RunsSnoc(ys, 5);
    RunsSnoc(ys, 6);
    assert ys[..7] == ys;
  }
}
