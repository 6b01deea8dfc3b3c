/**
 * The per-file scans all walk `enumerate(lines, 1)` and append an entry for each
 * line that yields one. This module models that shape once: a sequence of optional
 * per-line results becomes the list of (1-based line number, result) pairs.
 */
module Lines {
  import opened Wrappers

  /** The lines that yield a result, with their 1-based numbers, in file order. */
  function Numbered<T>(hs: seq<Option<T>>): (r: seq<(nat, T)>)
    ensures |r| <= |hs|
    decreases |hs|
  {
    if hs == [] then []
    else
      var last := hs[|hs| - 1];
      Numbered(hs[..|hs| - 1]) + (if last.Some? then [(|hs|, last.value)] else [])
  }

  /** The last line adds its entry, if any, after those of the lines before it. */
  lemma {:induction false} NumberedSnoc<T>(hs: seq<Option<T>>)
    requires hs != []
    ensures var last := hs[|hs| - 1];
      Numbered(hs) == Numbered(hs[..|hs| - 1]) + (if last.Some? then [(|hs|, last.value)] else [])
  {
  }

  /** Line `i + 1` adds its entry, if any, after those of the lines before it. */
  lemma {:induction false} NumberedTake<T>(hs: seq<Option<T>>, i: nat)
    requires i < |hs|
    ensures Numbered(hs[..i + 1]) == Numbered(hs[..i]) + (if hs[i].Some? then [(i + 1, hs[i].value)] else [])
  {
    var ts := hs[..i + 1];
    assert ts[..i] == hs[..i];
    NumberedSnoc(ts);
  }

  /** Each entry names a line and carries that line's result. */
  lemma {:induction false} NumberedSound<T>(hs: seq<Option<T>>)
    ensures var r := Numbered(hs);
      forall k :: 0 <= k < |r| ==> 1 <= r[k].0 <= |hs| && hs[r[k].0 - 1] == Some(r[k].1)
    decreases |hs|
  {
    if hs != [] {
      var init := hs[..|hs| - 1];
      NumberedSound(init);
      NumberedSnoc(hs);
      var prev := Numbered(init);
      var r := Numbered(hs);
      forall k | 0 <= k < |r|
        ensures 1 <= r[k].0 <= |hs| && hs[r[k].0 - 1] == Some(r[k].1)
      {
        if k < |prev| {
          assert r[k] == prev[k];
          assert init[prev[k].0 - 1] == hs[prev[k].0 - 1];
        }
      }
    }
  }

  /** Entries come in strictly ascending line order. */
  lemma {:induction false} NumberedAscending<T>(hs: seq<Option<T>>)
    ensures var r := Numbered(hs);
      forall k, k' :: 0 <= k < k' < |r| ==> r[k].0 < r[k'].0
    decreases |hs|
  {
    if hs != [] {
      var init := hs[..|hs| - 1];
      NumberedAscending(init);
      NumberedSound(init);
      NumberedSnoc(hs);
      var prev := Numbered(init);
      var r := Numbered(hs);
      forall k, k' | 0 <= k < k' < |r|
        ensures r[k].0 < r[k'].0
      {
        assert r[k] == prev[k];
        if k' < |prev| {
          assert r[k'] == prev[k'];
        }
      }
    }
  }

  /** Every line that yields a result has an entry. */
  lemma {:induction false} NumberedComplete<T>(hs: seq<Option<T>>)
    ensures var r := Numbered(hs);
      forall i :: 0 <= i < |hs| && hs[i].Some? ==> exists k :: 0 <= k < |r| && r[k] == (i + 1, hs[i].value)
    decreases |hs|
  {
    if hs != [] {
      var init := hs[..|hs| - 1];
      NumberedComplete(init);
      NumberedSnoc(hs);
      var prev := Numbered(init);
      var r := Numbered(hs);
      forall i | 0 <= i < |hs| && hs[i].Some?
        ensures exists k :: 0 <= k < |r| && r[k] == (i + 1, hs[i].value)
      {
        if i < |init| {
          assert init[i] == hs[i];
          var k :| 0 <= k < |prev| && prev[k] == (i + 1, init[i].value);
          assert r[k] == prev[k];
        } else {
          assert r[|prev|] == (|hs|, hs[|hs| - 1].value);
        }
      }
    }
  }

  /** There are no entries exactly when no line yields a result. */
  lemma {:induction false} NumberedEmpty<T>(hs: seq<Option<T>>)
    ensures Numbered(hs) == [] <==> forall i :: 0 <= i < |hs| ==> hs[i].None?
    decreases |hs|
  {
    if hs != [] {
      var init := hs[..|hs| - 1];
      NumberedEmpty(init);
      NumberedSnoc(hs);
      assert forall i :: 0 <= i < |init| ==> init[i] == hs[i];
    }
  }

  /** The entries of all lines in file order, when a line can yield several. */
  function Flatten<T>(ss: seq<seq<T>>): (r: seq<T>)
    decreases |ss|
  {
    if ss == [] then [] else Flatten(ss[..|ss| - 1]) + ss[|ss| - 1]
  }

  /** One more line appends its entries after the earlier ones. */
  lemma {:induction false} FlattenSnoc<T>(ss: seq<seq<T>>, i: nat)
    requires i < |ss|
    ensures Flatten(ss[..i + 1]) == Flatten(ss[..i]) + ss[i]
  {
    assert ss[..i + 1][..i] == ss[..i];
  }

  /** There are no entries exactly when no line yields one. */
  lemma {:induction false} FlattenEmpty<T>(ss: seq<seq<T>>)
    ensures Flatten(ss) == [] <==> forall i :: 0 <= i < |ss| ==> ss[i] == []
    decreases |ss|
  {
    if ss != [] {
      var init := ss[..|ss| - 1];
      FlattenEmpty(init);
      assert forall i :: 0 <= i < |init| ==> init[i] == ss[i];
    }
  }
}
