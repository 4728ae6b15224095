/**
 * What `_.merge` does to `res.locals.allSeries` (index.js, lines 51-54).
 *
 * `_.groupBy` puts the series objects themselves, not copies, into its group arrays,
 * and `_.merge` merges the bottom-row groups into the top-row groups in place: for a
 * team id that has both a top-row group T and a bottom-row group B, position i of T is
 * the series object T[i] of `allSeries`, and its fields are overwritten with those of
 * B[i]. An object is identified here by its position in `allSeries`; two series that
 * share the feed's schema merge into a copy of the source's fields. The team ids are
 * visited in `for...in` order, so integer-like ids go first, in ascending order.
 */
module MergeSideEffect {
  import opened Bracket
  import opened Seeds

  /** `_.groupBy(...)[k]`: the positions whose id is `k`, in document order. */
  function Group(ids: seq<string>, k: string): (g: seq<nat>)
    ensures forall j :: 0 <= j < |g| ==> g[j] < |ids| && ids[g[j]] == k
  {
    if ids == [] then []
    else Group(ids[..|ids| - 1], k) + (if ids[|ids| - 1] == k then [|ids| - 1] else [])
  }

  /** Merging group `src` into group `dst`: dst[i] takes the fields of src[i], for each i present in both. */
  function MergeGroup(cur: seq<Series>, dst: seq<nat>, src: seq<nat>, i: nat): (r: seq<Series>)
    requires forall j :: 0 <= j < |dst| ==> dst[j] < |cur|
    requires forall j :: 0 <= j < |src| ==> src[j] < |cur|
    ensures |r| == |cur|
    ensures forall x :: x in r ==> x in cur
    decreases |src| - i
  {
    if i >= |src| || i >= |dst| then cur
    else
      var next := cur[dst[i] := cur[src[i]]];
      assert forall x :: x in next ==> x in cur by {
        forall x | x in next ensures x in cur {
          var j :| 0 <= j < |next| && next[j] == x;
          if j != dst[i] { assert cur[j] == x; }
        }
      }
      MergeGroup(next, dst, src, i + 1)
  }

  /**
   * The walk of `_.merge` over the bottom-row keys, in order. A key without a top-row
   * group receives clones and changes nothing in `allSeries`.
   */
  function MergeKeys(cur: seq<Series>, top: seq<string>, bottom: seq<string>, keys: seq<string>): (r: seq<Series>)
    requires |top| == |cur| && |bottom| == |cur|
    ensures |r| == |cur|
    ensures forall x :: x in r ==> x in cur
    decreases keys
  {
    if keys == [] then cur
    else
      var k := keys[0];
      var next := if k in top then MergeGroup(cur, Group(top, k), Group(bottom, k), 0) else cur;
      MergeKeys(next, top, bottom, keys[1..])
  }

  /** A non-empty string of decimal digits. */
  predicate IsDigits(k: string) {
    |k| > 0 && forall i :: 0 <= i < |k| ==> '0' <= k[i] <= '9'
  }

  /** The value of a decimal digit; other characters count as zero. */
  function Digit(c: char): nat {
    if '0' <= c <= '9' then c as int - '0' as int else 0
  }

  /** The number a digit string denotes. */
  function DecimalValue(k: string): nat {
    if k == [] then 0 else DecimalValue(k[..|k| - 1]) * 10 + Digit(k[|k| - 1])
  }

  /**
   * An integer-like property key (an array index in ECMAScript's sense): the canonical
   * decimal form of a number below 2^32 - 1.
   */
  predicate IsArrayIndex(k: string) {
    IsDigits(k) && (k[0] != '0' || |k| == 1) && DecimalValue(k) < 0xFFFF_FFFF
  }

  /** The integer-like keys of `ks`, in order. */
  function IndexKeys(ks: seq<string>): (r: seq<string>)
    ensures forall x :: x in r <==> x in ks && IsArrayIndex(x)
  {
    if ks == [] then [] else (if IsArrayIndex(ks[0]) then [ks[0]] else []) + IndexKeys(ks[1..])
  }

  /** The other keys of `ks`, in order. */
  function NamedKeys(ks: seq<string>): (r: seq<string>)
    ensures forall x :: x in r <==> x in ks && !IsArrayIndex(x)
  {
    if ks == [] then [] else (if IsArrayIndex(ks[0]) then [] else [ks[0]]) + NamedKeys(ks[1..])
  }

  /** The keys of `ks` are in ascending numeric order. */
  predicate Ascending(ks: seq<string>) {
    forall i, j :: 0 <= i < j < |ks| ==> DecimalValue(ks[i]) <= DecimalValue(ks[j])
  }

  /** A key no larger than every key of an ascending sequence can go in front of it. */
  lemma AscendingCons(h: string, t: seq<string>)
    requires Ascending(t)
    requires forall x :: x in t ==> DecimalValue(h) <= DecimalValue(x)
    ensures Ascending([h] + t)
  {
    forall i, j | 0 <= i < j < |[h] + t|
      ensures DecimalValue(([h] + t)[i]) <= DecimalValue(([h] + t)[j])
    {
      if i == 0 { assert t[j - 1] in t; }
    }
  }

  /** The first key of an ascending sequence is no larger than any of its keys. */
  lemma AscendingHead(sorted: seq<string>)
    requires Ascending(sorted) && sorted != []
    ensures forall x :: x in sorted ==> DecimalValue(sorted[0]) <= DecimalValue(x)
  {
  }

  /** `k` placed before the first key of `sorted` with a larger value. */
  function InsertByValue(k: string, sorted: seq<string>): (r: seq<string>)
    requires Ascending(sorted)
    ensures Ascending(r) && multiset(r) == multiset(sorted) + multiset{k}
  {
    if sorted == [] then [k]
    else if DecimalValue(k) <= DecimalValue(sorted[0]) then
      AscendingHead(sorted);
      AscendingCons(k, sorted);
      [k] + sorted
    else
      var h, t := sorted[0], sorted[1..];
      assert sorted == [h] + t;
      assert Ascending(t);
      var rest := InsertByValue(k, t);
      AscendingHead(sorted);
      assert forall x :: x in rest ==> DecimalValue(h) <= DecimalValue(x) by {
        forall x | x in rest ensures DecimalValue(h) <= DecimalValue(x) {
          assert x in multiset(rest);
          assert x == k || x in t;
        }
      }
      AscendingCons(h, rest);
      [h] + rest
  }

  /** `ks` sorted by numeric value. */
  function SortByValue(ks: seq<string>): (r: seq<string>)
    ensures Ascending(r) && multiset(r) == multiset(ks)
  {
    if ks == [] then []
    else
      assert ks == [ks[0]] + ks[1..];
      InsertByValue(ks[0], SortByValue(ks[1..]))
  }

  /**
   * The order in which `for...in` visits the own keys of a plain object whose keys were
   * inserted as `ks`: integer-like keys first, ascending, then the others in insertion
   * order. Lodash's `_.merge` walks its source object's keys in this order.
   */
  function ForInOrder(ks: seq<string>): (r: seq<string>)
    ensures forall x :: x in r <==> x in ks
    ensures |r| == |IndexKeys(ks)| + |NamedKeys(ks)|
    ensures forall i :: 0 <= i < |r| ==> (IsArrayIndex(r[i]) <==> i < |IndexKeys(ks)|)
    ensures Ascending(r[..|IndexKeys(ks)|]) && r[|IndexKeys(ks)|..] == NamedKeys(ks)
  {
    var idx := SortByValue(IndexKeys(ks));
    assert forall x :: x in idx <==> x in IndexKeys(ks) by {
      forall x ensures x in idx <==> x in IndexKeys(ks) {
        assert x in idx <==> x in multiset(idx);
      }
    }
    assert |idx| == |multiset(idx)| == |multiset(IndexKeys(ks))| == |IndexKeys(ks)|;
    assert (idx + NamedKeys(ks))[..|idx|] == idx;
    idx + NamedKeys(ks)
  }

  /** The contents of `allSeries` once line 51 has run, as the code is written. */
  function AllSeriesAfterMerge(s: seq<Series>): (r: seq<Series>)
    ensures |r| == |s|
    ensures forall x :: x in r ==> x in s
  {
    MergeKeys(s, TopIds(s), BottomIds(s), ForInOrder(Keys(BottomIds(s))))
  }

  /** A walk over keys none of which has a top-row group changes nothing. */
  lemma {:induction false} MergeSkipsUnsharedKeys(cur: seq<Series>, top: seq<string>, bottom: seq<string>, keys: seq<string>)
    requires |top| == |cur| && |bottom| == |cur|
    requires forall k :: k in keys ==> k !in top
    ensures MergeKeys(cur, top, bottom, keys) == cur
    decreases keys
  {
    if keys != [] {
      assert keys[0] in keys;
      MergeSkipsUnsharedKeys(cur, top, bottom, keys[1..]);
    }
  }

  /** When no team appears in both a top row and a bottom row, the merge leaves `allSeries` as it was. */
  lemma MergeKeepsDisjointRows(s: seq<Series>)
    requires forall i, j :: 0 <= i < |s| && 0 <= j < |s| ==> s[i].topRow.teamId != s[j].bottomRow.teamId
    ensures AllSeriesAfterMerge(s) == s
  {
    var top, bottom := TopIds(s), BottomIds(s);
    var keys := ForInOrder(Keys(bottom));
    forall k | k in keys ensures k !in top {
      assert k in bottom;
      var j :| 0 <= j < |bottom| && bottom[j] == k;
    }
    MergeSkipsUnsharedKeys(s, top, bottom, keys);
  }

  /** The two-series bracket of the counterexample: team A moves from the top row to the bottom row. */
  function Example(): seq<Series> {
    [Series("1", "West", "", true, Row("A", "1"), Row("B", "8")),
     Series("2", "West", "", true, Row("C", "4"), Row("A", "1"))]
  }

  /** The row ids of the example, and the bottom-row keys in insertion order. */
  lemma ExampleIds()
    ensures TopIds(Example()) == ["A", "C"] && BottomIds(Example()) == ["B", "A"]
    ensures Keys(["B", "A"]) == ["B", "A"]
  {
    var bottom := ["B", "A"];
    assert bottom[..1] == ["B"] && bottom[..1][..0] == [];
    assert Keys(bottom[..1]) == ["B"];
  }

  /** Neither key of the example is integer-like, so the merge walks them in insertion order. */
  lemma ExampleKeyOrder()
    ensures ForInOrder(["B", "A"]) == ["B", "A"]
  {
    var ks := ["B", "A"];
    assert !IsArrayIndex(ks[0]) by { assert ks[0][0] == 'B'; }
    assert !IsArrayIndex(ks[1]) by { assert ks[1][0] == 'A'; }
    assert ks[1..] == ["A"] && ks[1..][1..] == [];
    assert IndexKeys(ks) == [];
    assert NamedKeys(ks) == ks;
  }

  /** Team A's top-row group is series 0. */
  lemma ExampleTopGroup()
    ensures Group(["A", "C"], "A") == [0]
  {
    var top := ["A", "C"];
    assert top[..1] == ["A"] && top[..1][..0] == [];
    assert Group(top[..1], "A") == [0];
    assert top[1] != "A" by { assert top[1][0] == 'C'; }
  }

  /** Team A's bottom-row group is series 1. */
  lemma ExampleBottomGroup()
    ensures Group(["B", "A"], "A") == [1]
  {
    var bottom := ["B", "A"];
    assert bottom[..1] == ["B"] && bottom[..1][..0] == [];
    assert bottom[0] != "A" by { assert bottom[0][0] == 'B'; }
    assert Group(bottom[..1], "A") == [];
  }

  /**
   * A team that plays in the top row of one series and the bottom row of a later one
   * (the usual path of a team through the bracket) makes the earlier series in
   * `allSeries` a copy of the later one.
   */
  lemma MergeOverwritesAllSeries()
    ensures AllSeriesAfterMerge(Example()) == [Example()[1], Example()[1]]
    ensures AllSeriesAfterMerge(Example()) != Example()
  {
    var s := Example();
    ExampleIds();
    ExampleKeyOrder();
    ExampleTopGroup();
    ExampleBottomGroup();
    assert "B" !in ["A", "C"];
    assert "A" in ["A", "C"];
    assert ["B", "A"][1..] == ["A"];
    assert AllSeriesAfterMerge(s) == MergeKeys(s, ["A", "C"], ["B", "A"], ["A"]);
    MergeStep(s);
    assert s[0] != s[1];
  }

  /** Merging team A's groups copies series 1 over series 0. */
  lemma MergeStep(s: seq<Series>)
    requires |s| == 2
    requires Group(["A", "C"], "A") == [0] && Group(["B", "A"], "A") == [1]
    ensures MergeKeys(s, ["A", "C"], ["B", "A"], ["A"]) == [s[1], s[1]]
  {
    assert "A" in ["A", "C"];
    assert MergeKeys(s, ["A", "C"], ["B", "A"], ["A"]) == MergeKeys(MergeGroup(s, [0], [1], 0), ["A", "C"], ["B", "A"], []);
    assert MergeGroup(s, [0], [1], 0) == MergeGroup(s[0 := s[1]], [0], [1], 1);
    assert s[0 := s[1]] == [s[1], s[1]];
  }

  /**
   * Two series with integer-like ids, as the feed's team ids are: team 1 moves from the
   * top row to the bottom row, team 2 the other way.
   */
  function NumericExample(): seq<Series> {
    [Series("1", "East", "", true, Row("1", "1"), Row("2", "8")),
     Series("2", "East", "", true, Row("2", "4"), Row("1", "1"))]
  }

  /** "1" and "2" are integer-like, with values 1 and 2. */
  lemma NumericKeys()
    ensures IsArrayIndex("1") && DecimalValue("1") == 1
    ensures IsArrayIndex("2") && DecimalValue("2") == 2
  {
    var one, two := "1", "2";
    assert one[..0] == [] && two[..0] == [];
    assert one[0] == '1' && two[0] == '2';
  }

  /** The row ids of the example, and its bottom-row keys in insertion order. */
  lemma NumericIds()
    ensures TopIds(NumericExample()) == ["1", "2"] && BottomIds(NumericExample()) == ["2", "1"]
    ensures Keys(["2", "1"]) == ["2", "1"]
  {
    var ks := ["2", "1"];
    assert ks[..1] == ["2"] && ks[..1][..0] == [];
    assert Keys(ks[..1]) == ["2"];
  }

  /** Both keys are integer-like, so `for...in` visits them in ascending order. */
  lemma NumericKeyOrder()
    ensures ForInOrder(["2", "1"]) == ["1", "2"]
  {
    NumericFilters();
    NumericSort();
  }

  /** Both keys of the example are integer-like. */
  lemma NumericFilters()
    ensures IndexKeys(["2", "1"]) == ["2", "1"] && NamedKeys(["2", "1"]) == []
  {
    var ks := ["2", "1"];
    NumericKeys();
    assert ks[1..] == ["1"] && ks[1..][1..] == [];
    assert IndexKeys(ks[1..]) == ["1"];
    assert NamedKeys(ks[1..]) == [];
  }

  /** Sorting the example's keys by value. */
  lemma NumericSort()
    ensures SortByValue(["2", "1"]) == ["1", "2"]
  {
    var ks := ["2", "1"];
    NumericKeys();
    assert ks[1..] == ["1"] && ks[1..][1..] == [];
    assert SortByValue(ks[1..]) == InsertByValue("1", []) == ["1"];
    assert InsertByValue("2", ["1"]) == ["1"] + InsertByValue("2", []);
  }

  /** The groups of both teams: team 1 is on top in series 0, team 2 in series 1. */
  lemma NumericGroups()
    ensures Group(["1", "2"], "1") == [0] && Group(["2", "1"], "1") == [1]
    ensures Group(["1", "2"], "2") == [1] && Group(["2", "1"], "2") == [0]
  {
    var top, bottom := ["1", "2"], ["2", "1"];
    assert top[..1] == ["1"] && top[..1][..0] == [];
    assert bottom[..1] == ["2"] && bottom[..1][..0] == [];
    assert top[0] != "2" && top[1] != "1" by { assert top[0][0] == '1' && top[1][0] == '2'; }
    assert bottom[0] != "1" && bottom[1] != "2" by { assert bottom[0][0] == '2' && bottom[1][0] == '1'; }
    assert Group(top[..1], "1") == [0] && Group(top[..1], "2") == [];
    assert Group(bottom[..1], "2") == [0] && Group(bottom[..1], "1") == [];
  }

  /**
   * With integer-like ids the merge visits team 1 before team 2, whatever the order of
   * the bottom rows: series 1 is copied over series 0 and then onto itself. Walking the
   * keys in insertion order would have copied series 0 over series 1 instead.
   */
  lemma MergeWalksIntegerKeysAscending()
    ensures AllSeriesAfterMerge(NumericExample()) == [NumericExample()[1], NumericExample()[1]]
    ensures MergeKeys(NumericExample(), ["1", "2"], ["2", "1"], ["2", "1"]) == [NumericExample()[0], NumericExample()[0]]
  {
    var s := NumericExample();
    NumericIds();
    NumericKeyOrder();
    assert AllSeriesAfterMerge(s) == MergeKeys(s, ["1", "2"], ["2", "1"], ["1", "2"]);
    NumericWalk(s);
  }

  /** Both walk orders over the example's groups. */
  lemma NumericWalk(s: seq<Series>)
    requires |s| == 2
    ensures MergeKeys(s, ["1", "2"], ["2", "1"], ["1", "2"]) == [s[1], s[1]]
    ensures MergeKeys(s, ["1", "2"], ["2", "1"], ["2", "1"]) == [s[0], s[0]]
  {
    var top, bottom := ["1", "2"], ["2", "1"];
    NumericGroups();
    assert "1" in top && "2" in top;
    var one := MergeGroupOne(s, 0, 1);
    var two := MergeGroupOne(one, 1, 0);
    assert ["1", "2"][1..] == ["2"] && ["2"][1..] == [];
    assert MergeKeys(s, top, bottom, ["1", "2"]) == MergeKeys(one, top, bottom, ["2"]) == MergeKeys(two, top, bottom, []);
    var one' := MergeGroupOne(s, 1, 0);
    var two' := MergeGroupOne(one', 0, 1);
    assert ["2", "1"][1..] == ["1"] && ["1"][1..] == [];
    assert MergeKeys(s, top, bottom, ["2", "1"]) == MergeKeys(one', top, bottom, ["1"]) == MergeKeys(two', top, bottom, []);
  }

  /** Merging a one-series group into another copies that series. */
  lemma MergeGroupOne(cur: seq<Series>, dst: nat, src: nat) returns (r: seq<Series>)
    requires dst < |cur| && src < |cur|
    ensures r == MergeGroup(cur, [dst], [src], 0) == cur[dst := cur[src]]
  {
    r := cur[dst := cur[src]];
    assert MergeGroup(cur, [dst], [src], 0) == MergeGroup(r, [dst], [src], 1);
  }
}
