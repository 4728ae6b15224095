/**
 * The team ids referenced by a bracket (index.js, lines 50-54 and 59):
 * `_.keys(_.merge(_.groupBy(allSeries, 'topRow.teamId'), _.groupBy(allSeries, 'bottomRow.teamId')))`.
 */
module Seeds {
  import opened Bracket

  /** No value occurs twice. */
  predicate NoDup(xs: seq<string>) {
    forall i, j :: 0 <= i < j < |xs| ==> xs[i] != xs[j]
  }

  /** The `topRow.teamId` of every series, in document order. */
  function TopIds(s: seq<Series>): (r: seq<string>)
    ensures |r| == |s| && forall i :: 0 <= i < |s| ==> r[i] == s[i].topRow.teamId
  {
    seq(|s|, i requires 0 <= i < |s| => s[i].topRow.teamId)
  }

  /** The `bottomRow.teamId` of every series, in document order. */
  function BottomIds(s: seq<Series>): (r: seq<string>)
    ensures |r| == |s| && forall i :: 0 <= i < |s| ==> r[i] == s[i].bottomRow.teamId
  {
    seq(|s|, i requires 0 <= i < |s| => s[i].bottomRow.teamId)
  }

  /**
   * The keys of an object built by inserting `xs` in order: each value once, at its
   * first occurrence.
   */
  function Keys(xs: seq<string>): (r: seq<string>)
    ensures NoDup(r)
    ensures forall x :: x in r <==> x in xs
  {
    if xs == [] then []
    else
      var init := Keys(xs[..|xs| - 1]);
      var last := xs[|xs| - 1];
      assert forall x :: x in xs <==> x in xs[..|xs| - 1] || x == last;
      if last in init then init else init + [last]
  }

  /**
   * The reference definition: every id that sits in the top or the bottom row of some
   * series.
   */
  ghost function TeamIds(s: seq<Series>): set<string> {
    (set i | 0 <= i < |s| :: s[i].topRow.teamId) + (set i | 0 <= i < |s| :: s[i].bottomRow.teamId)
  }

  /**
   * The ids the fan-out iterates: the keys of the top-row groups, then those bottom-row
   * keys the top-row groups lack.
   */
  function TeamKeys(s: seq<Series>): (r: seq<string>)
    ensures NoDup(r)
    ensures forall id :: id in r <==> id in TopIds(s) || id in BottomIds(s)
    ensures |Keys(TopIds(s))| <= |r| && r[..|Keys(TopIds(s))|] == Keys(TopIds(s))
  {
    KeysExtend(TopIds(s), BottomIds(s));
    Keys(TopIds(s) + BottomIds(s))
  }

  /** Inserting more values keeps the keys already present, in their order, at the front. */
  lemma {:induction false} KeysExtend(a: seq<string>, b: seq<string>)
    ensures |Keys(a)| <= |Keys(a + b)| && Keys(a + b)[..|Keys(a)|] == Keys(a)
  {
    if b == [] {
      assert a + b == a;
    } else {
      var b' := b[..|b| - 1];
      assert (a + b)[..|a + b| - 1] == a + b';
      KeysExtend(a, b');
    }
  }

  /**
   * The ids looked up are exactly the ids of the bracket's rows, and each occurs once,
   * so each id is looked up exactly once.
   */
  lemma {:induction false} TeamKeysEnumerateTeamIds(s: seq<Series>)
    ensures NoDup(TeamKeys(s))
    ensures forall id :: id in TeamKeys(s) <==> id in TeamIds(s)
  {
    var all := TopIds(s) + BottomIds(s);
    forall id ensures id in all <==> id in TeamIds(s) {
      if id in all {
        var k :| 0 <= k < |all| && all[k] == id;
        if k < |s| {
          assert s[k].topRow.teamId == id;
        } else {
          assert s[k - |s|].bottomRow.teamId == id;
        }
      }
      if id in TeamIds(s) {
        if id in (set i | 0 <= i < |s| :: s[i].topRow.teamId) {
          var i :| 0 <= i < |s| && s[i].topRow.teamId == id;
          assert all[i] == id;
        } else {
          var i :| 0 <= i < |s| && s[i].bottomRow.teamId == id;
          assert all[|s| + i] == id;
        }
      }
    }
  }
}
