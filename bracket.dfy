/**
 * The bracket document and its partition into the four round buckets
 * `one`, `two`, `three` and `finals` (index.js, lines 39-44).
 */
module Bracket {

  /** One participant slot of a series. */
  datatype Row = Row(teamId: string, seedNum: string)

  /** One playoff series, as the bracket feed delivers it (the fields the page uses). */
  datatype Series = Series(
    roundNum: string,
    confName: string,
    summaryStatusText: string,
    isScheduleAvailable: bool,
    topRow: Row,
    bottomRow: Row)

  /** The bracket reply: its `series` list in document order. */
  datatype Document = Document(series: seq<Series>)

  /** `res.locals.bracket`: the four round buckets. */
  datatype Rounds = Rounds(one: seq<Series>, two: seq<Series>, three: seq<Series>, finals: seq<Series>)

  /** The round numbers that have a bucket, as the strings the feed uses. */
  predicate HasBucket(round: string) {
    round == "1" || round == "2" || round == "3" || round == "4"
  }

  /**
   * `_.filter(series, ['roundNum', round])`: the series whose `roundNum` is exactly
   * the string `round`, kept in document order.
   */
  function WithRound(s: seq<Series>, round: string): (r: seq<Series>)
    ensures |r| <= |s|
    ensures forall x :: x in r ==> x in s && x.roundNum == round
  {
    if s == [] then []
    else WithRound(s[..|s| - 1], round) + (if s[|s| - 1].roundNum == round then [s[|s| - 1]] else [])
  }

  /**
   * The positions (in document order) of the series of round `round`: the reference
   * description of which series a bucket must hold (see `PositionsMatchRound`).
   */
  ghost function Positions(s: seq<Series>, round: string): (idx: seq<nat>)
    ensures forall k :: 0 <= k < |idx| ==> idx[k] < |s|
  {
    if s == [] then []
    else Positions(s[..|s| - 1], round) + (if s[|s| - 1].roundNum == round then [|s| - 1] else [])
  }

  /** The positions are strictly increasing, and a position is listed iff its series has the round. */
  lemma {:induction false} PositionsMatchRound(s: seq<Series>, round: string)
    ensures var idx := Positions(s, round);
      && (forall k, l :: 0 <= k < l < |idx| ==> idx[k] < idx[l])
      && (forall j :: 0 <= j < |s| ==> (j in idx <==> s[j].roundNum == round))
  {
    if s != [] {
      var init := s[..|s| - 1];
      PositionsMatchRound(init, round);
      var idx, p := Positions(s, round), Positions(init, round);
      forall j | 0 <= j < |s| ensures j in idx <==> s[j].roundNum == round {
        if j < |s| - 1 {
          assert s[j] == init[j];
          assert j in idx <==> j in p;
        }
      }
    }
  }

  /** The series that fall in no bucket: their `roundNum` is none of "1".."4". */
  function Unbucketed(s: seq<Series>): (r: seq<Series>)
    ensures forall x :: x in r ==> x in s && !HasBucket(x.roundNum)
  {
    if s == [] then []
    else Unbucketed(s[..|s| - 1]) + (if !HasBucket(s[|s| - 1].roundNum) then [s[|s| - 1]] else [])
  }

  /**
   * The bucketing of lines 39-44. Each bucket is built from its own deep clone of the
   * series list; with value semantics the buckets share nothing with the input.
   */
  function Organize(series: seq<Series>): (b: Rounds)
    ensures forall x :: x in b.one ==> x in series && x.roundNum == "1"
    ensures forall x :: x in b.two ==> x in series && x.roundNum == "2"
    ensures forall x :: x in b.three ==> x in series && x.roundNum == "3"
    ensures forall x :: x in b.finals ==> x in series && x.roundNum == "4"
  {
    Rounds(WithRound(series, "1"), WithRound(series, "2"), WithRound(series, "3"), WithRound(series, "4"))
  }

  /** The k-th series of a bucket is the series at the k-th matching position. */
  lemma {:induction false} WithRoundAt(s: seq<Series>, round: string, k: nat)
    ensures |WithRound(s, round)| == |Positions(s, round)|
    ensures k < |Positions(s, round)| ==> WithRound(s, round)[k] == s[Positions(s, round)[k]]
  {
    if s != [] {
      var init := s[..|s| - 1];
      WithRoundAt(init, round, k);
      if k < |Positions(init, round)| {
        assert Positions(s, round)[k] == Positions(init, round)[k];
        assert WithRound(s, round)[k] == WithRound(init, round)[k];
      }
    }
  }

  /**
   * A bucket is exactly the series of its round, in their original relative order:
   * its k-th element is the series at the k-th matching position.
   */
  lemma {:induction false} WithRoundIsOrderedSelection(s: seq<Series>, round: string)
    ensures |WithRound(s, round)| == |Positions(s, round)|
    ensures forall k :: 0 <= k < |Positions(s, round)| ==> WithRound(s, round)[k] == s[Positions(s, round)[k]]
  {
    WithRoundAt(s, round, 0);
    forall k | 0 <= k < |Positions(s, round)| ensures WithRound(s, round)[k] == s[Positions(s, round)[k]] {
      WithRoundAt(s, round, k);
    }
  }

  /**
   * The buckets of `Organize` hold exactly the positions of their round: a series with
   * a round number r in {"1","2","3","4"} is in bucket r and no other, any other series in none.
   */
  lemma OrganizeSelectsEachRound(s: seq<Series>)
    ensures var b := Organize(s);
      && |b.one| == |Positions(s, "1")| && (forall k :: 0 <= k < |b.one| ==> b.one[k] == s[Positions(s, "1")[k]])
      && |b.two| == |Positions(s, "2")| && (forall k :: 0 <= k < |b.two| ==> b.two[k] == s[Positions(s, "2")[k]])
      && |b.three| == |Positions(s, "3")| && (forall k :: 0 <= k < |b.three| ==> b.three[k] == s[Positions(s, "3")[k]])
      && |b.finals| == |Positions(s, "4")| && (forall k :: 0 <= k < |b.finals| ==> b.finals[k] == s[Positions(s, "4")[k]])
    ensures forall j, r :: 0 <= j < |s| && HasBucket(r) ==> (j in Positions(s, r) <==> s[j].roundNum == r)
    ensures forall j :: 0 <= j < |s| && !HasBucket(s[j].roundNum) ==>
      j !in Positions(s, "1") && j !in Positions(s, "2") && j !in Positions(s, "3") && j !in Positions(s, "4")
  {
    WithRoundIsOrderedSelection(s, "1");
    WithRoundIsOrderedSelection(s, "2");
    WithRoundIsOrderedSelection(s, "3");
    WithRoundIsOrderedSelection(s, "4");
    PositionsMatchRound(s, "1");
    PositionsMatchRound(s, "2");
    PositionsMatchRound(s, "3");
    PositionsMatchRound(s, "4");
  }

  /**
   * A bucket holds every occurrence of each series of its round and no other series:
   * counted as multisets, it is the input restricted to that round.
   */
  lemma {:induction false} WithRoundCounts(s: seq<Series>, round: string, x: Series)
    ensures multiset(WithRound(s, round))[x] == if x.roundNum == round then multiset(s)[x] else 0
  {
    if s != [] {
      var init := s[..|s| - 1];
      WithRoundCounts(init, round, x);
      assert s == init + [s[|s| - 1]];
    }
  }

  /** The same count for the series that belong to no bucket. */
  lemma {:induction false} UnbucketedCounts(s: seq<Series>, x: Series)
    ensures multiset(Unbucketed(s))[x] == if !HasBucket(x.roundNum) then multiset(s)[x] else 0
  {
    if s != [] {
      var init := s[..|s| - 1];
      UnbucketedCounts(init, x);
      assert s == init + [s[|s| - 1]];
    }
  }

  /**
   * Nothing is lost or duplicated: the four buckets of `Organize` plus the unbucketed
   * series are, as a multiset, exactly the original series list.
   */
  lemma OrganizeIsPartition(s: seq<Series>)
    ensures multiset(WithRound(s, "1")) + multiset(WithRound(s, "2")) + multiset(WithRound(s, "3"))
      + multiset(WithRound(s, "4")) + multiset(Unbucketed(s)) == multiset(s)
  {
    var total := multiset(WithRound(s, "1")) + multiset(WithRound(s, "2")) + multiset(WithRound(s, "3"))
      + multiset(WithRound(s, "4")) + multiset(Unbucketed(s));
    forall x | true ensures total[x] == multiset(s)[x] {
      PartitionAt(s, x);
    }
  }

  /** The partition, counted for one series value. */
  lemma PartitionAt(s: seq<Series>, x: Series)
    ensures multiset(WithRound(s, "1"))[x] + multiset(WithRound(s, "2"))[x] + multiset(WithRound(s, "3"))[x]
      + multiset(WithRound(s, "4"))[x] + multiset(Unbucketed(s))[x] == multiset(s)[x]
  {
    WithRoundCounts(s, "1", x);
    WithRoundCounts(s, "2", x);
    WithRoundCounts(s, "3", x);
    WithRoundCounts(s, "4", x);
    UnbucketedCounts(s, x);
    if !HasBucket(x.roundNum) {
      assert x.roundNum != "1" && x.roundNum != "2" && x.roundNum != "3" && x.roundNum != "4";
    }
  }
}
