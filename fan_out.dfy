/**
 * The team fan-out of index.js, lines 56-80: one `getTeam` per team id of the bracket,
 * each with its own `.catch`, joined by `Promise.all`, filling `res.locals.teams`.
 */
module FanOut {
  import opened Wrappers
  import opened Bracket
  import opened Seeds
  import opened TeamFeed
  import opened DiskCache
  import opened Resolvers

  /** The cache after `getTeam` has run for each of `ids`, in order. */
  function StoreAfterAll(entries: map<string, Entry>, ids: seq<string>, network: string -> Fetch<TeamReply>, now: nat)
    : map<string, Entry>
    decreases |ids|
  {
    if ids == [] then entries
    else
      var last := ids[|ids| - 1];
      TeamStoreAfter(StoreAfterAll(entries, ids[..|ids| - 1], network, now), last, network(last), now)
  }

  /**
   * The reference description of `res.locals.teams`: an entry for each id whose lookup,
   * against the cache as the request found it, settled to a value other than `false`.
   */
  function TeamTable(entries: map<string, Entry>, ids: set<string>, network: string -> Fetch<TeamReply>)
    : map<string, Option<Profile>>
  {
    map id | id in ids && TeamLookup(entries, id, network(id)).Team? :: TeamLookup(entries, id, network(id)).profile
  }

  /**
   * The lookups of a batch write only the entries of their own ids: any other URL keeps
   * its entry, or its absence.
   */
  lemma {:induction false} StoreAfterAllWritesOnlyItsIds(entries: map<string, Entry>, ids: seq<string>,
                                                          network: string -> Fetch<TeamReply>, now: nat, url: string)
    requires forall id :: id in ids ==> TeamUrl(id) != url
    ensures url in StoreAfterAll(entries, ids, network, now) <==> url in entries
    ensures url in entries ==> StoreAfterAll(entries, ids, network, now)[url] == entries[url]
  {
    if ids != [] {
      StoreAfterAllWritesOnlyItsIds(entries, ids[..|ids| - 1], network, now, url);
    }
  }

  /**
   * Each lookup of the batch sees the entry the cache had when the request started, as
   * in `Promise.all` every `getTeam` tests the cache before any of them writes.
   */
  lemma LookupSeesStartingCache(entries: map<string, Entry>, done: seq<string>, id: string,
                                network: string -> Fetch<TeamReply>, now: nat)
    requires id !in done
    ensures TeamLookup(StoreAfterAll(entries, done, network, now), id, network(id)) == TeamLookup(entries, id, network(id))
  {
    forall other | other in done ensures TeamUrl(other) != TeamUrl(id) {
      TeamUrlInjective(other, id);
    }
    StoreAfterAllWritesOnlyItsIds(entries, done, network, now, TeamUrl(id));
  }

  /** Adding one id to the table adds its entry exactly when its lookup settled to a value. */
  lemma TeamTableStep(entries: map<string, Entry>, ids: set<string>, id: string, network: string -> Fetch<TeamReply>)
    ensures var r := TeamLookup(entries, id, network(id));
      TeamTable(entries, ids + {id}, network)
      == if r.Team? then TeamTable(entries, ids, network)[id := r.profile] else TeamTable(entries, ids, network)
  {
  }

  /** The ids of a sequence, as a set. */
  function Elems(xs: seq<string>): set<string> {
    set x | x in xs
  }

  /** One iteration of the fan-out loop: the state after `keys[..i + 1]` from the state after `keys[..i]`. */
  lemma LoadStep(start: map<string, Entry>, keys: seq<string>, i: nat, network: string -> Fetch<TeamReply>, now: nat)
    requires i < |keys| && NoDup(keys)
    ensures var id, done := keys[i], StoreAfterAll(start, keys[..i], network, now);
      var r := TeamLookup(start, id, network(id));
      && TeamLookup(done, id, network(id)) == r
      && StoreAfterAll(start, keys[..i + 1], network, now) == TeamStoreAfter(done, id, network(id), now)
      && TeamTable(start, Elems(keys[..i + 1]), network)
         == if r.Team? then TeamTable(start, Elems(keys[..i]), network)[id := r.profile]
            else TeamTable(start, Elems(keys[..i]), network)
  {
    var id := keys[i];
    assert id !in keys[..i];
    LookupSeesStartingCache(start, keys[..i], id, network, now);
    assert keys[..i + 1] == keys[..i] + [id];
    assert keys[..i + 1][..i] == keys[..i];
    assert Elems(keys[..i + 1]) == Elems(keys[..i]) + {id};
    TeamTableStep(start, Elems(keys[..i]), id, network);
  }

  /**
   * The loop of lines 59-70 and the barrier of line 72. Every promise carries its own
   * `.catch`, so `Promise.all` always resolves: a lookup that settles to `false` or
   * rejects adds nothing and does not stop the others. `calls` records the ids looked up.
   */
  method LoadTeams(cache: Cache, allSeries: seq<Series>, network: string -> Fetch<TeamReply>, now: nat)
      returns (teams: map<string, Option<Profile>>, ghost calls: seq<string>)
    modifies cache
    ensures calls == TeamKeys(allSeries)
    ensures teams == TeamTable(old(cache.entries), TeamIds(allSeries), network)
    ensures cache.entries == StoreAfterAll(old(cache.entries), TeamKeys(allSeries), network, now)
    ensures BracketUrl in cache.entries <==> BracketUrl in old(cache.entries)
    ensures BracketUrl in old(cache.entries) ==> cache.entries[BracketUrl] == old(cache.entries)[BracketUrl]
    ensures WellFormed(old(cache.entries)) ==> WellFormed(cache.entries)
  {
    var keys := TeamKeys(allSeries);
    TeamKeysEnumerateTeamIds(allSeries);
    ghost var start := cache.entries;
    teams, calls := map[], [];
    var i := 0;
    while i < |keys|
      invariant 0 <= i <= |keys|
      invariant calls == keys[..i]
      invariant cache.entries == StoreAfterAll(start, keys[..i], network, now)
      invariant teams == TeamTable(start, Elems(keys[..i]), network)
    {
      var id := keys[i];
      LoadStep(start, keys, i, network, now);
      var r := GetTeam(cache, id, network(id), now);
      if r.Team? {
        teams := teams[id := r.profile];
      }
      calls := calls + [id];
      i := i + 1;
    }
    assert keys[..i] == keys;
    assert Elems(keys) == TeamIds(allSeries);
    forall id | id in keys ensures TeamUrl(id) != BracketUrl {
      TeamUrlIsNotBracketUrl(id);
    }
    StoreAfterAllWritesOnlyItsIds(start, keys, network, now, BracketUrl);
    if WellFormed(start) {
      StoreAfterAllKeepsCache(start, keys, network, now);
    }
  }

  /**
   * `res.locals.teams` has a key exactly for the ids whose lookup settled to neither
   * `false` nor a rejection, and holds that lookup's value.
   */
  lemma TeamTableContents(entries: map<string, Entry>, ids: set<string>, network: string -> Fetch<TeamReply>, id: string)
    ensures id in TeamTable(entries, ids, network) <==>
      id in ids && TeamLookup(entries, id, network(id)) != NoTeam && TeamLookup(entries, id, network(id)) != LookupFailed
    ensures id in TeamTable(entries, ids, network) ==>
      TeamLookup(entries, id, network(id)) == Team(TeamTable(entries, ids, network)[id])
  {
  }

  /** The ids whose lookup settled to `false` or rejected. */
  function Missing(entries: map<string, Entry>, ids: set<string>, network: string -> Fetch<TeamReply>): set<string> {
    set id | id in ids && !TeamLookup(entries, id, network(id)).Team?
  }

  /**
   * The table has one entry per id, less one per failed or `false` lookup: twelve ids
   * with one failed request give eleven teams.
   */
  lemma TeamTableSize(entries: map<string, Entry>, ids: set<string>, network: string -> Fetch<TeamReply>)
    ensures |TeamTable(entries, ids, network)| == |ids| - |Missing(entries, ids, network)|
  {
    var t := TeamTable(entries, ids, network);
    var miss := Missing(entries, ids, network);
    assert t.Keys == ids - miss;
    assert |ids - miss| == |ids| - |miss| by {
      assert miss <= ids;
      assert ids == (ids - miss) + miss;
      assert (ids - miss) !! miss;
    }
  }

  /** In a well-formed cache, a team that is cached always makes it into the table. */
  lemma CachedTeamsArePresent(entries: map<string, Entry>, ids: set<string>, network: string -> Fetch<TeamReply>, id: string)
    requires WellFormed(entries) && id in ids && TeamUrl(id) in entries
    ensures id in TeamTable(entries, ids, network)
  {
    TeamHit(entries, id, network(id), 0);
  }

  /** The fan-out keeps the cache well formed and leaves the bracket's entry as it was. */
  lemma {:induction false} StoreAfterAllKeepsCache(entries: map<string, Entry>, ids: seq<string>,
                                                    network: string -> Fetch<TeamReply>, now: nat)
    requires WellFormed(entries)
    ensures WellFormed(StoreAfterAll(entries, ids, network, now))
    ensures BracketUrl in StoreAfterAll(entries, ids, network, now) <==> BracketUrl in entries
    ensures BracketUrl in entries ==> StoreAfterAll(entries, ids, network, now)[BracketUrl] == entries[BracketUrl]
  {
    forall id | id in ids ensures TeamUrl(id) != BracketUrl {
      TeamUrlIsNotBracketUrl(id);
    }
    StoreAfterAllWritesOnlyItsIds(entries, ids, network, now, BracketUrl);
    if ids != [] {
      var init, last := ids[..|ids| - 1], ids[|ids| - 1];
      StoreAfterAllKeepsCache(entries, init, network, now);
      ResolversPreserveWellFormed(StoreAfterAll(entries, init, network, now), false, FetchFailed, last, network(last), now);
    }
  }
}
