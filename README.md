# NBA playoffs bracket: request pipeline model

A Dafny model of the request pipeline of the NBA playoffs bracket page (`index.js`). For each
request the server does the following:

- it resolves the season's bracket document from the disk cache or from the data feed (`getBracket`);
- it splits the bracket's series into the four round buckets `one`, `two`, `three` and `finals`;
- it collects every team id in a top or bottom row and resolves each id through the cache or the
  team-profile feed (`getTeam`);
- it fills `res.locals.teams` once every lookup has settled.

The disk cache is a class, `DiskCache.Cache`, holding a map from source URL to entry. An entry has a
payload, a timestamp and a never-expire flag. Network replies and the clock are parameters:
`Fetch<T>` is either a parsed reply or a failed request, and `now` stands for `Date.now()`.

Modules, one per component:

- `Wrappers`: `Option`, `Fetch`, `Result`.
- `Bracket`: series, rows, the bracket document, and the round bucketing.
- `Seeds`: the team ids of a bracket, i.e. the keys of the merged `groupBy` maps.
- `MergeSideEffect`: what `_.merge` does to `allSeries` as the code is written (see Findings).
- `TeamFeed`: the team-profile reply and its `TeamDetails[0].Details` presence check.
- `DiskCache`: the cache store.
- `Resolvers`: `getBracket` and `getTeam`. Each has two policy functions, one for the outcome and
  one for the cache left behind. The method is proved equal to these functions, and the lemmas
  state the cache-or-fetch policy in terms of them.
- `FanOut`: the team lookup loop and the `Promise.all` barrier.
- `Pipeline`: the two middlewares chained for one request.

The code's cache is not season-aware. The model follows the code on these points:

- `getBracket` uses one fixed URL for the 2017 season. It has no season parameter.
- `getBracket` caches a fetched bracket without the never-expire flag. No rule makes past seasons
  permanent.
- `hardRefresh` always forces a fetch.

## Model

| member | source | states |
|---|---|---|
| `Bracket.WithRound` | index.js:40-43 | every series in a bucket comes from the input and has exactly the bucket's `roundNum` string |
| `Bracket.PositionsMatchRound` | index.js:40-43 | the reference selection of a round: its positions are strictly increasing, and a position is listed iff the series there has that round |
| `Bracket.Organize` | index.js:39-44 | bucket `one` holds only round "1" input series, `two` only "2", `three` only "3", `finals` only "4" |
| `Bracket.WithRoundIsOrderedSelection` | index.js:40-43 | the k-th series in a bucket is the series at the k-th matching position, so a bucket is exactly its round's series in document order |
| `Bracket.OrganizeSelectsEachRound` | index.js:39-44 | each bucket lists exactly its round's positions in order; a series with round r in "1".."4" is in bucket r and no other; any other series is in no bucket |
| `Bracket.WithRoundCounts` | index.js:40-43 | a bucket holds every occurrence of each series of its round and no series of another round |
| `Bracket.OrganizeIsPartition` | index.js:33-44 | the four buckets plus the unbucketed series equal the series list as a multiset: nothing is lost or duplicated |
| `Seeds.Keys` | index.js:51-59 | the keys of the merged groups: no duplicates, and exactly the values inserted |
| `Seeds.TeamKeys` | index.js:51-59 | the ids `_.keys(seeds)` yields: each once, exactly the top-row and bottom-row ids, the top-row ids first in their own insertion order |
| `Seeds.TeamKeysEnumerateTeamIds` | index.js:51-59 | the ids iterated are exactly the top-row and bottom-row team ids of all series, each once |
| `MergeSideEffect.MergeOverwritesAllSeries` | index.js:51-54 | as written, a team in the top row of one series and the bottom row of another makes `allSeries` change: the first series becomes a copy of the second |
| `TeamFeed.PresenceCheckCases` | index.js:124-129 | the check rejects a missing or empty `TeamDetails` and a first element without `Details`, looks at no later element, and accepts an empty `Details`, whose `Details[0]` is then `undefined` |
| `MergeSideEffect.ForInOrder` | index.js:51-54 | the merge visits the source keys as `for...in` does: the same keys, integer-like ones first in ascending value, then the others in insertion order |
| `MergeSideEffect.AllSeriesAfterMerge` | index.js:51-54 | after the merge `allSeries` has the same length and holds only series that were in it before |
| `MergeSideEffect.MergeKeepsDisjointRows` | index.js:51-54 | when no team is in both a top row and a bottom row, the merge leaves `allSeries` unchanged |
| `MergeSideEffect.MergeWalksIntegerKeysAscending` | index.js:51-54 | with integer-like ids the key order decides which series is copied: the ascending walk copies series 1 over series 0, the insertion-order walk the reverse |
| `DiskCache.Cache.Exists` | index.js:114 | `cache.exists` answers whether an entry is stored for the URL, and changes nothing |
| `DiskCache.Cache.Get` | index.js:114-116 | `cache.get` of a stored URL yields its entry, and changes nothing |
| `DiskCache.Cache.Set` | index.js:128 | `cache.set` overwrites the URL's entry with the payload, the timestamp and the never-expire flag |
| `Resolvers.TeamUrlInjective` | index.js:111-112 | distinct team ids use distinct cache entries |
| `Resolvers.TeamUrlIsNotBracketUrl` | index.js:89-112 | no team entry shares the bracket's cache entry |
| `Resolvers.GetBracket` | index.js:88-108 | the outcome and the new cache are those of the bracket policy functions; the bracket's entry holds a bracket afterwards, and a well-formed cache stays well formed |
| `Resolvers.GetTeam` | index.js:110-131 | the outcome and the new cache are those of the team policy functions; the bracket's entry is untouched, and a well-formed cache stays well formed |
| `Resolvers.BracketServedFromCache` | index.js:93-98 | without `hardRefresh`, a cached bracket is returned with its stored `data` and `created`, and the cache is unchanged |
| `Resolvers.BracketFetched` | index.js:100-107 | with `hardRefresh` or no entry, the reply is stored under the bracket URL without never-expire and returned as `{data: reply, created: now}`; a failed request rejects and writes nothing |
| `Resolvers.BracketRoundTrip` | index.js:93-107 | after a fetch, the next call without `hardRefresh` returns the same data and timestamp whatever the network says, and writes nothing |
| `Resolvers.TeamHit` | index.js:114-119 | a cache hit writes nothing; in a well-formed cache it never rejects and returns the stored reply's `Details[0]` |
| `Resolvers.TeamMiss` | index.js:122-130 | on a miss, a reply without `TeamDetails`, `TeamDetails[0]` or `TeamDetails[0].Details` gives `false` and writes nothing; a valid reply is stored whole with never-expire and gives `Details[0]`; a failed request rejects and writes nothing |
| `Resolvers.TeamRoundTrip` | index.js:114-129 | after a stored fetch, every later call for the same id hits the cache, returns the same `Details[0]` and writes nothing |
| `Resolvers.ResolversPreserveWellFormed` | index.js:102-128 | after either resolver, every non-bracket entry in the cache is still a checked, never-expiring team reply |
| `FanOut.StoreAfterAllWritesOnlyItsIds` | index.js:59-70 | the lookups of a batch touch only their own ids' entries |
| `FanOut.LookupSeesStartingCache` | index.js:59-72 | every lookup sees the cache as the request found it, so running the lookups one after another gives the same result as running them concurrently |
| `FanOut.TeamTableStep` | index.js:61-64 | one settled lookup adds its id exactly when the result is not `false` and not a rejection |
| `FanOut.LoadTeams` | index.js:56-80 | each team id is looked up exactly once; `teams` is the reference table over the bracket's id set; the cache is what those lookups leave, with the bracket's entry untouched and well-formedness kept |
| `FanOut.TeamTableContents` | index.js:61-67 | `teams` has a key iff the id is referenced and its lookup was neither `false` nor a rejection, and the value is that lookup's result |
| `FanOut.TeamTableSize` | index.js:59-75 | the table has one entry per id minus one per failed or `false` lookup (twelve ids, one failure: eleven teams) |
| `FanOut.CachedTeamsArePresent` | index.js:59-67 | in a well-formed cache, a referenced team that is cached is always in `teams` |
| `FanOut.StoreAfterAllKeepsCache` | index.js:59-70 | the team lookups keep the cache well formed and leave the bracket's entry untouched |
| `Pipeline.HandleRequest` | index.js:18-80 | a rejected bracket ends the request with the cache unchanged; otherwise `res.locals` holds the series, their buckets, the team table over the cache as the bracket step left it, and the bracket's timestamp; the bracket's entry holds a bracket afterwards, and a well-formed cache stays well formed |

## Left out

- Express setup, middleware wiring, static assets, `res.render` and `app.listen` (index.js:6-20,82-86): web plumbing.
- `request-promise` calls (index.js:100,122): the reply, or a failed request, is a parameter.
- `ez-cache` internals. `getFilePath` hashing is not modelled: entries are keyed by URL, so the hash is taken to be collision-free. File I/O is not modelled either.
- Unreadable or corrupt cache files: an existing entry always reads back as stored.
- The unused first `cache.get` at index.js:115: its promise is discarded, so it cannot change the result.
- `moment` and `Date` formatting of `lastUpdated` (index.js:31,34-37): the model keeps the raw timestamp. One `now` stamps everything in a request, so `created` and the cache's own timestamp are the same number.
- Concurrency of `Promise.all` (index.js:72): the lookups run as a sequential loop. `FanOut.LookupSeesStartingCache` shows why the order does not matter. The `.catch` at index.js:76-79 cannot run, because every lookup has its own `.catch`.
- Requests running at the same time and sharing the cache are not modelled.
- When the bracket promise rejects, index.js:28-47 has no handler, so the request never completes. The model ends the request with `Err`.
- The enumeration order of `_.keys` (index.js:59): JavaScript lists integer-like keys (NBA team ids are) in ascending order before the others. `Seeds.TeamKeys` iterates in insertion order; `MergeSideEffect.ForInOrder` models the real order only for the merge walk, where it changes the result. `teams` and the final cache do not depend on the order of the lookups.
- Expiry: no entry ever expires in the model, and the never-expire flag is recorded by `DiskCache.Cache.Set` but never read. `Resolvers.BracketServedFromCache` and `Resolvers.BracketRoundTrip` hold only because of this: an `ez-cache` entry that has expired would make `getBracket` fetch again.
- The query-string truthiness of `hardRefresh` (index.js:28), where even `"false"` is truthy: it is a `bool`.
- Series whose `topRow` or `teamId` is missing (`groupBy` would use the key `"undefined"`): team ids are always strings.
- Team replies whose `TeamDetails` is not an array, holds `null` elements, or is itself not an object: `TeamDetails` and `Details` are either arrays or absent.
- `_.cloneDeep` and aliasing: series are values, so the buckets cannot share state with `allSeries`.
- Series-key numbering, series summaries and season selection: they are not in `index.js`, so they are not part of this model.
- `MergeSideEffect.AllSeriesAfterMerge`: its contract states the length, that no new series appears, and (in `MergeSideEffect.MergeKeepsDisjointRows`) when nothing changes; the rest of its behaviour is the as-written definition, exhibited by `MergeSideEffect.MergeOverwritesAllSeries` and `MergeSideEffect.MergeWalksIntegerKeysAscending`. Each series counts as one object: fields are copied as whole values.
- `Pipeline.HandleRequest`: it reports `allSeries` as fetched, that is, with the overwrite of index.js:51 corrected (see Findings). As written, `res.locals.allSeries` would be `MergeSideEffect.AllSeriesAfterMerge` of it; the buckets are unaffected either way.

## Findings

| source | as written | input that shows it | evidently intended | confidence | as-written member | corrected member |
|---|---|---|---|---|---|---|
| index.js:51-54 | `_.groupBy` puts the series objects of `allSeries` themselves into its groups. `_.merge` then merges the bottom-row groups into the top-row groups in place, so it overwrites the fields of series in `res.locals.allSeries` | series 0 (round "1", top A, bottom B) and series 1 (round "2", top C, bottom A): afterwards `allSeries` holds series 1 twice | collect the team ids without changing `allSeries`, e.g. the union of the two id lists | medium, not executed; it rests on lodash's in-place deep merge. The buckets were cloned before the merge, so they are unaffected | `MergeSideEffect.MergeOverwritesAllSeries` | `Seeds.TeamKeysEnumerateTeamIds` |
