/**
 * The two middlewares of index.js chained for one request: resolve the bracket and
 * bucket its series (lines 18-48), then load the teams (lines 50-80).
 */
module Pipeline {
  import opened Wrappers
  import opened Bracket
  import opened Seeds
  import opened TeamFeed
  import opened DiskCache
  import opened Resolvers
  import opened FanOut

  /** The parts of `res.locals` the pipeline computes; `lastUpdated` is the raw timestamp. */
  datatype Locals = Locals(
    allSeries: seq<Series>,
    bracket: Rounds,
    teams: map<string, Option<Profile>>,
    lastUpdated: nat)

  /**
   * One request. A rejected bracket fetch ends the request before the team middleware
   * runs; otherwise every team of the bracket is looked up against the cache as the
   * bracket step left it.
   */
  method HandleRequest(cache: Cache, hardRefresh: bool, bracketReply: Fetch<Document>,
                       network: string -> Fetch<TeamReply>, now: nat)
      returns (r: Result<Locals, FetchError>)
    requires BracketSlotOk(cache.entries)
    modifies cache
    ensures var b := BracketLookup(old(cache.entries), hardRefresh, bracketReply, now);
      var mid := BracketStoreAfter(old(cache.entries), hardRefresh, bracketReply, now);
      match b
      case Err(e) => r == Err(e) && cache.entries == old(cache.entries)
      case Ok(entry) =>
        var series := entry.data.series;
        && r == Ok(Locals(series, Organize(series), TeamTable(mid, TeamIds(series), network), entry.created))
        && cache.entries == StoreAfterAll(mid, TeamKeys(series), network, now)
    ensures BracketSlotOk(cache.entries)
    ensures WellFormed(old(cache.entries)) ==> WellFormed(cache.entries)
  {
    var b := GetBracket(cache, hardRefresh, bracketReply, now);
    match b
    case Err(e) =>
      r := Err(e);
    case Ok(entry) =>
      var allSeries := entry.data.series;
      var bracket := Organize(allSeries);
      var teams, calls := LoadTeams(cache, allSeries, network, now);
      r := Ok(Locals(allSeries, bracket, teams, entry.created));
  }
}
