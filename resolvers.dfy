/**
 * The two cache-or-fetch resolvers of index.js: `getBracket` (lines 88-108) and
 * `getTeam` (lines 110-131). The network reply is a parameter; the clock reading
 * `Date.now()` is the parameter `now`.
 */
module Resolvers {
  import opened Wrappers
  import opened Bracket
  import opened TeamFeed
  import opened DiskCache

  /** The bracket's URL: one fixed season. */
  const BracketUrl: string := "http://data.nba.net" + "/prod/v1/2017/playoffsBracket.json"

  const TeamUrlPrefix: string := "http://stats.nba.com/feeds/teams/profile/"
  const TeamUrlSuffix: string := "_TeamProfile.js"

  /** The profile URL of team `id`. */
  function TeamUrl(id: string): string {
    TeamUrlPrefix + id + TeamUrlSuffix
  }

  /** Distinct team ids have distinct cache entries. */
  lemma TeamUrlInjective(a: string, b: string)
    ensures TeamUrl(a) == TeamUrl(b) ==> a == b
  {
    if TeamUrl(a) == TeamUrl(b) {
      var n := |TeamUrlPrefix|;
      assert |a| == |b|;
      assert a == TeamUrl(a)[n..n + |a|];
      assert b == TeamUrl(b)[n..n + |b|];
    }
  }

  /** No team entry shares the bracket's cache entry. */
  lemma TeamUrlIsNotBracketUrl(id: string)
    ensures TeamUrl(id) != BracketUrl
  {
    assert TeamUrl(id)[7] != BracketUrl[7];
  }

  /** What `getBracket` resolves to: the bracket reply and when it was fetched. */
  datatype BracketEntry = BracketEntry(data: Document, created: nat)

  /** The rejection of `getBracket` when the request fails. */
  datatype FetchError = FetchError

  /**
   * The settled outcome of `getTeam`: a value (the first `Details` element, `undefined`
   * when `Details` is empty), the literal `false`, or a rejection.
   */
  datatype TeamOutcome = Team(profile: Option<Profile>) | NoTeam | LookupFailed

  /** The bracket's entry, when present, holds a bracket. */
  predicate BracketSlotOk(entries: map<string, Entry>) {
    BracketUrl in entries ==> entries[BracketUrl].payload.BracketDoc?
  }

  /** A team entry as `getTeam` writes it: a reply that passed the check, never expiring. */
  predicate TeamEntryOk(e: Entry) {
    e.payload.TeamDoc? && HasDetails(e.payload.reply) && e.permanent
  }

  /** The cache as these two resolvers leave it: every entry but the bracket's is a checked team reply. */
  ghost predicate WellFormed(entries: map<string, Entry>) {
    && BracketSlotOk(entries)
    && forall url :: url in entries && url != BracketUrl ==> TeamEntryOk(entries[url])
  }

  /** The policy of `getBracket`: what it resolves to. */
  function BracketLookup(entries: map<string, Entry>, hardRefresh: bool, reply: Fetch<Document>, now: nat)
    : Result<BracketEntry, FetchError>
    requires BracketSlotOk(entries)
  {
    if !hardRefresh && BracketUrl in entries then
      Ok(BracketEntry(entries[BracketUrl].payload.doc, entries[BracketUrl].created))
    else
      match reply
      case Replied(doc) => Ok(BracketEntry(doc, now))
      case FetchFailed => Err(FetchError)
  }

  /** The policy of `getBracket`: the cache it leaves. */
  function BracketStoreAfter(entries: map<string, Entry>, hardRefresh: bool, reply: Fetch<Document>, now: nat)
    : map<string, Entry>
  {
    if !hardRefresh && BracketUrl in entries then entries
    else
      match reply
      case Replied(doc) => entries[BracketUrl := Entry(BracketDoc(doc), now, false)]
      case FetchFailed => entries
  }

  /**
   * The policy of `getTeam`: what it settles to. A cached payload is read through
   * `TeamDetails[0].Details[0]`, which throws (and so rejects) unless the check holds.
   */
  function TeamLookup(entries: map<string, Entry>, id: string, reply: Fetch<TeamReply>): TeamOutcome {
    var url := TeamUrl(id);
    if url in entries then
      var p := entries[url].payload;
      if p.TeamDoc? && HasDetails(p.reply) then Team(FirstProfile(p.reply)) else LookupFailed
    else
      match reply
      case FetchFailed => LookupFailed
      case Replied(r) => if HasDetails(r) then Team(FirstProfile(r)) else NoTeam
  }

  /** The policy of `getTeam`: the cache it leaves. */
  function TeamStoreAfter(entries: map<string, Entry>, id: string, reply: Fetch<TeamReply>, now: nat)
    : map<string, Entry>
  {
    var url := TeamUrl(id);
    if url in entries then entries
    else
      match reply
      case Replied(r) => if HasDetails(r) then entries[url := Entry(TeamDoc(r), now, true)] else entries
      case FetchFailed => entries
  }

  /** `getBracket(hardRefresh)`. */
  method GetBracket(cache: Cache, hardRefresh: bool, reply: Fetch<Document>, now: nat)
      returns (r: Result<BracketEntry, FetchError>)
    requires BracketSlotOk(cache.entries)
    modifies cache
    ensures r == BracketLookup(old(cache.entries), hardRefresh, reply, now)
    ensures cache.entries == BracketStoreAfter(old(cache.entries), hardRefresh, reply, now)
    ensures BracketSlotOk(cache.entries)
    ensures WellFormed(old(cache.entries)) ==> WellFormed(cache.entries)
  {
    if WellFormed(cache.entries) {
      ResolversPreserveWellFormed(cache.entries, hardRefresh, reply, "", FetchFailed, now);
    }
    var url := BracketUrl;
    var cached := cache.Exists(url);
    if !hardRefresh && cached {
      var e := cache.Get(url);
      return Ok(BracketEntry(e.payload.doc, e.created));
    }
    match reply
    case FetchFailed =>
      r := Err(FetchError);
    case Replied(doc) =>
      cache.Set(url, BracketDoc(doc), now, false);
      r := Ok(BracketEntry(doc, now));
  }

  /** `getTeam(id)`. */
  method GetTeam(cache: Cache, id: string, reply: Fetch<TeamReply>, now: nat) returns (r: TeamOutcome)
    modifies cache
    ensures r == TeamLookup(old(cache.entries), id, reply)
    ensures cache.entries == TeamStoreAfter(old(cache.entries), id, reply, now)
    ensures BracketUrl in cache.entries <==> BracketUrl in old(cache.entries)
    ensures BracketUrl in old(cache.entries) ==> cache.entries[BracketUrl] == old(cache.entries)[BracketUrl]
    ensures WellFormed(old(cache.entries)) ==> WellFormed(cache.entries)
  {
    TeamUrlIsNotBracketUrl(id);
    if WellFormed(cache.entries) {
      ResolversPreserveWellFormed(cache.entries, false, FetchFailed, id, reply, now);
    }
    var url := TeamUrl(id);
    var cached := cache.Exists(url);
    if cached {
      var e := cache.Get(url);
      var p := e.payload;
      if p.TeamDoc? && HasDetails(p.reply) {
        r := Team(FirstProfile(p.reply));
      } else {
        r := LookupFailed;
      }
      return;
    }
    match reply
    case FetchFailed =>
      r := LookupFailed;
    case Replied(t) =>
      if !HasDetails(t) {
        return NoTeam;
      }
      cache.Set(url, TeamDoc(t), now, true);
      r := Team(FirstProfile(t));
  }

  /** Without `hardRefresh`, a cached bracket is served as stored and nothing is written. */
  lemma BracketServedFromCache(entries: map<string, Entry>, reply: Fetch<Document>, now: nat)
    requires BracketSlotOk(entries) && BracketUrl in entries
    ensures BracketLookup(entries, false, reply, now)
      == Ok(BracketEntry(entries[BracketUrl].payload.doc, entries[BracketUrl].created))
    ensures BracketStoreAfter(entries, false, reply, now) == entries
  {
  }

  /**
   * With `hardRefresh`, or with no entry, the reply is stored under the bracket's URL
   * (not marked never-expire) and returned stamped `now`; a failed request rejects and
   * writes nothing.
   */
  lemma BracketFetched(entries: map<string, Entry>, hardRefresh: bool, reply: Fetch<Document>, now: nat)
    requires BracketSlotOk(entries)
    requires hardRefresh || BracketUrl !in entries
    ensures reply.Replied? ==>
      && BracketLookup(entries, hardRefresh, reply, now) == Ok(BracketEntry(reply.reply, now))
      && BracketStoreAfter(entries, hardRefresh, reply, now)
         == entries[BracketUrl := Entry(BracketDoc(reply.reply), now, false)]
    ensures reply.FetchFailed? ==>
      && BracketLookup(entries, hardRefresh, reply, now) == Err(FetchError)
      && BracketStoreAfter(entries, hardRefresh, reply, now) == entries
  {
  }

  /**
   * A fetched bracket is what the next call without `hardRefresh` serves, with the same
   * timestamp, whatever the network would have answered then.
   */
  lemma BracketRoundTrip(entries: map<string, Entry>, hardRefresh: bool, doc: Document, now: nat,
                         later: Fetch<Document>, now': nat)
    requires BracketSlotOk(entries)
    requires hardRefresh || BracketUrl !in entries
    ensures var after := BracketStoreAfter(entries, hardRefresh, Replied(doc), now);
      && BracketSlotOk(after)
      && BracketLookup(after, false, later, now') == BracketLookup(entries, hardRefresh, Replied(doc), now)
      && BracketStoreAfter(after, false, later, now') == after
  {
  }

  /**
   * A cache hit writes nothing; in a well-formed cache it never rejects and yields the
   * stored reply's first profile.
   */
  lemma TeamHit(entries: map<string, Entry>, id: string, reply: Fetch<TeamReply>, now: nat)
    requires TeamUrl(id) in entries
    ensures TeamStoreAfter(entries, id, reply, now) == entries
    ensures WellFormed(entries) ==>
      var p := entries[TeamUrl(id)].payload;
      p.TeamDoc? && HasDetails(p.reply) && TeamLookup(entries, id, reply) == Team(FirstProfile(p.reply))
  {
    TeamUrlIsNotBracketUrl(id);
  }

  /**
   * On a cache miss: a reply that fails the presence check settles to `false` and is not
   * stored; a reply that passes is stored whole, never expiring, and yields its first
   * profile; a failed request rejects and stores nothing.
   */
  lemma TeamMiss(entries: map<string, Entry>, id: string, reply: Fetch<TeamReply>, now: nat)
    requires TeamUrl(id) !in entries
    ensures reply.Replied? && !HasDetails(reply.reply) ==>
      TeamLookup(entries, id, reply) == NoTeam && TeamStoreAfter(entries, id, reply, now) == entries
    ensures reply.Replied? && HasDetails(reply.reply) ==>
      && TeamLookup(entries, id, reply) == Team(FirstProfile(reply.reply))
      && TeamStoreAfter(entries, id, reply, now) == entries[TeamUrl(id) := Entry(TeamDoc(reply.reply), now, true)]
    ensures reply.FetchFailed? ==>
      TeamLookup(entries, id, reply) == LookupFailed && TeamStoreAfter(entries, id, reply, now) == entries
  {
  }

  /**
   * A team fetched and stored is served from the cache by every later call for the
   * same id, with the same profile, and that call writes nothing.
   */
  lemma TeamRoundTrip(entries: map<string, Entry>, id: string, reply: Fetch<TeamReply>, now: nat,
                      later: Fetch<TeamReply>, now': nat)
    requires TeamUrl(id) !in entries && TeamLookup(entries, id, reply).Team?
    ensures var after := TeamStoreAfter(entries, id, reply, now);
      && TeamUrl(id) in after
      && TeamLookup(after, id, later) == TeamLookup(entries, id, reply)
      && TeamStoreAfter(after, id, later, now') == after
  {
  }

  /** Both resolvers keep the cache well formed. */
  lemma ResolversPreserveWellFormed(entries: map<string, Entry>, hardRefresh: bool, doc: Fetch<Document>,
                                    id: string, reply: Fetch<TeamReply>, now: nat)
    requires WellFormed(entries)
    ensures WellFormed(BracketStoreAfter(entries, hardRefresh, doc, now))
    ensures WellFormed(TeamStoreAfter(entries, id, reply, now))
  {
    TeamUrlIsNotBracketUrl(id);
  }
}
