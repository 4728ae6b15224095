/** The team-profile reply and the presence check of index.js, line 124. */
module TeamFeed {
  import opened Wrappers

  /** One element of `Details`: the team record the page shows. */
  datatype Profile = Profile(teamId: string, abbreviation: string, city: string, name: string)

  /** An element of `TeamDetails`; `details` is `None` when `Details` is absent or falsy. */
  datatype DetailsBlock = DetailsBlock(details: Option<seq<Profile>>)

  /** The profile reply; `teamDetails` is `None` when `TeamDetails` is absent or falsy. */
  datatype TeamReply = TeamReply(teamDetails: Option<seq<DetailsBlock>>)

  /**
   * `reply.TeamDetails && reply.TeamDetails[0] && reply.TeamDetails[0].Details`:
   * an empty `Details` array is truthy and passes.
   */
  predicate HasDetails(r: TeamReply) {
    r.teamDetails.Some? && |r.teamDetails.value| > 0 && r.teamDetails.value[0].details.Some?
  }

  /** `reply.TeamDetails[0].Details[0]`, which is `undefined` when `Details` is empty. */
  function FirstProfile(r: TeamReply): (p: Option<Profile>)
    requires HasDetails(r)
    ensures p.Some? <==> |r.teamDetails.value[0].details.value| > 0
    ensures p.Some? ==> p.value == r.teamDetails.value[0].details.value[0]
  {
    var d := r.teamDetails.value[0].details.value;
    if |d| > 0 then Some(d[0]) else None
  }

  /**
   * The presence check consults only the first `TeamDetails` element: it rejects a
   * missing or empty `TeamDetails` and a first element without `Details`, and accepts an
   * empty `Details` array, whose first profile is then `undefined`.
   */
  lemma PresenceCheckCases(rest: seq<DetailsBlock>, ps: seq<Profile>)
    ensures !HasDetails(TeamReply(None)) && !HasDetails(TeamReply(Some([])))
    ensures !HasDetails(TeamReply(Some([DetailsBlock(None)] + rest)))
    ensures HasDetails(TeamReply(Some([DetailsBlock(Some(ps))] + rest)))
    ensures FirstProfile(TeamReply(Some([DetailsBlock(Some(ps))] + rest))) == if ps == [] then None else Some(ps[0])
  {
  }
}
