/** The rank check: one request to the SimilarWeb rank API for a domain,
    classified against a configured rank limit. */
module SimilarWeb {
  import opened Common

  /** The `similar_rank` key of the reply body: absent, or present with a
      numeric `rank` field (`None` when that field is missing, which makes
      the JavaScript comparison `rank > limit` false). */
  datatype RankField = Absent | Present(rank: Option<int>)

  /** The parts of a rank API reply that the test inspects: the HTTP status,
      `meta.status` of the body and its `similar_rank` key. */
  datatype RankReply = RankReply(status: int, metaStatus: string, similarRank: RankField)

  /** The five ways the test can end. */
  datatype RankOutcome =
    | FetchFailed        // non-ok HTTP status: throws
    | SoftPass           // the API itself reports a failure: returns 1
    | Unranked           // no `similar_rank` key: throws
    | OverLimit(rank: int)  // rank strictly above the limit: throws
    | WithinLimit        // returns 0

  const SuccessStatus: string := "Success"

  /** Classifies a reply; the guards apply in the order HTTP status,
      `meta.status`, presence of `similar_rank`, limit. Each outcome is
      characterised by the complete condition under which it occurs. */
  function Classify(reply: RankReply, limit: int): (o: RankOutcome)
    ensures o.FetchFailed? <==> !IsOk(reply.status)
    ensures o.SoftPass? <==> IsOk(reply.status) && reply.metaStatus != SuccessStatus
    ensures o.Unranked? <==>
              IsOk(reply.status) && reply.metaStatus == SuccessStatus && reply.similarRank.Absent?
    ensures o.OverLimit? <==>
              && IsOk(reply.status) && reply.metaStatus == SuccessStatus
              && reply.similarRank.Present? && reply.similarRank.rank.Some?
              && reply.similarRank.rank.value > limit
    ensures o.OverLimit? ==> reply.similarRank == Present(Some(o.rank))
    ensures o.WithinLimit? <==>
              && IsOk(reply.status) && reply.metaStatus == SuccessStatus
              && reply.similarRank.Present?
              && (reply.similarRank.rank.None? || reply.similarRank.rank.value <= limit)
  {
    if !IsOk(reply.status) then FetchFailed
    else if reply.metaStatus != SuccessStatus then SoftPass
    else if reply.similarRank.Absent? then Unranked
    else match reply.similarRank.rank
      case Some(r) => if r > limit then OverLimit(r) else WithinLimit
      case None => WithinLimit
  }

  const FetchFailedMessage: string := "Unable to fetch website rank"

  function UnrankedMessage(domain: string): string {
    domain + " doesn't have a SimilarWeb rank."
  }

  /** `format` stands for the locale-dependent `toLocaleString`. */
  function OverLimitMessage(domain: string, rank: int, limit: int, format: int -> string): string {
    domain + " SimilarWeb rank " + format(rank) + " exceeds the limit of " + format(limit) + "."
  }

  /** `similarWeb(domain, env)`: the value it resolves to (1 on a soft pass,
      0 within the limit) or the message it rejects with. A rejected fetch
      rejects with its own message. */
  function Rank(domain: string, reply: Fetched<RankReply>, limit: int, format: int -> string): (r: Result<int>)
    ensures reply.Failed? ==> r == Err(reply.reason)
    ensures reply.Got? && !IsOk(reply.value.status) ==> r == Err(FetchFailedMessage)
    ensures r == Ok(1) <==> reply.Got? && Classify(reply.value, limit).SoftPass?
    ensures r == Ok(0) <==> reply.Got? && Classify(reply.value, limit).WithinLimit?
    ensures r.Ok? ==> r.value == 0 || r.value == 1
    ensures reply.Got? && Classify(reply.value, limit).Unranked? ==> r == Err(UnrankedMessage(domain))
    ensures reply.Got? && Classify(reply.value, limit).OverLimit? ==>
              r == Err(OverLimitMessage(domain, Classify(reply.value, limit).rank, limit, format))
  {
    match reply
    case Failed(reason) => Err(reason)
    case Got(res) =>
      match Classify(res, limit)
      case FetchFailed => Err(FetchFailedMessage)
      case SoftPass => Ok(1)
      case Unranked => Err(UnrankedMessage(domain))
      case OverLimit(n) => Err(OverLimitMessage(domain, n, limit, format))
      case WithinLimit => Ok(0)
  }

  /** The comparison is strict: a rank equal to the limit passes. */
  lemma RankAtLimitPasses(domain: string, limit: int, format: int -> string)
    ensures Rank(domain, Got(RankReply(200, SuccessStatus, Present(Some(limit)))), limit, format) == Ok(0)
    ensures Rank(domain, Got(RankReply(200, SuccessStatus, Present(Some(limit + 1)))), limit, format).Err?
  {
  }

  /** A domain that passes under some limit passes under every larger limit. */
  lemma PassIsMonotoneInLimit(domain: string, reply: Fetched<RankReply>, limit: int, larger: int,
                              format: int -> string)
    requires limit <= larger
    requires Rank(domain, reply, limit, format).Ok?
    ensures Rank(domain, reply, larger, format) == Rank(domain, reply, limit, format)
  {
  }

  /** A non-ok reply yields the same error whatever its body says. */
  lemma NonOkIgnoresBody(domain: string, a: RankReply, b: RankReply, limit: int, format: int -> string)
    requires a.status == b.status && !IsOk(a.status)
    ensures Rank(domain, Got(a), limit, format) == Rank(domain, Got(b), limit, format) == Err(FetchFailedMessage)
  {
  }

  /** When the API reports a failure the test returns 1, whatever the rank
      fields hold. */
  lemma SoftPassIgnoresRank(domain: string, status: int, meta: string, a: RankField, b: RankField,
                            limit: int, format: int -> string)
    requires IsOk(status) && meta != SuccessStatus
    ensures Rank(domain, Got(RankReply(status, meta, a)), limit, format) == Ok(1)
    ensures Rank(domain, Got(RankReply(status, meta, b)), limit, format) == Ok(1)
  {
  }
}
