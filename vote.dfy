/** `POST /api/vote` of `src/app/api/vote/route.ts`: validate, check the model
    is active, consume the vote quota, upsert the ballot, recompute the day's
    summary. The request body is typed: an absent or empty `modelId` or
    `issueType` is "", and a body that is not JSON is `None`. */
module VoteRoute {
  import opened Common
  import opened ApiResponse
  import opened Fingerprint
  import opened RateLimit
  import opened Db

  /** The parsed body. `ratings` maps the rating names sent to their values. */
  datatype VoteRequest = VoteRequest(modelId: string, ratings: Option<map<string, real>>, issueType: string)

  const InvalidMessage := "Invalid vote data"
  const NotFoundMessage := "Model not found. Please refresh the page and try again."
  const RateLimitMessage := "Rate limit exceeded. You can vote once per day per model."
  const FailureMessage := "Failed to record vote. Please try again later."
  const SuccessMessage := "Vote recorded successfully!"

  /** The early validation: a non-empty model id and a non-empty ratings object. */
  predicate ValidRequest(req: VoteRequest)
  {
    req.modelId != "" && req.ratings.Some? && |req.ratings.value| > 0
  }

  /** `ratings.<name> || null`: an absent or zero rating is stored as `NULL`. */
  function StoredRating(ratings: map<string, real>, name: string): (v: Option<real>)
    ensures v.Some? <==> name in ratings && ratings[name] != 0.0
    ensures v.Some? ==> v.value == ratings[name]
  {
    if name in ratings && ratings[name] != 0.0 then Some(ratings[name]) else None
  }

  /** The ballot the `INSERT` writes. Rating names other than the four columns are ignored. */
  function BallotOf(ratings: map<string, real>, issueType: string): (b: Ballot)
    ensures b.performance == StoredRating(ratings, "performance")
    ensures b.speed == StoredRating(ratings, "speed")
    ensures b.intelligence == StoredRating(ratings, "intelligence")
    ensures b.reliability == StoredRating(ratings, "reliability")
    ensures b.issueType.Some? <==> issueType != ""
    ensures b.issueType.Some? ==> b.issueType.value == issueType
  {
    Ballot(
      StoredRating(ratings, "performance"),
      StoredRating(ratings, "speed"),
      StoredRating(ratings, "intelligence"),
      StoredRating(ratings, "reliability"),
      if issueType == "" then None else Some(issueType))
  }

  /** The model may be voted on: it exists and is active. */
  predicate ActiveModel(models: map<string, ModelRow>, id: string)
  {
    id in models && models[id].isActive
  }

  /** The body of a successful vote. */
  function SuccessBody(remaining: int): (body: Json)
    ensures body.JObj? && body.fields.Keys == {"success", "remaining", "message"}
    ensures body.fields["success"] == JBool(true)
    ensures body.fields["remaining"] == JNum(remaining as real)
    ensures body.fields["message"] == JStr(SuccessMessage)
  {
    JObj(map["success" := JBool(true), "remaining" := JNum(remaining as real), "message" := JStr(SuccessMessage)])
  }

  /** Writing the ballot and recomputing its day keeps every summary current. */
  lemma UpsertKeepsStats(votes: seq<VoteRow>, stats: map<StatKey, DailyStats>, row: VoteRow)
    requires StatsAgree(votes, stats)
    ensures var votes' := UpsertVote(votes, row);
      StatsAgree(votes', stats[StatKey(row.model, row.day) := Summary(votes', row.model, row.day)])
  {
    var votes' := UpsertVote(votes, row);
    var stats' := stats[StatKey(row.model, row.day) := Summary(votes', row.model, row.day)];
    forall k | k in stats'
      ensures stats'[k] == Summary(votes', k.model, k.day)
    {
      if k != StatKey(row.model, row.day) {
        UpsertOtherGroup(votes, row, k.model, k.day);
      }
    }
  }

  /** The route. `sha256` stands for the hash of the fingerprint, `today` for
      `CURDATE()` and `now` for `NOW()`. */
  method Post(ledger: Ledger, db: Database, headers: Headers, sha256: string -> HexDigest,
              body: Option<VoteRequest>, today: int, now: int)
    returns (resp: Response)
    requires ledger.Valid() && db.Valid()
    requires ledger.clock <= now
    modifies ledger, db
    ensures ledger.Valid() && db.Valid()
    ensures db.models == old(db.models) && db.comments == old(db.comments)
    // a body that is not JSON fails before anything is touched
    ensures body.None? ==>
      resp == ApiError(FailureMessage, Some(500), None)
      && unchanged(ledger) && unchanged(db)
    // invalid data: 400, nothing touched
    ensures body.Some? && !ValidRequest(body.value) ==>
      resp == ApiError(InvalidMessage, Some(400), None)
      && unchanged(ledger) && unchanged(db)
    // an unknown or inactive model: 404 before the quota is consulted
    ensures body.Some? && ValidRequest(body.value) && !ActiveModel(old(db.models), body.value.modelId) ==>
      resp == ApiError(NotFoundMessage, Some(404), None)
      && unchanged(ledger) && unchanged(db)
    // otherwise the ledger is consulted once, for a vote of this fingerprint
    ensures body.Some? && ValidRequest(body.value) && ActiveModel(old(db.models), body.value.modelId) ==>
      var fp := GenerateFingerprint(headers, sha256);
      var o := Check(old(ledger.rows), fp, Vote, now, ledger.windowMs);
      && ledger.rows == o.rows
      && (!o.decision.allowed ==>
            resp == ApiError(RateLimitMessage, Some(429), None) && unchanged(db))
      && (o.decision.allowed ==>
            var req := body.value;
            var row := VoteRow(req.modelId, today, fp, BallotOf(req.ratings.value, req.issueType), now);
            && db.votes == UpsertVote(old(db.votes), row)
            && db.dailyStats == old(db.dailyStats)[StatKey(req.modelId, today) := Summary(db.votes, req.modelId, today)]
            && resp == Response(200, SuccessBody(o.decision.remaining)))
  {
    var fp := GenerateFingerprint(headers, sha256);
    if body.None? {
      return ApiError(FailureMessage, Some(500), None);
    }
    var req := body.value;
    if !ValidRequest(req) {
      return ApiError(InvalidMessage, Some(400), None);
    }
    if !ActiveModel(db.models, req.modelId) {
      return ApiError(NotFoundMessage, Some(404), None);
    }
    var allowed, remaining := ledger.CheckRateLimit(fp, Vote, now);
    if !allowed {
      return ApiError(RateLimitMessage, Some(429), None);
    }
    var row := VoteRow(req.modelId, today, fp, BallotOf(req.ratings.value, req.issueType), now);
    UpsertKeepsUnique(db.votes, row);
    UpsertKeepsStats(db.votes, db.dailyStats, row);
    db.votes := UpsertVote(db.votes, row);
    db.dailyStats := db.dailyStats[StatKey(req.modelId, today) := Summary(db.votes, req.modelId, today)];
    return Response(200, SuccessBody(remaining));
  }

  // ---------------------------------------------------------------------------
  // What the stored summary says about the ballots.

  /** Falsy values are not votes: zero and missing ratings and an empty issue
      type are stored as `NULL`, so they do not enter the averages. */
  lemma FalsyRatingsStoredAsNull(name: string)
    ensures BallotOf(map["performance" := 0.0], "").performance.None?
    ensures BallotOf(map["speed" := 4.0], "").performance.None?
    ensures BallotOf(map["speed" := 4.0], "").speed == Some(4.0)
    ensures BallotOf(map[name := 3.0], "").issueType.None?
  {
  }

  /** A valid request need not carry any of the four ratings: `{"foo": 1}`
      passes validation and stores a ballot of four `NULL`s. */
  lemma UnknownRatingNamesPass()
    ensures ValidRequest(VoteRequest("m", Some(map["foo" := 1.0]), ""))
    ensures BallotOf(map["foo" := 1.0], "") == Ballot(None, None, None, None, None)
  {
  }

  /** Resubmitting under the same (model, day, fingerprint) replaces the first
      ballot: the summary counts one vote with the second ballot's values. */
  lemma ResubmissionReplaces(m: string, d: int, fp: string, t1: int, t2: int)
    ensures var v1 := UpsertVote([], VoteRow(m, d, fp, Ballot(Some(4.0), None, Some(5.0), None, None), t1));
      var v2 := UpsertVote(v1, VoteRow(m, d, fp, Ballot(Some(2.0), None, Some(3.0), None, None), t2));
      && |v2| == 1
      && Summary(v2, m, d) == DailyStats(1, Some(2.0), None, Some(3.0), None)
  {
    var r1 := VoteRow(m, d, fp, Ballot(Some(4.0), None, Some(5.0), None, None), t1);
    var r2 := VoteRow(m, d, fp, Ballot(Some(2.0), None, Some(3.0), None, None), t2);
    LastWriteWins([], r1, r2);
    assert UpsertVote([], r2) == [] + [r2];
    AppendRow([], r2, m, d, Performance);
    AppendRow([], r2, m, d, Speed);
    AppendRow([], r2, m, d, Intelligence);
    AppendRow([], r2, m, d, Reliability);
  }

  /** Two fingerprints on the same day are two rows, and the summary averages them. */
  lemma TwoVotersAveraged(m: string, d: int, fpA: string, fpB: string, t: int)
    requires fpA != fpB
    ensures var v1 := UpsertVote([], VoteRow(m, d, fpA, Ballot(Some(4.0), None, Some(5.0), None, None), t));
      var v2 := UpsertVote(v1, VoteRow(m, d, fpB, Ballot(Some(2.0), None, Some(3.0), None, None), t));
      && |v2| == 2
      && Summary(v2, m, d) == DailyStats(2, Some(3.0), None, Some(4.0), None)
  {
    var r1 := VoteRow(m, d, fpA, Ballot(Some(4.0), None, Some(5.0), None, None), t);
    var r2 := VoteRow(m, d, fpB, Ballot(Some(2.0), None, Some(3.0), None, None), t);
    assert UpsertVote([], r1) == [r1];
    assert UpsertVote([r1], r2) == [r1, r2];
    TwoRows(r1, r2, m, d, Performance);
    TwoRows(r1, r2, m, d, Speed);
    TwoRows(r1, r2, m, d, Intelligence);
    TwoRows(r1, r2, m, d, Reliability);
    assert Average([r1, r2], m, d, Performance) == Some(3.0);
    assert Average([r1, r2], m, d, Intelligence) == Some(4.0);
  }

  /** The aggregates of two rows are the sums of their shares. */
  lemma TwoRows(r1: VoteRow, r2: VoteRow, m: string, d: int, c: Column)
    ensures GroupSize([r1, r2], m, d) == Member(r1, m, d) + Member(r2, m, d)
    ensures ColumnCount([r1, r2], m, d, c) == Counted(r1, m, d, c) + Counted(r2, m, d, c)
    ensures ColumnSum([r1, r2], m, d, c) == Contribution(r1, m, d, c) + Contribution(r2, m, d, c)
  {
    AppendRow([], r1, m, d, c);
    assert [] + [r1] == [r1];
    AppendRow([r1], r2, m, d, c);
    assert [r1] + [r2] == [r1, r2];
  }
}
