/** `GET /api/v1/rankings` of `src/app/api/v1/rankings/route.ts`: the period
    chooses how far back votes are joined, an optional category adds one
    bound clause, and the response echoes the period. The ranked rows come
    from the database and are a parameter. */
module RankingsApi {
  import opened Common
  import opened ApiResponse
  import opened Db
  import opened ModelsApi

  const SecondsPerDay := 86400

  /** The period asked for: `today` when absent or empty. */
  function Period(q: Query): (p: string)
    ensures "period" in q && q["period"] != "" ==> p == q["period"]
    ensures !("period" in q && q["period"] != "") ==> p == "today"
  {
    ParamOr(q, "period", "today")
  }

  /** The condition on the joined votes: none, or created no earlier than
      midnight `days` days before today. */
  datatype DateFilter = AnyTime | SinceDaysAgo(days: nat)

  /** The `switch` on the period. */
  function DateFilterOf(period: string): (f: DateFilter)
    ensures period == "today" <==> f == SinceDaysAgo(0)
    ensures period == "week" <==> f == SinceDaysAgo(7)
    ensures period == "month" <==> f == SinceDaysAgo(30)
    ensures f.AnyTime? <==> period !in {"today", "week", "month"}
  {
    match period
    case "today" => SinceDaysAgo(0)
    case "week" => SinceDaysAgo(7)
    case "month" => SinceDaysAgo(30)
    case _ => AnyTime
  }

  /** A vote created at `createdAt` (seconds) passes the join condition on
      day `today` (days since the epoch; `CURDATE()` is its midnight). */
  predicate Joined(f: DateFilter, createdAt: int, today: int)
  {
    match f
    case AnyTime => true
    case SinceDaysAgo(n) => createdAt >= (today - n) * SecondsPerDay
  }

  /** `COUNT(v.id)` for one model: the votes joined to it. */
  function VoteCount(votes: seq<VoteRow>, model: string, f: DateFilter, today: int): (n: nat)
    ensures n <= |votes|
  {
    if votes == [] then 0
    else
      var last := votes[|votes| - 1];
      VoteCount(votes[..|votes| - 1], model, f, today)
        + (if last.model == model && Joined(f, last.createdAt, today) then 1 else 0)
  }

  /** A longer period joins every vote a shorter one does. */
  lemma JoinedWidens(f: DateFilter, g: DateFilter, createdAt: int, today: int)
    requires Joined(f, createdAt, today)
    requires g.AnyTime? || (f.SinceDaysAgo? && f.days <= g.days)
    ensures Joined(g, createdAt, today)
  {
    if g.SinceDaysAgo? {
      assert (today - g.days) * SecondsPerDay <= (today - f.days) * SecondsPerDay;
    }
  }

  /** ... so its count is at least as large. */
  lemma {:induction false} VoteCountWidens(votes: seq<VoteRow>, model: string, f: DateFilter, g: DateFilter, today: int)
    requires g.AnyTime? || (f.SinceDaysAgo? && f.days <= g.days)
    ensures VoteCount(votes, model, f, today) <= VoteCount(votes, model, g, today)
  {
    if votes != [] {
      VoteCountWidens(votes[..|votes| - 1], model, f, g, today);
      var last := votes[|votes| - 1];
      if last.model == model && Joined(f, last.createdAt, today) {
        JoinedWidens(f, g, last.createdAt, today);
      }
    }
  }

  /** `HAVING vote_count > 0`: a model ranked today is ranked for the week,
      one ranked for the week is ranked for the month, and one ranked for
      the month is ranked for any other period. */
  lemma RankedNests(votes: seq<VoteRow>, model: string, today: int, other: string)
    requires other !in {"today", "week", "month"}
    ensures VoteCount(votes, model, DateFilterOf("today"), today) > 0 ==> VoteCount(votes, model, DateFilterOf("week"), today) > 0
    ensures VoteCount(votes, model, DateFilterOf("week"), today) > 0 ==> VoteCount(votes, model, DateFilterOf("month"), today) > 0
    ensures VoteCount(votes, model, DateFilterOf("month"), today) > 0 ==> VoteCount(votes, model, DateFilterOf(other), today) > 0
  {
    VoteCountWidens(votes, model, SinceDaysAgo(0), SinceDaysAgo(7), today);
    VoteCountWidens(votes, model, SinceDaysAgo(7), SinceDaysAgo(30), today);
    VoteCountWidens(votes, model, SinceDaysAgo(30), AnyTime, today);
  }

  /** The date condition's text inside the join. */
  function DateFilterSql(f: DateFilter): (r: string)
    ensures r == "" <==> f.AnyTime?
  {
    match f
    case AnyTime => ""
    case SinceDaysAgo(0) => "AND v.created_at >= CURDATE()"
    case SinceDaysAgo(n) => if n == 7 then "AND v.created_at >= DATE_SUB(CURDATE(), INTERVAL 7 DAY)"
                            else "AND v.created_at >= DATE_SUB(CURDATE(), INTERVAL 30 DAY)"
  }

  const RankingsHead := "SELECT m.id, m.name, m.provider, m.category, AVG(v.performance_rating) as avg_performance, AVG(v.intelligence_rating) as avg_intelligence, COUNT(v.id) as vote_count, ROUND((AVG(v.performance_rating) + AVG(v.intelligence_rating)) / 2, 2) as overall_score FROM models m LEFT JOIN votes v ON m.id = v.model_id "
  const RankingsTail := " GROUP BY m.id HAVING vote_count > 0 ORDER BY overall_score DESC, vote_count DESC LIMIT 10"

  /** The category clause, present iff the category is truthy. */
  function RankingsCategoryClause(category: Option<string>): seq<Fragment>
  {
    if Present(category) then [Lit(" AND m.category = "), Mark] else []
  }

  /** The statement the route runs. */
  function RankingsSql(period: string, category: Option<string>): seq<Fragment>
  {
    [Lit(RankingsHead + DateFilterSql(DateFilterOf(period)) + " WHERE 1=1")]
      + RankingsCategoryClause(category) + [Lit(RankingsTail)]
  }

  /** The bound parameters: the category iff it is truthy. */
  function RankingsParams(category: Option<string>): (ps: seq<Param>)
    ensures |ps| <= 1
    ensures |ps| == 1 <==> Present(category)
    ensures |ps| == 1 ==> ps[0] == PStr(category.value)
  {
    if Present(category) then [PStr(category.value)] else []
  }

  /** The clause and its parameter come together: one placeholder per parameter. */
  lemma RankingsPlaceholders(period: string, category: Option<string>)
    ensures Placeholders(RankingsSql(period, category)) == |RankingsParams(category)|
  {
    var head: seq<Fragment> := [Lit(RankingsHead + DateFilterSql(DateFilterOf(period)) + " WHERE 1=1")];
    var c := RankingsCategoryClause(category);
    PlaceholdersOfLit(RankingsHead + DateFilterSql(DateFilterOf(period)) + " WHERE 1=1");
    PlaceholdersOfLit(RankingsTail);
    if Present(category) {
      PlaceholdersOfClause(" AND m.category = ");
    }
    PlaceholdersAppend(head, c);
    PlaceholdersAppend(head + c, [Lit(RankingsTail)]);
  }

  /** The response: the period as given, and the ranked rows; `None` rows
      stand for a failed query. */
  function Respond(q: Query, rankings: Option<seq<Json>>): (r: Response)
    ensures rankings.None? ==> r == Response(500, JObj(map["error" := JStr("Internal server error")]))
    ensures rankings.Some? ==>
      r == Response(200, JObj(map["period" := JStr(Period(q)), "rankings" := JArr(rankings.value)]))
  {
    match rankings
    case None => Response(500, JObj(map["error" := JStr("Internal server error")]))
    case Some(rows) => Response(200, JObj(map["period" := JStr(Period(q)), "rankings" := JArr(rows)]))
  }

  /** An unrecognised period is echoed verbatim, and joins votes of any date. */
  lemma UnknownPeriodEchoed(q: Query, rows: seq<Json>)
    requires "period" in q && q["period"] == "year"
    ensures Respond(q, Some(rows)).body.fields["period"] == JStr("year")
    ensures DateFilterOf(Period(q)) == AnyTime
  {
  }

  /** With no period the day's votes are ranked. */
  lemma DefaultPeriodToday(q: Query)
    requires "period" !in q
    ensures Period(q) == "today" && DateFilterOf(Period(q)) == SinceDaysAgo(0)
  {
  }
}
