/** The MySQL tables the routes write, held in memory. `votes` and `comments`
    are sequences of rows in table order; `models` and `daily_stats` are keyed
    by their primary keys. Days (`CURDATE()`) and instants (`NOW()`) are
    integers supplied by the caller. */
module Db {
  import opened Common

  /** A row of `models`. `isActive` is the `is_active` column. */
  datatype ModelRow = ModelRow(
    name: string,
    provider: string,
    category: string,
    contextLength: Option<int>,
    isActive: bool)

  /** The four rated columns of `votes`, `NULL` as `None`, plus `issue_type`. */
  datatype Ballot = Ballot(
    performance: Option<real>,
    speed: Option<real>,
    intelligence: Option<real>,
    reliability: Option<real>,
    issueType: Option<string>)

  /** A row of `votes`; (model, day, fingerprint) is its unique key. */
  datatype VoteRow = VoteRow(model: string, day: int, fingerprint: string, ballot: Ballot, createdAt: int)

  /** The key of `daily_stats`. */
  datatype StatKey = StatKey(model: string, day: int)

  /** A row of `daily_stats`: the vote count and one `AVG` per column, `NULL`
      when the column has no non-null value. */
  datatype DailyStats = DailyStats(
    totalVotes: nat,
    avgPerformance: Option<real>,
    avgSpeed: Option<real>,
    avgIntelligence: Option<real>,
    avgReliability: Option<real>)

  /** A row of `comments`. */
  datatype CommentRow = CommentRow(model: string, fingerprint: string, text: string, isApproved: bool)

  predicate SameVoteKey(r: VoteRow, s: VoteRow)
  {
    r.model == s.model && r.day == s.day && r.fingerprint == s.fingerprint
  }

  /** The unique key of `votes` holds. */
  predicate UniqueVoteKeys(votes: seq<VoteRow>)
  {
    forall i, j :: 0 <= i < j < |votes| ==> !SameVoteKey(votes[i], votes[j])
  }

  /** The first row with the key of `row`, if any. */
  function FindVote(votes: seq<VoteRow>, row: VoteRow): (k: Option<nat>)
    ensures k.Some? ==> k.value < |votes| && SameVoteKey(votes[k.value], row)
    ensures k.Some? ==> forall j :: 0 <= j < k.value ==> !SameVoteKey(votes[j], row)
    ensures k.None? <==> forall j :: 0 <= j < |votes| ==> !SameVoteKey(votes[j], row)
  {
    if votes == [] then None
    else if SameVoteKey(votes[0], row) then Some(0)
    else match FindVote(votes[1..], row)
      case None => None
      case Some(k) => Some(k + 1)
  }

  /** `INSERT ... ON DUPLICATE KEY UPDATE`: the row with the same key is
      replaced where it stands, or the row is appended. */
  function UpsertVote(votes: seq<VoteRow>, row: VoteRow): (r: seq<VoteRow>)
    ensures FindVote(votes, row).None? ==> r == votes + [row]
    ensures FindVote(votes, row).Some? ==> r == votes[FindVote(votes, row).value := row]
  {
    if votes == [] then [row]
    else if SameVoteKey(votes[0], row) then [row] + votes[1..]
    else
      assert FindVote(votes, row).Some? ==> FindVote(votes[1..], row).Some?;
      [votes[0]] + UpsertVote(votes[1..], row)
  }

  // ---------------------------------------------------------------------------
  // The aggregate of `daily_stats`: `COUNT(*)` and `AVG` over the votes of one
  // model on one day.

  datatype Column = Performance | Speed | Intelligence | Reliability

  function ValueOf(b: Ballot, c: Column): Option<real>
  {
    match c
    case Performance => b.performance
    case Speed => b.speed
    case Intelligence => b.intelligence
    case Reliability => b.reliability
  }

  predicate InGroup(r: VoteRow, model: string, day: int)
  {
    r.model == model && r.day == day
  }

  /** `COUNT(*)` of the group. */
  function GroupSize(votes: seq<VoteRow>, model: string, day: int): (n: nat)
    ensures n <= |votes|
  {
    if votes == [] then 0
    else GroupSize(votes[..|votes| - 1], model, day) + (if InGroup(votes[|votes| - 1], model, day) then 1 else 0)
  }

  /** The number of non-null values of a column in the group. */
  function ColumnCount(votes: seq<VoteRow>, model: string, day: int, c: Column): (n: nat)
    ensures n <= GroupSize(votes, model, day)
  {
    if votes == [] then 0
    else
      var r := votes[|votes| - 1];
      ColumnCount(votes[..|votes| - 1], model, day, c)
        + (if InGroup(r, model, day) && ValueOf(r.ballot, c).Some? then 1 else 0)
  }

  /** The sum of the non-null values of a column in the group. */
  function ColumnSum(votes: seq<VoteRow>, model: string, day: int, c: Column): real
  {
    if votes == [] then 0.0
    else
      var r := votes[|votes| - 1];
      ColumnSum(votes[..|votes| - 1], model, day, c)
        + (if InGroup(r, model, day) && ValueOf(r.ballot, c).Some? then ValueOf(r.ballot, c).value else 0.0)
  }

  /** `avg` is the mean of the group's non-null values in column `c`, and
      `NULL` exactly when there are none. */
  predicate IsAverage(avg: Option<real>, votes: seq<VoteRow>, model: string, day: int, c: Column)
  {
    && (avg.None? <==> ColumnCount(votes, model, day, c) == 0)
    && (avg.Some? ==> avg.value * (ColumnCount(votes, model, day, c) as real) == ColumnSum(votes, model, day, c))
  }

  /** SQL `AVG`: the mean of the non-null values, `NULL` when there are none. */
  function Average(votes: seq<VoteRow>, model: string, day: int, c: Column): (avg: Option<real>)
    ensures avg.None? <==> ColumnCount(votes, model, day, c) == 0
    ensures avg.Some? ==>
      avg.value * (ColumnCount(votes, model, day, c) as real) == ColumnSum(votes, model, day, c)
  {
    var n := ColumnCount(votes, model, day, c);
    if n == 0 then None else Some(ColumnSum(votes, model, day, c) / n as real)
  }

  lemma AverageIsAverage(votes: seq<VoteRow>, model: string, day: int, c: Column)
    ensures IsAverage(Average(votes, model, day, c), votes, model, day, c)
  {
  }

  /** The `daily_stats` row the `INSERT ... SELECT` computes for one group. */
  function Summary(votes: seq<VoteRow>, model: string, day: int): (s: DailyStats)
    ensures s.totalVotes == GroupSize(votes, model, day)
    ensures IsAverage(s.avgPerformance, votes, model, day, Performance)
    ensures IsAverage(s.avgSpeed, votes, model, day, Speed)
    ensures IsAverage(s.avgIntelligence, votes, model, day, Intelligence)
    ensures IsAverage(s.avgReliability, votes, model, day, Reliability)
  {
    AverageIsAverage(votes, model, day, Performance);
    AverageIsAverage(votes, model, day, Speed);
    AverageIsAverage(votes, model, day, Intelligence);
    AverageIsAverage(votes, model, day, Reliability);
    DailyStats(
      GroupSize(votes, model, day),
      Average(votes, model, day, Performance),
      Average(votes, model, day, Speed),
      Average(votes, model, day, Intelligence),
      Average(votes, model, day, Reliability))
  }

  /** Every stored `daily_stats` row is the summary of the current votes. */
  ghost predicate StatsAgree(votes: seq<VoteRow>, stats: map<StatKey, DailyStats>)
  {
    forall k :: k in stats ==> stats[k] == Summary(votes, k.model, k.day)
  }

  // ---------------------------------------------------------------------------
  // What an upsert does to the aggregates.

  /** The contribution of one row to a column of a group. */
  function Contribution(r: VoteRow, model: string, day: int, c: Column): real
  {
    if InGroup(r, model, day) && ValueOf(r.ballot, c).Some? then ValueOf(r.ballot, c).value else 0.0
  }

  function Counted(r: VoteRow, model: string, day: int, c: Column): nat
  {
    if InGroup(r, model, day) && ValueOf(r.ballot, c).Some? then 1 else 0
  }

  function Member(r: VoteRow, model: string, day: int): nat
  {
    if InGroup(r, model, day) then 1 else 0
  }

  /** Replacing one row changes each aggregate by the difference of the two rows. */
  lemma {:induction false} ReplaceRow(votes: seq<VoteRow>, k: nat, row: VoteRow, model: string, day: int, c: Column)
    requires k < |votes|
    ensures GroupSize(votes[k := row], model, day)
      == GroupSize(votes, model, day) - Member(votes[k], model, day) + Member(row, model, day)
    ensures ColumnCount(votes[k := row], model, day, c)
      == ColumnCount(votes, model, day, c) - Counted(votes[k], model, day, c) + Counted(row, model, day, c)
    ensures ColumnSum(votes[k := row], model, day, c)
      == ColumnSum(votes, model, day, c) - Contribution(votes[k], model, day, c) + Contribution(row, model, day, c)
    decreases |votes|
  {
    var n := |votes| - 1;
    var v' := votes[k := row];
    assert v'[..n] == if k == n then votes[..n] else votes[..n][k := row];
    if k < n {
      ReplaceRow(votes[..n], k, row, model, day, c);
    }
  }

  /** Appending one row adds its share to each aggregate. */
  lemma AppendRow(votes: seq<VoteRow>, row: VoteRow, model: string, day: int, c: Column)
    ensures GroupSize(votes + [row], model, day) == GroupSize(votes, model, day) + Member(row, model, day)
    ensures ColumnCount(votes + [row], model, day, c) == ColumnCount(votes, model, day, c) + Counted(row, model, day, c)
    ensures ColumnSum(votes + [row], model, day, c) == ColumnSum(votes, model, day, c) + Contribution(row, model, day, c)
  {
    assert (votes + [row])[..|votes|] == votes;
  }

  /** No double counting: a resubmission under an existing key leaves the vote
      count alone and swaps the old ballot's values for the new ones; a new
      key adds one vote and its values. */
  lemma UpsertAggregates(votes: seq<VoteRow>, row: VoteRow, c: Column)
    ensures var m, d := row.model, row.day;
      match FindVote(votes, row)
      case None =>
        && GroupSize(UpsertVote(votes, row), m, d) == GroupSize(votes, m, d) + 1
        && ColumnSum(UpsertVote(votes, row), m, d, c) == ColumnSum(votes, m, d, c) + Contribution(row, m, d, c)
      case Some(k) =>
        && GroupSize(UpsertVote(votes, row), m, d) == GroupSize(votes, m, d)
        && ColumnCount(UpsertVote(votes, row), m, d, c)
           == ColumnCount(votes, m, d, c) - Counted(votes[k], m, d, c) + Counted(row, m, d, c)
        && ColumnSum(UpsertVote(votes, row), m, d, c)
           == ColumnSum(votes, m, d, c) - Contribution(votes[k], m, d, c) + Contribution(row, m, d, c)
  {
    match FindVote(votes, row)
    case None =>
      AppendRow(votes, row, row.model, row.day, c);
    case Some(k) =>
      ReplaceRow(votes, k, row, row.model, row.day, c);
  }

  /** An upsert leaves every aggregate of a column of another group as it was. */
  lemma UpsertOtherColumn(votes: seq<VoteRow>, row: VoteRow, model: string, day: int, c: Column)
    requires !InGroup(row, model, day)
    ensures GroupSize(UpsertVote(votes, row), model, day) == GroupSize(votes, model, day)
    ensures ColumnCount(UpsertVote(votes, row), model, day, c) == ColumnCount(votes, model, day, c)
    ensures ColumnSum(UpsertVote(votes, row), model, day, c) == ColumnSum(votes, model, day, c)
  {
    match FindVote(votes, row)
    case None =>
      AppendRow(votes, row, model, day, c);
    case Some(k) =>
      assert !InGroup(votes[k], model, day);
      ReplaceRow(votes, k, row, model, day, c);
  }

  /** An upsert leaves every other group's summary as it was. */
  lemma UpsertOtherGroup(votes: seq<VoteRow>, row: VoteRow, model: string, day: int)
    requires !InGroup(row, model, day)
    ensures Summary(UpsertVote(votes, row), model, day) == Summary(votes, model, day)
  {
    UpsertOtherColumn(votes, row, model, day, Performance);
    UpsertOtherColumn(votes, row, model, day, Speed);
    UpsertOtherColumn(votes, row, model, day, Intelligence);
    UpsertOtherColumn(votes, row, model, day, Reliability);
  }

  /** The unique key survives an upsert, and the key then has exactly the new row. */
  lemma UpsertKeepsUnique(votes: seq<VoteRow>, row: VoteRow)
    requires UniqueVoteKeys(votes)
    ensures UniqueVoteKeys(UpsertVote(votes, row))
    ensures forall i :: 0 <= i < |UpsertVote(votes, row)| && SameVoteKey(UpsertVote(votes, row)[i], row) ==>
              UpsertVote(votes, row)[i] == row
  {
  }

  /** Last write wins: upserting twice under one key is upserting the second row once. */
  lemma {:induction false} LastWriteWins(votes: seq<VoteRow>, r1: VoteRow, r2: VoteRow)
    requires SameVoteKey(r1, r2)
    ensures UpsertVote(UpsertVote(votes, r1), r2) == UpsertVote(votes, r2)
  {
    if votes != [] && !SameVoteKey(votes[0], r1) {
      LastWriteWins(votes[1..], r1, r2);
    }
  }

  /** The tables the routes share. `activeByDefault` is the default of the
      `is_active` column, which the inserts of `models.ts` leave unset. */
  class Database {
    var models: map<string, ModelRow>
    var votes: seq<VoteRow>
    var dailyStats: map<StatKey, DailyStats>
    var comments: seq<CommentRow>
    const activeByDefault: bool

    /** The unique key of `votes` holds and every `daily_stats` row is current. */
    ghost predicate Valid()
      reads this
    {
      UniqueVoteKeys(votes) && StatsAgree(votes, dailyStats)
    }

    constructor (models: map<string, ModelRow>, activeByDefault: bool)
      ensures Valid()
      ensures this.models == models && votes == [] && dailyStats == map[] && comments == []
      ensures this.activeByDefault == activeByDefault
    {
      this.models := models;
      votes := [];
      dailyStats := map[];
      comments := [];
      this.activeByDefault := activeByDefault;
    }
  }
}
