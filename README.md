# llmmoods: a model of the anonymous vote and comment pipeline

llmmoods lets anonymous visitors rate language models once a day and leave
short comments. A visitor is known only by a fingerprint. The fingerprint is
the SHA-256 digest of four request headers. A `rate_limits` table gives every
fingerprint a quota per window: one vote and three comments. A vote is stored
in `votes` under the key (model, day, fingerprint), where the last write wins.
The `daily_stats` row of that model and day is then recomputed from the votes.
A comment is validated and appended to `comments`.

This project models that pipeline and the small pure helpers around it:

- the score labels and the JSON response helpers;
- the public `v1` models and rankings routes;
- the catalogue sync and the fallback list;
- the list logic of the home page and the compare page;
- the schema.org builders.

Modules and files:

| file | module | source |
|---|---|---|
| common.dfy | `Common`, `Text` | shared values: `Option`, `Json`, JavaScript truthiness, the string methods the code calls |
| fingerprint.dfy | `Fingerprint` | src/lib/fingerprint.ts |
| utils.dfy | `Mood` | src/lib/utils.ts |
| api_response.dfy | `ApiResponse` | src/lib/api-response.ts |
| rate_limit.dfy | `RateLimit` | src/lib/rate-limit.ts |
| db.dfy | `Db` | the tables the routes share, held in memory by class `Database` |
| vote.dfy | `VoteRoute` | src/app/api/vote/route.ts |
| comments.dfy | `CommentsRoute` | src/app/api/comments/route.ts |
| models_api.dfy | `JsParse`, `ModelsApi` | `parseInt`; src/app/api/v1/models/route.ts |
| rankings_api.dfy | `RankingsApi` | src/app/api/v1/rankings/route.ts |
| catalogue.dfy | `Catalogue` | src/lib/models.ts |
| home_page.dfy | `HomePage` | src/app/page.tsx |
| compare_page.dfy | `ComparePage` | src/app/compare/page.tsx |
| structured_data.dfy | `StructuredData` | src/components/StructuredData.tsx |

The code changes state in these places, so they are classes:

- The `rate_limits` table is class `RateLimit.Ledger`. Method `CheckRateLimit` updates its rows field.
- The shared tables are class `Db.Database`. The vote and comment routes are methods that change it.
- The compare page's selection is class `ComparePage.CompareState`.
- The home page's in-place `sort` is a method on an `array`.

The rest is functions and lemmas.

Inputs the code gets from outside are parameters:

- the database clock (`NOW()`, `CURDATE()`);
- the SHA-256 hash;
- the fetched model lists;
- the rows a query returns.

Every `ghost` field exists only to state the rate limiter's quota promise over a run of calls:

- `Ledger.clock`: the latest time seen.
- `Ledger.admitted`: the admitted calls.

## Model

| member | source | states |
|---|---|---|
| Text.Lower | src/app/page.tsx:149-150 | `toLowerCase`: the same length, each ASCII capital mapped to its small letter and every other character kept. |
| Text.Contains | src/app/page.tsx:149-150 | `includes`: the text occurs at some position, and the empty text occurs everywhere. It has no contract; the filters' lemmas state what it selects. |
| Text.Split | src/app/compare/page.tsx:26 | `split`: at least one piece, and no piece holds the separator. `JoinSplit` and `SplitJoin` state that it inverts `Join`. |
| Text.Join | src/app/compare/page.tsx:105 | `join`: the pieces with the separator between them. It has no contract of its own; `JoinSplit` and `SplitJoin` state it. |
| Text.JoinSplit | src/app/compare/page.tsx:26 | Joining the pieces of a split with the same separator gives back the text. |
| Text.SplitJoin | src/app/compare/page.tsx:105 | Splitting a join of pieces without the separator gives back the pieces. |
| Text.BeforeFirst | src/lib/fingerprint.ts:5 | `split(c)[0]`: a prefix of the text without `c`, followed by `c` when it is shorter than the text. |
| Text.Trim | src/app/api/comments/route.ts:11 | `trim`: the text with only its leading and trailing white space removed. The result is the contiguous slice that starts where the leading white space ends, everything before and after it is white space, and neither end of it is white space. |
| Fingerprint.HeaderOrUnknown | src/lib/fingerprint.ts:6-8 | The value is never empty. A header sent with a non-empty value is kept as it is. An absent or empty header reads as "unknown". |
| Fingerprint.ClientIp | src/lib/fingerprint.ts:4-5 | With a non-empty `x-forwarded-for`, the address is the longest prefix of it without a comma, untrimmed. Otherwise it is `x-real-ip`, defaulted to "unknown". |
| Fingerprint.FingerprintData | src/lib/fingerprint.ts:11 | The hashed text is the address, the user agent, the language and the encoding, in that order, joined by single '-' characters: it starts with the address and a '-', the middle is the user agent, '-' and the language, and it ends with a '-' and the encoding. |
| Fingerprint.GenerateFingerprint | src/lib/fingerprint.ts:13-16 | The fingerprint is the hash of that text, a digest of 64 lower-case hex digits. Its length is all the contract states; the type carries the rest. |
| Fingerprint.SameHeadersSameFingerprint | src/lib/fingerprint.ts:3-17 | Determinism: two requests that read the same on the five headers get the same fingerprint, whatever else differs. |
| Fingerprint.NoHeadersFingerprint | src/lib/fingerprint.ts:4-11 | A request with none of the headers is still fingerprinted, from "unknown-unknown-unknown-unknown". |
| Fingerprint.ForwardedFirstEntry | src/lib/fingerprint.ts:4-5 | Only the first entry of `x-forwarded-for` counts, and `x-real-ip` is then ignored. |
| Mood.FiveBucket | src/lib/utils.ts:15-21 | The bucket (0 to 4) is the number of thresholds 1.5, 2.5, 3.5, 4.5 the score reaches. Each lower bound is inclusive. |
| Mood.FourBucket | src/lib/utils.ts:31-36 | The bucket (0 to 3) is the number of thresholds 1.5, 2.5, 3.5 the score reaches. |
| Mood.GetMoodEmoji | src/lib/utils.ts:15-21 | The emoji is the entry of the five-bucket table at the score's bucket. |
| Mood.GetMoodColor | src/lib/utils.ts:23-29 | The colour is the entry of the colour table at the score's five-scale bucket. |
| Mood.GetPerformanceLabel | src/lib/utils.ts:31-36 | The label is the entry of the four-label table at the score's four-scale bucket. |
| Mood.GetSpeedLabel | src/lib/utils.ts:38-44 | The label comes from the same five buckets as the mood helpers. |
| Mood.GetIntelligenceLabel | src/lib/utils.ts:46-52 | The label comes from the same five buckets as the mood helpers. |
| Mood.MoodColorMatchesEmoji | src/lib/utils.ts:15-29 | For every score, the colour and the emoji come from the same bucket. |
| Mood.ThresholdsInclusive | src/lib/utils.ts:15-52 | A score exactly on a threshold opens the higher bucket, on every scale. A score below 1.5 gets the lowest label. |
| Mood.BucketsMonotone | src/lib/utils.ts:15-52 | A higher score never lands in a lower bucket, on either scale. |
| Mood.MoodEmojiMonotone | src/lib/utils.ts:15-21 | The emoji is monotone in the score, in table order. |
| Mood.MoodColorMonotone | src/lib/utils.ts:23-29 | The colour is monotone in the score. |
| Mood.PerformanceLabelMonotone | src/lib/utils.ts:31-36 | The performance label is monotone in the score. |
| Mood.SpeedLabelMonotone | src/lib/utils.ts:38-44 | The speed label is monotone in the score. |
| Mood.IntelligenceLabelMonotone | src/lib/utils.ts:46-52 | The intelligence label is monotone in the score. |
| ApiResponse.ApiError | src/lib/api-response.ts:14-24 | The status defaults to 500. The body has only `error` (the message) and `details`. `details` is present exactly when it is truthy. |
| ApiResponse.ApiSuccess | src/lib/api-response.ts:26-39 | The status defaults to 200, and `success` is always true. `data` is present exactly when it is not `undefined`, so a `null` is kept. `message` is present exactly when it is truthy. There are no other keys. |
| ApiResponse.BadRequest | src/lib/api-response.ts:43-44 | Status 400, with "Bad request" unless a message is given, and details as for `apiError`. |
| ApiResponse.Unauthorized | src/lib/api-response.ts:46-47 | Status 401 with "Unauthorized" by default, and no details. |
| ApiResponse.NotFound | src/lib/api-response.ts:49-50 | Status 404 with "Resource not found" by default. |
| ApiResponse.RateLimit | src/lib/api-response.ts:52-53 | Status 429 with "Rate limit exceeded" by default. |
| ApiResponse.ServerError | src/lib/api-response.ts:55-56 | Status 500 with "Internal server error" by default, and details as for `apiError`. |
| ApiResponse.ValidationError | src/lib/api-response.ts:58-59 | Status 400 with the caller's message, which has no default, and details. |
| ApiResponse.ErrorIsNotSuccess | src/lib/api-response.ts:14-24 | An error body never carries `success`. |
| ApiResponse.DefaultMessages | src/lib/api-response.ts:43-56 | An omitted message gives each helper its own default text. |
| ApiResponse.MessageOr | src/lib/api-response.ts:42-56 | A JavaScript default parameter: the message given, or the helper's default. It has no contract; each helper's ensures and `DefaultMessages` state the defaults. |
| ApiResponse.FalsyDetailsDropped | src/lib/api-response.ts:20-22 | An empty string or zero adds no `details`. An empty array, which is truthy, is kept. |
| RateLimit.WindowSeconds | src/lib/rate-limit.ts:18 | The window in seconds is the floor of the milliseconds divided by 1000. |
| RateLimit.MaxRequests | src/lib/rate-limit.ts:15 | One vote and three comments per window. It has no contract; `SecondVoteRefused` and `FourthCommentRefused` state the two quotas. |
| RateLimit.FirstLive | src/lib/rate-limit.ts:20-25 | The `SELECT` finds the first row in table order with the key whose `window_start > now - window`. None is found exactly when no row is live. A row exactly one window old is expired. |
| RateLimit.Incremented | src/lib/rate-limit.ts:42-46 | The `UPDATE` adds one to the count of every row with the key, expired ones included. Other rows and the row order are unchanged. |
| RateLimit.Check | src/lib/rate-limit.ts:10-48 | With no live row, one row (count 1, starting now) is appended and the call is allowed with quota-1 remaining. A live row at the quota is denied with 0 remaining and the table is unchanged. Otherwise the call is allowed with quota-count-1 (at least 0) remaining and the table is the `UPDATE`'s: every row of the key gets count+1 and keeps its key and window start. Other keys are never touched. |
| RateLimit.AdvanceClock | src/lib/rate-limit.ts:20-24 | Moving the clock forward keeps the ledger invariant. |
| RateLimit.InsertKeepsInv | src/lib/rate-limit.ts:27-35 | Inserting a fresh row when no row is live keeps the invariant: one live row per key, live counts equal to admissions, and the quota held in every window. |
| RateLimit.IncrementKeepsInv | src/lib/rate-limit.ts:41-48 | Incrementing under the quota keeps the invariant. |
| RateLimit.LiveRowIsFirst | src/lib/rate-limit.ts:20-25 | While the invariant holds, the row the `SELECT` returns is the only live row of its key. |
| RateLimit.CheckKeepsInv | src/lib/rate-limit.ts:10-48 | Sequential calls with a non-decreasing clock keep the invariant, with each allowed call recorded as an admission. The invariant says: at most one live row per key, and at most the quota of admissions in any row's window. |
| RateLimit.Ledger.constructor | src/lib/rate-limit.ts:10-14 | An empty table satisfies the invariant. |
| RateLimit.Ledger.CheckRateLimit | src/lib/rate-limit.ts:10-48 | The decision and the new rows are those of `Check` on the old rows, and the invariant is kept. An allowed call is recorded as an admission. |
| RateLimit.SecondVoteRefused | src/lib/rate-limit.ts:15-39 | With the default window, a second vote of a fingerprint within a day is refused, whatever model it is for. |
| RateLimit.VoteAfterWindowAllowed | src/lib/rate-limit.ts:20-35 | Once a full window has passed, the fingerprint gets a fresh row and may vote again. |
| RateLimit.FourthCommentRefused | src/lib/rate-limit.ts:15-48 | Three comments are admitted in one window with 2, 1 and 0 remaining, and the fourth is refused. |
| Db.FindVote | src/app/api/vote/route.ts:56-58 | Finds the first row with the (model, day, fingerprint) key, if any. None is found exactly when no row has the key. |
| Db.UpsertVote | src/app/api/vote/route.ts:55-74 | `ON DUPLICATE KEY UPDATE` replaces the row with the key in place, or appends the row when there is none. |
| Db.Average | src/app/api/vote/route.ts:83-86 | SQL `AVG` is `NULL` exactly when the column has no non-null value in the group. Otherwise, times the count, it is the sum of those values. |
| Db.Summary | src/app/api/vote/route.ts:77-97 | The recomputed `daily_stats` row counts the group's rows. Each of the four averages is `NULL` exactly when its column has no non-null value in the group, and otherwise, times that count, equals the column's sum. |
| Db.ReplaceRow | src/app/api/vote/route.ts:58-64 | Replacing a row changes the count, the non-null count and the sum of each column by the difference of the two rows' shares. |
| Db.AppendRow | src/app/api/vote/route.ts:56-57 | Appending a row adds its share to every aggregate. |
| Db.UpsertAggregates | src/app/api/vote/route.ts:55-97 | No double counting: a resubmission leaves the vote count unchanged and swaps the old ballot's values for the new ones. A new key adds one vote and its values. |
| Db.UpsertOtherColumn | src/app/api/vote/route.ts:88 | An upsert leaves the count and every column aggregate of another (model, day) group unchanged. |
| Db.UpsertOtherGroup | src/app/api/vote/route.ts:88-96 | An upsert leaves every other group's summary unchanged. |
| Db.UpsertKeepsUnique | src/app/api/vote/route.ts:55-74 | The unique key of `votes` survives an upsert, and afterwards that key holds exactly the new row. |
| Db.LastWriteWins | src/app/api/vote/route.ts:58-64 | Two upserts under one key are the same as upserting the second row alone. |
| Db.Database.constructor | src/app/api/vote/route.ts:55-97 | Empty vote, stats and comment tables satisfy the invariant: keys unique and every summary current. |
| VoteRoute.StoredRating | src/app/api/vote/route.ts:68-71 | A rating is stored exactly when it is present and non-zero. Otherwise it is `NULL`. |
| VoteRoute.ValidRequest | src/app/api/vote/route.ts:24 | A truthy model id and a ratings object with at least one key. It has no contract; `VoteRoute.Post` answers 400 exactly when it fails. |
| VoteRoute.ActiveModel | src/app/api/vote/route.ts:32-37 | The model is stored and active. It has no contract; `VoteRoute.Post` answers 404 exactly when it fails on a valid request. |
| VoteRoute.BallotOf | src/app/api/vote/route.ts:65-73 | The ballot carries each of the four ratings as stored, and the issue type exactly when it is non-empty. Other rating names are ignored. |
| VoteRoute.SuccessBody | src/app/api/vote/route.ts:99-103 | The body has exactly `success` (true), `remaining` from the limiter, and the message. |
| VoteRoute.UpsertKeepsStats | src/app/api/vote/route.ts:77-97 | Upserting the ballot and recomputing its (model, day) row keeps every stored `daily_stats` row current. |
| VoteRoute.Post | src/app/api/vote/route.ts:17-119 | A body that is not JSON gives 500. Invalid data gives 400. An unknown or inactive model gives 404, before the quota is consulted; in these cases nothing changes. Otherwise one vote is charged to the fingerprint. A denial gives 429 and the tables stay as they were. Success upserts the ballot, recomputes only that model's row for today, returns 200 with `remaining`, and keeps both invariants. |
| VoteRoute.FalsyRatingsStoredAsNull | src/app/api/vote/route.ts:66-73 | Zero and missing ratings and an empty issue type are stored as `NULL`. |
| VoteRoute.UnknownRatingNamesPass | src/app/api/vote/route.ts:24 | A ratings object with none of the four names passes validation and stores four `NULL`s. |
| VoteRoute.ResubmissionReplaces | src/app/api/vote/route.ts:55-97 | A second submission under the same key leaves one row, and the summary counts one vote with the second ballot's values. |
| VoteRoute.TwoVotersAveraged | src/app/api/vote/route.ts:77-97 | Two fingerprints on one day give two rows, and the summary averages them. |
| VoteRoute.TwoRows | src/app/api/vote/route.ts:82-86 | The aggregates of two rows are the sums of their shares. |
| CommentsRoute.Issues | src/app/api/comments/route.ts:26-29 | A body that is not an object has exactly one issue, at the root. An object has at most two issues, none at the root: one on `model_id` exactly when that field is not a string of 1 to 100 characters, one on `comment_text` exactly when that field is not a string of 1 to 1000, and the `model_id` issue comes first. |
| CommentsRoute.StringField | src/app/api/comments/route.ts:10-11 | `z.string().min(lo).max(hi)`: the field is present, is a string, and has lo to hi characters. It has no contract; `Issues` and `ValidIffNoIssues` state its use. |
| CommentsRoute.Validate | src/app/api/comments/route.ts:9-12 | Accepted exactly when `model_id` is a string of 1 to 100 characters and `comment_text` a string of 1 to 1000. The text is trimmed after its length is checked. |
| CommentsRoute.ValidIffNoIssues | src/app/api/comments/route.ts:26-30 | A body is accepted exactly when it has no issue. |
| CommentsRoute.Post | src/app/api/comments/route.ts:14-62 | A comment slot is charged before the body is read, whatever the body holds. A denial gives 429. A body that is not JSON gives 500. An invalid body gives 400 with its issues. An unknown model gives 404, with no `is_active` check. Success appends exactly one approved row with the trimmed text and returns 201 with `{id: "new"}`. Existing comments, votes and stats are never changed. |
| CommentsRoute.InvalidBodyHasDetails | src/app/api/comments/route.ts:28-30 | A refused body's 400 always carries `details`. |
| CommentsRoute.BlankCommentStoredEmpty | src/app/api/comments/route.ts:11 | The length check runs before the trim, so a text of blanks is accepted and stored empty. |
| CommentsRoute.LengthCheckedBeforeTrim | src/app/api/comments/route.ts:11 | A 1001-character text is refused even when trimming would bring it within bounds. |
| JsParse.DigitPrefix | src/app/api/v1/models/route.ts:20-21 | `parseInt` reads the longest run of digits of the radix. |
| JsParse.ParseInt | src/app/api/v1/models/route.ts:20-21 | `parseInt` without a radix: leading white space skipped, one sign, base 16 after "0x", the longest run of digits, `NaN` when there is none. It has no contract; `ParseShowNat`, `ParseShowNegated`, `ParseStopsAtNonDigit`, `ParseNaN`, `ParseBareHexPrefix` and `ParseHex` state it. |
| JsParse.ShowNat | src/app/api/v1/models/route.ts:20-21 | The decimal text of a number is non-empty and all digits. |
| JsParse.ParseShowNat | src/app/api/v1/models/route.ts:20-21 | `parseInt` reads back the decimal text of every natural number. |
| JsParse.ParseShowNegated | src/app/api/v1/models/route.ts:20-21 | `parseInt` reads back the negation of every natural number. |
| JsParse.ParseStopsAtNonDigit | src/app/api/v1/models/route.ts:20-21 | `parseInt` reads the leading digits and ignores the rest of the text. |
| JsParse.ParseNaN | src/app/api/v1/models/route.ts:20 | Text without digits is `NaN`. |
| JsParse.ParseBareHexPrefix | src/app/api/v1/models/route.ts:20 | A bare "0x" is `NaN`. |
| JsParse.ParseHex | src/app/api/v1/models/route.ts:20 | After "0x" the digits are hexadecimal. |
| ModelsApi.Get | src/app/api/v1/models/route.ts:18-19 | `searchParams.get` is present exactly when the parameter is in the query, with its value. |
| ModelsApi.ParamOr | src/app/api/v1/models/route.ts:20-21 | An absent or empty parameter takes the fallback. |
| ModelsApi.MinOr100 | src/app/api/v1/models/route.ts:20 | `Math.min(x, 100)` is at most 100 and at most x, equal to one of them, and `NaN` for `NaN`. |
| ModelsApi.Limit | src/app/api/v1/models/route.ts:20 | An absent or empty parameter gives 50. Otherwise the limit is `parseInt` of the parameter through `Math.min(x, 100)`. A numeric limit is never above 100. |
| ModelsApi.Offset | src/app/api/v1/models/route.ts:21 | An absent or empty parameter gives 0. Otherwise the offset is `parseInt` of the parameter, `NaN` included. |
| ModelsApi.FilterParams | src/app/api/v1/models/route.ts:41-51 | The parameters are the category exactly when it is truthy, then the provider exactly when it is truthy, in that order. |
| ModelsApi.FilterClauses | src/app/api/v1/models/route.ts:43-51 | The category clause exactly when the category is truthy, then the provider clause exactly when the provider is. It has no contract; `FilterPlaceholders` states that each comes with its parameter. |
| ModelsApi.ModelsSql | src/app/api/v1/models/route.ts:25-54 | The page query: select, filter clauses, order, page window. It has no contract; `BuildModelsQuery` and `ModelsPlaceholders` state it. |
| ModelsApi.CountSql | src/app/api/v1/models/route.ts:59-64 | The count query with the same filter clauses and no page window. It has no contract; `CountParamsMatch` states that it matches the sliced parameters. |
| ModelsApi.PlaceholdersAppend | src/app/api/v1/models/route.ts:25-55 | The placeholders of concatenated SQL add up. |
| ModelsApi.FilterPlaceholders | src/app/api/v1/models/route.ts:43-51 | Each filter clause comes with its one parameter. |
| ModelsApi.BuildModelsQuery | src/app/api/v1/models/route.ts:25-55 | Building the query clause by clause gives `[category?, provider?, limit, offset]` as parameters, and one placeholder per parameter. |
| ModelsApi.ModelsPlaceholders | src/app/api/v1/models/route.ts:41-55 | The page query has one placeholder per filter parameter plus the two of the page window. |
| ModelsApi.CountParamsMatch | src/app/api/v1/models/route.ts:59-65 | `params.slice(0, -2)` is exactly the filter parameters, and they match the count query's placeholders. |
| ModelsApi.HasMore | src/app/api/v1/models/route.ts:75 | With `NaN` as the limit or the offset there is never more. With two numbers there is more exactly when `offset + limit < total`. |
| ModelsApi.NumOrNull | src/app/api/v1/models/route.ts:69-76 | A number is written as itself, and `NaN` is written as `null`. |
| ModelsApi.Respond | src/app/api/v1/models/route.ts:69-90 | A database failure gives 500. Otherwise the rows are returned, with `limit`, `offset` and `total` echoed and `hasMore`. |
| ModelsApi.DefaultWindow | src/app/api/v1/models/route.ts:20-21 | Without parameters the window is 50 rows from 0, and there is more exactly when the total exceeds 50. |
| ModelsApi.LimitCapped | src/app/api/v1/models/route.ts:20 | A numeric limit above 100 becomes 100. |
| ModelsApi.NaNLimitNoMore | src/app/api/v1/models/route.ts:20 | A non-numeric limit is echoed as `null`, and there is never a next page. |
| RankingsApi.Period | src/app/api/v1/rankings/route.ts:19 | The period is the parameter, or "today" when it is absent or empty. |
| RankingsApi.DateFilterOf | src/app/api/v1/rankings/route.ts:24-35 | "today", "week" and "month" select 0, 7 and 30 days back. Any other period gives no date filter. |
| RankingsApi.Joined | src/app/api/v1/rankings/route.ts:48 | A vote passes the join when it was created at or after the filter's midnight, or always without a filter. It has no contract; `JoinedWidens` states how periods nest. |
| RankingsApi.DateFilterSql | src/app/api/v1/rankings/route.ts:24-35 | The `dateFilter` text is empty exactly when the period is none of today, week and month; `JoinedWidens` states what the condition means for a vote. |
| RankingsApi.RankingsCategoryClause | src/app/api/v1/rankings/route.ts:50 | The category condition with one placeholder, present only for a truthy category. It has no contract; `RankingsPlaceholders` states that it matches the parameters. |
| RankingsApi.RankingsSql | src/app/api/v1/rankings/route.ts:37-55 | The ranking query with the period's date condition in the join and the category clause when the category is truthy. It has no contract; `RankingsPlaceholders` states that it matches its parameters. |
| RankingsApi.VoteCount | src/app/api/v1/rankings/route.ts:45-48 | A model's joined vote count is at most the number of votes. |
| RankingsApi.JoinedWidens | src/app/api/v1/rankings/route.ts:24-35 | A vote joined under a shorter period is joined under a longer one. |
| RankingsApi.VoteCountWidens | src/app/api/v1/rankings/route.ts:45-52 | A longer period never counts fewer votes. |
| RankingsApi.RankedNests | src/app/api/v1/rankings/route.ts:52 | A model ranked today is ranked for the week. One ranked for the week is ranked for the month. One ranked for the month is ranked for any other period. |
| RankingsApi.RankingsParams | src/app/api/v1/rankings/route.ts:57 | The parameters hold the category exactly when it is truthy. |
| RankingsApi.RankingsPlaceholders | src/app/api/v1/rankings/route.ts:37-57 | The category clause appears exactly when its parameter does: one placeholder per parameter. |
| RankingsApi.Respond | src/app/api/v1/rankings/route.ts:60-75 | A failure gives 500. Otherwise the body has the period as given and the ranked rows. |
| RankingsApi.UnknownPeriodEchoed | src/app/api/v1/rankings/route.ts:24-35 | An unrecognised period is echoed verbatim and joins votes of any date. |
| RankingsApi.DefaultPeriodToday | src/app/api/v1/rankings/route.ts:19-28 | With no period, the day's votes are ranked. |
| Catalogue.IsRelevant | src/lib/models.ts:18-28 | Relevant exactly when the lowercased id prefix is one of the seven providers or the lowercased name has one of the six keywords. With an unlisted provider and no name, reading the name throws. |
| Catalogue.Relevant | src/lib/models.ts:19-28 | The filter keeps exactly the relevant models, and throws when any test throws. Order and repeats are stated by `RelevantKeepsOrder` and `RelevantOne`. |
| Catalogue.RelevantKeepsOrder | src/lib/models.ts:19-28 | On two lists in turn the filter throws exactly when it throws on either, and otherwise keeps the first list's relevant models followed by the second's. With `RelevantOne` this fixes the result: list order and repeats are kept. |
| Catalogue.RelevantOne | src/lib/models.ts:19-28 | A single model is kept when its test holds, dropped when it fails, and makes the filter throw when its test throws. |
| Catalogue.CategoryOf | src/lib/models.ts:32-37 | "image" when the modality mentions images. Else "code" when the id (case-sensitive) or the lowercased name mentions code. Else "llm". It throws only when the name is missing and has to be read. |
| Catalogue.StoredName | src/lib/models.ts:49 | The name as given, or the id when the name is missing or empty. |
| Catalogue.StoredProvider | src/lib/models.ts:50 | The id up to its first '/', case kept, never empty. It is "unknown" only when that part is empty. |
| Catalogue.StoredContext | src/lib/models.ts:51 | A missing or zero context length is `NULL`. |
| Catalogue.Upserted | src/lib/models.ts:39-54 | An existing row gets the new name, length and category, and keeps its provider and `is_active`. A new row takes the derived provider and the column default. No other row changes. |
| Catalogue.SyncEach | src/lib/models.ts:30-55 | The loop upserts the relevant models in list order; a model whose category read throws ends it, earlier writes kept. It has no contract; `SyncEachKeeps` and `SyncModels` state it. |
| Catalogue.Sync | src/lib/models.ts:12-61 | The filter, then the loop; a throw in the filter writes nothing. It has no contract; `SyncKeeps` and `NamelessUnlistedWritesNothing` state it. |
| Catalogue.SyncEachKeeps | src/lib/models.ts:30-55 | The loop never drops a model or changes a stored provider or `is_active`, and adds only models of its list. |
| Catalogue.SyncKeeps | src/lib/models.ts:12-61 | The sync keeps every stored model, provider and `is_active`. The models it adds are relevant ones of the fetched list. |
| Catalogue.NamelessUnlistedWritesNothing | src/lib/models.ts:19-28 | One nameless model of an unlisted provider makes the filter throw, and then nothing is written. |
| Catalogue.IdPrefixOf | src/lib/models.ts:20 | The provider part of "p/rest" is p, for any p without a '/'. |
| Catalogue.ProviderCaseKept | src/lib/models.ts:20-21 | A provider is matched lowercased but stored as written, and a listed provider needs no name. |
| Catalogue.SyncModels | src/lib/models.ts:12-61 | The loop leaves the `models` table as the specification `Sync` says, and the other tables untouched. |
| Catalogue.FallbackModelsShape | src/lib/models.ts:64-73 | Eight entries with distinct ids, each an active "llm". |
| Catalogue.WithFallbacks | src/lib/models.ts:75-81 | `INSERT IGNORE` of each entry in turn. It has no contract; `WithFallbacksAdds` states it. |
| Catalogue.WithFallbacksAdds | src/lib/models.ts:75-81 | `INSERT IGNORE` leaves existing rows as they were and stores every listed id. A missing id gets the entry's row. Nothing else is added. |
| Catalogue.EnsureFallbackModels | src/lib/models.ts:75-81 | The table afterwards is the specification `WithFallbacks` applied to the fallback list, and the other tables are untouched. |
| Catalogue.InsertIgnoreEach | src/lib/models.ts:76-80 | The insert loop over any list equals `WithFallbacks` of that list. |
| Catalogue.FallbacksPresent | src/lib/models.ts:75-81 | Afterwards all eight ids are stored and nothing stored before has changed. |
| HomePage.Filtered | src/app/page.tsx:145-153 | A card is shown exactly when its category matches (or the filter is "all"), its provider matches (or the vendor is "all"), and the search is empty or found, ignoring case, in the name or the provider. Order and repeats are stated by `FilteredKeepsOrder` and `FilteredOne`. |
| HomePage.FilteredKeepsOrder | src/app/page.tsx:145-153 | The filter distributes over concatenation. With `FilteredOne` this fixes the result: the matching cards in catalogue order, repeats kept. |
| HomePage.FilteredOne | src/app/page.tsx:145-153 | A single card is kept exactly when it matches. |
| HomePage.NoFilterShowsAll | src/app/page.tsx:145-153 | With every filter off, all cards are shown in order. |
| HomePage.Matches | src/app/page.tsx:146-152 | The three filter tests, all required. It has no contract; `Filtered` and `FilteredOne` state how it selects. |
| HomePage.TotalPages | src/app/page.tsx:156 | The page count is the ceiling of the count divided by 12. |
| HomePage.SliceIndex | src/app/page.tsx:157-160 | A slice bound is clamped into the list, and an in-range bound is kept. |
| HomePage.Slice | src/app/page.tsx:157-160 | `Array.prototype.slice`: never longer than the list; for bounds in order inside the list it is exactly that slice, an end past the list stops at the end, and an end at or before the start gives nothing. |
| HomePage.PageOf | src/app/page.tsx:157-160 | The cards of one page. It has no contract; `PageContents` and `ItemOnItsPage` state what a page holds. |
| HomePage.PageContents | src/app/page.tsx:157-160 | Page p holds the items from (p-1)*12 on, at most 12. Pages up to the count are non-empty, and pages past it are empty. |
| HomePage.ItemOnItsPage | src/app/page.tsx:156-160 | Every item is on the page its index puts it on, and that page exists. |
| HomePage.PrevPage | src/app/page.tsx:528 | One page back, never below 1. |
| HomePage.NextPage | src/app/page.tsx:574 | One page on, never past the last page. |
| HomePage.StepsStayInRange | src/app/page.tsx:528-574 | From a page in range, both buttons stay within 1 and the page count. |
| HomePage.PageItemFor | src/app/page.tsx:542-570 | A button for the first and last pages and those within one of the current page. An ellipsis for pages exactly two away that get no button. Nothing otherwise. |
| HomePage.PageItems | src/app/page.tsx:542-570 | One item per page, in page order. |
| HomePage.FewButtons | src/app/page.tsx:542-562 | At most five buttons. A current page in range always has one. |
| HomePage.FewEllipses | src/app/page.tsx:563-568 | Ellipses only at the current page plus or minus two. |
| HomePage.InsertPermutes | src/app/page.tsx:162-163 | An insertion step adds exactly the inserted card. |
| HomePage.InsertKeepsDescending | src/app/page.tsx:162-163 | An insertion keeps a descending list descending. |
| HomePage.SortedByVotes | src/app/page.tsx:162-163 | The sort by votes today as a value: same length, and `SortSortsAndPermutes` and `SortIsStable` state that it is a stable descending permutation. |
| HomePage.SortSortsAndPermutes | src/app/page.tsx:162-163 | The sort returns the same cards (a permutation), ordered by votes today, descending. |
| HomePage.SortIsStable | src/app/page.tsx:162-163 | The sort is stable: cards with equal votes keep their order. |
| HomePage.InsertInto | src/app/page.tsx:162-163 | One pass shifts the cards with fewer votes right and places the card, which is inserting it into the sorted prefix. The rest of the array is untouched. |
| HomePage.SortByVotesToday | src/app/page.tsx:162-163 | The in-place sort leaves the array equal to the sorted-by-votes specification of its old contents. |
| HomePage.TopIsTop | src/app/page.tsx:162-164 | The first n after the sort are at most n cards of the list, descending. A card left out has no more votes than any card taken. |
| HomePage.VotesToday | src/app/page.tsx:79-80 | `votes_today`, or 0 when it is falsy: the sort and hot-model key. It has no contract; `TopIsTop` and `HotModels` state what is ordered and selected by it. |
| HomePage.Take | src/app/page.tsx:163-164 | `slice(0, n)`: a prefix of the list with n items, or the whole list when it is shorter. |
| HomePage.Top | src/app/page.tsx:162-164 | The first n after the sort by votes. It has no contract; `TopIsTop` states it. |
| HomePage.HotCandidates | src/app/page.tsx:79 | Exactly the cards with more than five votes today. Their catalogue order, which breaks ties in `Hot`, is stated by `HotCandidatesKeepOrder` and `HotCandidatesOne`. |
| HomePage.HotCandidatesKeepOrder | src/app/page.tsx:78-79 | The candidate filter distributes over concatenation, so the candidates keep catalogue order and repeats. |
| HomePage.HotCandidatesOne | src/app/page.tsx:79 | A single card is a candidate exactly when it has more than five votes today. |
| HomePage.Hot | src/app/page.tsx:78-81 | The first four candidates after the sort. It has no contract; `HotModels` states it. |
| HomePage.HotModels | src/app/page.tsx:78-81 | Hot models are at most four, all with more than five votes, in descending order. A card left out has no more votes than any hot card. |
| HomePage.Others | src/app/page.tsx:166-168 | The page's cards that are not trending. Order and repeats are stated by `OthersKeepOrder` and `OthersOne`. |
| HomePage.OthersKeepOrder | src/app/page.tsx:166-168 | The filter distributes over concatenation, so the other cards keep the page's order and repeats. |
| HomePage.OthersOne | src/app/page.tsx:166-168 | A single card is kept exactly when it is not trending. |
| HomePage.PageLists | src/app/page.tsx:156-168 | The page is cut before the in-place sort. The trending list is the top three of the sorted list, and the others are the page without them. |
| HomePage.PageListsBounds | src/app/page.tsx:157-168 | At most three trending cards and twelve others, and no card is in both. |
| HomePage.LessIrreflexive | src/app/page.tsx:74 | No string sorts before itself in the default string order of `sort`. |
| HomePage.LessTotal | src/app/page.tsx:74 | The default string order of `sort` is total on distinct strings. |
| HomePage.Less | src/app/page.tsx:74 | The default order of `sort` on strings, code unit by code unit with a prefix first. It has no contract; `LessIrreflexive`, `LessTotal`, `LessTransitive` and `VendorList` state its properties. |
| HomePage.LessTransitive | src/app/page.tsx:74 | That order is transitive. |
| HomePage.InsertVendor | src/app/page.tsx:74 | Adding a vendor yields the old vendors plus it. |
| HomePage.InsertVendorSorted | src/app/page.tsx:74 | Adding a vendor keeps the list strictly sorted. |
| HomePage.VendorList | src/app/page.tsx:74 | The vendor list is strictly sorted and lists exactly the providers of the models. |
| HomePage.StrictlySortedDistinct | src/app/page.tsx:74 | A strictly sorted list has no repeats. |
| HomePage.Vendors | src/app/page.tsx:74 | The distinct providers, sorted. It has no contract; `VendorList` states it. |
| ComparePage.Ids | src/app/compare/page.tsx:105 | The ids of the selection, in order. |
| ComparePage.UrlFor | src/app/compare/page.tsx:117-122 | The pushed address: the ids joined by commas, or "/compare" when nothing is selected. It has no contract; `UrlRoundTrip` states what reading it back gives. |
| ComparePage.WithoutId | src/app/compare/page.tsx:113 | Keeps exactly the models with another id. |
| ComparePage.WithoutIdKeepsOrder | src/app/compare/page.tsx:113 | Removal distributes over concatenation, so the others keep their order. |
| ComparePage.WithoutAbsentId | src/app/compare/page.tsx:113 | Removing an id that is not selected changes nothing. |
| ComparePage.IdRemoved | src/app/compare/page.tsx:113 | After removal the id is gone. |
| ComparePage.WithoutIdKeepsDistinct | src/app/compare/page.tsx:113 | Removal keeps the ids distinct. |
| ComparePage.IdsFromParam | src/app/compare/page.tsx:26 | No parameter gives no ids. A parameter gives at least one id. |
| ComparePage.UrlRoundTrip | src/app/compare/page.tsx:105-106 | The pushed address is `/compare?models=` and the ids joined by commas, and splitting that value gives the ids back, when no id holds a comma or a character the query decoding changes ('+', '%', '&', '#'). |
| ComparePage.EmptyParamOneId | src/app/compare/page.tsx:26 | An empty parameter still yields one empty id. |
| ComparePage.SelectFrom | src/app/compare/page.tsx:54 | Exactly the catalogue models whose id is listed, with no cap. Catalogue order is stated by `SelectFromKeepsOrder` and `SelectFromOne`. |
| ComparePage.SelectFromKeepsOrder | src/app/compare/page.tsx:54 | The selection distributes over concatenation, so it is in catalogue order, repeats included. |
| ComparePage.SelectFromOne | src/app/compare/page.tsx:54 | A single model is selected exactly when its id is listed. |
| ComparePage.ReloadRestoresModels | src/app/compare/page.tsx:50-55 | Reloading the address restores the same models from a catalogue with distinct ids. |
| ComparePage.ReloadReorders | src/app/compare/page.tsx:54 | The restored order is the catalogue's, not the selection's. |
| ComparePage.PickerModels | src/app/compare/page.tsx:125-128 | Exactly the models whose name or provider contains the query, ignoring case. Display order is stated by `PickerKeepsOrder` and `PickerOne`. |
| ComparePage.PickerKeepsOrder | src/app/compare/page.tsx:125-128 | The search distributes over concatenation, so the picker lists the matches in the order of the catalogue. |
| ComparePage.PickerOne | src/app/compare/page.tsx:125-128 | A single model is listed exactly when its name or provider contains the query, ignoring case. |
| ComparePage.CompareState.constructor | src/app/compare/page.tsx:14-18 | The page starts with nothing selected, the picker closed and no search. |
| ComparePage.CompareState.AddModel | src/app/compare/page.tsx:99-110 | Appends and pushes the address only when fewer than four are selected and the id is new. Otherwise the selection and the address stay. The picker always closes and the search clears. At most four distinct models stay so. |
| ComparePage.CompareState.RemoveModel | src/app/compare/page.tsx:112-123 | Drops the models with the id and pushes the address ("/compare" when empty). At most four distinct models stay so. |
| ComparePage.CompareState.LoadModelsFromIds | src/app/compare/page.tsx:50-59 | Replaces the selection with the listed catalogue models without pushing the address. |
| ComparePage.LoadIgnoresCap | src/app/compare/page.tsx:50-55 | Loading selects five listed models: the cap of four is not enforced. |
| StructuredData.DataOverrides | src/components/StructuredData.tsx:6-11 | The data's fields are kept as given, spread over the context and the type. The context and the type stay only when the data lacks them. |
| StructuredData.TypeOverridden | src/components/StructuredData.tsx:7-11 | A data object with its own `@type` replaces the one given. |
| StructuredData.WithContext | src/components/StructuredData.tsx:6-11 | The object serialised: context and type, with the data spread over them. It has no contract; `DataOverrides` states it. |
| StructuredData.AggregateRating | src/components/StructuredData.tsx:96-102 | The rating object of a model with votes. It has no contract; `RatingOnlyWithVotes` states its fields. |
| StructuredData.ModelStructuredData | src/components/StructuredData.tsx:78-108 | `generateModelStructuredData`. It has no contract; `RatingOnlyWithVotes` and `PublisherAndOffer` state its fields. |
| StructuredData.RatingOnlyWithVotes | src/components/StructuredData.tsx:96-102 | `aggregateRating` is present exactly when the model has votes today. It then counts them, rates the mean of performance and intelligence, and has best "5" and worst "1". |
| StructuredData.PublisherAndOffer | src/components/StructuredData.tsx:85-106 | The publisher is the provider, and the offer is free, in USD. |
| StructuredData.BreadcrumbPositions | src/components/StructuredData.tsx:110-121 | One item per crumb, in order, numbered from 1, with the crumb's name and address. |
| StructuredData.Breadcrumbs | src/components/StructuredData.tsx:110-121 | `generateBreadcrumbs`. It has no contract; `BreadcrumbPositions` states its items. |
| StructuredData.ListItem | src/components/StructuredData.tsx:114-119 | One `ListItem` of the breadcrumb list. It has no contract; `BreadcrumbPositions` states its position, name and address. |

## Left out

- Concurrency: the read-then-write race between the `SELECT` and the `INSERT`/`UPDATE` of `checkRateLimit` is not modelled. Calls are sequential, with a clock that does not go back.
- The vote route passes the model id to `checkRateLimit`, but rate-limit.ts:10-13 takes only (fingerprint, action). The model follows rate-limit.ts: one vote per window per fingerprint across all models, as `RateLimit.SecondVoteRefused` shows. The 429 message "once per day per model" does not describe this.
- `RATE_LIMIT_WINDOW_MS` is a parameter (`Ledger.windowMs`). A value that parses to `NaN` is not modelled.
- The database is in-memory tables: the connection pool and SQL text execution are not modelled.
- Query failures, and the vote route's foreign-key branch that answers 400, are not modelled. The only error path is a body that is not JSON.
- SHA-256 is the parameter `sha256`. Node's `crypto` is not part of this model.
- Fingerprint.GenerateFingerprint: because the hash is a parameter, its contract states only the digest's shape. What the fingerprint depends on is stated by `Fingerprint.SameHeadersSameFingerprint` and `Fingerprint.FingerprintData`.
- The clock (`NOW()`, `CURDATE()`) is a parameter.
- `cleanupRateLimits` calls a stored procedure whose body is not part of this model.
- The cron sync route and the `fetch` calls are out: only the processing of the fetched list is modelled.
- Rendering, the client's voted-model set, session storage and analytics are out.
- The compare page's merge of daily statistics by date is out: it depends on `Date` parsing and `parseFloat`.
- The static structured-data constants (`websiteStructuredData`, `faqStructuredData`) are out; they are fixed text.
- Response headers (CORS, cache control) are not modelled.
- Numbers are exact reals, except `parseInt`'s `NaN`. Floating-point rounding and the other `NaN`s are not modelled.
- `toFixed(2)` is a parameter of `StructuredData.AggregateRating`.
- `toLowerCase` maps only ASCII letters, and `trim` removes only ASCII white space and the no-break space.
- String lengths count characters, not UTF-16 code units. The vendor order compares characters, not UTF-16 code units.
- A zod issue is reduced to its path.
- JSON key order is not modelled: objects are maps.
- The ids pushed into the compare address are not URL-encoded.
- ComparePage.UrlRoundTrip: the decoding of `searchParams.get` is not modelled, so the round trip is stated only for ids without ',', '+', '%', '&' and '#'. An id with '+' or '%' reads back decoded, and one with '&' or '#' is cut short.
- The home page compares cards by value. The source compares object identity, which is the same for cards from one fetched list with no duplicate entries.
- The `is_active` default of a new `models` row is the parameter `Database.activeByDefault`, since the schema is not part of this model.
- The vote body is typed: a non-string `modelId` or a non-object `ratings` is not modelled.
- RankingsApi.Respond: the ranked rows are a parameter. Their averages, order and `LIMIT 10` are computed by the database and are not modelled; only the join's vote count (`RankingsApi.VoteCount`) and the `HAVING vote_count > 0` rule are. The rankings query reads `v.performance_rating` and `v.intelligence_rating`, while the vote route writes the columns `performance` and `intelligence`. Which is right depends on a schema that is not part of this model.
- The statistics and top-model routes are out: the database computes them.
