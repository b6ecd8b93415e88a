/** The score-to-label helpers of `src/lib/utils.ts`. Scores are reals; the
    mood, speed and intelligence helpers share five buckets, the performance
    helper has four. */
module Mood {

  /** Lower bounds of buckets 1..4 of the five-bucket scale. */
  const FiveThresholds: seq<real> := [1.5, 2.5, 3.5, 4.5]

  /** Lower bounds of buckets 1..3 of the four-bucket scale. */
  const FourThresholds: seq<real> := [1.5, 2.5, 3.5]

  /** The bucket of `score`: the number of thresholds it reaches, lower bounds included. */
  function FiveBucket(score: real): (b: nat)
    ensures b <= 4
    ensures forall i :: 0 <= i < 4 ==> (i < b <==> FiveThresholds[i] <= score)
  {
    if score >= 4.5 then 4
    else if score >= 3.5 then 3
    else if score >= 2.5 then 2
    else if score >= 1.5 then 1
    else 0
  }

  function FourBucket(score: real): (b: nat)
    ensures b <= 3
    ensures forall i :: 0 <= i < 3 ==> (i < b <==> FourThresholds[i] <= score)
  {
    if score >= 3.5 then 3
    else if score >= 2.5 then 2
    else if score >= 1.5 then 1
    else 0
  }

  /** Labels indexed by bucket, lowest bucket first. */
  const MoodEmojis: seq<string> :=
    ["\U{1F636}", "\U{1F914}", "\U{1F610}", "\U{1F60A}", "\U{1F604}"]
  const MoodColors: seq<string> :=
    ["text-red-500", "text-orange-500", "text-yellow-500", "text-emerald-500", "text-green-500"]
  const PerformanceLabels: seq<string> := ["Poor", "Average", "Good", "Excellent"]
  const SpeedLabels: seq<string> := ["Turtle", "Slow", "Normal", "Fast", "Lightning Fast"]
  const IntelligenceLabels: seq<string> := ["Brain Fog", "Confused", "Okay", "Smart", "Brilliant"]

  function GetMoodEmoji(score: real): (r: string)
    ensures r == MoodEmojis[FiveBucket(score)]
  {
    if score >= 4.5 then "\U{1F604}"
    else if score >= 3.5 then "\U{1F60A}"
    else if score >= 2.5 then "\U{1F610}"
    else if score >= 1.5 then "\U{1F914}"
    else "\U{1F636}"
  }

  function GetMoodColor(score: real): (r: string)
    ensures r == MoodColors[FiveBucket(score)]
  {
    if score >= 4.5 then "text-green-500"
    else if score >= 3.5 then "text-emerald-500"
    else if score >= 2.5 then "text-yellow-500"
    else if score >= 1.5 then "text-orange-500"
    else "text-red-500"
  }

  function GetPerformanceLabel(score: real): (r: string)
    ensures r == PerformanceLabels[FourBucket(score)]
  {
    if score >= 3.5 then "Excellent"
    else if score >= 2.5 then "Good"
    else if score >= 1.5 then "Average"
    else "Poor"
  }

  function GetSpeedLabel(score: real): (r: string)
    ensures r == SpeedLabels[FiveBucket(score)]
  {
    if score >= 4.5 then "Lightning Fast"
    else if score >= 3.5 then "Fast"
    else if score >= 2.5 then "Normal"
    else if score >= 1.5 then "Slow"
    else "Turtle"
  }

  function GetIntelligenceLabel(score: real): (r: string)
    ensures r == IntelligenceLabels[FiveBucket(score)]
  {
    if score >= 4.5 then "Brilliant"
    else if score >= 3.5 then "Smart"
    else if score >= 2.5 then "Okay"
    else if score >= 1.5 then "Confused"
    else "Brain Fog"
  }

  /** The position of a label in its table (the table's length when absent). */
  function Rank(table: seq<string>, name: string): (k: nat)
    ensures k <= |table|
    ensures k < |table| ==> table[k] == name && name !in table[..k]
    ensures k == |table| ==> name !in table
  {
    if table == [] then 0
    else if table[0] == name then 0
    else 1 + Rank(table[1..], name)
  }

  /** The emoji and the colour of a score always come from the same bucket. */
  lemma MoodColorMatchesEmoji(score: real)
    ensures Rank(MoodColors, GetMoodColor(score)) == Rank(MoodEmojis, GetMoodEmoji(score))
    ensures Rank(MoodEmojis, GetMoodEmoji(score)) == FiveBucket(score)
  {
    RankOfEntry(MoodEmojis, FiveBucket(score));
    RankOfEntry(MoodColors, FiveBucket(score));
  }

  /** Lower bounds are inclusive: each threshold itself opens its bucket. */
  lemma ThresholdsInclusive()
    ensures GetMoodEmoji(4.5) == "\U{1F604}" && GetMoodEmoji(3.5) == "\U{1F60A}"
    ensures GetMoodEmoji(2.5) == "\U{1F610}" && GetMoodEmoji(1.5) == "\U{1F914}"
    ensures GetMoodColor(4.5) == "text-green-500" && GetPerformanceLabel(3.5) == "Excellent"
    ensures GetSpeedLabel(4.5) == "Lightning Fast" && GetIntelligenceLabel(4.5) == "Brilliant"
    ensures GetMoodEmoji(1.4) == "\U{1F636}" && GetPerformanceLabel(1.4) == "Poor"
  {
  }

  /** Monotonicity: a higher score never lands in a lower bucket, on either scale. */
  lemma BucketsMonotone(s1: real, s2: real)
    requires s1 <= s2
    ensures FiveBucket(s1) <= FiveBucket(s2)
    ensures FourBucket(s1) <= FourBucket(s2)
  {
  }

  /** In a table without repeats, each entry's rank is its index. */
  lemma RankOfEntry(table: seq<string>, b: nat)
    requires b < |table|
    requires forall i, j :: 0 <= i < j < |table| ==> table[i] != table[j]
    ensures Rank(table, table[b]) == b
  {
  }

  /** The labels follow the buckets, so every helper is monotone in its table's order. */
  lemma MoodEmojiMonotone(s1: real, s2: real)
    requires s1 <= s2
    ensures Rank(MoodEmojis, GetMoodEmoji(s1)) <= Rank(MoodEmojis, GetMoodEmoji(s2))
  {
    BucketsMonotone(s1, s2);
    RankOfEntry(MoodEmojis, FiveBucket(s1));
    RankOfEntry(MoodEmojis, FiveBucket(s2));
  }

  lemma MoodColorMonotone(s1: real, s2: real)
    requires s1 <= s2
    ensures Rank(MoodColors, GetMoodColor(s1)) <= Rank(MoodColors, GetMoodColor(s2))
  {
    BucketsMonotone(s1, s2);
    RankOfEntry(MoodColors, FiveBucket(s1));
    RankOfEntry(MoodColors, FiveBucket(s2));
  }

  lemma PerformanceLabelMonotone(s1: real, s2: real)
    requires s1 <= s2
    ensures Rank(PerformanceLabels, GetPerformanceLabel(s1)) <= Rank(PerformanceLabels, GetPerformanceLabel(s2))
  {
    BucketsMonotone(s1, s2);
    RankOfEntry(PerformanceLabels, FourBucket(s1));
    RankOfEntry(PerformanceLabels, FourBucket(s2));
  }

  lemma SpeedLabelMonotone(s1: real, s2: real)
    requires s1 <= s2
    ensures Rank(SpeedLabels, GetSpeedLabel(s1)) <= Rank(SpeedLabels, GetSpeedLabel(s2))
  {
    BucketsMonotone(s1, s2);
    RankOfEntry(SpeedLabels, FiveBucket(s1));
    RankOfEntry(SpeedLabels, FiveBucket(s2));
  }

  lemma IntelligenceLabelMonotone(s1: real, s2: real)
    requires s1 <= s2
    ensures Rank(IntelligenceLabels, GetIntelligenceLabel(s1)) <= Rank(IntelligenceLabels, GetIntelligenceLabel(s2))
  {
    BucketsMonotone(s1, s2);
    RankOfEntry(IntelligenceLabels, FiveBucket(s1));
    RankOfEntry(IntelligenceLabels, FiveBucket(s2));
  }
}
