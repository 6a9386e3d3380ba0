/** `analyze_posting_patterns`: weekday and hour histograms of the post
    timestamps, the most active bucket of each, and the posts-per-day ratio. */
module PostingPatterns {
  import opened Calendar

  /** The dict the analysis returns: `{}` for no timestamps, otherwise the five
      entries. `dayActivity[d]` is the count under the key `DAY_NAMES[d]` and
      `hourActivity[h]` the count under the key `h`. */
  datatype TimePatterns =
    | NoPatterns
    | Patterns(mostActiveDay: string, dayActivity: seq<nat>, mostActiveHour: nat,
               hourActivity: seq<nat>, postFrequencyDays: real)

  /** The weekday bucket of every timestamp, in input order. */
  function Weekdays(times: seq<int>): (keys: seq<nat>)
    ensures |keys| == |times|
    ensures forall i :: 0 <= i < |times| ==> keys[i] == Weekday(times[i]) < 7
  {
    seq(|times|, i requires 0 <= i < |times| => Weekday(times[i]))
  }

  /** The hour bucket of every timestamp, in input order. */
  function Hours(times: seq<int>): (keys: seq<nat>)
    ensures |keys| == |times|
    ensures forall i :: 0 <= i < |times| ==> keys[i] == Hour(times[i]) < 24
  {
    seq(|times|, i requires 0 <= i < |times| => Hour(times[i]))
  }

  /** How many keys fall in bucket `b`, counted front to back as the loop does. */
  function Count(keys: seq<nat>, b: nat): nat
  {
    if keys == [] then 0
    else Count(keys[..|keys| - 1], b) + (if keys[|keys| - 1] == b then 1 else 0)
  }

  /** The histogram with buckets `0 .. n-1`, every bucket present even when zero. */
  function Histogram(keys: seq<nat>, n: nat): (h: seq<nat>)
    ensures |h| == n
  {
    seq(n, b requires 0 <= b < n => Count(keys, b))
  }

  function DayHistogram(times: seq<int>): seq<nat>
  {
    Histogram(Weekdays(times), 7)
  }

  function HourHistogram(times: seq<int>): seq<nat>
  {
    Histogram(Hours(times), 24)
  }

  function Sum(s: seq<nat>): nat
  {
    if s == [] then 0 else Sum(s[..|s| - 1]) + s[|s| - 1]
  }

  /** `max(counts.items(), key=count)`: Python's `max` keeps the first of equal
      maxima, so the result is the earliest bucket holding the maximum. */
  function FirstMax(counts: seq<nat>): (k: nat)
    requires counts != []
    ensures k < |counts|
    ensures forall j :: 0 <= j < |counts| ==> counts[j] <= counts[k]
    ensures forall j :: 0 <= j < k ==> counts[j] < counts[k]
  {
    if |counts| == 1 then 0
    else
      var k := FirstMax(counts[..|counts| - 1]);
      if counts[|counts| - 1] > counts[k] then |counts| - 1 else k
  }

  /** The denominator `max((times[0] - times[-1]).days, 1)`. */
  function SpanDenominator(times: seq<int>): (d: int)
    requires times != []
    ensures d >= 1
    ensures d >= DaysBetween(times[0], times[|times| - 1])
    ensures d == 1 || d == DaysBetween(times[0], times[|times| - 1])
  {
    var span := DaysBetween(times[0], times[|times| - 1]);
    if span > 1 then span else 1
  }

  /** `post_frequency_days`. */
  function PostFrequency(times: seq<int>): real
  {
    if |times| > 1 then |times| as real / SpanDenominator(times) as real else 0.0
  }

  /** The dict `analyze_posting_patterns` returns for `times`. */
  function PatternsOf(times: seq<int>): TimePatterns
  {
    if times == [] then NoPatterns
    else
      var days := DayHistogram(times);
      var hours := HourHistogram(times);
      Patterns(DAY_NAMES[FirstMax(days)], days, FirstMax(hours), hours, PostFrequency(times))
  }

  lemma {:induction false} HistogramAppend(keys: seq<nat>, k: nat, n: nat)
    requires k < n
    ensures Histogram(keys + [k], n) == Histogram(keys, n)[k := Histogram(keys, n)[k] + 1]
  {
    var ks := keys + [k];
    assert ks[..|ks| - 1] == keys;
  }

  lemma {:induction false} SumUpdate(s: seq<nat>, i: nat, v: nat)
    requires i < |s|
    ensures Sum(s[i := v]) + s[i] == Sum(s) + v
  {
    var t := s[i := v];
    if i < |s| - 1 {
      assert t[..|t| - 1] == s[..|s| - 1][i := v];
      SumUpdate(s[..|s| - 1], i, v);
    } else {
      assert t[..|t| - 1] == s[..|s| - 1];
    }
  }

  lemma {:induction false} SumZeros(n: nat)
    ensures Sum(seq(n, b => 0)) == 0
  {
    if n > 0 {
      assert seq(n, b => 0)[..n - 1] == seq(n - 1, b => 0);
      SumZeros(n - 1);
    }
  }

  /** Every key lands in exactly one bucket: the buckets add up to the number
      of keys. */
  lemma {:induction false} HistogramTotal(keys: seq<nat>, n: nat)
    requires forall i :: 0 <= i < |keys| ==> keys[i] < n
    ensures Sum(Histogram(keys, n)) == |keys|
  {
    if keys == [] {
      assert Histogram(keys, n) == seq(n, b => 0);
      SumZeros(n);
    } else {
      var init := keys[..|keys| - 1];
      var k := keys[|keys| - 1];
      assert keys == init + [k];
      HistogramTotal(init, n);
      HistogramAppend(init, k, n);
      SumUpdate(Histogram(init, n), k, Histogram(init, n)[k] + 1);
    }
  }

  /** The counting the loop does agrees with the multiplicity of the bucket. */
  lemma {:induction false} CountIsMultiplicity(keys: seq<nat>, b: nat)
    ensures Count(keys, b) == multiset(keys)[b]
  {
    if keys != [] {
      var init := keys[..|keys| - 1];
      assert keys == init + [keys[|keys| - 1]];
      CountIsMultiplicity(init, b);
    }
  }

  /** What the patterns dict holds for a non-empty list of timestamps: both
      histograms have all their buckets, each bucket counts the timestamps of
      that weekday or hour, each histogram adds up to the number of posts, and
      the most active day and hour are the first maxima in bucket order. */
  lemma PatternsOfNonEmpty(times: seq<int>)
    requires times != []
    ensures PatternsOf(times).Patterns?
    ensures var p := PatternsOf(times);
      && |p.dayActivity| == 7 && |p.hourActivity| == 24
      && Sum(p.dayActivity) == |times| && Sum(p.hourActivity) == |times|
      && (forall d :: 0 <= d < 7 ==> p.dayActivity[d] == multiset(Weekdays(times))[d])
      && (forall h :: 0 <= h < 24 ==> p.hourActivity[h] == multiset(Hours(times))[h])
      && (exists d :: 0 <= d < 7 && p.mostActiveDay == DAY_NAMES[d]
            && (forall j :: 0 <= j < 7 ==> p.dayActivity[j] <= p.dayActivity[d])
            && (forall j :: 0 <= j < d ==> p.dayActivity[j] < p.dayActivity[d]))
      && p.mostActiveHour < 24
      && (forall j :: 0 <= j < 24 ==> p.hourActivity[j] <= p.hourActivity[p.mostActiveHour])
      && (forall j :: 0 <= j < p.mostActiveHour ==> p.hourActivity[j] < p.hourActivity[p.mostActiveHour])
  {
    HistogramTotal(Weekdays(times), 7);
    HistogramTotal(Hours(times), 24);
    forall d | 0 <= d < 7
      ensures DayHistogram(times)[d] == multiset(Weekdays(times))[d]
    {
      CountIsMultiplicity(Weekdays(times), d);
    }
    forall h | 0 <= h < 24
      ensures HourHistogram(times)[h] == multiset(Hours(times))[h]
    {
      CountIsMultiplicity(Hours(times), h);
    }
  }

  /** The ratio is guarded against division by zero and never exceeds the
      number of posts. */
  lemma FrequencyBounds(times: seq<int>)
    ensures 0.0 <= PostFrequency(times) <= |times| as real
    ensures |times| <= 1 ==> PostFrequency(times) == 0.0
  {
    if |times| > 1 {
      var d := SpanDenominator(times) as real;
      assert d >= 1.0;
      assert |times| as real / d <= |times| as real / 1.0;
    }
  }

  /** The latest timestamp, wherever it sits. */
  function Newest(times: seq<int>): (m: int)
    requires times != []
    ensures m in times && forall x :: x in times ==> x <= m
  {
    if |times| == 1 then times[0]
    else
      var m := Newest(times[1..]);
      assert times == [times[0]] + times[1..];
      if times[0] >= m then times[0] else m
  }

  /** The earliest timestamp, wherever it sits. */
  function Oldest(times: seq<int>): (m: int)
    requires times != []
    ensures m in times && forall x :: x in times ==> m <= x
  {
    if |times| == 1 then times[0]
    else
      var m := Oldest(times[1..]);
      assert times == [times[0]] + times[1..];
      if times[0] <= m then times[0] else m
  }

  /** The order-free denominator: whole days from the oldest to the newest
      post, at least one. */
  function ChronologicalDenominator(times: seq<int>): (d: int)
    requires times != []
    ensures d >= 1
  {
    var span := DaysBetween(Newest(times), Oldest(times));
    if span > 1 then span else 1
  }

  /** Timestamps in the provider's order, newest first. */
  predicate NewestFirst(times: seq<int>)
  {
    forall i, j :: 0 <= i < j < |times| ==> times[i] >= times[j]
  }

  /** With the provider's newest-first order the first-minus-last span is the
      span from the oldest to the newest post, so the ratio is posts per day
      over the whole posting period. */
  lemma FrequencyNewestFirst(times: seq<int>)
    requires |times| > 1 && NewestFirst(times)
    ensures SpanDenominator(times) == ChronologicalDenominator(times)
    ensures PostFrequency(times) == |times| as real / ChronologicalDenominator(times) as real
  {
    var last := |times| - 1;
    assert Newest(times) == times[0] by {
      var i :| 0 <= i < |times| && times[i] == Newest(times);
      assert times[0] in times;
    }
    assert Oldest(times) == times[last] by {
      var i :| 0 <= i < |times| && times[i] == Oldest(times);
      assert times[last] in times;
    }
  }

  /** No absolute value is taken: when the first timestamp is older than the
      last one the span is negative, the denominator falls back to 1 and the
      ratio is the plain number of posts. */
  lemma FrequencyOldestFirst(times: seq<int>)
    requires |times| > 1 && times[0] < times[|times| - 1]
    ensures SpanDenominator(times) == 1
    ensures PostFrequency(times) == |times| as real
  {
  }

  /** `analyze_posting_patterns`: one pass over the timestamps incrementing the
      weekday and hour buckets, then the maxima and the ratio. */
  method AnalyzePostingPatterns(times: seq<int>) returns (p: TimePatterns)
    ensures p == PatternsOf(times)
    ensures p == NoPatterns <==> times == []
  {
    if times == [] {
      return NoPatterns;
    }
    var dayCounts: seq<nat> := seq(7, d => 0);
    var hourCounts: seq<nat> := seq(24, h => 0);
    var i := 0;
    while i < |times|
      invariant 0 <= i <= |times|
      invariant dayCounts == Histogram(Weekdays(times[..i]), 7)
      invariant hourCounts == Histogram(Hours(times[..i]), 24)
    {
      var t := times[i];
      assert Weekdays(times[..i + 1]) == Weekdays(times[..i]) + [Weekday(t)];
      assert Hours(times[..i + 1]) == Hours(times[..i]) + [Hour(t)];
      HistogramAppend(Weekdays(times[..i]), Weekday(t), 7);
      HistogramAppend(Hours(times[..i]), Hour(t), 24);
      dayCounts := dayCounts[Weekday(t) := dayCounts[Weekday(t)] + 1];
      hourCounts := hourCounts[Hour(t) := hourCounts[Hour(t)] + 1];
      i := i + 1;
    }
    assert times[..i] == times;
    var mostActiveDay := DAY_NAMES[FirstMax(dayCounts)];
    var mostActiveHour := FirstMax(hourCounts);
    p := Patterns(mostActiveDay, dayCounts, mostActiveHour, hourCounts, PostFrequency(times));
  }
}
