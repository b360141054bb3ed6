/**
 * Cycle analysis over the store's sequence of records: cycle lengths,
 * period durations, anomaly alerts, summary statistics and the naive
 * next-period prediction.
 *
 * Every report needs at least two records; below that each one returns its
 * "insufficient data" outcome (`None`, or no alerts). Means are kept exact as
 * a (sum, count) pair instead of a floating-point value.
 */
module CycleAnalysis {
  import opened Wrappers
  import opened Records

  /** A cycle shorter than this many days is flagged as unusually short. */
  const ShortBelow: int := 21
  /** A cycle longer than this many days is flagged as unusually long. */
  const LongAbove: int := 35

  // ---------------------------------------------------------------------------
  // Cycle lengths

  /** Days between consecutive start days; empty when there are fewer than two records. */
  function Cycles(rs: seq<Record>): seq<int>
  {
    if |rs| < 2 then []
    else seq(|rs| - 1, i requires 0 <= i < |rs| - 1 => rs[i + 1].start - rs[i].start)
  }

  /**
   * The counted loop that builds `cycles` (the same loop appears in the anomaly
   * check, the statistics, the prediction and the charts).
   */
  method ComputeCycles(rs: seq<Record>) returns (cycles: seq<int>)
    ensures |cycles| == if |rs| < 2 then 0 else |rs| - 1
    ensures forall k :: 0 <= k < |cycles| ==> cycles[k] == rs[k + 1].start - rs[k].start
    ensures cycles == Cycles(rs)
  {
    cycles := [];
    var i := 1;
    while i < |rs|
      invariant 1 <= i <= |rs| || (i == 1 && rs == [])
      invariant |cycles| == i - 1
      invariant forall k :: 0 <= k < i - 1 ==> cycles[k] == rs[k + 1].start - rs[k].start
    {
      var days := rs[i].start - rs[i - 1].start;
      cycles := cycles + [days];
      i := i + 1;
    }
  }

  /** The records are in start-day order exactly when no cycle is negative. */
  lemma {:induction false} SortedIffCyclesNonNegative(rs: seq<Record>)
    ensures SortedByStart(rs) <==> forall k :: 0 <= k < |Cycles(rs)| ==> Cycles(rs)[k] >= 0
  {
    if forall k :: 0 <= k < |Cycles(rs)| ==> Cycles(rs)[k] >= 0 {
      if |rs| >= 2 {
        assert forall k :: 0 <= k < |rs| - 1 ==> rs[k].start <= rs[k + 1].start by {
          forall k | 0 <= k < |rs| - 1 ensures rs[k].start <= rs[k + 1].start {
            assert Cycles(rs)[k] >= 0;
          }
        }
        forall i, j | 0 <= i < j < |rs| ensures rs[i].start <= rs[j].start {
          StepsChain(rs, i, j);
        }
      }
    }
  }

  /** Start days that never decrease from one record to the next never decrease over a span. */
  lemma {:induction false} StepsChain(rs: seq<Record>, i: int, j: int)
    requires 0 <= i <= j < |rs|
    requires forall k :: 0 <= k < |rs| - 1 ==> rs[k].start <= rs[k + 1].start
    ensures rs[i].start <= rs[j].start
    decreases j - i
  {
    if i < j {
      StepsChain(rs, i + 1, j);
    }
  }

  /** Sum of a sequence of day counts. */
  function Sum(s: seq<int>): int
  {
    if s == [] then 0 else s[0] + Sum(s[1..])
  }

  /** The cycle lengths add up to the span from the first start day to the last. */
  lemma {:induction false} CycleSumIsSpan(rs: seq<Record>)
    requires |rs| >= 2
    ensures Sum(Cycles(rs)) == rs[|rs| - 1].start - rs[0].start
    decreases |rs|
  {
    var cs := Cycles(rs);
    if |rs| == 2 {
      assert cs[1..] == [];
    } else {
      assert cs[1..] == Cycles(rs[1..]);
      CycleSumIsSpan(rs[1..]);
    }
  }

  // ---------------------------------------------------------------------------
  // Durations

  /** Inclusive length of one period in days: a period that starts and ends on the same day lasts 1 day. */
  function Duration(r: Record): int
  {
    r.end - r.start + 1
  }

  /** The duration of every record, in store order. */
  function Durations(rs: seq<Record>): seq<int>
  {
    seq(|rs|, i requires 0 <= i < |rs| => Duration(rs[i]))
  }

  /** The calendar days from `first` to `last`, both included. */
  function DaysBetween(first: Day, last: Day): (days: set<Day>)
    ensures forall d :: d in days <==> first <= d <= last
    decreases last - first
  {
    if last < first then {} else DaysBetween(first, last - 1) + {last}
  }

  lemma {:induction false} DaysBetweenSize(first: Day, last: Day)
    requires first <= last + 1
    ensures |DaysBetween(first, last)| == last - first + 1
    decreases last - first
  {
    if first <= last {
      DaysBetweenSize(first, last - 1);
      assert last !in DaysBetween(first, last - 1);
    }
  }

  /** A period's duration is the number of calendar days it covers. */
  lemma DurationCountsDays(r: Record)
    requires r.start <= r.end
    ensures Duration(r) == |DaysBetween(r.start, r.end)|
    ensures Duration(r) >= 1
  {
    DaysBetweenSize(r.start, r.end);
  }

  /** A same-day period has duration 1; an end before the start (not rejected on input) gives a duration below 1. */
  lemma DurationSameDay(r: Record)
    ensures r.start == r.end ==> Duration(r) == 1
    ensures r.end < r.start ==> Duration(r) < 1
  {
  }

  // ---------------------------------------------------------------------------
  // Anomalies

  /** How one cycle length compares with the fixed bounds. */
  datatype Verdict = Short | Normal | Long

  /** The classification of the anomaly check: below 21 is short, above 35 is long. */
  function Classify(cycle: int): Verdict
  {
    if cycle < ShortBelow then Short
    else if cycle > LongAbove then Long
    else Normal
  }

  /** A cycle is flagged exactly when it lies outside [21, 35], and the bounds themselves are normal. */
  lemma ClassifyBands(cycle: int)
    ensures Classify(cycle) == Short <==> cycle < 21
    ensures Classify(cycle) == Long <==> cycle > 35
    ensures Classify(cycle) != Normal <==> !(21 <= cycle <= 35)
    ensures Classify(20) == Short && Classify(21) == Normal && Classify(35) == Normal && Classify(36) == Long
  {
  }

  /** One alert line: cycle number (counting from 1), the verdict and the cycle length. */
  datatype Alert = Alert(cycleNo: nat, verdict: Verdict, days: int)

  /** The alerts for a sequence of cycle lengths, in cycle order. */
  function Alerts(cs: seq<int>): seq<Alert>
  {
    if cs == [] then []
    else
      var last := cs[|cs| - 1];
      Alerts(cs[..|cs| - 1]) + (if Classify(last) == Normal then [] else [Alert(|cs|, Classify(last), last)])
  }

  /**
   * The alerts are exactly the flagged cycles: every alert names an existing
   * cycle, its length and its (non-normal) verdict; every flagged cycle has an
   * alert; and alerts come in increasing cycle order.
   */
  lemma {:induction false} AlertsExact(cs: seq<int>)
    ensures forall a :: a in Alerts(cs) ==>
      1 <= a.cycleNo <= |cs| && a.days == cs[a.cycleNo - 1] && a.verdict == Classify(a.days) && a.verdict != Normal
    ensures forall k :: 0 <= k < |cs| && Classify(cs[k]) != Normal ==> Alert(k + 1, Classify(cs[k]), cs[k]) in Alerts(cs)
    ensures forall i, j :: 0 <= i < j < |Alerts(cs)| ==> Alerts(cs)[i].cycleNo < Alerts(cs)[j].cycleNo
  {
    if cs != [] {
      var init := cs[..|cs| - 1];
      AlertsExact(init);
      assert forall k :: 0 <= k < |init| ==> init[k] == cs[k];
    }
  }

  /** `check_anomalies`: no check below two records, otherwise one alert per flagged cycle. */
  method CheckAnomalies(rs: seq<Record>) returns (alerts: seq<Alert>)
    ensures |rs| < 2 ==> alerts == []
    ensures alerts == Alerts(Cycles(rs))
  {
    if |rs| < 2 {
      return [];
    }
    var cycles := ComputeCycles(rs);
    alerts := [];
    for i := 0 to |cycles|
      invariant alerts == Alerts(cycles[..i])
    {
      var cycle := cycles[i];
      assert cycles[..i + 1][..i] == cycles[..i];
      if cycle < ShortBelow {
        alerts := alerts + [Alert(i + 1, Short, cycle)];
      } else if cycle > LongAbove {
        alerts := alerts + [Alert(i + 1, Long, cycle)];
      }
    }
    assert cycles[..|cycles|] == cycles;
  }

  // ---------------------------------------------------------------------------
  // Statistics

  /** Smallest element. */
  function Min(s: seq<int>): (m: int)
    requires s != []
    ensures m in s
    ensures forall i :: 0 <= i < |s| ==> m <= s[i]
  {
    if |s| == 1 then s[0]
    else
      var rest := Min(s[1..]);
      assert forall i :: 1 <= i < |s| ==> s[i] == s[1..][i - 1];
      if s[0] <= rest then s[0] else rest
  }

  /** Largest element. */
  function Max(s: seq<int>): (m: int)
    requires s != []
    ensures m in s
    ensures forall i :: 0 <= i < |s| ==> s[i] <= m
  {
    if |s| == 1 then s[0]
    else
      var rest := Max(s[1..]);
      assert forall i :: 1 <= i < |s| ==> s[i] == s[1..][i - 1];
      if s[0] >= rest then s[0] else rest
  }

  lemma {:induction false} SumAtLeast(s: seq<int>, lo: int)
    requires forall i :: 0 <= i < |s| ==> lo <= s[i]
    ensures lo * |s| <= Sum(s)
  {
    if s != [] {
      SumAtLeast(s[1..], lo);
      assert lo * |s| == lo + lo * |s[1..]|;
    }
  }

  lemma {:induction false} SumAtMost(s: seq<int>, hi: int)
    requires forall i :: 0 <= i < |s| ==> s[i] <= hi
    ensures Sum(s) <= hi * |s|
  {
    if s != [] {
      SumAtMost(s[1..], hi);
      assert hi * |s| == hi + hi * |s[1..]|;
    }
  }

  /** The exact mean Sum(s)/|s| lies between the minimum and the maximum. */
  lemma MeanWithinRange(s: seq<int>)
    requires s != []
    ensures Min(s) * |s| <= Sum(s) <= Max(s) * |s|
  {
    SumAtLeast(s, Min(s));
    SumAtMost(s, Max(s));
  }

  /**
   * The figures `calculate_stats` reports. The mean cycle is
   * cycleSum / cycleCount and the mean duration durationSum / periods.
   */
  datatype Stats = Stats(
    periods: nat,
    cycleSum: int, cycleCount: nat, shortest: int, longest: int,
    durationSum: int,
    alerts: seq<Alert>)

  /** `calculate_stats`: insufficient data below two records, otherwise the report and the anomaly alerts. */
  method CalculateStats(rs: seq<Record>) returns (r: Option<Stats>)
    ensures r.None? <==> |rs| < 2
    ensures r.Some? ==>
      && r.value.periods == |rs|
      && r.value.cycleCount == |rs| - 1
      && r.value.cycleSum == Sum(Cycles(rs))
      && r.value.shortest == Min(Cycles(rs))
      && r.value.longest == Max(Cycles(rs))
      && r.value.durationSum == Sum(Durations(rs))
      && r.value.alerts == Alerts(Cycles(rs))
    ensures r.Some? ==>
      r.value.shortest * r.value.cycleCount <= r.value.cycleSum <= r.value.longest * r.value.cycleCount
  {
    if |rs| < 2 {
      return None;
    }
    var cycles := ComputeCycles(rs);
    var durations := Durations(rs);
    MeanWithinRange(cycles);
    var alerts := CheckAnomalies(rs);
    r := Some(Stats(|rs|, Sum(cycles), |cycles|, Min(cycles), Max(cycles), Sum(durations), alerts));
  }

  // ---------------------------------------------------------------------------
  // Prediction

  /** Python's `int()` of an exact quotient: division truncating toward zero. */
  function TruncDiv(a: int, b: int): (q: int)
    requires b > 0
    ensures a >= 0 ==> 0 <= q && q * b <= a < q * b + b
    ensures a < 0 ==> q <= 0 && q * b - b < a <= q * b
  {
    if a >= 0 then
      var q := a / b;
      assert a == q * b + a % b && 0 <= a % b < b;
      assert q >= 0 by {
        if q < 0 { MulMonotone(q, -1, b); }
      }
      q
    else
      var q := (-a) / b;
      assert -a == q * b + (-a) % b && 0 <= (-a) % b < b;
      assert (-q) * b == -(q * b);
      assert q >= 0 by {
        if q < 0 { MulMonotone(q, -1, b); }
      }
      -q
  }

  /** The predicted next start day: the last start day plus the truncated mean cycle. */
  function PredictedDay(rs: seq<Record>): Day
    requires |rs| >= 2
  {
    rs[|rs| - 1].start + TruncDiv(Sum(Cycles(rs)), |rs| - 1)
  }

  /** The prediction adds the whole-day mean of the span from the first start day to the last. */
  lemma PredictedDayFromSpan(rs: seq<Record>)
    requires |rs| >= 2
    ensures PredictedDay(rs) == rs[|rs| - 1].start + TruncDiv(rs[|rs| - 1].start - rs[0].start, |rs| - 1)
  {
    CycleSumIsSpan(rs);
  }

  /**
   * On a store in start-day order the prediction is never before the last
   * start day, and the added days lie between the shortest and the longest cycle.
   */
  lemma PredictionWithinCycleRange(rs: seq<Record>)
    requires |rs| >= 2 && SortedByStart(rs)
    ensures rs[|rs| - 1].start <= PredictedDay(rs)
    ensures Min(Cycles(rs)) <= PredictedDay(rs) - rs[|rs| - 1].start <= Max(Cycles(rs))
  {
    var cs := Cycles(rs);
    var n := |rs| - 1;
    SortedIffCyclesNonNegative(rs);
    CycleSumIsSpan(rs);
    MeanWithinRange(cs);
    assert rs[0].start <= rs[|rs| - 1].start;
    var q := TruncDiv(Sum(cs), n);
    assert q * n <= Sum(cs) < q * n + n;
    QuotientBounds(Min(cs), Max(cs), q, n, Sum(cs));
  }

  /** A whole-day quotient of a total lying between lo * n and hi * n lies between lo and hi. */
  lemma QuotientBounds(lo: int, hi: int, q: int, n: int, a: int)
    requires n > 0
    requires lo * n <= a <= hi * n
    requires q * n <= a < q * n + n
    ensures lo <= q <= hi
  {
    if q < lo {
      assert (q + 1) * n == q * n + n;
      MulMonotone(q + 1, lo, n);
      assert false;
    }
    if hi < q {
      assert (hi + 1) * n == hi * n + n;
      MulMonotone(hi + 1, q, n);
      assert false;
    }
  }

  lemma {:induction false} MulMonotone(x: int, y: int, n: nat)
    requires x <= y
    ensures x * n <= y * n
  {
    if n > 0 {
      MulMonotone(x, y, n - 1);
      assert x * n == x * (n - 1) + x;
      assert y * n == y * (n - 1) + y;
    }
  }

  /** What `predict_next` reports: the predicted start day and the exact mean cycle it used. */
  datatype Prediction = Prediction(date: Day, cycleSum: int, cycleCount: nat)

  /** `predict_next`: no prediction below two records, otherwise last start day plus the truncated mean. */
  method PredictNext(rs: seq<Record>) returns (p: Option<Prediction>)
    ensures p.None? <==> |rs| < 2
    ensures p.Some? ==>
      && p.value.cycleCount == |rs| - 1
      && p.value.cycleSum == Sum(Cycles(rs))
      && p.value.date == PredictedDay(rs)
    ensures p.Some? && SortedByStart(rs) ==> rs[|rs| - 1].start <= p.value.date
  {
    if |rs| < 2 {
      return None;
    }
    var cycles := ComputeCycles(rs);
    var lastDate := rs[|rs| - 1].start;
    var predicted := lastDate + TruncDiv(Sum(cycles), |cycles|);
    if SortedByStart(rs) {
      PredictionWithinCycleRange(rs);
    }
    p := Some(Prediction(predicted, Sum(cycles), |cycles|));
  }

  // ---------------------------------------------------------------------------
  // Worked example: starts 2024-01-01, 2024-01-29, 2024-02-25 (days 19723, 19751, 19778).

  /**
   * Cycles 28 and 27: mean 55/2 = 27.5, range 27-28, and the prediction
   * 2024-02-25 + 27 days = 2024-03-23 (day 19805).
   */
  lemma ThreeRecordExample()
    ensures var rs := [Record(19723, 19727, "Medium", ""), Record(19751, 19755, "Medium", ""), Record(19778, 19782, "Medium", "")];
      && Cycles(rs) == [28, 27]
      && Sum(Cycles(rs)) == 55
      && Min(Cycles(rs)) == 27
      && Max(Cycles(rs)) == 28
      && PredictedDay(rs) == 19805
  {
    var rs := [Record(19723, 19727, "Medium", ""), Record(19751, 19755, "Medium", ""), Record(19778, 19782, "Medium", "")];
    assert Cycles(rs) == [28, 27];
    assert [28, 27][1..] == [27];
  }
}
