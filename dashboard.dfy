/**
 * The data behind the four dashboard charts: cycle lengths against the start
 * day that closes each cycle, durations, the flow distribution and the
 * symptom frequencies. Drawing them is not part of this model.
 */
module Dashboard {
  import opened Wrappers
  import opened Records
  import opened CycleAnalysis
  import opened Symptoms

  /** The series the charts are drawn from. */
  datatype ChartData = ChartData(
    cycles: seq<int>, cycleDates: seq<Day>,
    durations: seq<int>,
    flowCounts: map<string, nat>,
    symptomCounts: map<string, nat>)

  /** The flow label of every record, in store order. */
  function Flows(rs: seq<Record>): seq<string>
  {
    seq(|rs|, i requires 0 <= i < |rs| => rs[i].flow)
  }

  /**
   * The loop of the cycle-length chart: cycle k and the start day of record
   * k + 1, at which it is plotted.
   */
  method CycleSeries(rs: seq<Record>) returns (cycles: seq<int>, dates: seq<Day>)
    requires |rs| >= 2
    ensures cycles == Cycles(rs)
    ensures |dates| == |rs| - 1
    ensures forall k :: 0 <= k < |rs| - 1 ==> dates[k] == rs[k + 1].start
  {
    cycles, dates := [], [];
    for i := 1 to |rs|
      invariant |cycles| == i - 1 && |dates| == i - 1
      invariant forall k :: 0 <= k < i - 1 ==> cycles[k] == rs[k + 1].start - rs[k].start
      invariant forall k :: 0 <= k < i - 1 ==> dates[k] == rs[k + 1].start
    {
      var days := rs[i].start - rs[i - 1].start;
      cycles := cycles + [days];
      dates := dates + [rs[i].start];
    }
    assert cycles == Cycles(rs);
  }

  /**
   * `visualize` up to the drawing: nothing below two records; otherwise cycle
   * k is plotted at the start day of record k + 1, every record contributes
   * its duration, and flow labels and symptom tags are tallied.
   */
  method Visualize(rs: seq<Record>) returns (chart: Option<ChartData>)
    ensures chart.None? <==> |rs| < 2
    ensures chart.Some? ==>
      && chart.value.cycles == Cycles(rs)
      && |chart.value.cycleDates| == |rs| - 1
      && (forall k :: 0 <= k < |rs| - 1 ==> chart.value.cycleDates[k] == rs[k + 1].start)
      && chart.value.durations == Durations(rs)
      && chart.value.flowCounts == Tally(Flows(rs))
      && chart.value.symptomCounts == Tally(SymptomTokens(rs))
  {
    if |rs| < 2 {
      return None;
    }
    var cycles, dates := CycleSeries(rs);
    var durations := Durations(rs);
    var flowCounts := Tally(Flows(rs));
    var symptomCounts := SymptomFrequency(rs);
    chart := Some(ChartData(cycles, dates, durations, flowCounts, symptomCounts));
  }
}
