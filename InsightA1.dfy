/**
 * Insight A1: compares an account's water consumption on a reference day with
 * its consumption on the same weekday over the preceding weeks and, when the
 * history is good enough, emits one scored "day-of-week consumption" message.
 *
 * Days are integers (the index of a day's start); one week earlier is -7.
 * The aggregation data service is an oracle giving, for a day, the summed
 * volume of the account's devices of the resolved type, or None when the
 * response has no series for that type or the series has no sum.
 */
module InsightA1 {
  import opened Wrappers
  import opened Statistics

  /** Threshold, in standard deviations, of a significant change */
  const K: real := 1.28
  /** Number of past weeks examined */
  const N: nat := 12
  /** Ratio of the past weeks that must have data */
  const F: real := 0.5
  /** Largest Java int; converting a larger double to int saturates here */
  const IntMax: int := 0x7fff_ffff
  /** Lower bound that bean validation puts on both volumes of the parameters */
  const MinValue: real := 0.001

  datatype DeviceType = Amphiro | Meter

  /** The two message templates of this insight */
  datatype Template = ConsumptionIncrease | ConsumptionDecrease

  /** A display locale; this insight's parameters do not depend on it */
  datatype Locale = Locale(tag: string)

  /** A value in the parameter map handed to the template renderer */
  datatype ParameterValue = Volume(volume: real) | Percent(percent: int) | Day(day: int)

  /** Daily volume oracle standing for the aggregation data service */
  type DailyVolume = int -> Option<real>

  /** The exact, unrounded relative change in percent */
  function ExactPercentChange(current: real, average: real): (x: real)
    requires average > 0.0
    ensures x >= 0.0
  {
    var ratio := (current - average) / average;
    100.0 * (if ratio < 0.0 then -ratio else ratio)
  }

  /** The parameters of an emitted message */
  datatype Parameters = Parameters(refDay: int, deviceType: DeviceType, currentValue: real, averageValue: real)
  {
    /** The constraints bean validation puts on the two volumes */
    predicate Valid(): (b: bool)
      ensures b ==> averageValue > 0.0 && currentValue > 0.0
    {
      currentValue >= MinValue && averageValue >= MinValue
    }

    /** Increase when the day is at least the historical average, else decrease */
    function GetTemplate(): (t: Template)
      ensures t == ConsumptionIncrease <==> averageValue <= currentValue
      ensures t == ConsumptionDecrease <==> currentValue < averageValue
    {
      if averageValue <= currentValue then ConsumptionIncrease else ConsumptionDecrease
    }

    /**
     * The change relative to the average in percent, truncated (not rounded)
     * to an int the way a Java double-to-int conversion does: towards zero,
     * saturating at the largest int.
     */
    function PercentChange(): (r: int)
      requires averageValue > 0.0
      ensures 0 <= r <= IntMax
      ensures r as real <= ExactPercentChange(currentValue, averageValue)
      ensures r < IntMax ==> ExactPercentChange(currentValue, averageValue) < (r + 1) as real
      ensures r == IntMax ==> ExactPercentChange(currentValue, averageValue) >= IntMax as real
    {
      var x := ExactPercentChange(currentValue, averageValue);
      if x >= IntMax as real then IntMax else x.Floor
    }

    /**
     * The parameters this insight adds to the message: the day's volume and
     * the average each under two names, the percent change and the day.
     */
    function GetParameters(): (m: map<string, ParameterValue>)
      requires averageValue > 0.0
      ensures m.Keys == {"value", "consumption", "average_value", "average_consumption", "percent_change", "day"}
      ensures m["value"] == m["consumption"] == Volume(currentValue)
      ensures m["average_value"] == m["average_consumption"] == Volume(averageValue)
      ensures m["percent_change"].Percent? && 0 <= m["percent_change"].percent <= IntMax
      ensures m["percent_change"].percent as real <= ExactPercentChange(currentValue, averageValue)
      ensures m["percent_change"] == Percent(PercentChange())
      ensures m["day"] == Day(refDay)
    {
      map["value" := Volume(currentValue), "consumption" := Volume(currentValue),
          "average_value" := Volume(averageValue), "average_consumption" := Volume(averageValue),
          "percent_change" := Percent(PercentChange()), "day" := Day(refDay)]
    }

    /** These parameters are locale-independent. */
    function WithLocale(target: Locale): (p: Parameters)
      ensures p == this
      ensures p.GetTemplate() == GetTemplate()
    {
      this
    }
  }

  /**
   * The score of a message. A finite score is the non-negative square root
   * of `square`: the model has no real square root, so it carries the square.
   */
  datatype Score = PositiveInfinity | Finite(square: real)

  /** A scored message, as handed to message dispatch */
  datatype Status = Status(score: Score, parameters: Parameters)

  /**
   * Score of `target` against the history: |target - mean| / (2 K sd), or
   * +infinity when the standard deviation sd (the square root of the
   * population variance) is zero.
   */
  function ScoreOf(target: real, history: seq<real>): (s: Score)
    requires history != []
    ensures s.PositiveInfinity? <==> PopulationVariance(history) == 0.0
    ensures s.Finite? ==> s.square >= 0.0
    ensures s.Finite? ==> s.square * (4.0 * K * K * PopulationVariance(history))
                          == SquaredDeviation(target, Mean(history))
  {
    var v := PopulationVariance(history);
    if v > 0.0 then
      var d := 4.0 * K * K * v;
      Finite(SquaredDeviation(target, Mean(history)) / d)
    else PositiveInfinity
  }

  /** The day k weeks before `day` */
  function WeekBefore(day: int, k: nat): int
  {
    day - 7 * k
  }

  /** The value of a present reading, nothing for a missing one */
  function Present(v: Option<real>): seq<real>
  {
    match v
    case Some(x) => [x]
    case None => []
  }

  /**
   * The values read for the same weekday 1, 2, ..., weeks weeks before `day`,
   * most recent first, missing days skipped.
   */
  function Collected(volume: DailyVolume, day: int, weeks: nat): (xs: seq<real>)
    ensures |xs| <= weeks
    ensures weeks > 0 && volume(WeekBefore(day, weeks)).Some? ==>
              xs != [] && xs[|xs| - 1] == volume(WeekBefore(day, weeks)).value
    decreases weeks
  {
    if weeks == 0 then []
    else Collected(volume, day, weeks - 1) + Present(volume(WeekBefore(day, weeks)))
  }

  /** The weeks back, among the first `weeks`, whose day has data */
  function WeeksWithData(volume: DailyVolume, day: int, weeks: nat): set<nat>
  {
    set k: nat | 1 <= k <= weeks && volume(WeekBefore(day, k)).Some?
  }

  /** Gate 1: the reference day has a reading of at least the threshold. */
  predicate TargetUsable(target: Option<real>, dailyThreshold: real)
  {
    target.Some? && dailyThreshold <= target.value
  }

  /** Gate 2: at least N * F of the past weeks have data (the source's strict `<` fails). */
  predicate EnoughHistory(history: seq<real>)
  {
    !((|history| as real) < (N as real) * F)
  }

  /** The gates and the message, given the day's reading and the collected history */
  function Decide(refDay: int, deviceType: DeviceType, dailyThreshold: real,
                  target: Option<real>, history: seq<real>): (r: seq<Status>)
    ensures |r| <= 1
    ensures r != [] <==> TargetUsable(target, dailyThreshold) && EnoughHistory(history)
                         && history != [] && dailyThreshold <= Mean(history)
    ensures r != [] ==> r[0].parameters.currentValue == target.value
                        && r[0].parameters.averageValue == Mean(history)
                        && r[0].score == ScoreOf(target.value, history)
  {
    if !TargetUsable(target, dailyThreshold) then []
    else if !EnoughHistory(history) then []
    else
      var average := Mean(history);
      if average < dailyThreshold then []
      else [Status(ScoreOf(target.value, history),
                   Parameters(refDay, deviceType, target.value, average))]
  }

  /** What the resolver emits for one account and device type */
  function Resolution(refDay: int, deviceType: DeviceType, dailyThreshold: real, volume: DailyVolume): (r: seq<Status>)
    ensures |r| <= 1
    ensures r != [] ==> TargetUsable(volume(refDay), dailyThreshold)
    ensures r != [] ==> r[0].parameters.refDay == refDay && r[0].parameters.deviceType == deviceType
    ensures r != [] ==> r[0].parameters.currentValue == volume(refDay).value
  {
    Decide(refDay, deviceType, dailyThreshold, volume(refDay), Collected(volume, refDay, N))
  }

  /**
   * The resolver: reads the reference day, then walks back one week at a time
   * for N weeks collecting the days that have data, applies the three gates
   * and emits at most one scored message. `queried` lists, in order, the days
   * whose volume was asked of the data service.
   */
  method Resolve(refDay: int, deviceType: DeviceType, dailyThreshold: real, volume: DailyVolume)
    returns (results: seq<Status>, queried: seq<int>)
    ensures results == Resolution(refDay, deviceType, dailyThreshold, volume)
    ensures |queried| == if TargetUsable(volume(refDay), dailyThreshold) then N + 1 else 1
    ensures forall k :: 0 <= k < |queried| ==> queried[k] == WeekBefore(refDay, k)
    ensures forall k :: 1 <= k < |queried| ==> queried[k] == queried[k - 1] - 7
  {
    var start := refDay;
    queried := [start];
    var targetValue := volume(start);
    if targetValue.None? || targetValue.value < dailyThreshold {
      return [], queried;
    }

    var summary: seq<real> := [];
    var i := 0;
    while i < N
      invariant 0 <= i <= N
      invariant start == WeekBefore(refDay, i)
      invariant summary == Collected(volume, refDay, i)
      invariant |queried| == i + 1
      invariant forall k :: 0 <= k < |queried| ==> queried[k] == WeekBefore(refDay, k)
    {
      start := start - 7;
      queried := queried + [start];
      var val := volume(start);
      if val.Some? {
        summary := summary + [val.value];
      }
      i := i + 1;
    }
    if (|summary| as real) < (N as real) * F {
      return [], queried;
    }

    var averageValue := Mean(summary);
    if averageValue < dailyThreshold {
      return [], queried;
    }

    var score := ScoreOf(targetValue.value, summary);
    results := [Status(score, Parameters(refDay, deviceType, targetValue.value, averageValue))];
  }

  // ----- The collected history -----

  /** Only weeks with data contribute, one value each: at most one per week examined. */
  lemma {:induction false} CollectedCount(volume: DailyVolume, day: int, weeks: nat)
    ensures |Collected(volume, day, weeks)| == |WeeksWithData(volume, day, weeks)|
    ensures |WeeksWithData(volume, day, weeks)| <= weeks
    decreases weeks
  {
    if weeks == 0 {
      assert WeeksWithData(volume, day, 0) == {};
    } else {
      CollectedCount(volume, day, weeks - 1);
      var before := WeeksWithData(volume, day, weeks - 1);
      assert weeks !in before;
      if volume(WeekBefore(day, weeks)).Some? {
        assert WeeksWithData(volume, day, weeks) == before + {weeks};
      } else {
        assert WeeksWithData(volume, day, weeks) == before;
      }
    }
  }

  /** The collected values are exactly the readings of the weeks with data. */
  lemma {:induction false} CollectedValues(volume: DailyVolume, day: int, weeks: nat)
    ensures forall k: nat :: 1 <= k <= weeks && volume(WeekBefore(day, k)).Some? ==>
              volume(WeekBefore(day, k)).value in Collected(volume, day, weeks)
    ensures forall x :: x in Collected(volume, day, weeks) ==>
              exists k: nat :: 1 <= k <= weeks && volume(WeekBefore(day, k)) == Some(x)
    decreases weeks
  {
    if weeks > 0 {
      CollectedValues(volume, day, weeks - 1);
    }
  }

  /** Every week having the same reading c gives N copies of c. */
  lemma {:induction false} CollectedConstant(volume: DailyVolume, day: int, weeks: nat, c: real)
    requires forall k: nat :: 1 <= k <= weeks ==> volume(WeekBefore(day, k)) == Some(c)
    ensures |Collected(volume, day, weeks)| == weeks
    ensures forall i :: 0 <= i < weeks ==> Collected(volume, day, weeks)[i] == c
    decreases weeks
  {
    if weeks > 0 {
      CollectedConstant(volume, day, weeks - 1, c);
    }
  }

  // ----- The gates -----

  /** Gate 2 lets exactly 6 values through and stops 5. */
  lemma HistoryGateBoundary(history: seq<real>)
    ensures EnoughHistory(history) <==> |history| >= 6
  {
  }

  /** Gate 1: no reading, or one below the threshold, for the reference day. */
  lemma NoInsightWithoutTarget(refDay: int, deviceType: DeviceType, dailyThreshold: real, volume: DailyVolume)
    requires volume(refDay).None? || volume(refDay).value < dailyThreshold
    ensures Resolution(refDay, deviceType, dailyThreshold, volume) == []
  {
  }

  /** Gate 2: fewer than 6 of the 12 past weeks with data, whatever the values. */
  lemma NoInsightWithFewWeeks(refDay: int, deviceType: DeviceType, dailyThreshold: real, volume: DailyVolume)
    requires |WeeksWithData(volume, refDay, N)| < 6
    ensures Resolution(refDay, deviceType, dailyThreshold, volume) == []
  {
    CollectedCount(volume, refDay, N);
  }

  /** Gate 3: a historical average below the threshold, whatever the day's value. */
  lemma NoInsightWithLowBaseline(refDay: int, deviceType: DeviceType, dailyThreshold: real, volume: DailyVolume)
    requires Collected(volume, refDay, N) != []
    requires Mean(Collected(volume, refDay, N)) < dailyThreshold
    ensures Resolution(refDay, deviceType, dailyThreshold, volume) == []
  {
  }

  /** A message is emitted exactly when all three gates pass, and then exactly one. */
  lemma InsightIffGatesPass(refDay: int, deviceType: DeviceType, dailyThreshold: real, volume: DailyVolume)
    ensures |Resolution(refDay, deviceType, dailyThreshold, volume)| <= 1
    ensures Resolution(refDay, deviceType, dailyThreshold, volume) != [] <==>
              TargetUsable(volume(refDay), dailyThreshold)
              && |WeeksWithData(volume, refDay, N)| >= 6
              && Mean(Collected(volume, refDay, N)) >= dailyThreshold
  {
    CollectedCount(volume, refDay, N);
  }

  /** The emitted message reports the day's value against the history's mean. */
  lemma EmittedMessage(refDay: int, deviceType: DeviceType, dailyThreshold: real, volume: DailyVolume)
    requires Resolution(refDay, deviceType, dailyThreshold, volume) != []
    ensures var history := Collected(volume, refDay, N);
            var message := Resolution(refDay, deviceType, dailyThreshold, volume)[0];
            && volume(refDay).Some?
            && |history| >= 6
            && message.parameters.refDay == refDay
            && message.parameters.currentValue == volume(refDay).value >= dailyThreshold
            && message.parameters.averageValue == Mean(history) >= dailyThreshold
            && message.score == ScoreOf(volume(refDay).value, history)
  {
  }

  /** With a positive threshold (at least the validation bound) every emitted message is valid. */
  lemma EmittedParametersValid(refDay: int, deviceType: DeviceType, dailyThreshold: real, volume: DailyVolume)
    requires dailyThreshold >= MinValue
    ensures forall s :: s in Resolution(refDay, deviceType, dailyThreshold, volume) ==>
              s.parameters.Valid() && s.parameters.averageValue > 0.0
  {
  }

  // ----- The score -----

  /** A flat history (all collected values equal) scores +infinity. */
  lemma FlatHistoryScoresInfinity(target: real, history: seq<real>)
    requires history != [] && AllEqual(history)
    ensures ScoreOf(target, history) == PositiveInfinity
    ensures Mean(history) == history[0]
  {
    AllEqualVarianceZero(history);
  }

  /**
   * The order in which the past weeks are read does not matter: two data
   * services agreeing on the reference day and on the multiset of historical
   * values give the same result.
   */
  lemma ReorderedHistorySameResult(refDay: int, deviceType: DeviceType, dailyThreshold: real,
                                   volume1: DailyVolume, volume2: DailyVolume)
    requires volume1(refDay) == volume2(refDay)
    requires multiset(Collected(volume1, refDay, N)) == multiset(Collected(volume2, refDay, N))
    ensures Resolution(refDay, deviceType, dailyThreshold, volume1)
         == Resolution(refDay, deviceType, dailyThreshold, volume2)
  {
    DecideOrderIndependent(refDay, deviceType, dailyThreshold, volume1(refDay),
                           Collected(volume1, refDay, N), Collected(volume2, refDay, N));
  }

  /** The gates and the score depend on the history only as a multiset. */
  lemma DecideOrderIndependent(refDay: int, deviceType: DeviceType, dailyThreshold: real,
                               target: Option<real>, a: seq<real>, b: seq<real>)
    requires multiset(a) == multiset(b)
    ensures Decide(refDay, deviceType, dailyThreshold, target, a)
         == Decide(refDay, deviceType, dailyThreshold, target, b)
  {
    assert |a| == |multiset(a)| == |multiset(b)| == |b|;
    if a != [] {
      OrderIndependent(a, b);
    }
  }

  /**
   * Target 20, twelve weeks of 10 and threshold 5: average 10, zero
   * deviation, so an infinite score, an increase, and a change of 100%.
   */
  lemma FlatHistoryScenario(refDay: int, deviceType: DeviceType)
    ensures Resolution(refDay, deviceType, 5.0, (d: int) => if d == refDay then Some(20.0) else Some(10.0))
         == [Status(PositiveInfinity, Parameters(refDay, deviceType, 20.0, 10.0))]
    ensures Parameters(refDay, deviceType, 20.0, 10.0).GetTemplate() == ConsumptionIncrease
    ensures Parameters(refDay, deviceType, 20.0, 10.0).PercentChange() == 100
  {
    var volume: DailyVolume := (d: int) => if d == refDay then Some(20.0) else Some(10.0);
    CollectedConstant(volume, refDay, N, 10.0);
    var history := Collected(volume, refDay, N);
    FlatHistoryScoresInfinity(20.0, history);
    assert Resolution(refDay, deviceType, 5.0, volume)
        == [Status(PositiveInfinity, Parameters(refDay, deviceType, 20.0, 10.0))];
  }

  // ----- The parameters -----

  /** The percent change is truncated, not rounded: 15 against 10 is 50, 14.99 against 10 is 49. */
  lemma PercentChangeTruncates(refDay: int, deviceType: DeviceType)
    ensures Parameters(refDay, deviceType, 15.0, 10.0).PercentChange() == 50
    ensures Parameters(refDay, deviceType, 14.99, 10.0).PercentChange() == 49
  {
    assert ExactPercentChange(15.0, 10.0) == 50.0;
    assert ExactPercentChange(14.99, 10.0) == 49.9;
  }

  /**
   * Template and exact percent change together give back the day's value:
   * an increase of p% means average * (1 + p/100), a decrease average * (1 - p/100).
   */
  lemma TemplateAndChangeGiveCurrent(p: Parameters)
    requires p.averageValue > 0.0
    ensures var change := p.averageValue * ExactPercentChange(p.currentValue, p.averageValue) / 100.0;
            if p.GetTemplate() == ConsumptionIncrease
            then p.currentValue == p.averageValue + change
            else p.currentValue == p.averageValue - change
  {
  }
}
