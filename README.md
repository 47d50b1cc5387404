# Insight A1 and password normalisation, modelled in Dafny

This project models two pieces of the water-utility platform's backend.

- **Insight A1** is the "day-of-week consumption" insight. It checks one account's water
  consumption for one device type on a reference day against the same weekday in each of
  the 12 weeks before it. Three data-quality gates decide whether there is anything to
  say. If all three pass, it emits exactly one scored message. The message uses an
  increase or a decrease template and carries the day's volume, the historical average
  and the percent change.
- **Password change request**: the stored password is normalised when it is read. A
  missing (null) password reads as the empty string. Any other password is trimmed as
  Java's `String.trim` does it: every character with a code of U+0020 or lower is removed
  from both ends.

Files:

- `Wrappers.dfy`: `Option`, which stands for a Java value that may be null.
- `Statistics.dfy`: the accumulator of the collected values. It defines their mean and
  their population variance (the divisor is the count), both as two-pass definitions.
  It proves that both are independent of the order of the values, that the variance is
  never negative, and that equal values give a variance of zero.
- `InsightA1.dfy`: the message parameters (template, percent change, parameter map,
  locale), the score, the resolver as an imperative method (`Resolve`) and the
  specification function it is proved against (`Resolution`). It also holds the lemmas
  about the gates, the collected history and the score.
- `PasswordChangeRequest.dfy`: `Trim`, with a full characterisation and a uniqueness
  lemma, and the request class with its getter and setter.

Modelling choices:

- Days are integers, and the integer is the start of that day. One week earlier is −7.
- The aggregation data service becomes an oracle `int -> Option<real>`. It gives the
  summed volume for a day. `None` covers both a response with no series for the device
  type and a series with no sum.
- The configured daily volume threshold is a parameter.
- Doubles are modelled as `real`.

## Model

| member | source | states |
|---|---|---|
| `InsightA1.Resolve` | src/main/java/eu/daiad/web/service/message/resolvers/InsightA1.java:147-222 | the loop's result is the specification `Resolution`; the data service is asked for the reference day and then, only if gate 1 passes, for exactly 12 more days; the k-th day asked is k weeks before the reference day, each one week before the previous |
| `InsightA1.Resolution` | src/main/java/eu/daiad/web/service/message/resolvers/InsightA1.java:170-221 | the specification of the resolver: at most one message, only when the reference day passes gate 1, and that message is for the reference day and device type and carries the day's reading |
| `InsightA1.Decide` | src/main/java/eu/daiad/web/service/message/resolvers/InsightA1.java:179-221 | given the day's reading and the collected history: at most one message, one exactly when the three gates pass (a usable reading, at least N·F values, a mean of at least the threshold), carrying the reading, the mean and the score of the reading against the history |
| `InsightA1.Collected` | src/main/java/eu/daiad/web/service/message/resolvers/InsightA1.java:184-196 | the values collected over the weeks examined: at most one per week, and a present reading of the last week examined is appended last |
| `InsightA1.CollectedCount` | src/main/java/eu/daiad/web/service/message/resolvers/InsightA1.java:184-196 | the number of collected values equals the number of past weeks whose reading is present, and is at most the number of weeks examined (missing readings are skipped, not counted as zero) |
| `InsightA1.CollectedValues` | src/main/java/eu/daiad/web/service/message/resolvers/InsightA1.java:190-195 | every present reading of the 12 weeks is collected, and every collected value is the reading of one of those weeks |
| `InsightA1.HistoryGateBoundary` | src/main/java/eu/daiad/web/service/message/resolvers/InsightA1.java:197-198 | the strict `count < N * F` gate passes exactly when at least 6 values were collected: 6 passes, 5 does not |
| `InsightA1.NoInsightWithoutTarget` | src/main/java/eu/daiad/web/service/message/resolvers/InsightA1.java:176-180 | a missing reading for the reference day, or one below the daily threshold, gives no message |
| `InsightA1.NoInsightWithFewWeeks` | src/main/java/eu/daiad/web/service/message/resolvers/InsightA1.java:197-198 | fewer than 6 of the 12 past weeks with data gives no message, whatever their values |
| `InsightA1.NoInsightWithLowBaseline` | src/main/java/eu/daiad/web/service/message/resolvers/InsightA1.java:202-204 | a historical mean below the daily threshold gives no message, whatever the day's value |
| `InsightA1.InsightIffGatesPass` | src/main/java/eu/daiad/web/service/message/resolvers/InsightA1.java:177-221 | at most one message is emitted, and one is emitted exactly when all three gates pass |
| `InsightA1.EmittedMessage` | src/main/java/eu/daiad/web/service/message/resolvers/InsightA1.java:202-221 | an emitted message carries the reference day, the day's value (at least the threshold), the history's mean (at least the threshold, over at least 6 values) and the score of the day against that history |
| `InsightA1.EmittedParametersValid` | src/main/java/eu/daiad/web/service/message/resolvers/InsightA1.java:55-63 | with a threshold of at least 1E-3, both volumes of every emitted message meet the validation bound, so the average is positive and the percent change is defined |
| `InsightA1.Parameters.Valid` | src/main/java/eu/daiad/web/service/message/resolvers/InsightA1.java:55-63 | the `@DecimalMin("1E-3")` bound on both volumes; parameters that meet it have a positive average and a positive day value |
| `InsightA1.ScoreOf` | src/main/java/eu/daiad/web/service/message/resolvers/InsightA1.java:206-208 | the score is +infinity exactly when the population variance (so the standard deviation) is zero; otherwise it is finite and not negative, and its square times (2K)² times the variance equals (day − mean)² |
| `InsightA1.FlatHistoryScoresInfinity` | src/main/java/eu/daiad/web/service/message/resolvers/InsightA1.java:202-208 | when all collected values are equal, the mean is that value and the score is +infinity |
| `InsightA1.DecideOrderIndependent` | src/main/java/eu/daiad/web/service/message/resolvers/InsightA1.java:195-208 | the gates, the mean and the score depend on the collected history only as a multiset |
| `InsightA1.ReorderedHistorySameResult` | src/main/java/eu/daiad/web/service/message/resolvers/InsightA1.java:184-221 | two data services that agree on the reference day and on the multiset of historical values give the same result |
| `InsightA1.FlatHistoryScenario` | src/main/java/eu/daiad/web/service/message/resolvers/InsightA1.java:170-221 | a day of 20 against twelve weeks of 10, with threshold 5, gives one message with an infinite score, average 10, the increase template and a 100% change |
| `InsightA1.ExactPercentChange` | src/main/java/eu/daiad/web/service/message/resolvers/InsightA1.java:128 | the relative change 100 · abs(current − average) / average is never negative |
| `InsightA1.Parameters.GetTemplate` | src/main/java/eu/daiad/web/service/message/resolvers/InsightA1.java:108-114 | the increase template exactly when average ≤ current, the decrease template exactly when current < average |
| `InsightA1.Parameters.PercentChange` | src/main/java/eu/daiad/web/service/message/resolvers/InsightA1.java:128-129 | the percent change is the exact relative change truncated to an int: it is between 0 and the largest int, no more than the exact change and, below the largest int, more than the exact change minus one; it saturates at the largest int |
| `InsightA1.PercentChangeTruncates` | src/main/java/eu/daiad/web/service/message/resolvers/InsightA1.java:128-129 | 15 against 10 gives 50 and 14.99 against 10 gives 49 (truncation, not rounding) |
| `InsightA1.TemplateAndChangeGiveCurrent` | src/main/java/eu/daiad/web/service/message/resolvers/InsightA1.java:108-129 | the template and the exact percent change together give back the day's value: average · (1 ± change/100) |
| `InsightA1.Parameters.GetParameters` | src/main/java/eu/daiad/web/service/message/resolvers/InsightA1.java:118-135 | the map holds the day's value under "value" and "consumption", the average under "average_value" and "average_consumption", the day, and under "percent_change" exactly `PercentChange()`: the exact change truncated towards zero and saturated at the largest int |
| `InsightA1.Parameters.WithLocale` | src/main/java/eu/daiad/web/service/message/resolvers/InsightA1.java:137-141 | a change of locale returns the same parameters, so the template is the same |
| `Statistics.Mean` | src/main/java/eu/daiad/web/service/message/resolvers/InsightA1.java:202 | the mean of the collected values: the mean times their count is their sum |
| `Statistics.MeanBetween` | src/main/java/eu/daiad/web/service/message/resolvers/InsightA1.java:202 | the mean of values that all lie between two bounds lies between those bounds |
| `Statistics.PopulationVariance` | src/main/java/eu/daiad/web/service/message/resolvers/InsightA1.java:206 | the population variance of the collected values is never negative |
| `Statistics.AllEqualVarianceZero` | src/main/java/eu/daiad/web/service/message/resolvers/InsightA1.java:202-206 | equal values have that value as their mean and a population variance of zero |
| `Statistics.OrderIndependent` | src/main/java/eu/daiad/web/service/message/resolvers/InsightA1.java:195-206 | reordering the collected values changes neither their mean nor their population variance |
| `PasswordChange.TrimStart` | src/main/java/eu/daiad/web/security/model/PasswordChangeRequest.java:13 | the result is a suffix of the input, only trimmable characters were dropped, and it does not start with one |
| `PasswordChange.TrimEnd` | src/main/java/eu/daiad/web/security/model/PasswordChangeRequest.java:13 | the result is a prefix of the input, only trimmable characters were dropped, and it does not end with one |
| `PasswordChange.Trim` | src/main/java/eu/daiad/web/security/model/PasswordChangeRequest.java:13 | the result neither starts nor ends with a character ≤ U+0020, and it is a contiguous slice of the input whose surroundings are all characters ≤ U+0020 |
| `PasswordChange.TrimUnique` | src/main/java/eu/daiad/web/security/model/PasswordChangeRequest.java:13 | any slice with those two properties is the trimmed string: trimming removes only, and all of, the blank ends |
| `PasswordChange.TrimIdempotent` | src/main/java/eu/daiad/web/security/model/PasswordChangeRequest.java:13 | trimming the trimmed password again changes nothing |
| `PasswordChange.TrimExample` | src/main/java/eu/daiad/web/security/model/PasswordChangeRequest.java:13 | blanks, tabs and newlines at the ends go and inner blanks stay |
| `PasswordChange.PasswordChangeRequest.constructor` | src/main/java/eu/daiad/web/security/model/PasswordChangeRequest.java:5-7 | a new request has no password |
| `PasswordChange.PasswordChangeRequest.GetPassword` | src/main/java/eu/daiad/web/security/model/PasswordChangeRequest.java:9-14 | a missing password reads as ""; a present one reads trimmed, as a slice of the stored value with neither end ≤ U+0020 |
| `PasswordChange.PasswordChangeRequest.SetPassword` | src/main/java/eu/daiad/web/security/model/PasswordChangeRequest.java:16-18 | the raw value is stored unchanged; only reading trims it |

## Left out

- The aggregation data service is an oracle. The query builder is not modelled: timezone,
  account, data source, sum aggregation and the sliding one-day window. An error raised by
  the service ends the Java run, but the oracle is total, so that path is not modelled.
- The configuration lookup of the daily threshold is a parameter of `Resolve`. The account
  key is not a parameter, because the oracle already answers for one account.
- Joda-Time is not modelled: time zones, daylight saving, the start of the day and the day
  of the week. The "day_of_week" parameter is left out. The "day" parameter is the day
  index.
- IEEE-754 doubles are modelled as reals, so NaN, infinities, rounding and overflow in the
  mean or variance are not modelled.
- InsightA1.ScoreOf: the model has no real square root, so a finite score is carried by
  its square. The contract states that square instead of the score itself.
- InsightA1.FlatHistoryScoresInfinity: proves only one direction: equal collected values
  give an infinite score. The converse (zero variance means all values are equal) is not
  proved. `ScoreOf` does state that an infinite score means zero variance.
- Statistics: the accumulator's incremental update formulas are not modelled. The mean and
  the population variance are two-pass definitions over the collected values.
- The debug logging in the resolver is not modelled.
- The Jackson setters and getters of the parameters are not modelled, nor the validation
  annotations except as `Parameters.Valid`. The entries that the base class adds to the
  parameter map are not modelled either.
- The base-class fields of the password request are not modelled.
- Java strings are UTF-16. Every character that trim removes is a single code unit, so
  trimming a `seq<char>` of code points gives the same result.
- These files are not part of this model, because they are persistence and framework code:
  JpaFavouriteRepository.java, JpaUserRepository.java,
  IAmphiroMeasurementRepository.java, AmphiroMeasurementIndexIntervalQuery.java and
  SecurityInitializerBean.java.
