# Period tracker: record store and cycle analysis in Dafny

This project models the core of a personal menstrual-cycle tracker, the
`PeriodTracker` class of `period_tracker.py`. The tracker keeps a table of
period entries. Each entry has a start date, an end date, a flow label and a
comma-separated symptom text. The table is held encrypted on disk. From it the
tracker derives cycle lengths, period durations, anomaly alerts, summary
statistics, a naive next-period prediction and the data behind its charts.

Dates are whole day numbers counted from an epoch. The worked examples use
1970-01-01, so 2024-01-01 is day 19723. The difference of two dates in days
is then plain subtraction.

Modules, one per component:

- `Wrappers` (`wrappers.dfy`): `Option`.
- `Records` (`records.dfy`): the `Record` type, the start-day order and the
  re-sort that follows every insertion.
- `CycleAnalysis` (`analysis.dfy`): cycle lengths, durations, anomaly
  classification and alerts, statistics and the prediction.
- `Symptoms` (`symptoms.dfy`): Python's `split(',')` and `strip()`, the
  symptom tags, and the tally that builds the frequency dictionary.
- `Dashboard` (`dashboard.dfy`): the series that `visualize` draws.
- `Tracker` (`tracker.dfy`): the `PeriodTracker` class. It holds the table
  (`records`) and the data file as this session has left it (`file`): as
  found at start-up, holding the table of the last successful save, or
  damaged by a save that failed after the file was opened.
  It has the constructor (load), `SaveData` and `AddPeriod`.

The counted `for` loops of the source are methods with loop invariants. Each
is proved against a specification function: `ComputeCycles` against
`Cycles`, `CheckAnomalies` against `Alerts`, and `SymptomFrequency` and
`CountPieces` against `Tally` of `SymptomTokens`. The properties the tracker
relies on are then proved about those functions as lemmas. The single
expressions of the source are functions: durations, sum, minimum, maximum,
the truncated mean and the predicted day.

The analysis methods take the record sequence as a parameter. In the source
they read `self.df`; a caller passes `tracker.records`.

Means are kept exact as a pair (sum, count). The mean cycle is
`cycleSum / cycleCount` and the mean duration is `durationSum / periods`.

Two behaviours of the code are easy to get wrong:

- The re-sort is pandas' default `sort_values`, which is not stable. So
  `AddPeriod` promises an ordered permutation of the old entries plus the new
  one, and no particular order among entries with the same start day.
- The prediction uses `int()` of the mean, which truncates toward zero. For a
  negative mean this differs from the floor. A negative mean can only come
  from a loaded table that is not in start-day order, and `TruncDiv` models
  that case as well.

## Model

| member | source | states |
|---|---|---|
| Records.SortByStart | period_tracker.py:117 | The re-sort by start day returns a sequence of the same length, with the same multiset of entries, ordered by start day. |
| Records.InsertSorted | period_tracker.py:116-117 | Inserting one entry into a sequence ordered by start day keeps it ordered. |
| CycleAnalysis.ComputeCycles | period_tracker.py:143-146 | The cycle loop yields no cycles below two records. Otherwise it yields exactly n-1 cycles, and cycle k is start[k+1] - start[k]. The same loop is repeated at lines 164-167 and 191-194. |
| CycleAnalysis.SortedIffCyclesNonNegative | period_tracker.py:117 | The table is in start-day order if and only if every cycle length is at least 0, in both directions. |
| CycleAnalysis.CycleSumIsSpan | period_tracker.py:191-196 | The cycle lengths add up to the last start day minus the first start day. |
| CycleAnalysis.DurationCountsDays | period_tracker.py:171 | When the end is not before the start, end - start + 1 is the number of calendar days the period covers, so it is at least 1. |
| CycleAnalysis.DurationSameDay | period_tracker.py:235 | A same-day period lasts 1 day. An end before the start, which the source does not reject, gives a duration below 1. |
| CycleAnalysis.ClassifyBands | period_tracker.py:149-155 | A cycle is short if and only if it is below 21 and long if and only if it is above 35. It is flagged exactly when it lies outside [21, 35]: 20 is short, 21 and 35 are normal, 36 is long. |
| CycleAnalysis.AlertsExact | period_tracker.py:149-155 | Every alert names an existing cycle (numbered from 1) with its length and a short or long verdict. Every flagged cycle has its alert. Alerts appear in increasing cycle order. |
| CycleAnalysis.CheckAnomalies | period_tracker.py:137-155 | Below two records there are no alerts (no check runs). Otherwise the alerts are exactly those of the cycle lengths of the table. |
| CycleAnalysis.Min | period_tracker.py:179 | `np.min` of the cycles is one of the cycles and is no larger than any of them. |
| CycleAnalysis.Max | period_tracker.py:179 | `np.max` of the cycles is one of the cycles and is no smaller than any of them. |
| CycleAnalysis.MeanWithinRange | period_tracker.py:178-179 | The exact mean lies between the minimum and the maximum: min * n <= sum <= max * n. |
| CycleAnalysis.CalculateStats | period_tracker.py:157-182 | Below two records the outcome is insufficient data. Otherwise it reports the number of records, the cycle sum over n-1 cycles, the shortest and longest cycle, the duration sum and the anomaly alerts, and min <= mean <= max holds. |
| CycleAnalysis.TruncDiv | period_tracker.py:198 | `int()` of an exact mean truncates toward zero: for a non-negative total q*b <= a < (q+1)*b, and for a negative total (q-1)*b < a <= q*b. |
| CycleAnalysis.PredictedDayFromSpan | period_tracker.py:196-198 | The predicted day is the last start day plus the truncated mean of the span from the first start day to the last. |
| CycleAnalysis.QuotientBounds | period_tracker.py:198 | A truncated quotient of a total lying between lo*n and hi*n lies between lo and hi. |
| CycleAnalysis.PredictionWithinCycleRange | period_tracker.py:196-198 | On a table in start-day order, the prediction is never before the last start day. The number of days it adds lies between the shortest and the longest cycle. |
| CycleAnalysis.PredictNext | period_tracker.py:184-198 | Below two records there is no prediction. Otherwise it returns the last start day plus the truncated mean cycle, and the exact mean it used. On an ordered table the date is not before the last start day. |
| CycleAnalysis.ThreeRecordExample | period_tracker.py:164-198 | Starts 2024-01-01, 2024-01-29 and 2024-02-25 give cycles 28 and 27, mean 55/2 = 27.5, range 27-28, and the prediction 2024-03-23. |
| Symptoms.Strip | period_tracker.py:255 | `strip()` gives the empty text exactly when the input is all whitespace. Otherwise the result neither starts nor ends with whitespace. It is a contiguous part of the input, and only whitespace was cut off either side. |
| Symptoms.StripIdempotent | period_tracker.py:255 | Stripping twice gives the same as stripping once. |
| Symptoms.Split | period_tracker.py:254 | `split(',')` always yields at least one piece, and no piece contains a comma. |
| Symptoms.SplitCount | period_tracker.py:254 | `split(',')` yields exactly one more piece than the text has commas. |
| Symptoms.JoinSplit | period_tracker.py:254 | Rejoining the pieces with commas gives back the original text. |
| Symptoms.SymptomTokensClean | period_tracker.py:253-256 | Every counted tag is non-empty, contains no comma, and neither starts nor ends with whitespace. |
| Symptoms.TallyCounts | period_tracker.py:257 | A tag is a key of the tally exactly when it occurs among the tokens, and its value is the number of its occurrences. |
| Symptoms.TallyTotal | period_tracker.py:252-257 | The counts of the tally add up to the number of tokens counted. |
| Symptoms.CountPieces | period_tracker.py:254-257 | The inner loop over one record's pieces bumps the dictionary once for each non-empty stripped piece, in order. |
| Symptoms.SymptomFrequency | period_tracker.py:252-257 | The dictionary is the tally of all non-empty stripped tags of all records. The count of a tag is its number of occurrences, and the counts add up to the number of tags. |
| Symptoms.SymptomExample | period_tracker.py:252-257 | "cramps, fatigue" and "cramps" give {cramps: 2, fatigue: 1}. |
| Dashboard.CycleSeries | period_tracker.py:218-223 | The chart loop yields exactly the cycle lengths of the table, n-1 of them, and plots cycle k at the start day of record k+1. |
| Dashboard.Visualize | period_tracker.py:207-257 | There are no charts below two records. Otherwise the cycles are those of the table, cycle k is plotted at the start day of record k+1, durations are end - start + 1, flow labels are tallied, and the symptom counts are the tag tally. |
| Tracker.PeriodTracker.constructor | period_tracker.py:25-65 | A decoded data file becomes the table. A missing file or one that cannot be read or decrypted gives an empty table. The file is as found: nothing has been written yet. |
| Tracker.PeriodTracker.SaveData | period_tracker.py:82-104 | A successful write leaves the file holding the whole current table. A failure is only reported and the table is kept. A failure before the open leaves the file as it was. A failure after the open (`mode='wb'` empties the file) leaves it damaged: emptied or partly written. |
| Tracker.PeriodTracker.AddPeriod | period_tracker.py:107-123 | If either date fails to parse, the entry is rejected and neither the table nor the file changes. Otherwise the new table is one entry longer, holds the old entries plus the new one (flow "Medium" when none is given), is ordered by start day with every cycle non-negative, and is saved with the outcome of `SaveData`. |

## Left out

- Encryption and the key file (`gen_key`, the Fernet cipher): foreign cryptography and file I/O. A load is given to the constructor as its outcome (`LoadOutcome`), and a save as how far it got (`SaveOutcome`).
- CSV serialisation (`read_csv`, `to_csv`) and the round trip through the file: these are pandas' quoting and parsing rules, not this code.
- Date parsing (`pd.to_datetime`) is a library call. It is given as `Option<Day>`, where `None` is the `ValueError` path. Inputs that pandas turns into a missing date (NaT) instead of an error, and times of day, are not modelled.
- Pandas' date range (about 1677 to 2262) is not modelled; day numbers are unbounded integers.
- Floating point: `np.mean` and the `:.1f` formatting are replaced by exact (sum, count) pairs.
- CycleAnalysis.PredictNext: takes `int()` of the exact mean, where the source takes `int()` of a floating-point mean. The two agree unless the float quotient rounds up across a whole number, which cannot happen for realistic day counts.
- Presentation: every `print`, `view_data`, the matplotlib drawing and the interactive `main` menu. The methods return what the source prints.
- Missing cells: a symptom cell read back as missing (skipped by `dropna`) is represented as the empty text. Both yield no tags. A symptom column that pandas reads back as numbers, where `split` would raise, is not modelled.
- Dashboard.Visualize: tallies every flow label, the empty one included. A flow saved as the empty text is read back as missing, and `value_counts` skips missing cells, so the source does not count it.
- Order inside the dictionaries: the slice order of the symptom pie and the count order of `value_counts` are not modelled. Both tallies are maps.
- Concurrency: the source is single-threaded.
- Tracker.PeriodTracker.SaveData: a write that fails after the open is modelled as leaving the file `Damaged`, without saying which bytes it holds. The next start-up finds such a file unreadable, but the model does not follow the file into that next session.

The code does not promise a save/load round trip, an idempotent reload, or a distinct error for a wrong key (it turns one into an empty table), so the model does not state them.
