# Crypto market snapshot pipeline — Dafny model

This project models the core of a small polling script, `crypto.py`. The script
fetches the top 50 crypto assets by market capitalisation from a markets API.
It derives a few statistics, mirrors the table into a spreadsheet and writes a
text report. Then it sleeps five minutes and starts again, forever.

The model has two parts.

* **The statistics step** (`analyze_data`). A pure function takes the payload
  records (`Assets.Coin`) and returns:
  * the six-column table (`Assets.Row`);
  * the five rows with the largest market capitalisation;
  * the mean current price;
  * the rows with the largest and the smallest 24-hour price change.

  pandas `nlargest`/`nsmallest` with the default `keep='first'` are modelled in
  module `Ranking` as top-k selection by score. Ties go to the earlier row.
  Results are row positions. The selected rows keep their index label, as
  pandas keeps it; the report only hides it when printing. Numbers are
  mathematical reals.
* **The polling loop** (`while True` with one `try` around the whole body).
  Each cycle has an `Environment` oracle: the HTTP response (status code and
  records), and whether the spreadsheet update and the report write complete
  or raise. `Scheduler.RunCycle` gives the cycle's observable actions
  (`Event`s). `Scheduler.Step` folds one cycle into the loop state.
  `Scheduler.Run` observes any finite number of cycles.

Three behaviours of the code shape the model:

* `time.sleep(300)` and `write_report` sit in the same `try` as
  `update_excel` (crypto.py:75-83). So any exception skips the rest of the
  cycle, including the report write and the sleep, and the loop retries at
  once.
* The payload is used as received; no record is dropped.
* An empty payload fails at the column selection (crypto.py:24), because a
  frame built from an empty list has no columns: `Statistics.MissingColumns`.

## Model

| member | source | states |
|---|---|---|
| `Assets.Project` | crypto.py:23-24 | The table has one row per payload record, in payload order, and each row carries exactly the record's name, symbol, price, market cap, volume and 24h change |
| `Assets.ProjectIgnoresOtherFields` | crypto.py:24 | Payload fields other than the six selected never reach the table: payloads that agree on the six fields give equal tables |
| `Ranking.TopK` | crypto.py:26 | The selection has `min(k, n)` distinct positions. Each outranks every later one (larger score, or equal score and earlier position). Each outranks every position left out |
| `Ranking.TopIsUnique` | crypto.py:26 | The top-k property fixes the selection: any list satisfying it equals `TopK`, so the `keep='first'` tie rule leaves no freedom |
| `Ranking.FirstBest` | crypto.py:28 | A single scan that keeps the first strictly larger score picks a position outranking all others, and that is exactly the position `nlargest(1)` selects |
| `Averages.MeanBounds` | crypto.py:27 | The mean of a non-empty column lies between any lower and any upper bound of its values |
| `Statistics.NLargest` | crypto.py:26 | `nlargest(n, col)[["name", col]]`: `min(n, rows)` rows, each the name and value of the row it is labelled with. Values are non-increasing, equal values in table order, and every row left out has a smaller value, or an equal value and a later label |
| `Statistics.NSmallest` | crypto.py:29 | `nsmallest(n, col)[["name", col]]`: the same with smallest values first |
| `Statistics.Analyze` | crypto.py:22-31 | The statistics step fails exactly on an empty payload (the column selection raises); otherwise its table is the six-column projection of the payload |
| `Statistics.TopFiveByMarketCap` | crypto.py:26 | `top_5` has `min(5, n)` payload records as (label, name, market cap), sorted non-increasing, ties in payload order. No record left out has a larger cap, and one with an equal cap comes later |
| `Statistics.AveragePriceBounds` | crypto.py:27 | `avg_price` is the sum of the prices divided by the record count, and lies between any lower and upper bound of the prices |
| `Statistics.HighestChangeIsFirstMaximum` | crypto.py:28 | `highest_change` is a payload record whose 24h change is at least every record's change, and no earlier record reaches it |
| `Statistics.LowestChangeIsFirstMinimum` | crypto.py:29 | `lowest_change` is a payload record whose 24h change is at most every record's change, and no earlier record reaches it |
| `Example.ThreeRecordSnapshot` | crypto.py:22-31 | For records A (10, cap 100, +2), B (20, cap 300, −5) and C (5, cap 50, +9): the ranking is B, A, C; the average price is 35/3; the largest change is C's; the smallest is B's |
| `Fetcher.Fetch` | crypto.py:16-19 | The payload is returned iff the status is 200. Any other status is an error carrying that status code |
| `Scheduler.CycleCompletes` | crypto.py:75-83 | A cycle completes iff the status is 200, the payload is non-empty and both publishing stages complete. Exactly then it runs fetch, analyse, sheet update, report write, announcement and a 300-second sleep in that order, and publishes the analysis to both sinks |
| `Scheduler.FailedCycleStopsAtRaisingStage` | crypto.py:75-85 | A cycle that raises runs the complete cycle's actions up to and including the raising call, then prints the error. It never sleeps and completes no report |
| `Scheduler.SheetFailureSkipsReport` | crypto.py:79-80 | When the sheet update raises, the report is not written in that cycle, whatever the report write would have done |
| `Scheduler.RunNeverStops` | crypto.py:74-85 | Every environment yields exactly one more cycle, whatever it raises: no outcome ends the loop |
| `Scheduler.RunTrace` | crypto.py:74-85 | The loop's trace is each cycle's actions back to back, so a failed cycle's error line is followed directly by the next cycle's fetch |
| `Scheduler.RunSleepTime` | crypto.py:82-85 | Total time slept is 300 seconds times the number of completed cycles; failed cycles add nothing |
| `Scheduler.FailuresKeepReport` | crypto.py:80-85 | A run of failed cycles completes no report write, so the last completed report stays as it was |

## Left out

- HTTP transport and the markets API wire format (crypto.py:8-15, 17). The response is an oracle: a status code and already-decoded records. `Fetcher.MarketsQuery` records the request's parameters. A 200 response whose body is not a list of records is not modelled.
- The workbook bootstrap (crypto.py:63-72) and the inside of `update_excel` (crypto.py:34-46). Both are spreadsheet automation through a foreign library. The sheet update is a stage that completes or raises. If it raises after clearing the sheet, the real sheet may be left empty. The model records only the table of the last completed update.
- The text of `write_report` (crypto.py:49-59). It depends on pandas' table layout and on two-decimal float formatting. `Statistics.Report` holds what the report is written from, in the report's section order: top 5, average price, highest change, lowest change. A write that raises part-way may leave a truncated file; the model records only the last completed report.
- Floating point: NaN, infinities and rounding in `mean` and in the ranking. Records missing a field, or holding a non-numeric value (which pandas turns into NaN or an object column), are not modelled. Every record carries all six fields as reals.
- Time and console: sleeping and printing are trace events. The other stages take no modelled time.
- Termination: the loop ends only when the process is killed or interrupted from outside. Such interrupts are not exceptions the handler catches. The model observes a finite prefix of cycles and has no stopped state.
- Scheduler.FailuresKeepReport: speaks of the last completed report, not the report file. `write_report` opens the file with mode "w" (crypto.py:50), which truncates it, so a write that raises part-way leaves an empty or partial file. The model has no partial-write state.
