# Polymarket copy-trading: scanner and graders, modelled in Dafny

This project models the three programs of the copy-trading tool that find
wallets and grade them.

- **The trade scanner** (`main.py`). Each run of `job` does the following:
  - loads the seen-wallets file and the last-check watermark;
  - pages through the public `/trades` feed, 500 records per request, and
    keeps the trades newer than the watermark;
  - collects their proxy wallets and adds the unseen ones to the file,
    which it writes in sorted order;
  - saves the clock of the end of the run as the next watermark.
- **The Smart-Score-Lite grader** (`grade_users.py`). For every wallet in
  the seen-wallets file it does the following:
  - pages through the wallet's `/activity` records, retrying a request that
    was throttled with HTTP 429 (`safe_get`);
  - reads the wallet's portfolio value;
  - sums what the wallet spent (BUY) and received (SELL) into profit, ROI
    and volume;
  - scores the wallet as `round(50 + 50 * raw, 1)`, where `raw` weighs three
    `tanh` terms.

  The grades are listed in wallet order, and again sorted by score from high
  to low.
- **The linear-clamped scorer** (`process_grades.py`). It keeps the raw
  wallet metrics with positive volume and positive PnL. It scores each one
  from its clamped PnL, win rate, capped volume and ROI, and lists the kept
  rows in input order and in descending score order.

The network is a parameter. A feed is the answer to each page request, and
past its last page it answers an empty array. For `grade_users.py` the answer can
differ per retry attempt. The wall clock, the jitter of the back-off and the
floating-point functions `math.tanh` and `round(x, n)` are parameters too.
`tanh` is constrained to be non-decreasing, between -1 and 1 inclusive (in
double precision `math.tanh(x)` is exactly 1.0 once x exceeds about 19.1), and
zero at zero. `round` is constrained to be non-decreasing and exact on
numbers that already have n decimals. Files are their text contents, or
`None` when they do not exist.

Modules:

- `Basics`: optional fields, HTTP answers, the outcome of a paginator.
- `Approx`: the abstract `tanh` and `round`.
- `Ranking`: the stable score-descending `sorted`.
- `CheckpointText`: the text of the two checkpoint files, that is
  `str.strip`, line iteration, the sorted save, and `int`/`str` on the
  watermark.
- `Scanner`: `main.py`, with the class `Monitor` holding the two files.
- `Grader`: `grade_users.py`.
- `GradeProcessing`: `process_grades.py`.

Three behaviours of the code are easy to misread, and the model keeps each
one as written:

- The ROI of `grade_users.py` is profit per unit **spent** (line 70), not
  per unit of volume. `Grader.RoiIsNotPerVolume` shows that the two differ.
- `job` saves the new watermark even when the paging stopped on an HTTP
  error (`main.py:57-59` and `:96`). `Scanner.JobWatermark` states this. So
  the trades of the pages after the error are never scanned.
- The default watermark is 4 minutes before the clock
  (`SCAN_INTERVAL_MIN = 4`). The comment in `main.py:44` says 20 minutes.

## Model

| member | source | states |
|---|---|---|
| Approx.RoundingKeepsPercentRange | grade_users.py:77 | rounding a value of [0, 100] to any number of decimals stays in [0, 100] |
| Ranking.Insert | grade_users.py:100 | inserting a record adds exactly that record to the multiset of records |
| Ranking.InsertKeepsOrder | grade_users.py:100 | inserting into a list sorted by descending key keeps it sorted |
| Ranking.SortDesc | grade_users.py:100 | the result is sorted by descending key and is a permutation of the input (same multiset) |
| Ranking.InsertWithKey | grade_users.py:100 | among the records with its key, the inserted record comes first, and the others keep their order |
| Ranking.SortDescIsStable | process_grades.py:35 | for every key value, the records with that key appear in the sorted copy in exactly their input order (`sorted` is stable) |
| CheckpointText.LeadingSpace | main.py:30 | the count of leading characters that `strip` removes: all of them are white space, and the next character, if any, is not |
| CheckpointText.TrailingSpace | main.py:30 | the count of trailing characters that `strip` removes: all of them are white space, and the character before them, if any, is not |
| CheckpointText.Strip | main.py:30 | the result is the text between the leading white space and a run of trailing white space; everything cut off is white space, and a non-empty result neither starts nor ends with white space |
| CheckpointText.StripKeepsOut | main.py:30 | stripping adds no character: a text without a line break or a carriage return gives a result without one |
| CheckpointText.StripClean | main.py:30 | `strip` leaves an address that is non-blank, unpadded and has no line break unchanged |
| CheckpointText.LineEnd | main.py:30 | the end of the first line is within the text, and points at a `'\n'` when it is inside it |
| CheckpointText.BeforeLineEnd | main.py:30 | the first line holds no `'\n'` |
| CheckpointText.Lines | main.py:30 | iterating over a file: the text up to each `'\n'`, in order, and a last line without a break if the text does not end in one |
| CheckpointText.LinesHaveNoBreak | main.py:30 | no line produced by iterating over a file holds a `'\n'` |
| CheckpointText.LinesKeepOut | main.py:30 | a character absent from the text is absent from every line |
| CheckpointText.Translate | main.py:29-30 | reading in text mode: no `'\r'` reaches the reader |
| CheckpointText.TranslateReturn | main.py:29-30 | a lone `'\r'` and `"\r\n"` are each read as one `'\n'`, and the text before them as written |
| CheckpointText.TranslateKeeps | main.py:29-30 | a text without `'\r'` is read exactly as written |
| CheckpointText.TranslateAppend | main.py:29-37 | a text that ends in `'\n'` is read the same whatever follows it, and is still read as ending in `'\n'` |
| CheckpointText.JoinKeepsOut | main.py:36-37 | the saved file holds no character other than `'\n'` that none of the addresses hold |
| CheckpointText.Join | main.py:36-37 | the body written by one `write(f"{u}\n")` per line is empty or ends in `'\n'` |
| CheckpointText.LinesOfLineThen | main.py:36-37 | a line without a break, written with its break before more text, is read back as the first line, followed by the lines of the rest |
| CheckpointText.LinesAppend | main.py:36-37 | the lines of a text that ends in a break, followed by more text, are the lines of the first text followed by the lines of the second |
| CheckpointText.LinesOfJoin | main.py:34-37 | writing lines that hold no break and iterating over the file gives back the same lines in the same order |
| CheckpointText.LineSurvivesJoin | main.py:27-37 | a line without `'\n'` or `'\r'`, saved and read back in text mode, is a line of the result, whatever the other written lines hold |
| CheckpointText.LexReflexive | main.py:36 | every string is `<=` itself under code-point order |
| CheckpointText.LexTotal | main.py:36 | any two strings are comparable under code-point order |
| CheckpointText.LexAntisymmetric | main.py:36 | two strings that are each `<=` the other are equal |
| CheckpointText.LexTransitive | main.py:36 | code-point order on strings is transitive |
| CheckpointText.LeastExists | main.py:36 | a non-empty set of addresses has a least element |
| CheckpointText.LeastUnique | main.py:36 | that least element is unique |
| CheckpointText.SortedUsers | main.py:36 | `sorted(users)` lists every address of the set exactly once, in ascending order |
| CheckpointText.ParseSeenUsers | main.py:27-32 | `load_seen_users`: the set of the stripped non-blank lines of the text-mode file, or the empty set without a file |
| CheckpointText.LoadedAreClean | main.py:27-32 | every address loaded from any file is non-blank, has no white space at either end and holds no `'\n'` or `'\r'` |
| CheckpointText.RenderSeenUsers | main.py:34-37 | `save_seen_users`: one line per address, in sorted order |
| CheckpointText.SavedSorted | main.py:34-37 | the lines of the saved file are the addresses in sorted order |
| CheckpointText.CleanUserSurvivesSave | main.py:27-37 | a clean address that is saved is loaded again, whatever else is saved with it |
| CheckpointText.LoadSaveRoundTrip | main.py:27-37 | loading a saved set of clean addresses gives back exactly that set |
| CheckpointText.SaveNeverShrinks | main.py:27-37 | re-saving loaded addresses together with added ones loses none of the loaded ones |
| CheckpointText.DigitChar | main.py:49 | a digit value below 10 becomes a decimal digit character |
| CheckpointText.DecimalDigits | main.py:49 | `str(n)` for `n >= 0` is a non-empty run of decimal digits |
| CheckpointText.DigitsRoundTrip | main.py:42 | the run of digits `str(n)` denotes `n` |
| CheckpointText.RenderTimestamp | main.py:49 | `str(ts)`: a minus sign for a negative watermark, then its decimal digits |
| CheckpointText.ParseInteger | main.py:42 | `int(t)`: an optional sign and a run of ASCII digits, and nothing else, is a number; any other text fails |
| CheckpointText.ParseTimestamp | main.py:42 | `int(f.read().strip())`: the text is stripped before it is parsed |
| CheckpointText.LoadTimestamp | main.py:39-45 | without a file, or with one whose stripped text is not an integer (`ValueError`), the watermark is `SCAN_INTERVAL_MIN` (4) minutes before the clock; otherwise it is the integer the file holds |
| CheckpointText.UnsignedDigits | main.py:42 | `int(d.strip())` of a run of digits is the number it denotes |
| CheckpointText.SignedDigits | main.py:42 | `int` of a minus sign and a run of digits is the negated number |
| CheckpointText.NonNegativeRoundTrip | main.py:42-49 | `int(str(n).strip()) == n` for `n >= 0` |
| CheckpointText.NegativeRoundTrip | main.py:42-49 | `int(str(n).strip()) == n` for `n < 0` |
| CheckpointText.TimestampRoundTrip | main.py:42-49 | every saved watermark parses back as itself |
| CheckpointText.WatermarkReloads | main.py:39-49 | whatever the clock, `load_last_timestamp` returns the last saved watermark |
| Scanner.FreshOf | main.py:65 | a page keeps exactly its trades whose timestamp, with a missing one counted as 0, exceeds the watermark, and no more trades than it has |
| Scanner.FreshOfOne | main.py:65 | one trade is kept exactly when it is fresh |
| Scanner.FreshOfAppend | main.py:65 | filtering two runs of trades one after the other is filtering the whole, so the page's order and repeats are kept |
| Scanner.ScanFrom | main.py:51-73 | a scan from page k first requests offset `k * 500`, and every trade it returns is newer than the watermark |
| Scanner.FetchTradesSince | main.py:51-73 | the loop returns the trades and makes the requests that the page-by-page scan from offset 0 defines; every trade returned is newer than the watermark |
| Scanner.ScanStops | main.py:57-71 | when the loop stops at a page, its result is the earlier pages' trades followed by that page's outcome |
| Scanner.ScanGoesOn | main.py:70-72 | after a full page whose last trade is fresh, the loop moves to the next page with that page's fresh trades appended |
| Scanner.FreshTradesAreTimed | main.py:65 | with a non-negative watermark, every returned trade has a timestamp: a missing one counts as 0 and is dropped |
| Scanner.StopsExactlyAtBoundary | main.py:61-72 | the offset moves on by exactly `FETCH_LIMIT` after a page that continues the scan; any other page is the last one requested |
| Scanner.ScanUnrolled | main.py:53-66 | over pages that all continue, the result is the in-order concatenation of each page's fresh trades, with no reordering or duplication |
| Scanner.UnrollOnePage | main.py:64-72 | unrolling one more continuing page moves its fresh trades and its offset in front of the rest |
| Scanner.FullPagesThenPartial | main.py:55-72 | N continuing full pages and then a short page cost exactly N + 1 requests, at offsets 0, 500, ..., 500·N |
| Scanner.ErrorKeepsEarlierPages | main.py:57-59 | a non-200 page ends the scan and keeps the fresh trades of every page before it |
| Scanner.ExtractAddresses | main.py:75-76 | the set of the `proxyWallet` fields of the trades that have one |
| Scanner.ExtractedAreWallets | main.py:75-76 | an address is extracted exactly when some trade carries it as its proxy wallet |
| Scanner.ExtractAppend | main.py:75-76 | the addresses of two runs of trades are the union of the addresses of each |
| Scanner.Settle | main.py:84-96 | the second half of `job`: a raised scan writes nothing; otherwise the unseen addresses are added to the file when there are any, and the end clock is saved as the watermark |
| Scanner.JobEffect | main.py:79-96 | one `job` run: load both files, scan from the loaded watermark, then settle |
| Scanner.JobNeverShrinks | main.py:82-92 | the seen set read after a run contains the seen set read before it |
| Scanner.JobAddsFreshAddresses | main.py:85-92 | the new addresses are disjoint from the seen set; old plus new is old plus all extracted addresses; with clean addresses the file then holds exactly that union |
| Scanner.JobWithoutNewUsersKeepsFile | main.py:85-96 | a run whose trades bring no unseen address leaves the seen-wallets file untouched and still saves the watermark |
| Scanner.JobWatermark | main.py:96 | a run that returns saves the end clock as the watermark, even after an HTTP error, and the next run loads it; a run that raises writes nothing, and it raises exactly when the scan raised |
| Scanner.Monitor.LoadSeenUsers | main.py:27-32 | returns the stripped non-blank lines of the file, or the empty set without a file, and every one is clean |
| Scanner.Monitor.SaveSeenUsers | main.py:34-37 | rewrites the file with the sorted addresses; loading it back gives the same set of clean addresses |
| Scanner.Monitor.LoadLastTimestamp | main.py:39-45 | returns the integer the file holds, or 4 minutes before the clock when there is no file or its text is not an integer |
| Scanner.Monitor.SaveLastTimestamp | main.py:47-49 | writes `str(ts)`, which loads back as `ts` |
| Scanner.Monitor.Job | main.py:79-96 | the result and the new files are those of one `job` run as `JobEffect` defines it, and the seen set never shrinks |
| Grader.SafeGetOutcome | grade_users.py:24-32 | `safe_get`: the first attempt not answered with 429, or the 429 of the last attempt raised, or nothing sent when no attempt is allowed |
| Grader.FirstAnswered | grade_users.py:25-28 | the first attempt not answered with 429 lies between the starting attempt and `retries` |
| Grader.SafeGet | grade_users.py:24-32 | the loop returns the first non-429 answer, raises on the last 429, or fails when no attempt is allowed; it sends one request per attempt made; the wait after attempt i is `2^i + jitter(i)` |
| Grader.FirstAnsweredIsFirst | grade_users.py:25-28 | every attempt before the chosen one was answered with 429, and the chosen one, if any, was not |
| Grader.SafeGetCases | grade_users.py:24-32 | safe_get returns a response exactly when some allowed attempt is not throttled; it raises exactly when all attempts are throttled; it sends at most `retries` requests |
| Grader.SafeGetReturnsFirstAnswer | grade_users.py:25-28 | when attempt k is the first non-429 answer, safe_get returns it after k + 1 requests |
| Grader.BackoffTotal | grade_users.py:29-31 | n waits of `2^i` plus a jitter in [0, 1) add up to at least `2^n − 1` and less than `2^n − 1 + n` seconds |
| Grader.PastTheEnd | grade_users.py:49-52 | past its last page the feed answers an empty 200 array on the first attempt |
| Grader.TradesFrom | grade_users.py:35-55 | `fetch_trades` from page k: a raised `safe_get` raises, a non-200 page ends with the batches so far, a short page ends after its batch, a full page pauses and goes on |
| Grader.FetchTrades | grade_users.py:35-55 | the loop returns the records and takes the steps (requests and pauses) that the page-by-page paging from offset 0 defines |
| Grader.PagingStops | grade_users.py:46-52 | when the loop stops at a page, its result is the earlier batches followed by that page's outcome |
| Grader.PagingGoesOn | grade_users.py:50-54 | after a full 200 page the loop moves to the next offset with the batch appended |
| Grader.PagingIsPaced | grade_users.py:51-54 | the requests go to consecutive offsets, one pause falls between every two of them, and none falls after the last |
| Grader.PagingUnrolled | grade_users.py:50 | over full pages, the result is the in-order concatenation of their batches, followed by the rest of the paging |
| Grader.ShortPageEndsPaging | grade_users.py:49-52 | a short page after N full ones ends the paging with all N + 1 batches in order, after N + 1 requests |
| Grader.ErrorPageKeepsEarlierBatches | grade_users.py:46-48 | a non-200 page ends the paging and keeps the batches of the pages before it |
| Grader.ThrottledPageRaises | grade_users.py:32 | a page that stays throttled through every retry makes fetch_trades raise |
| Grader.FetchValue | grade_users.py:57-62 | a non-200 answer or an empty array gives 0.0; otherwise the value is that of the first element |
| Grader.SumSide | grade_users.py:66-67 | the sum of `usdcSize` over the records on one side |
| Grader.Measure | grade_users.py:66-71 | spent (BUY), received (SELL), profit `recv + value − spent`, ROI `profit / spent` or 0, and volume `spent + recv` |
| Grader.SumSideNonNegative | grade_users.py:66-67 | with non-negative sizes, the sum over a side is non-negative |
| Grader.MeasureBounds | grade_users.py:66-71 | with non-negative sizes, spent and received are non-negative and at most the volume |
| Grader.SumSideAppend | grade_users.py:66-67 | the sum over two runs of records is the sum of the sums |
| Grader.MeasureOverPages | grade_users.py:66-71 | spent, received and volume over concatenated pages are the sums over the pages |
| Grader.RoiPerSpent | grade_users.py:70 | ROI times spent is the profit when something was spent, and ROI is 0 otherwise, so nothing is divided by zero |
| Grader.RoiIsNotPerVolume | grade_users.py:70 | once a wallet has bought, sold and made or lost money, its ROI differs from profit per unit of volume |
| Grader.RawScore | grade_users.py:74-76 | `0.60·tanh(5·roi) + 0.25·tanh(volume/1000) + 0.15·tanh(profit/500)` |
| Grader.SmartScore | grade_users.py:77 | `round(50 + 50·raw, 1)` |
| Grader.RawInUnit | grade_users.py:74-76 | the weights sum to 1, so the raw score lies in [−1, 1] |
| Grader.SaturatedScoresHundred | grade_users.py:74-77 | when all three `tanh` terms saturate at 1, the score is exactly 100 |
| Grader.ScoreInRange | grade_users.py:74-77 | every score lies in [0, 100] |
| Grader.NeutralScore | grade_users.py:74-77 | zero ROI, volume and profit score exactly 50 |
| Grader.ScoreMonotone | grade_users.py:74-77 | the score never drops when ROI, volume or profit grows |
| Grader.AsciiLower | grade_users.py:65 | lower-casing keeps the length, turns each of `A`–`Z` into the letter 32 code points on (`a`–`z`), keeps every other character, and leaves no ASCII capital |
| Grader.AsciiLowerIdempotent | grade_users.py:65 | lower-casing twice is lower-casing once |
| Grader.MakeGrade | grade_users.py:79-85 | the record `grade_wallet` returns: the address as given, profit, ROI and volume rounded, and the score of the unrounded metrics |
| Grader.GradeOf | grade_users.py:64-85 | `grade_wallet`: a raised activity fetch raises; otherwise the grade of the measured activity and value |
| Grader.GradeWallet | grade_users.py:64-85 | fetches the activity of the lower-cased address and the value of the address as given, aggregates and scores them; it fails exactly when fetching raised |
| Grader.GradeBounds | grade_users.py:79-85 | a grade names the wallet as listed and its score lies in [0, 100] |
| Grader.BreakAt | grade_users.py:88 | the first `splitlines` boundary lies within the text, is a boundary character when it is inside it, and no boundary character comes before it |
| Grader.SplitLines | grade_users.py:88 | `str.splitlines()`: the text between boundaries, with `"\r\n"` one boundary and no empty last line after a final boundary |
| Grader.SplitLinesAtBreak | grade_users.py:88 | a line ends at its first boundary character of any kind; `"\r\n"` is one boundary, and a `'\r'` not followed by `'\n'` is one on its own |
| Grader.WalletList | grade_users.py:88 | the stripped non-blank lines, in file order |
| Grader.BreakAtIsLineEnd | grade_users.py:88 | on a text whose only boundary characters are `'\n'`, `splitlines` and line iteration find the same first line |
| Grader.SplitIsLines | grade_users.py:88 | on such a text, `splitlines` gives the same lines as iterating over the file |
| Grader.JoinOnlyNewlines | grade_users.py:88 | a file written by the scanner from addresses without boundary characters holds no boundary but `'\n'` |
| Grader.NonBlankOfClean | grade_users.py:88 | stripping and dropping blank lines leaves a list of clean addresses unchanged |
| Grader.WalletsOfSavedFile | grade_users.py:88 | on a file the scanner saved, `grade_users.py` reads back exactly the saved wallets, in sorted order |
| Grader.GradeList | grade_users.py:92-93 | the grades of the wallets in list order, or a raise as soon as one wallet raises |
| Grader.GradesInWalletOrder | grade_users.py:92-93 | `grades` has one entry per wallet: the grade of the wallet at the same position |
| Grader.GradingRaisesIffSomeWalletRaises | grade_users.py:92-93 | `main` raises exactly when grading some wallet raises |
| Grader.GradeAllWallets | grade_users.py:87-100 | a missing file raises; otherwise `grades` is the grade list of the stripped non-blank lines, and the ranked copy is its stable descending sort by score |
| GradeProcessing.PnlScore | process_grades.py:5 | the PnL score is clamped to [0, 1]: pnl/10000 in range, 0 below, 1 above |
| GradeProcessing.VolumeScore | process_grades.py:7 | the volume score is capped above at 1 and is volume/100000 below the cap; it is not floored |
| GradeProcessing.ScoreUser | process_grades.py:4-9 | `round(100·(0.4·pnl score + 0.3·win rate + 0.2·volume score + 0.1·roi), 1)` with a missing roi as 0 |
| GradeProcessing.ScoreUserExample | process_grades.py:4-9 | pnl 500, win rate 0.5, volume 1000 and roi 0.5 score 22.2 |
| GradeProcessing.ScoreUserMonotone | process_grades.py:4-9 | the score never drops when PnL, win rate, volume or roi grows |
| GradeProcessing.MissingRoiCountsAsZero | process_grades.py:8 | a missing roi scores as roi 0 |
| GradeProcessing.RecordOf | process_grades.py:16-27 | the row of a kept entry: wallet, rounded PnL, win rate, volume and roi `pnl / volume`, and the score with that roi |
| GradeProcessing.Graded | process_grades.py:13-27 | the rows of the entries with positive volume and positive PnL, in input order |
| GradeProcessing.ProcessGrades | process_grades.py:11-35 | the loop keeps the rows that the filter defines, in input order, and the ranked copy is their stable descending sort by score |
| GradeProcessing.GradedOneMore | process_grades.py:13-27 | one more entry appends its row exactly when it has positive volume and positive PnL |
| GradeProcessing.GradedAppend | process_grades.py:13-27 | filtering keeps the input order: the rows of two runs of entries are the rows of the first followed by those of the second |
| GradeProcessing.GradedOnlyRetained | process_grades.py:16-27 | every row comes from an entry with positive volume and PnL, with roi pnl/volume and the score of those metrics |
| GradeProcessing.RetainedAreGraded | process_grades.py:16-27 | every entry with positive volume and PnL has its row |
| GradeProcessing.DroppedWalletAbsent | process_grades.py:16-35 | a wallet without an entry of positive volume and positive PnL appears in neither output |

## Left out

- `create_keys.py`: it provisions credentials through an external client library and has no logic of its own.
- HTTP transport and JSON decoding. A page is its status code and the already decoded array. A record keeps only the fields the code reads.
- A `KeyError` on a missing `side`, `usdcSize`, `value`, `wallet` or `metrics` field, or on a missing `metrics["volume"]`, `metrics["pnl"]` or `metrics["win_rate"]` (`process_grades.py:6`, `:16`, `:17`, `:19`), is not modelled; those fields are always present in the model. In the code `score_user` runs at line 18, before the PnL test of line 19, so an entry with positive volume and no `win_rate` ends the whole run even when its PnL would have dropped it. The one `KeyError` that is modelled is the timestamp of the last trade of a page (`main.py:68`): that run raises and saves nothing.
- The scheduler, the launch run and the endless loop (`main.py:99-105`): the model covers one `job` run at a time.
- `print`, `tqdm`, and the lengths of `time.sleep`. `Grader.FetchTrades` records where it pauses between pages but drops the back-off waits of `safe_get`. It uses one jitter function for every page.
- The random source. The jitter is a parameter, and `Grader.BackoffTotal` assumes it lies in [0, 1).
- The wall clock. The clock at the start and at the end of a run are parameters.
- Reading and writing files, CSV formatting and the header and note rows of the CSV files. The files are their text contents, and the outputs are the lists of rows.
- Floating point. Amounts are reals. `math.tanh` and `round(x, n)` are abstract functions with the properties listed above. Binary rounding and banker's ties are not reproduced.
- Universal-newline translation is modelled for the seen-wallets file only (`CheckpointText.Translate`). The watermark file needs none: `strip` removes a `'\r'` at either end, and `int` refuses one inside whether or not it was translated. `grade_users.py` needs none either: `splitlines` breaks at `'\r'` and `"\r\n"` just where the translation would put a `'\n'`.
- `int()` accepting underscores between digits and non-ASCII digits: the model parses an optional sign and ASCII digits.
- `str.lower()` beyond ASCII: `Grader.AsciiLower` lowers only `A`–`Z`.
- The `/value` answer is taken as the array of the records' `value` fields.
- The `KeyboardInterrupt` exit of `grade_users.py` (lines 106-110).
- The `json.load` of `raw_data.json` in `process_grades.py`: the raw entries are the input of `ProcessGrades`.
