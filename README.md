# bikeshare, modelled in Dafny

`bikeshare.py` is an interactive command-line script that explores US
bike-share trip data for Chicago, New York City and Washington. It prompts for
a city, a month (or `all`) and a weekday (or `all`). It loads the city's trips
and keeps the rows of that month and weekday. It then prints four groups of
statistics:

- the most popular month, weekday and start hour;
- the most popular start station, end station and "start, end" pair;
- the total and the mean trip duration;
- counts per user type and, outside Washington, counts per gender and the
  earliest, latest and most popular birth year.

It then offers to page through the raw rows five at a time and asks whether to
start again.

This project models that behaviour over values:

- A trip is a record (`Trips.Trip`) and a table is a sequence of trips.
- The city files are a map from file name to table.
- The user's replies are a sequence of strings read from left to right.

The modules follow the script:

| module | what it holds |
|---|---|
| `Wrappers` | `Option` and `Result`. |
| `Text` | ASCII `lower()`, `title()` and Python's string order. |
| `Columns` | The column operations the script uses from pandas: boolean-mask filtering, skipping missing cells, `sum`, `min`, `max`, `value_counts` and `mode()[0]`. |
| `Trips` | The trip record, its columns and the "start, end" pair label. |
| `Filters` | The three prompt loops of `get_filters`, `CITY_DATA` and `load_data`. |
| `Stats` | `time_stats`, `station_stats`, `trip_duration_stats` and `user_stats`. |
| `Pager` | `raw_data`'s five-row pager, generic in the row type. |
| `Session` | One pass of `main`'s loop, and the loop itself. |

The prompt loops, the pager and `main`'s loop are methods with loops. Each
method is proved equal to a reference function:
- the prompt loops to `Filters.Prompt` and `Filters.Choose`;
- the pager to `Pager.Pages` and `Pager.YesRun`;
- one pass of `main`'s loop to `Session.SessionAt`, and the loop to `Session.Main`.

`load_data`, which reassigns `df` twice, is a method proved equal to
`Filters.Load`. The statistics are functions, with lemmas stating what they
compute.

Conventions of the model:

- `mode()[0]` is the smallest of the most frequent values, because pandas
  returns the modes sorted. `Columns.Mode` takes the order, and the lemmas
  prove both that the value is most frequent and that it wins ties.
- The faults that stop the script become `Filters.Fault` values:
  - `CITY_DATA[city]` raising a `KeyError`;
  - a missing file;
  - `months.index` raising a `ValueError`;
  - `mode()[0]` on an empty selection;
  - `int()` of a missing birth year when a city other than Washington has no
    birth years in the selection.
- Running out of replies, which is the script's `EOFError`, ends the program
  as `Session.EndOfInput`.

Three behaviours of the code that the model keeps:

- The mean duration is `int()` of the float mean: durations of 10 and 21
  seconds give `int(15.5) = 15` (`Stats.DurationExample`).
- `pd.DataFrame(dr, index = range(row_index, row_index + 5))` reindexes, so
  every page has five rows; a row past the end of the table is a row of
  missing cells, `None` in `Pager.Page`.
- On an empty selection `mode()[0]` raises an `IndexError` in `time_stats`
  and the script stops. This is `Fault.EmptySelection`.

## Model

| member | source | states |
|---|---|---|
| Text.Lower | bikeshare.py:22 | `str.lower()`: the text keeps its length and each character is lower-cased; nothing is trimmed. |
| Text.LowerIdempotent | bikeshare.py:22 | Lower-casing an already lower-cased reply changes nothing. |
| Text.LowerOfLowercase | bikeshare.py:22-23 | A text with no upper-case letter is its own lower-case form, so the option lists are matched as written. |
| Text.Title | bikeshare.py:80 | No contract of its own. It is defined as `str.title()`: a letter is upper-cased when the character before it is not a letter, and lower-cased otherwise. See Text.TitleOfLowerWord / Text.LowerTitleFrom / Text.LowerTitleOfLowercase. |
| Text.LowerTitleFrom | bikeshare.py:80 | Title-casing only changes case: lower-casing the result gives the lower-cased original. |
| Text.LowerTitleOfLowercase | bikeshare.py:94 | A lower-case word is recovered from its title-cased form. |
| Text.TitleOfLowerWord | bikeshare.py:80 | For a lower-case word, `title()` upper-cases the first letter and keeps the rest. |
| Text.TitleOfLowerWordIs | bikeshare.py:80 | The same, checked character by character against a given text. |
| Text.StrLe | bikeshare.py:93-126 | No contract of its own. It is defined as Python's `<=` on strings, code point by code point with a prefix first, the order `mode()` sorts tied strings by. See Text.StrLeTotal / Text.StrLeTransitive / Text.StrLeAntisymmetric. |
| Text.StrLeTotal | bikeshare.py:93-126 | Any two strings are ordered one way or the other in the order pandas sorts modes by. |
| Text.StrLeTransitive | bikeshare.py:93-126 | The string order is transitive. |
| Text.StrLeAntisymmetric | bikeshare.py:93-126 | Two strings ordered both ways are equal. |
| Columns.IndexOf | bikeshare.py:72 | `list.index`: found exactly when the value is present, at its first occurrence. |
| Columns.IndexOfDistinct | bikeshare.py:71-72 | In a list without repeats the index of the k-th element is k. |
| Columns.Where | bikeshare.py:75 | A boolean-mask filter keeps only rows of the table that meet the condition. |
| Columns.WhereIsSubsequence | bikeshare.py:75-80 | Filtering keeps rows in their original order. |
| Columns.WhereCounts | bikeshare.py:75-80 | Each row meeting the condition is kept as often as it occurs; every other row is dropped. |
| Columns.WhereAll | bikeshare.py:69-75 | A condition every row meets keeps the whole table. |
| Columns.WhereThenWhere | bikeshare.py:75-80 | Filtering twice equals filtering once by both conditions. |
| Columns.WhereAppend | bikeshare.py:75 | Filtering distributes over concatenation of tables. |
| Columns.Present | bikeshare.py:162-168 | The column without its missing cells is never longer than the column. Its meaning is in Columns.PresentMembers / Columns.PresentAppend. |
| Columns.PresentMembers | bikeshare.py:162-168 | The values pandas counts and compares after skipping missing cells are exactly those some cell holds. |
| Columns.PresentAppend | bikeshare.py:166-168 | Skipping missing cells distributes over concatenation. |
| Columns.Sum | bikeshare.py:140 | No contract of its own. It is defined as `Series.sum()`: the sum of the column, 0 for an empty one. See Columns.SumAppend / Columns.SumBounds. |
| Columns.SumAppend | bikeshare.py:140 | The sum of two tables' durations is the sum of their sums. |
| Columns.SumBounds | bikeshare.py:140 | A sum of n values between lo and hi lies between n·lo and n·hi. |
| Columns.Min | bikeshare.py:166 | The earliest value occurs in the column and is no greater than any value in it. |
| Columns.Max | bikeshare.py:167 | The latest value occurs in the column and is no smaller than any value in it. |
| Columns.ValueCounts | bikeshare.py:157 | `value_counts()`: exactly the values present, each with its number of occurrences. |
| Columns.ModeAmong | bikeshare.py:93 | The candidate chosen occurs and is at least as frequent as every candidate. |
| Columns.Mode | bikeshare.py:93 | `mode()[0]` returns a most frequent value of a non-empty column. |
| Columns.ModeAmongIsLeast | bikeshare.py:93 | Among candidates tied for most frequent, the one chosen is the smallest. |
| Columns.ModeIsLeast | bikeshare.py:93 | `mode()[0]` is the smallest of the most frequent values, for any total order. |
| Columns.ModeUnique | bikeshare.py:93 | Under a total, antisymmetric order, `mode()[0]` is the only most frequent value that is no larger than every value tied with it. |
| Columns.ModeTopsValueCounts | bikeshare.py:157 | The mode has the largest count in `value_counts()`. |
| Trips.PairLabel | bikeshare.py:125 | No contract of its own. It is defined as the start station, then `", "`, then the end station. See Trips.PairLabelRoundTrip / Trips.SplitPairJoins. |
| Trips.FindSeparator | bikeshare.py:125 | Finds the first `", "` in a text, or reports that there is none. |
| Trips.PairColumn | bikeshare.py:125 | No contract of its own. It is defined as the derived `Start and End Station` column: each row's `PairLabel` of its start and end station. See Stats.StationStatsArePopular. |
| Trips.PairLabelRoundTrip | bikeshare.py:125 | The pair label splits back into its start and end station whenever the start holds no `", "`; with Trips.SplitPairJoins, a label splits back exactly in that case. |
| Trips.SplitPairJoins | bikeshare.py:125 | Every split label is the join of its parts, split at the first separator. |
| Filters.CityFile | bikeshare.py:5-7 | `CITY_DATA` names a file exactly for the three cities. |
| Filters.Accepted | bikeshare.py:22-40 | No contract of its own. It is defined as the tests at lines 22-23, 31-32 and 39-40: the lower-cased, untrimmed reply is one of the options. See Filters.PromptFirstAccepted / Filters.GetFilter / Filters.PaddedReplyRejected / Filters.CityRepliesExample. |
| Filters.Prompt | bikeshare.py:20-26 | A prompt loop stops after the reply it accepts and never beyond the replies. |
| Filters.PromptFirstAccepted | bikeshare.py:20-26 | A prompt loop takes the first accepted reply, lower-cased; it runs out exactly when no later reply is accepted. |
| Filters.Choose | bikeshare.py:20-45 | A chosen selection is valid and takes at least three replies; running out of replies uses them all. |
| Filters.GetFilter | bikeshare.py:20-26 | The loop asks until a reply's lower-cased text is an option, which is then the value; every earlier reply was rejected. |
| Filters.GetFilters | bikeshare.py:20-45 | City, month and day are read in turn; the selection is valid and is the one the reference function chooses. |
| Filters.EnumerationsTrimmed | bikeshare.py:23-40 | No option starts or ends with a space. |
| Filters.PaddedReplyRejected | bikeshare.py:21-23 | Replies are not trimmed: a leading or trailing space makes any reply rejected. |
| Filters.CityRepliesExample | bikeshare.py:21-26 | "CHICAGO" and "New York City" are accepted; "Chicago " and "new_york_city" are not. |
| Filters.ChooseExample | bikeshare.py:20-45 | An unknown city is asked again; "CHICAGO", "All", "Monday" give chicago, all, monday. |
| Filters.MonthIndex | bikeshare.py:71-72 | A month name has an index in 1..12 exactly when it is one of the twelve names, and the index names it back. |
| Filters.MonthIndexInjective | bikeshare.py:71-72 | Different month names have different indices. |
| Filters.MonthNamesLowercase | bikeshare.py:71 | The month names are lower-case letters. |
| Filters.MonthNamesDistinct | bikeshare.py:71 | The month names have no repeats. |
| Filters.MonthIndexOfName | bikeshare.py:71-72 | Each month's number is the index of its own name. |
| Filters.Load | bikeshare.py:68-82 | `load_data` fails exactly for a month that is neither "all" nor a month name, and then with the ValueError. |
| Filters.LoadData | bikeshare.py:68-82 | Reassigning `df` through the month filter and then the day filter gives `Load`. |
| Filters.LoadAllIsWholeTable | bikeshare.py:69-82 | "all" and "all" return the whole table. |
| Filters.Matches | bikeshare.py:69-80 | No contract of its own. It is defined as the row test of both filters: unless the month is "all", the row's month is the month name's index; unless the day is "all", the row's weekday is the title-cased day. See Filters.LoadKeepsExactlyMatching / Filters.MonthFilterMeaning / Filters.DayFilterMeaning. |
| Filters.LoadKeepsExactlyMatching | bikeshare.py:68-82 | The result keeps the table's order and keeps each matching row as often as it occurs, and no other row. |
| Filters.LoadMonthThenDay | bikeshare.py:68-80 | Filtering by month and then by day equals filtering by both. |
| Filters.LoadIdempotent | bikeshare.py:68-80 | Loading a loaded selection again with the same filters changes nothing. |
| Filters.MonthFilterMeaning | bikeshare.py:69-75 | A month name keeps exactly the rows of that month. |
| Filters.DayNamesLowercase | bikeshare.py:40 | The day names are lower-case letters. |
| Filters.DayTitles | bikeshare.py:80 | `day.title()` of each accepted day is the weekday name pandas writes. |
| Filters.DayNamesDistinct | bikeshare.py:40 | The day names have no repeats. |
| Filters.WeekdayNamesLower | bikeshare.py:66 | Lower-casing a pandas weekday name gives the day option. |
| Filters.DayFilterMeaning | bikeshare.py:78-80 | A day name keeps exactly the rows whose weekday, lower-cased, is that day. |
| Stats.SortOrdersAreTotal | bikeshare.py:93-102 | The orders modes are sorted by, on numbers and on strings, are total. |
| Stats.SortOrdersAreAntisymmetric | bikeshare.py:93-126 | On numbers and on strings, values ordered both ways are equal. |
| Stats.TimeStats | bikeshare.py:85-107 | No contract of its own. It is defined as `mode()[0]` of the month, weekday and hour columns of a non-empty selection. See Stats.TimeStatsArePopular / Stats.TimeStatsTieBreak. |
| Stats.TimeStatsArePopular | bikeshare.py:91-103 | The month, weekday and hour reported are most frequent in the selection; the month is in 1..12 and the hour in 0..23. |
| Stats.TimeStatsTieBreak | bikeshare.py:93-102 | Each of them is the smallest among the values tied for most frequent. |
| Stats.MonthLabel | bikeshare.py:94 | No contract of its own. It is defined as the title-cased name of month m, `months[m - 1].title()`. See Stats.MonthLabelNamesMonth. |
| Stats.MonthLabelNamesMonth | bikeshare.py:92-94 | The printed month name stands for the popular month. |
| Stats.StationStats | bikeshare.py:110-130 | No contract of its own. It is defined as `mode()[0]` of the start station, end station and pair-label columns of a non-empty selection. See Stats.StationStatsArePopular / Stats.StationStatsUnique / Stats.StationPairExample. |
| Stats.StationStatsArePopular | bikeshare.py:116-126 | The start station, end station and pair reported are most frequent; the pair is some trip's "start, end" label. |
| Stats.StationStatsUnique | bikeshare.py:116-126 | Each reported station and the pair is the only most frequent value of its column that sorts before every value tied with it. |
| Stats.StationPairExample | bikeshare.py:124-126 | Among rows a, b, a the popular pair is a's label. |
| Stats.DurationStats | bikeshare.py:133-147 | No contract of its own. It is defined as the total duration and the total divided by the row count, truncated towards zero. See Stats.DurationStatsMeaning / Stats.DurationExample / Stats.MeanBetweenShortestAndLongest. |
| Stats.TruncDiv | bikeshare.py:143 | Division truncated towards zero, as `int()` of the float mean does. |
| Stats.DurationStatsMeaning | bikeshare.py:139-143 | The total is the sum of durations and the mean is total / count truncated towards zero. |
| Stats.DurationExample | bikeshare.py:140-143 | Durations 10 and 21 give a total of 31 and a mean of 15. |
| Stats.MeanBetweenShortestAndLongest | bikeshare.py:143 | For non-negative durations the mean lies between the shortest and the longest trip. |
| Stats.TruncDivBetween | bikeshare.py:143 | Truncated division of a total between n·lo and n·hi lies between lo and hi. |
| Stats.UserStats | bikeshare.py:150-172 | No contract of its own. It is defined as the user-type counts, and outside Washington the gender counts and the earliest, latest and most popular birth year, failing when there is no birth year. See Stats.UserStatsMeaning / Stats.BirthYearsOrdered. |
| Stats.UserStatsMeaning | bikeshare.py:156-169 | It fails exactly outside Washington with no birth years. User types are always counted. Only outside Washington are genders counted and birth years reported: earliest and latest bound every year, and the popular year is most frequent. |
| Stats.BirthYearsOrdered | bikeshare.py:166-168 | Earliest ≤ most popular ≤ most recent birth year. |
| Stats.ComputeReport | bikeshare.py:193-196 | No contract of its own. It is defined as the four reporters in `main`'s order: an empty selection fails first, then a missing birth year. See Stats.ComputeReportOutcome. |
| Stats.ComputeReportOutcome | bikeshare.py:193-196 | The reporters fail on an empty selection and on a non-Washington selection without birth years, and in no other case; only Washington's report lacks demographics. |
| Pager.Window | bikeshare.py:182 | No contract of its own. It is defined as the five rows from the cursor on, a row past the end being missing cells. See Pager.SlotsShow / Pager.PagesAt. |
| Pager.Pages | bikeshare.py:179-184 | k pages shown are exactly k windows; which rows they hold is in Pager.PagesAt / Pager.PagesShowPrefix. |
| Pager.PagesAt | bikeshare.py:177-184 | The j-th page shown starts at row 5·j. |
| Pager.SlotsShow | bikeshare.py:182 | The rows present in a window are the table's rows from the cursor up to cursor + n or the end. |
| Pager.PagesShowPrefix | bikeshare.py:177-184 | Paging never skips or repeats a row: k pages show the first 5·k rows, or the whole table. |
| Pager.IsYes | bikeshare.py:181 | No contract of its own. It is defined as the test `reply.lower() == 'yes'` of the pager (line 181) and of the restart prompt (line 200). See Pager.IsYesExactly. |
| Pager.IsYesExactly | bikeshare.py:181 | "yes" in any mix of cases continues, and nothing else does. |
| Pager.YesRun | bikeshare.py:179-186 | The run of "yes" replies from a position stays within the replies. What it counts is in Pager.YesRunMeaning. |
| Pager.YesRunMeaning | bikeshare.py:179-186 | The run counted is exactly the "yes" replies before the first other reply. |
| Pager.RawData | bikeshare.py:174-186 | One page per consecutive "yes" reply (`YesRun` of them), each the next five rows. The first other reply stops the pager just after it; running out of replies stops it at the end. |
| Session.Analyse | bikeshare.py:190-196 | No contract of its own. It is defined as the city's file, `load_data`, then the four reporters, stopping at the first fault. See Session.AnalyseSelection / Session.SessionAtAgrees. |
| Session.AnalyseSelection | bikeshare.py:190-196 | Reading the file, `load_data` and the reporters give `Analyse`, stopping at the first fault. |
| Session.RawTable | bikeshare.py:176 | No contract of its own. It is defined as the table `pd.read_csv(CITY_DATA[city])` reads. It gives `[]` for an unknown city or a missing file, where the script raises KeyError or FileNotFoundError; that case is never reached, because `Analyse` fails on the same file first (Session.AnalyseSelection's second ensures). |
| Session.AfterChoice | bikeshare.py:191-197 | No contract of its own. It is defined as a fault in `load_data` or a reporter ending the program before `raw_data` reads a reply, and otherwise `AfterReport`. See Session.SessionAtAgrees / Session.RunChosen. |
| Session.SessionAt | bikeshare.py:189-201 | One pass of `main`'s loop reads replies forward and stays within them; a completed pass reads at least one. |
| Session.AfterReport | bikeshare.py:197-199 | No contract of its own. It is defined as one page per "yes", the declining reply, then the restart answer. See Session.AfterReportMeaning / Session.BrowseAndAsk. |
| Session.AfterReportMeaning | bikeshare.py:197-199 | After the reporters there is one page per "yes", and the first other reply ends the pager. The reply after it is the restart answer, and the next session starts after that. If the replies run out first, the program ends there. |
| Session.SessionAtAgrees | bikeshare.py:189-199 | The prompts give the session's selection. A completed session holds the analysis's report and the pager's pages of the city's table. A fault is the analysis's fault for the chosen selection and is raised before the pager reads a reply. Any other end is running out of replies. |
| Session.SessionAtReplies | bikeshare.py:179-199 | After the prompts, a completed session shows one page per "yes"; the declining reply and the restart answer are the next two replies. |
| Session.Main | bikeshare.py:188-201 | No contract of its own. It is defined as sessions one after another while the restart answer is "yes". See Session.MainStep / Session.MainMeaning / Session.MainAfter / Session.RunSessions. |
| Session.MainStep | bikeshare.py:188-201 | After a session the program stops on a fault or when the replies run out. It quits on a restart answer other than "yes", and otherwise runs again from the next reply. |
| Session.RunAgreesCons | bikeshare.py:199-201 | Prefixing a run with a session answered "yes" keeps the run's properties. |
| Session.MainMeaning | bikeshare.py:188-201 | Every run has these properties: each session agrees with the analysis; every restart answer but the last is "yes"; the program quits exactly when the last answer is not "yes"; a fault carries its valid selection's fault. |
| Session.MainAfter | bikeshare.py:188-201 | Keeps the loop's invariant. Suppose the whole run is the sessions done so far followed by the run from the current reply. On a fault or at the end of the replies it is those sessions. On a declining answer it is those sessions plus this one. Otherwise it is those sessions, this one, then the run from the next reply. |
| Session.MainExample | bikeshare.py:188-201 | The replies "chicago", "all", "all", "no", "no" give one session without pages, then the program quits. |
| Session.RestartFirstSession | bikeshare.py:179-201 | Prompts, one "yes" to the pager, "no", then "yes" to restart: a session with one page that restarts. |
| Session.RestartSecondSession | bikeshare.py:179-201 | The second session's prompts, then "no" and "no": a session without pages that declines. |
| Session.MainRestartExample | bikeshare.py:188-201 | The two sessions above, in that order, then the program quits. |
| Session.BrowseAndAsk | bikeshare.py:179-200 | The pager and the restart prompt give exactly the pages, restart answer and next position of `AfterReport`. |
| Session.RunChosen | bikeshare.py:191-200 | Once the filters are chosen, the analysis, the pager and the restart prompt give exactly `AfterChoice` of the analysis. |
| Session.RunSession | bikeshare.py:189-200 | One pass of `main`'s loop gives exactly `SessionAt` for the program's analysis and tables. |
| Session.RunSessions | bikeshare.py:188-201 | `main`'s loop gives exactly the sessions and ending of `Main` from the first reply. |

## Left out

- CSV reading, `pd.to_datetime` and the `dt.month`, `dt.weekday_name` and `dt.hour` accessors are not modelled. Each trip arrives with its month, weekday name and hour already known. `dt.weekday_name` was removed in pandas 1.0; the model assumes a pandas that still has it.
- Terminal output (prompts, messages, the printed tables and their layout) and the `time.time()` timings are not modelled. They do not affect what is computed.
- The partial output printed by the reporters that ran before a fault is not modelled.
- Session.AfterReport: a session cut short by running out of replies in the pager or at the restart prompt leaves no record. Its report and the pages it already showed are dropped, and the run ends as `Session.EndOfInput`, like a run that printed nothing. The script has printed them by the time `input()` raises EOFError at bikeshare.py:180 or bikeshare.py:199.
- Text.Lower: lower-cases ASCII letters only. Python's `lower()` also maps other Unicode upper-case letters (for example the Kelvin sign to `k`), so such replies are accepted by the script and rejected by the model.
- Text.Title: title-cases ASCII letters only. It is applied to the fixed day names in `load_data` and to the fixed month names in `time_stats`, which are ASCII.
- Stats.DurationStatsMeaning: durations are integers and the mean is exact integer division truncated towards zero. Float rounding of the pandas mean is not modelled.
- Birth years are integers. The CSV stores them as floats, which `int()` truncates.
- Missing cells are modelled for gender and birth year only. Station, user-type and duration cells are always present.
- The derived columns (`month`, `day_of_week`, `hour`, `Start and End Station`) are fields of `Trip` or computed columns. They are not stored back into the table.
- `raw_data` reads the city's file a second time. The model reads the same table that the analysis loaded, so a file that changes between the two reads is not modelled.
