# HaruLog screen logic in Dafny

HaruLog is a diary app. Its Next.js frontend talks to a FastAPI backend. This
project models the deterministic logic inside the frontend screens and proves
what the screens rely on. Server responses, user confirmations, microphone
permission and "today" are inputs.

- **Diary calendar** (`diary_list.dfy`, with `calendar.dfy` and `text.dfy`).
  - Diaries are bucketed by the `YYYY-MM-DD` prefix of `created_at`, in one
    pass that pushes onto each day's list.
  - Each cell shows the glyph of the strongest emotion of that day's first
    diary.
  - The month grid: the weekday of the 1st, the month length, zero-padded cell
    keys, and previous/next month with year wrap, all in the proleptic
    Gregorian calendar that `Date` uses for years from 100 on.
  - The month's record count, counted by key prefix.
  - Emotion tags scoring above 0.3.
  - The selected-day and expanded-card toggles.
- **Home screen** (`home.dfy`).
  - `calcStreak`: a loop over the distinct dates, newest first, with a cursor
    that walks back from today. It is proved equal to a recursive
    specification, and that specification is characterised as the run of
    consecutive days ending today or yesterday.
  - The dark-mode flag and its text encoding in storage.
- **Statistics screen** (`statistics.dfy`).
  - The nested loops that group scores by day and emotion. They are proved
    equal to a reference table (`Groups`).
  - The sort / keep-last-14 / average pipeline and its properties.
  - The legend's first three emotions, the first six positive points and the
    X-axis label positions.
- **Gallery** (`gallery.dfy`).
  - The filter that keeps diaries with a picture.
  - The case-insensitive title search and the footer count.
- **Monthly report** (`report.dfy`).
  - A 1-based (year, month) selector that wraps across years.
  - The loading/report state of `fetchReport`.
- **Write screen** (`diary_write.dfy`).
  - Category list and selection across add, delete and select.
  - Transcript append and the recorder guard.
  - The two halves of submit.
- **Toasts** (`toast.dfy`).
  - The module-level id counter and the provider's list.
  - Removal by id, the `toast()` dispatch slot, and mount/unmount.

Shared helpers:

- `seqs.dfy`: `filter`, `slice(0, n)`, `flat()`.
- `sorting.dfy`: `new Set`, `sort`, `reverse`, `slice(-n)` on day numbers.
- `records.dfy`: optional values, categories and emotion entries.

## Model

| member | source | states |
|---|---|---|
| Calendar.DaysInMonth | frontend/src/app/diary/list/page.tsx:68 | every month has 28 to 31 days |
| Calendar.MonthStep | frontend/src/app/diary/list/page.tsx:68 | the month-length table and the days-before-month table agree, and the twelve months make up the year's length |
| Calendar.YearStep | frontend/src/app/diary/list/page.tsx:68 | consecutive years' first days are 365 or 366 days apart, according to the Gregorian leap rule |
| Calendar.LeapCount | frontend/src/app/diary/list/page.tsx:68 | the count of leap years before a year grows by one exactly when that year is a leap year |
| Calendar.LastDayOfMonth | frontend/src/app/diary/list/page.tsx:68 | `new Date(y, m + 1, 0)` is the day numbered `DaysInMonth(y, m)` of month m, across the December/January boundary too |
| Calendar.MonthSpan | frontend/src/app/diary/list/page.tsx:122-124 | every day 1..daysInMonth of a cell falls within its own month |
| Calendar.Weekday | frontend/src/app/diary/list/page.tsx:67 | `getDay()` lies in 0..6 |
| Calendar.WeekdayAdvance | frontend/src/app/diary/list/page.tsx:67 | n days later the weekday has moved n places round the week |
| Calendar.NextMonthWeekday | frontend/src/app/diary/list/page.tsx:67-71 | the next month's first weekday is this month's first weekday plus its length, mod 7 |
| Calendar.FirstOfNextMonth | frontend/src/app/diary/list/page.tsx:67-71 | the first of the next month comes `DaysInMonth(y, m)` days after the first of this one |
| Calendar.NextMonthFirst | frontend/src/app/diary/list/page.tsx:71 | the month reached by `new Date(year, month + 1, 1)` starts on the same day as `Date(y, m + 1, 1)` before normalisation |
| Calendar.EpochIsThursday | frontend/src/app/diary/list/page.tsx:67 | day numbering anchor: 1970-01-01 has day number 719162 and `getDay()` 4 (Thursday) |
| Calendar.NormalizeMonth | frontend/src/app/diary/list/page.tsx:70-71 | `Date(y, m, 1)` read back gives a month in 0..11 and the same absolute month 12·y + m; in-range months are unchanged |
| Calendar.PrevMonth | frontend/src/app/diary/list/page.tsx:70 | January goes to December of the previous year; any other month goes to the month before it |
| Calendar.NextMonth | frontend/src/app/diary/list/page.tsx:71 | December goes to January of the next year; any other month goes to the month after it |
| Calendar.NavigationInverse | frontend/src/app/diary/list/page.tsx:70-71 | previous then next, and next then previous, return to the same month |
| Text.LowerChar | frontend/src/app/diary/gallery/page.tsx:36 | an upper-case ASCII letter becomes the lower-case letter 32 code points above it, and every other character is unchanged |
| Text.Lower | frontend/src/app/diary/gallery/page.tsx:36 | lower-casing keeps the length and maps each character |
| Text.ContainsIff | frontend/src/app/diary/gallery/page.tsx:36 | `includes` is true exactly when the query occurs at some position |
| Text.ContainsEmpty | frontend/src/app/diary/gallery/page.tsx:36 | every string includes the empty string |
| Text.TrimStart | frontend/src/app/diary/write/page.tsx:30 | removes exactly the leading white space: the result is a suffix of the input, every removed character is white space, and it does not start with white space |
| Text.TrimEnd | frontend/src/app/diary/write/page.tsx:30 | removes exactly the trailing white space: the result is a prefix of the input, every removed character is white space, and it does not end with white space |
| Text.TrimEmptyIff | frontend/src/app/diary/write/page.tsx:30 | `trim()` is empty exactly when the name is all white space |
| Text.NatToString | frontend/src/app/diary/list/page.tsx:124 | `String(n)` is a non-empty string of decimal digits |
| Text.ParseNatToString | frontend/src/app/diary/list/page.tsx:124 | reading the decimal digits back gives the number |
| Text.FourDigits | frontend/src/app/diary/list/page.tsx:124 | years 1000 to 9999 are written with four digits |
| Text.PadTwoRoundTrip | frontend/src/app/diary/list/page.tsx:124 | `padStart(2, "0")` of a number below 100 has two characters and reads back as the number |
| DiaryList.DateKey | frontend/src/app/diary/list/page.tsx:59 | `slice(0, 10)` is the prefix of `created_at` that is 10 characters long, or the whole string when shorter |
| DiaryList.DiaryMap | frontend/src/app/diary/list/page.tsx:57-62 | the keys are exactly the date keys that occur, and each bucket holds the diaries with that key |
| DiaryList.BuildDiaryMap | frontend/src/app/diary/list/page.tsx:57-62 | the `forEach` that pushes onto each day's list builds exactly `DiaryMap` |
| DiaryList.PushDiary | frontend/src/app/diary/list/page.tsx:58-61 | pushing one diary onto its day's list keeps the map equal to `DiaryMap` of the diaries seen so far |
| DiaryList.DateKeysSnoc | frontend/src/app/diary/list/page.tsx:58-61 | one more diary adds exactly its own date key to the map's keys |
| DiaryList.OnDateSnoc | frontend/src/app/diary/list/page.tsx:58-61 | one more diary is appended to its own day's list and to no other |
| DiaryList.NoDiaryOnDate | frontend/src/app/diary/list/page.tsx:60 | a key no diary has selects no diary |
| DiaryList.BucketedExactlyOnce | frontend/src/app/diary/list/page.tsx:57-62 | each diary is in its own key's bucket as often as in the input, and in no other bucket |
| DiaryList.BucketsMatchTheirKey | frontend/src/app/diary/list/page.tsx:59-61 | no bucket is empty, and every diary in a bucket has that key as the first ten characters of `created_at` |
| DiaryList.BucketKeepsOrder | frontend/src/app/diary/list/page.tsx:58-61 | a bucket is a subsequence of the input: the relative order is kept |
| DiaryList.LabelGlyph | frontend/src/app/diary/list/page.tsx:32-37 | the name table never gives the notebook; unknown names give the blue heart |
| DiaryList.SynonymsShareGlyphs | frontend/src/app/diary/list/page.tsx:33-34 | each Korean emotion name maps to the same glyph as its English synonym |
| DiaryList.InsertByScore | frontend/src/app/diary/list/page.tsx:36 | stable insertion keeps the list sorted by descending score and adds exactly one entry |
| DiaryList.PrependDescending | frontend/src/app/diary/list/page.tsx:36 | an entry scoring at least the head of a descending list can go in front of it |
| DiaryList.SortByScore | frontend/src/app/diary/list/page.tsx:36 | `sort((a, b) => b[1] - a[1])` is a permutation sorted by descending score |
| DiaryList.FirstMaxIndex | frontend/src/app/diary/list/page.tsx:36 | the position of the highest score, and the first such position on a tie |
| DiaryList.SortedHeadIsFirstMax | frontend/src/app/diary/list/page.tsx:36 | after the stable sort the top entry is the first entry with the highest score |
| DiaryList.TopEmotionGlyphSpec | frontend/src/app/diary/list/page.tsx:30-38 | missing or empty emotions give the notebook; otherwise the glyph is the one for the first highest-scoring name, and never the notebook |
| DiaryList.CellKeyShape | frontend/src/app/diary/list/page.tsx:124 | for 4-digit years a cell key has 10 characters, dashes at positions 4 and 7, the month prefix as its first 7 characters, and reads back as (year, month + 1, day) |
| DiaryList.CellKeysDistinct | frontend/src/app/diary/list/page.tsx:122-124 | different days of the grid get different keys |
| DiaryList.CellGlyphFromFirstDiary | frontend/src/app/diary/list/page.tsx:125-128 | a cell shows the top-emotion glyph of the first diary of its day, in input order |
| DiaryList.CellWithoutDiary | frontend/src/app/diary/list/page.tsx:125-128 | a day without diaries shows no glyph |
| DiaryList.MonthRecordCountIsDays | frontend/src/app/diary/list/page.tsx:164 | the prefix count is the number of distinct date keys of the month that have a diary |
| DiaryList.MarkedCellsAreCounted | frontend/src/app/diary/list/page.tsx:164 | every cell of the shown month that has a bucket is among the keys counted |
| DiaryList.EmotionTagsSpec | frontend/src/app/diary/list/page.tsx:208-209 | a name is tagged exactly when some entry gives it a score above 0.3 |
| DiaryList.Toggle | frontend/src/app/diary/list/page.tsx:134 | clicking the selected day deselects it and clicking any other day selects that day; the same rule on the expanded card (lines 182-186) collapses it or expands another, so at most one card is expanded |
| DiaryList.SelectedDiaries | frontend/src/app/diary/list/page.tsx:75 | no selection, or a day without a bucket, lists nothing; otherwise the day's bucket is listed |
| DiaryList.CalendarView.constructor | frontend/src/app/diary/list/page.tsx:43-44 | opens on the current month with nothing selected or expanded |
| DiaryList.CalendarView.FirstDay | frontend/src/app/diary/list/page.tsx:67 | the weekday of the 1st lies in 0..6, Sunday = 0 |
| DiaryList.CalendarView.DaysShown | frontend/src/app/diary/list/page.tsx:68 | 28 to 31 cells, and day 0 of the next month is the last cell |
| DiaryList.CalendarView.ShowPreviousMonth | frontend/src/app/diary/list/page.tsx:70 | moves to the previous month with year wrap and keeps the selection |
| DiaryList.CalendarView.ShowNextMonth | frontend/src/app/diary/list/page.tsx:71 | moves to the next month with year wrap and keeps the selection |
| DiaryList.CalendarView.ClickDay | frontend/src/app/diary/list/page.tsx:133-136 | toggles the day's selection and collapses any expanded card |
| DiaryList.CalendarView.ClickCard | frontend/src/app/diary/list/page.tsx:186 | toggles the card's expansion and leaves the selected day alone |
| Sorting.Dedupe | frontend/src/app/page.tsx:11 | `[...new Set(s)]` has no repeats and the same elements as the input |
| Sorting.SortAsc | frontend/src/app/statistics/page.tsx:98 | sorting gives an ascending permutation |
| Sorting.InsertAsc | frontend/src/app/statistics/page.tsx:98 | insertion into an ascending list keeps it ascending and adds exactly the one value |
| Sorting.Reverse | frontend/src/app/page.tsx:11 | `reverse()` keeps the elements and mirrors the positions |
| Sorting.LastN | frontend/src/app/statistics/page.tsx:99 | `slice(-n)` keeps the last min(n, length) elements |
| Sorting.SortedDedupe | frontend/src/app/page.tsx:11 | the deduplicated, sorted dates are strictly ascending and are exactly the input's dates |
| Sorting.DistinctDescending | frontend/src/app/page.tsx:11 | `[...new Set(s)].sort().reverse()` is strictly descending and holds exactly the input's days |
| Sorting.PermutationKeepsDistinct | frontend/src/app/page.tsx:11 | sorting a list without repeats leaves it without repeats |
| Sorting.DistinctSetSize | frontend/src/app/page.tsx:11 | a list without repeats is as long as its set of elements |
| Sorting.StrictlyDescendingUnique | frontend/src/app/page.tsx:11 | two strictly descending lists holding the same days are equal |
| Sorting.LastNOfAscending | frontend/src/app/statistics/page.tsx:99 | the kept tail of an ascending list is strictly ascending, and every element left out is below the first one kept |
| Home.StreakFrom | frontend/src/app/page.tsx:16-25 | the walk counts at most as many days as it is given |
| Home.CalcStreak | frontend/src/app/page.tsx:9-27 | the loop with `break` computes exactly the streak specification |
| Home.StreakFromStep | frontend/src/app/page.tsx:18-24 | one iteration: a step of 0 or 1 day counts and moves the cursor; any other step stops |
| Home.StreakFromRun | frontend/src/app/page.tsx:16-25 | below the cursor, the walk counts exactly the run of consecutive days at the head, and every later day lies below that run |
| Home.HeadIsLargest | frontend/src/app/page.tsx:11 | the newest-first list starts with the latest date |
| Home.RunBelow | frontend/src/app/page.tsx:16-25 | when the latest date is the day before the cursor, the walk counts the whole run of consecutive days down to the first gap |
| Home.WalkFromToday | frontend/src/app/page.tsx:13-25 | from today the walk is positive exactly when nothing is dated after today and today or yesterday is present, and it then measures the run ending there |
| Home.StreakSpec | frontend/src/app/page.tsx:9-27 | the streak is positive exactly when some diary exists, none is after today, and today or yesterday has one; it is then the length of the consecutive run ending at today (or at yesterday when today has none) |
| Home.StreakAtMostDistinctDays | frontend/src/app/page.tsx:11 | repeated dates collapse, so the streak never exceeds the number of distinct dates |
| Home.StreakIgnoresOrderAndRepeats | frontend/src/app/page.tsx:11 | two responses with the same set of dates give the same streak |
| Home.SameElementsSameSet | frontend/src/app/page.tsx:11 | two lists with the same members give the same set of dates |
| Home.RunLengthUnique | frontend/src/app/page.tsx:16-25 | a run that cannot be extended back has only one length, so the streak is determined by the dates |
| Home.StreakOfThreeDays | frontend/src/app/page.tsx:16-24 | today, yesterday and the day before, in any order and with repeats, give 3 |
| Home.StreakAfterGap | frontend/src/app/page.tsx:16-24 | today followed by a one-day gap gives 1 |
| Home.StreakFromYesterday | frontend/src/app/page.tsx:10-24 | yesterday alone gives 1 and an empty list gives 0 |
| Home.EncodeDarkMode | frontend/src/app/page.tsx:49 | `String(next)` is "true" or "false" |
| Home.DecodeDarkMode | frontend/src/app/page.tsx:34 | dark mode is on exactly when the stored text is the string "true" |
| Home.DarkModeRoundTrip | frontend/src/app/page.tsx:34-49 | a flag written and read back is unchanged |
| Home.HomeScreen.constructor | frontend/src/app/page.tsx:33-35 | mounting reads the stored flag; the streak starts at 0 |
| Home.HomeScreen.ToggleDark | frontend/src/app/page.tsx:46-51 | flips the flag and stores its text, keeping flag and storage in agreement |
| Home.HomeScreen.ReceiveDiaries | frontend/src/app/page.tsx:38-43 | an array response sets the streak from its dates; anything else leaves it unchanged |
| Statistics.AnalysedDays | frontend/src/app/statistics/page.tsx:88-91 | a day is listed exactly when some diary with an emotion record is dated that day |
| Statistics.ValuesNamedNonEmpty | frontend/src/app/statistics/page.tsx:92-94 | a record gives an emotion scores exactly when one of its entries has that name |
| Statistics.ValuesNamedSnoc | frontend/src/app/statistics/page.tsx:92-94 | one more record entry adds its score exactly when it carries the emotion's name |
| Statistics.ScoresOnAppend | frontend/src/app/statistics/page.tsx:88-96 | the scores collected over two lists of diaries are the first list's followed by the second's |
| Statistics.ScoresOnSnoc | frontend/src/app/statistics/page.tsx:92-94 | one more diary adds its own scores to its own day and nothing to any other |
| Statistics.ScoresOnNonEmpty | frontend/src/app/statistics/page.tsx:91-95 | an emotion has scores on a day exactly when some analysed diary of that day names it |
| Statistics.ScoresOnAbsentDay | frontend/src/app/statistics/page.tsx:91 | a day without analysed diaries has no scores |
| Statistics.TableIsGroups | frontend/src/app/statistics/page.tsx:87-96 | any table meeting the grouping invariant is the reference table |
| Statistics.PushEntry | frontend/src/app/statistics/page.tsx:92-95 | pushing one entry's score keeps the table in step with the diaries seen |
| Statistics.OpenDay | frontend/src/app/statistics/page.tsx:91 | creating a day's row when it is missing keeps the invariant |
| Statistics.CloseDay | frontend/src/app/statistics/page.tsx:92-95 | once all of a diary's entries are pushed, the table covers that diary |
| Statistics.PushScores | frontend/src/app/statistics/page.tsx:92-95 | the inner loop over one diary's emotions pushes every score onto that day's lists, in entry order |
| Statistics.SkipDiary | frontend/src/app/statistics/page.tsx:89 | a diary without emotions leaves the table as it is |
| Statistics.OrderStep | frontend/src/app/statistics/page.tsx:88-91 | the analysed days grow by the diary's day exactly when it has emotions |
| Statistics.OrderAfter | frontend/src/app/statistics/page.tsx:91 | a day joins the first-seen order exactly when its row is created |
| Statistics.GroupByDate | frontend/src/app/statistics/page.tsx:87-96 | the nested loops produce the reference table and the days in first-seen order |
| Statistics.SumBounds | frontend/src/app/statistics/page.tsx:103 | a sum of scores lying in [lo, hi] lies between n·lo and n·hi |
| Statistics.MeanBounds | frontend/src/app/statistics/page.tsx:103 | an average of scores lying in [lo, hi] lies in [lo, hi] |
| Statistics.TrendDays | frontend/src/app/statistics/page.tsx:97-99 | the kept days are among the grouped days |
| Statistics.GroupsWellFormed | frontend/src/app/statistics/page.tsx:91-95 | every day in the order has a row, and every list of scores is non-empty, so every average is defined |
| Statistics.ComputeTrend | frontend/src/app/statistics/page.tsx:86-106 | the whole trend computation equals the reference trend |
| Statistics.DaysOf | frontend/src/app/statistics/page.tsx:100-101 | the dates of the trend points, in order |
| Statistics.SortedDays | frontend/src/app/statistics/page.tsx:97-98 | the sorted days are strictly ascending, one per distinct analysed day |
| Statistics.TrendDaysSpec | frontend/src/app/statistics/page.tsx:97-99 | trend dates are analysed days, strictly ascending, min(14, distinct days) of them, and the latest ones: every day left out comes before the first shown |
| Statistics.TrendAverages | frontend/src/app/statistics/page.tsx:100-104 | each point holds an emotion exactly when it has a score that day, and its value is the mean of all those scores |
| Statistics.SameScoresSameTrend | frontend/src/app/statistics/page.tsx:86-106 | the trend depends only on the analysed days and the scores per day and emotion |
| Statistics.SameScoresSameGroups | frontend/src/app/statistics/page.tsx:87-96 | the table depends only on the analysed days and the scores per day and emotion |
| Statistics.GroupsTable | frontend/src/app/statistics/page.tsx:87-96 | the reference table meets the grouping invariant |
| Statistics.UnanalysedIgnored | frontend/src/app/statistics/page.tsx:89 | inserting a diary without emotions anywhere leaves the trend unchanged |
| Statistics.AnalysedDaysAppend | frontend/src/app/statistics/page.tsx:88-89 | the analysed days of two lists are the first list's followed by the second's |
| Statistics.ChartNeedsTwoDays | frontend/src/app/statistics/page.tsx:127 | the chart is shown exactly when at least two distinct days have analysed diaries |
| Statistics.Keys | frontend/src/app/statistics/page.tsx:108 | `Object.keys` lists the entry names in order |
| Statistics.TopEmotions | frontend/src/app/statistics/page.tsx:108 | without statistics there are none; otherwise the first min(3, n) distribution keys, in order |
| Statistics.ChartLines | frontend/src/app/statistics/page.tsx:51 | at most three lines, for the first emotions in order |
| Statistics.ChartLinesOfTopEmotions | frontend/src/app/statistics/page.tsx:51 | cutting the legend's emotions to three changes nothing |
| Statistics.ShownPositivePointsSpec | frontend/src/app/statistics/page.tsx:168 | min(6, total) points are shown, in order; a point appears exactly when fewer than six points precede it |
| Statistics.SkipUnlabelled | frontend/src/app/statistics/page.tsx:58 | a stretch of unlabelled points contributes no labels |
| Statistics.AxisLabels | frontend/src/app/statistics/page.tsx:57-58 | the labels sit exactly at the first point, at floor(n/2) and at the last point: [0, 1] for two points, three labels otherwise |
| Gallery.StoredDiariesSpec | frontend/src/app/diary/gallery/page.tsx:26-29 | a diary is stored exactly when it is in the response and has a non-empty `image_url`; the stored list keeps the response order |
| Gallery.SearchSpec | frontend/src/app/diary/gallery/page.tsx:35-37 | a diary is shown exactly when it is stored and its lower-cased title contains the lower-cased query |
| Gallery.SearchKeepsOrder | frontend/src/app/diary/gallery/page.tsx:35-37 | the shown list is an order-preserving subsequence of the stored list, so the footer never exceeds it |
| Gallery.EmptyQueryKeepsAll | frontend/src/app/diary/gallery/page.tsx:35-37 | an empty query shows every stored diary and the footer counts them all |
| Gallery.SearchIdempotent | frontend/src/app/diary/gallery/page.tsx:35-37 | searching the result again with the same query changes nothing |
| Gallery.QueryCaseIgnored | frontend/src/app/diary/gallery/page.tsx:35-37 | the letter case of the query does not change the result |
| Gallery.LowerIdempotent | frontend/src/app/diary/gallery/page.tsx:36 | lower-casing twice is lower-casing once |
| Report.PrevReportMonth | frontend/src/app/report/page.tsx:40 | (y, 1) goes to (y - 1, 12) and (y, m) to (y, m - 1); the month stays in 1..12 |
| Report.NextReportMonth | frontend/src/app/report/page.tsx:42 | (y, 12) goes to (y + 1, 1) and (y, m) to (y, m + 1); the month stays in 1..12 |
| Report.ReportNavigationInverse | frontend/src/app/report/page.tsx:40-42 | next after previous, and previous after next, are the identity |
| Report.MonthlyReport.constructor | frontend/src/app/report/page.tsx:9-13 | opens on the current year and 1-based month, with no report and not loading |
| Report.MonthlyReport.ShowPreviousMonth | frontend/src/app/report/page.tsx:40 | steps back a month with year wrap; the report state is unchanged |
| Report.MonthlyReport.ShowNextMonth | frontend/src/app/report/page.tsx:42 | steps forward a month with year wrap; the report state is unchanged |
| Report.MonthlyReport.StartFetch | frontend/src/app/report/page.tsx:15-19 | loading starts, the old report is cleared, and the request is for the month shown |
| Report.MonthlyReport.FinishFetch | frontend/src/app/report/page.tsx:20-26 | the body, or the failure text without a diary count, becomes the report; loading ends either way |
| Report.FetchReport | frontend/src/app/report/page.tsx:15-27 | a whole run always ends with loading false and a report shown, without a diary count on failure, and with the month unchanged |
| DiaryWrite.WithoutCategorySpec | frontend/src/app/diary/write/page.tsx:50 | deletion removes every category with that id and nothing else, keeps the order, and leaves the list as it is for an unknown id |
| DiaryWrite.AppendTranscript | frontend/src/app/diary/write/page.tsx:98 | empty content becomes the transcript; otherwise the result is the content, a space, then the transcript |
| DiaryWrite.PayloadCategory | frontend/src/app/diary/write/page.tsx:116 | `selectedCategoryId \|\| null`: a category is sent exactly when one is selected and it is not 0 |
| DiaryWrite.SelectionOf | frontend/src/app/diary/write/page.tsx:157 | `Number(value) \|\| ""`: 0 (the placeholder) means no selection; any other id is selected |
| DiaryWrite.DiaryWriteForm.constructor | frontend/src/app/diary/write/page.tsx:11-17 | an empty form: no categories, no selection, not recording, not submitting |
| DiaryWrite.DiaryWriteForm.LoadCategories | frontend/src/app/diary/write/page.tsx:22-27 | an array replaces the list, another body empties it, and a failed request leaves it as it was; every field the handler does not set keeps its value |
| DiaryWrite.DiaryWriteForm.SelectCategory | frontend/src/app/diary/write/page.tsx:157 | the selection follows the select's value; every field the handler does not set keeps its value |
| DiaryWrite.DiaryWriteForm.AddCategory | frontend/src/app/diary/write/page.tsx:29-44 | a name that trims to empty, or a failed request, changes nothing; a created category is appended, the input is cleared and the new id is selected; every field the handler does not set keeps its value |
| DiaryWrite.DiaryWriteForm.DeleteCategory | frontend/src/app/diary/write/page.tsx:46-55 | without confirmation, or when the request throws, nothing changes; otherwise, whatever the status, the category leaves the list and the selection is cleared only if it was that category; every field the handler does not set keeps its value |
| DiaryWrite.DiaryWriteForm.StartRecording | frontend/src/app/diary/write/page.tsx:57-78 | with microphone access a recorder exists and recording is on; without it nothing changes; every field the handler does not set keeps its value |
| DiaryWrite.DiaryWriteForm.StopRecording | frontend/src/app/diary/write/page.tsx:80-85 | stops exactly when a recorder exists and is recording; afterwards recording is off; every field the handler does not set keeps its value |
| DiaryWrite.DiaryWriteForm.ReceiveTranscript | frontend/src/app/diary/write/page.tsx:87-103 | only a non-empty transcript from an OK response changes the content, by appending it; every field the handler does not set keeps its value |
| DiaryWrite.DiaryWriteForm.BeginSubmit | frontend/src/app/diary/write/page.tsx:105-116 | refused without a request exactly when the title or the content is empty; otherwise submitting starts and the request carries the title, the content and the payload category; every field the handler does not set keeps its value |
| DiaryWrite.DiaryWriteForm.FinishSubmit | frontend/src/app/diary/write/page.tsx:119-130 | submitting always ends, and only an OK response leaves the screen; every field the handler does not set keeps its value |
| Toast.WithoutIdSpec | frontend/src/components/Toast.tsx:25 | removal drops the toasts with that id, keeps the others in order, and changes nothing for an id that is not shown |
| Toast.WithoutIdRemovesOne | frontend/src/components/Toast.tsx:25 | with increasing ids, removing a shown id takes out exactly that one toast |
| Toast.RemovalKeepsIdsIncreasing | frontend/src/components/Toast.tsx:25 | after a removal the ids still increase, and every remaining toast was there before |
| Toast.FilterIncreasing | frontend/src/components/Toast.tsx:25 | filtering a list with increasing ids keeps them increasing and no smaller than the first |
| Toast.ToastCenter.constructor | frontend/src/components/Toast.tsx:12-20 | the counter starts at 0, the dispatcher slot is empty and no toast is shown |
| Toast.ToastCenter.AddToast | frontend/src/components/Toast.tsx:22-24 | the new id is one more than the last (the first is 1), and the toast is appended at the end with the others unchanged; ids stay increasing; it runs only while the provider is mounted |
| Toast.ToastCenter.Expire | frontend/src/components/Toast.tsx:25 | the timer of toast `id` takes it out of the list; counter and slot are unchanged |
| Toast.ToastCenter.Toast | frontend/src/components/Toast.tsx:15-17 | without a registered provider nothing happens; with one, a toast is added |
| Toast.ToastCenter.ToastSuccess | frontend/src/components/Toast.tsx:15 | a call without a type shows a `Success` toast, under the same rule as `Toast` |
| Toast.ToastCenter.Mount | frontend/src/components/Toast.tsx:28-29 | mounting registers the provider |
| Toast.ToastCenter.Unmount | frontend/src/components/Toast.tsx:20-30 | unmounting empties the slot and discards the provider's own list, so nothing is shown and a remount starts from `[]`; the module-level counter keeps its value |
| Toast.ToastCenter.Renders | frontend/src/components/Toast.tsx:33 | the provider renders something only while it is mounted, since an unmounted provider holds no toasts |

## Left out

- HTTP: every `fetch` and endpoint. Response bodies, OK/non-OK status and
  rejections are inputs.
  - The list screen's and the statistics screen's own loading of the
    diaries array (`Array.isArray(data) ? data : []`) is not modelled. The
    model starts from the array.
  - `isLoading` on those screens is not modelled either.
- Rendering, JSX, CSS classes, routing (`Link`, `router.push`), and `alert`
  and `confirm`. `confirm`'s answer is an input to
  `DiaryWrite.DiaryWriteForm.DeleteCategory`.
- Browser APIs are not modelled: `MediaRecorder`, `getUserMedia`, audio
  blobs, `localStorage` and `document.documentElement`. Microphone access is
  a boolean input, and storage is the `stored` field.
- `setTimeout`: the 3-second removal is the explicit event
  `Toast.ToastCenter.Expire`.
  - A timer that fires after unmount runs `Expire` on the emptied list and
    so changes nothing, as React ignores a state update on an unmounted
    component.
  - More than one mounted provider is not modelled; the model has one
    dispatcher slot for one provider.
- Calendar.MakeDay: the `Date(y, m, d)` constructor reads a year of 0..99
  as 1900..1999; the model keeps the year as given, so it agrees with
  `Date` only for years from 100 on. Through it `DaysShown` differs for
  such years (`new Date(0, 2, 0)` is in 1900, not a leap year).
- Calendar.NormalizeMonth: the same two-digit-year reading is not applied,
  so `PrevMonth`, `NextMonth`, `Report.PrevReportMonth` and
  `Report.NextReportMonth` differ from `Date` when the normalised year falls
  in 0..99 (from (99, 12) the report screen goes back to (1999, 11), the
  model to (99, 11)).
- Calendar.MakeDay: `Date`'s range limit of 8.64e15 ms either side of
  1970 (beyond it `Invalid Date`) is not modelled; day numbers are
  unbounded.
- Time zones and locales are not modelled.
  - Dates are day numbers in the proleptic Gregorian calendar; "today" is an
    input.
  - Not modelled: the `toISOString` (UTC) today-highlight, local-midnight
    `Date` parsing, the `Math.round` of a DST-shifted difference, and
    `toLocaleDateString`.
- Date keys as strings.
  - The streak and the trend work on day numbers, not on `YYYY-MM-DD`
    strings. For well-formed keys with 4-digit years, string order and
    string equality coincide with day order and day equality.
  - The calendar screen keeps its keys as strings.
- `toLowerCase` covers the ASCII letters only. `trim` covers ASCII white
  space, NBSP, LS, PS and BOM, but not the other Unicode space separators.
- SVG geometry and the `Math.round(score * 100)` percentages are not
  modelled. Scores are reals, so the NaN and undefined scores a malformed
  body could carry are not modelled either.
- JavaScript objects used as maps.
  - An emotion record is a list of entries in insertion order, and the model
    allows a name to repeat, which a real record cannot.
  - Prototype property names such as `constructor` are not special in the
    glyph table or in the date and emotion maps.
  - Object key order for integer-like keys is not modelled.
- DiaryWrite.DiaryWriteForm.AddCategory: a category POST that answers with a
  non-OK status but still returns JSON is taken as `Created` with that body,
  as the source does. The shape of that body is not checked.
- Stale closures and concurrent requests are not modelled.
  - A report response arriving after the month changed is not modelled.
  - Category handlers run against the list captured at render time; they
    are modelled as running one at a time on the current state.
- The statistics "AI comment" (`Object.keys(...)[0] || "다양한"`, statistics
  page line 179) and the `total_count === 0` empty state are rendering only
  and are not modelled.
- The backend (`backend/`), `layout.tsx` and the chat page are not part of
  this model.
