# Student assessment system — Dafny model

A model of the core of a Spring Boot service that records student assessments. Each assessment holds
a student name, a date, a discipline score from 1 to 5, a skill completion rate in percent, and the
tasks completed out of a task total. The model covers:

- the JPA entity `Assessment` (`Entity.Assessment`): its fields, both constructors, the setters and
  the task completion rate;
- the repository, as an in-memory table with generated ids (`Store.AssessmentStore`). Its
  operations are save (persist or merge), saveAll, delete, findById, the date-ordered listing and
  the three SQL averages;
- `AssessmentService` (`Service`, `Trends`, `Spreadsheet`). This covers validation, the Excel import
  with its cell coercions, the per-day trend series, the statistics, the excellent-student filter
  and the save with date defaulting;
- `ReportService` (`Report`): the PDF report as a sequence of abstract elements. These are the
  title, the timestamp, the summary table, the detail table, the analysis with its tiers and the
  recommendations. The model also covers the simplified English report used when the Chinese font
  is unavailable;
- `AssessmentController` (`Controller`): the create checks and their order, the five-field update,
  the delete guard, the upload gates of the import, and the zeroed statistics returned on failure.

Supporting modules:

- `Text`: Java's `trim` and `endsWith`, decimal rendering, and lexicographic order.
- `Dates`: calendar dates, `yyyy-MM-dd` formatting and parsing.
- `Seqs`: filter, sum and mean.
- `Wrappers`: `Option`.

Nullable Java fields are `Option`s in `Entity.Fields`. A stored row, whose columns are all
`nullable = false`, is the value type `Entity.Record`. Failures that Java signals with exceptions
are `None` results or outcome constructors.

## Model

| member | source | states |
|---|---|---|
| Entity.Assessment.constructor | src/main/java/com/assessment/entity/Assessment.java:41 | the no-argument entity has every field null |
| Entity.Assessment.WithValues | src/main/java/com/assessment/entity/Assessment.java:44-52 | the five given fields are set, the date is today and the id is null |
| Entity.Assessment.Loaded | src/main/java/com/assessment/service/AssessmentService.java:50-52 | the entity loaded by `findById` carries exactly the stored row's columns |
| Entity.Assessment.GetTaskCompletionRate | src/main/java/com/assessment/entity/Assessment.java:55-58 | on the object's current counts: a null or zero total gives 0; otherwise rate × total = completed × 100 |
| Entity.TaskCompletionRate | src/main/java/com/assessment/entity/Assessment.java:55-58 | a null or zero total gives 0; otherwise rate × total = completed × 100 |
| Entity.TaskCompletionRateRange | src/main/java/com/assessment/entity/Assessment.java:55-58 | for 0 ≤ completed ≤ total with total > 0, the rate lies in [0, 100], and it is 100 exactly when all tasks are done |
| Entity.Assessment.SetId | src/main/java/com/assessment/entity/Assessment.java:65-67 | only the id changes |
| Entity.Assessment.SetStudentName | src/main/java/com/assessment/entity/Assessment.java:73-75 | only the name changes |
| Entity.Assessment.SetAssessmentDate | src/main/java/com/assessment/entity/Assessment.java:81-83 | only the date changes |
| Entity.Assessment.SetDisciplineScore | src/main/java/com/assessment/entity/Assessment.java:89-91 | only the discipline score changes |
| Entity.Assessment.SetSkillCompletionRate | src/main/java/com/assessment/entity/Assessment.java:97-99 | only the skill rate changes |
| Entity.Assessment.SetTasksCompleted | src/main/java/com/assessment/entity/Assessment.java:105-107 | only the completed count changes |
| Entity.Assessment.SetTotalTasks | src/main/java/com/assessment/entity/Assessment.java:113-115 | only the task total changes |
| Entity.ToRecord | src/main/java/com/assessment/entity/Assessment.java:16-38 | the stored row reads back as the entity with the generated id filled in |
| Store.AssessmentStore.constructor | src/main/java/com/assessment/repository/AssessmentRepository.java:17 | an empty table whose first generated id is 1 |
| Store.AssessmentStore.FindById | src/main/java/com/assessment/service/AssessmentService.java:50-52 | a found row is in the table and has the id; None means no row has it |
| Store.AssessmentStore.FindRecentAssessments | src/main/java/com/assessment/repository/AssessmentRepository.java:57-58 | the rows newest first, as a permutation of the table |
| Store.SortNewestFirst | src/main/java/com/assessment/repository/AssessmentRepository.java:57-58 | the result is ordered newest first and is a permutation of its input |
| Store.AssessmentStore.AverageDisciplineScore | src/main/java/com/assessment/repository/AssessmentRepository.java:39-40 | `AVG` is NULL exactly on an empty table |
| Store.AssessmentStore.AverageSkillCompletionRate | src/main/java/com/assessment/repository/AssessmentRepository.java:45-46 | `AVG` is NULL exactly on an empty table |
| Store.AssessmentStore.AverageTaskCompletionRate | src/main/java/com/assessment/repository/AssessmentRepository.java:51-52 | `AVG` is NULL on an empty table |
| Store.StorageTaskRatesAreEntityRates | src/main/java/com/assessment/repository/AssessmentRepository.java:51-52 | when every total is positive, the SQL per-row rates are the entity's `getTaskCompletionRate` values, and their average is their mean |
| Store.SqlRateIsEntityRate | src/main/java/com/assessment/repository/AssessmentRepository.java:51 | `tasksCompleted * 100.0 / totalTasks` equals the entity's task completion rate |
| Store.RemoveId | src/main/java/com/assessment/service/AssessmentService.java:71-73 | `deleteById` keeps every other row and drops the one with the id |
| Store.RemoveIdKeepsDistinct | src/main/java/com/assessment/service/AssessmentService.java:71-73 | deleting by id keeps the remaining ids distinct |
| Store.RemoveIdCount | src/main/java/com/assessment/service/AssessmentService.java:71-73 | with distinct ids, `RemoveId` of a present id removes exactly one row, and of an absent id none |
| Store.AssessmentStore.Save | src/main/java/com/assessment/service/AssessmentService.java:37 | a null column fails with nothing changed; a known id replaces its row in place; otherwise the row is appended under the next id |
| Store.AssessmentStore.SaveAll | src/main/java/com/assessment/service/AssessmentService.java:206-208 | the new entities are appended in order under consecutive generated ids |
| Store.AssessmentStore.DeleteById | src/main/java/com/assessment/service/AssessmentService.java:71-73 | an id that names a row is deleted, the table becoming `RemoveId` of the old table; an absent id is the repository's exception and changes nothing; the id counter is kept |
| Text.Trim | src/main/java/com/assessment/service/AssessmentService.java:234 | `trim()` cuts exactly the leading and trailing chars ≤ U+0020: the result is the slice of the input that starts after the leading ones, every char cut away is ≤ U+0020, and neither end of the result is |
| Text.TrimUnique | src/main/java/com/assessment/service/AssessmentService.java:234 | any slice of the input whose cut-away chars are all ≤ U+0020 and whose ends are not is the result of `trim()`, so the contract of `Text.Trim` determines it |
| Text.TrimIdempotent | src/main/java/com/assessment/service/AssessmentService.java:234 | trimming twice is trimming once |
| Text.BlankIffAllTrimmable | src/main/java/com/assessment/service/AssessmentService.java:163 | `trim().isEmpty()` holds iff every char is ≤ U+0020 |
| Text.IntToStringNotBlank | src/main/java/com/assessment/service/AssessmentService.java:236 | `String.valueOf(int)` is never blank |
| Text.EndsWith | src/main/java/com/assessment/controller/AssessmentController.java:260 | `endsWith(suffix)` holds iff the text is some string followed by the suffix |
| Text.LessIffFirstDifference | src/main/java/com/assessment/service/AssessmentService.java:140 | `a.compareTo(b) < 0` iff a is a proper prefix of b, or at the first index where they differ a's char is smaller |
| Text.LessTransitive | src/main/java/com/assessment/service/AssessmentService.java:140 | `String.compareTo` order is transitive |
| Text.LessTotal | src/main/java/com/assessment/service/AssessmentService.java:140 | of two different strings, one is before the other |
| Text.LessAsymmetric | src/main/java/com/assessment/service/AssessmentService.java:140 | no two strings are each before the other |
| Text.LessIrreflexive | src/main/java/com/assessment/service/AssessmentService.java:140 | no string is before itself |
| Dates.Format | src/main/java/com/assessment/service/AssessmentService.java:116-119 | the key is four digits, '-', two digits, '-', two digits |
| Dates.Parse | src/main/java/com/assessment/service/AssessmentService.java:176-178 | a parsed text has the `yyyy-MM-dd` shape, its year and month are as written and its day is the written one or, when the month is shorter, the month's last day; every shaped text naming a real date is read as written |
| Dates.FormatParse | src/main/java/com/assessment/service/AssessmentService.java:176-178 | `LocalDate.parse` with `yyyy-MM-dd` reads back every formatted date |
| Dates.FormatInjective | src/main/java/com/assessment/service/AssessmentService.java:119 | distinct dates have distinct `yyyy-MM-dd` keys |
| Dates.FormatOrder | src/main/java/com/assessment/service/AssessmentService.java:119-140 | string order of the keys is chronological order of the dates |
| Dates.PadRoundTrip | src/main/java/com/assessment/service/AssessmentService.java:116 | a zero-padded field reads back as its number |
| Dates.PadOrder | src/main/java/com/assessment/service/AssessmentService.java:116 | padded fields of one width compare as their numbers |
| Spreadsheet.Truncate | src/main/java/com/assessment/service/AssessmentService.java:189-192 | the `(int)` cast rounds toward zero |
| Spreadsheet.TruncateWhole | src/main/java/com/assessment/service/AssessmentService.java:189 | the cast keeps whole numbers |
| Spreadsheet.CellStringValue | src/main/java/com/assessment/service/AssessmentService.java:229-244 | a string cell's text comes back trimmed, with no char ≤ U+0020 at either end; a numeric or boolean cell never reads as blank, so only a missing, string, formula or other cell can give a blank name |
| Spreadsheet.CellNumericValue | src/main/java/com/assessment/service/AssessmentService.java:249-270 | a non-zero value comes only from a numeric cell, a string that `parseDouble` accepts or a formula's cached number; every other cell reads as 0 |
| Spreadsheet.CellDate | src/main/java/com/assessment/service/AssessmentService.java:168-187 | a date other than today came from POI's date conversion of a numeric cell or from parsing the cell's text |
| Spreadsheet.FormattedDateCellRead | src/main/java/com/assessment/service/AssessmentService.java:176-180 | a `yyyy-MM-dd` text cell yields exactly its date |
| Spreadsheet.MisshapenDateTextGivesToday | src/main/java/com/assessment/service/AssessmentService.java:181-184 | text that is not ten characters long falls back to today |
| Spreadsheet.Candidate | src/main/java/com/assessment/service/AssessmentService.java:159-192 | a row is skipped exactly when its name is blank; otherwise all columns are set, the name, date and skill are as read, and the score and both task counts are the read values cast to `int` |
| Spreadsheet.UnparsableScoreBecomesZero | src/main/java/com/assessment/service/AssessmentService.java:255-260 | a score text that `parseDouble` refuses becomes 0 |
| Service.IsValidAssessment | src/main/java/com/assessment/service/AssessmentService.java:216-224 | a valid entity has every column set |
| Service.ValidTaskRateIsPercentage | src/main/java/com/assessment/service/AssessmentService.java:221-223 | a valid entity's task rate lies in [0, 100] |
| Service.Candidates | src/main/java/com/assessment/service/AssessmentService.java:154-163 | the candidates are no more than the rows, each with all columns set and no id |
| Service.CandidatesAppend | src/main/java/com/assessment/service/AssessmentService.java:154-202 | rows are read independently of one another |
| Service.Imported | src/main/java/com/assessment/service/AssessmentService.java:147-211 | the accepted entities are fewer than the sheet's rows, valid, and have no id |
| Service.HeaderIgnored | src/main/java/com/assessment/service/AssessmentService.java:153-154 | row 0 never affects the import |
| Service.ImportRowsIndependent | src/main/java/com/assessment/service/AssessmentService.java:154-202 | importing two blocks of rows gives the concatenation of importing each |
| Service.UnparsableScoreRejected | src/main/java/com/assessment/service/AssessmentService.java:189-197 | a row with an unparsable score text is dropped |
| Service.ImportStep | src/main/java/com/assessment/service/AssessmentService.java:154-197 | each loop iteration appends what its row contributes |
| Service.SingleRowImport | src/main/java/com/assessment/service/AssessmentService.java:154-197 | a sheet of a header and one data row imports exactly what that row keeps |
| Service.ReadRow | src/main/java/com/assessment/service/AssessmentService.java:159-192 | the method builds the candidate of the row |
| Service.ReadEntry | src/main/java/com/assessment/service/AssessmentService.java:155-197 | a null row adds nothing; otherwise the candidate is added exactly when it is valid |
| Service.ReadSheet | src/main/java/com/assessment/service/AssessmentService.java:150-203 | the loop collects exactly `Imported` |
| Service.ReadDataRows | src/main/java/com/assessment/service/AssessmentService.java:154-202 | the loop over rows 1..last collects exactly `Imported` |
| Service.ImportedWhole | src/main/java/com/assessment/service/AssessmentService.java:154-202 | the import is the valid candidates of rows 1 to last |
| Service.ImportFromExcel | src/main/java/com/assessment/service/AssessmentService.java:147-211 | nothing is saved and the id counter is kept when no row is accepted; otherwise the accepted entities are appended under consecutive new ids, returned, and the counter advances by their number |
| Service.GetStatistics | src/main/java/com/assessment/service/AssessmentService.java:78-105 | null averages become 0; the count is the table size; each trend is the per-day series of the table |
| Service.ValidRecordBounds | src/main/java/com/assessment/service/AssessmentService.java:216-224 | a valid row has a score in 1..5, a skill rate in [0, 100], a positive total and a rate in [0, 100] |
| Service.AveragesWithinRanges | src/main/java/com/assessment/service/AssessmentService.java:82-88 | over valid rows, the discipline average is in [1, 5] when rows exist, and the skill average is in [0, 100] |
| Service.TaskAverageWithinRange | src/main/java/com/assessment/repository/AssessmentRepository.java:51-52 | over valid rows, the SQL task average equals the mean of the entity rates and lies in [0, 100] |
| Service.ExcellentStudents | src/main/java/com/assessment/service/AssessmentService.java:282-286 | exactly the stored rows with score ≥ 4 and skill ≥ 80 are listed |
| Service.ExcellentStudentsAppend | src/main/java/com/assessment/service/AssessmentService.java:282-286 | the filter keeps listing order |
| Service.WithDefaultDate | src/main/java/com/assessment/service/AssessmentService.java:34-36 | a null date becomes today; a set date is kept |
| Service.SaveAssessment | src/main/java/com/assessment/service/AssessmentService.java:33-38 | a null date becomes today; the save fails only for a null column; the saved row carries the entity's values; a known id is replaced in place; a new entity receives its generated id |
| Trends.GenerateTrendData | src/main/java/com/assessment/service/AssessmentService.java:110-142 | the result is the trend of the records: one point per distinct date key, in ascending order, each the mean of that day's values |
| Trends.GroupByDate | src/main/java/com/assessment/service/AssessmentService.java:115-133 | the map's keys are the date keys, and each holds that day's values in record order |
| Trends.GroupSnoc | src/main/java/com/assessment/service/AssessmentService.java:118-131 | one more record creates its date's list on first sight and appends its value, leaving the other dates' lists as they were |
| Trends.AveragedPoints | src/main/java/com/assessment/service/AssessmentService.java:135-141 | one point per map key, in strictly ascending key order, each holding the mean of its key's values |
| Trends.InsertAveraged | src/main/java/com/assessment/service/AssessmentService.java:135-141 | inserting a point that holds its key's mean keeps every point equal to its key's mean |
| Trends.TrendOrderIndependent | src/main/java/com/assessment/service/AssessmentService.java:92-96 | the trend does not depend on the order the query returns rows in |
| Trends.TrendUnique | src/main/java/com/assessment/service/AssessmentService.java:135-141 | a record list has exactly one trend |
| Trends.EmptyTrend | src/main/java/com/assessment/service/AssessmentService.java:111-113 | no records give no points |
| Trends.TrendChronological | src/main/java/com/assessment/service/AssessmentService.java:140 | the points' dates strictly increase in calendar order |
| Trends.TrendValuesWithin | src/main/java/com/assessment/service/AssessmentService.java:138 | every point lies within the bounds of the values it averages |
| Trends.SameDayAveraged | src/main/java/com/assessment/service/AssessmentService.java:115-139 | two skill rates of 85 and 70 on one day give a single point of 77.5 |
| Trends.InsertPointAscending | src/main/java/com/assessment/service/AssessmentService.java:140 | inserting a point with a new date keeps the series ascending |
| Report.Document.constructor | src/main/java/com/assessment/service/ReportService.java:31 | a new document holds no elements |
| Report.Document.Add | src/main/java/com/assessment/service/ReportService.java:47 | `document.add` appends one element |
| Report.SummaryTableLayout | src/main/java/com/assessment/service/ReportService.java:82-113 | the summary table has two columns and its two header cells; then the rows labelled discipline, skill, task and count: discipline with 2 decimals and " 分", skill and task with 1 decimal and "%", the count with " 条" |
| Report.AddSummarySection | src/main/java/com/assessment/service/ReportService.java:82-113 | appends the summary heading and table |
| Report.AddHeaderCells | src/main/java/com/assessment/service/ReportService.java:145-151 | the loop adds one header cell per title, in order, after the cells already there |
| Report.AddRecordCells | src/main/java/com/assessment/service/ReportService.java:155-162 | the loop body adds the six cells of one record (name, date, score "/5", skill with one decimal and "%", both task counts) after the cells already there |
| Report.DetailCellsLayout | src/main/java/com/assessment/service/ReportService.java:153-162 | six cells per record, record i's at positions 6i to 6i+5 |
| Report.DetailSectionLayout | src/main/java/com/assessment/service/ReportService.java:118-165 | without records, only the no-data notice; otherwise the heading and a six-column table, headers first, then a row per record in order |
| Report.AddDetailTable | src/main/java/com/assessment/service/ReportService.java:118-165 | appends the detail section of the fetched records |
| Report.DisciplineTier | src/main/java/com/assessment/service/ReportService.java:184-192 | excellent iff ≥ 4.0, good iff in [3.0, 4.0), needs improvement iff < 3.0, never fair |
| Report.RateTier | src/main/java/com/assessment/service/ReportService.java:196-220 | excellent iff ≥ 90, good iff in [80, 90), fair iff in [70, 80), needs improvement iff < 70 |
| Report.TiersMonotone | src/main/java/com/assessment/service/ReportService.java:184-220 | a higher average never earns a worse verdict |
| Report.AddAnalysisSection | src/main/java/com/assessment/service/ReportService.java:170-228 | appends the analysis heading and paragraph, then the recommendations |
| Report.AnalysisParagraph | src/main/java/com/assessment/service/ReportService.java:180-221 | the analysis buffer holds the record count introduction, then the discipline, skill and task sentences, each ending in the remark its threshold chain selects |
| Report.Recommendations | src/main/java/com/assessment/service/ReportService.java:233-265 | each targeted advice appears iff its average is below 4.0, 85 or 85, or the count is below 10; the advice keeps the fixed order |
| Report.SelectMembers | src/main/java/com/assessment/service/ReportService.java:244-261 | a line is chosen iff it is in the pool and applies |
| Report.SelectInOrder | src/main/java/com/assessment/service/ReportService.java:244-261 | choosing keeps the pool's order |
| Report.RecommendationsShape | src/main/java/com/assessment/service/ReportService.java:244-261 | two to six lines, and the two standing lines close the list |
| Report.RecommendationsUnfolded | src/main/java/com/assessment/service/ReportService.java:244-261 | the list is the four conditional lines followed by the two standing ones |
| Report.DisciplineAdviceUnlessExcellent | src/main/java/com/assessment/service/ReportService.java:184-246 | discipline advice appears iff the discipline verdict is not excellent |
| Report.RateAdviceAgainstTiers | src/main/java/com/assessment/service/ReportService.java:196-254 | an excellent rate never draws advice; fair or worse always does |
| Report.GoodSkillStillAdvised | src/main/java/com/assessment/service/ReportService.java:196-250 | a skill rate of 82 is judged good and still draws the skill advice |
| Report.EmptyStoreGetsEveryAdvice | src/main/java/com/assessment/service/ReportService.java:233-265 | an all-zero snapshot draws all six lines in order |
| Report.StrongResultsGetStandingAdvice | src/main/java/com/assessment/service/ReportService.java:233-265 | when every threshold is met, only the two standing lines remain |
| Report.AddRecommendations | src/main/java/com/assessment/service/ReportService.java:233-265 | appends the recommendation heading and paragraph |
| Report.RecommendationText | src/main/java/com/assessment/service/ReportService.java:241-261 | the recommendation buffer holds one line per applicable advice, the conditional lines in order and then the two standing lines |
| Report.GenerateSimplePdfReport | src/main/java/com/assessment/service/ReportService.java:292-330 | appends the English title, summary heading, four-row table and footer; if the statistics fail, only the title, and ok is false |
| Report.SimpleReportContent | src/main/java/com/assessment/service/ReportService.java:292-330 | the simplified report has only its two headings, no detail table, and four rows |
| Report.SectionHeadings | src/main/java/com/assessment/service/ReportService.java:43-68 | each main section contributes its heading; the detail heading appears only with records |
| Report.MainReportOrder | src/main/java/com/assessment/service/ReportService.java:43-68 | the headings run title, summary, (detail), analysis, recommendations, and the report ends with the advice |
| Report.HeadingsAppend | src/main/java/com/assessment/service/ReportService.java:43-68 | headings of consecutive parts concatenate |
| Report.GeneratePdfReport | src/main/java/com/assessment/service/ReportService.java:29-77 | without the font, the simplified report; a later failure appends the simplified report to what was already added; otherwise the main report |
| Controller.CheckCreate | src/main/java/com/assessment/controller/AssessmentController.java:77-103 | each rejection holds iff its check fails and every earlier check passes |
| Controller.CreateChecksMatchValidation | src/main/java/com/assessment/controller/AssessmentController.java:77-108 | the create checks accept exactly what `isValidAssessment` accepts once the date is defaulted |
| Controller.BlankNameReportedFirst | src/main/java/com/assessment/controller/AssessmentController.java:77-88 | a blank name is reported even when the score is also out of range |
| Controller.TaskBoundary | src/main/java/com/assessment/controller/AssessmentController.java:97-103 | completed = total is accepted; completed = total + 1 is rejected |
| Controller.CreateAssessment | src/main/java/com/assessment/controller/AssessmentController.java:72-125 | a rejection changes nothing; otherwise the body, with the date defaulted, is saved: a body whose id names a row replaces that row in place, any other body is appended under the next id, and the body object receives the saved id |
| Controller.CopyUpdate | src/main/java/com/assessment/controller/AssessmentController.java:144-148 | the merged entity keeps the stored id and date and takes the five fields from the body; it has every column iff none of the five is null |
| Controller.UpdateKeepsIdAndDate | src/main/java/com/assessment/controller/AssessmentController.java:144-148 | only the five copied fields matter; the id and date are the stored ones |
| Controller.UpdateSkipsValidation | src/main/java/com/assessment/controller/AssessmentController.java:144-150 | an out-of-range score is stored by an update |
| Controller.UpdateAssessment | src/main/java/com/assessment/controller/AssessmentController.java:130-164 | not found iff no row has the id; else the row is replaced in place by the stored entity with the five fields copied, failing unchanged when one is null; the id counter never changes |
| Controller.DeleteAssessment | src/main/java/com/assessment/controller/AssessmentController.java:169-194 | a missing id deletes nothing; else exactly that row goes and the count drops by one; the id counter never changes |
| Controller.CheckUpload | src/main/java/com/assessment/controller/AssessmentController.java:253-271 | empty, then non-Excel name, then over 10 × 1024 × 1024 bytes, each iff earlier gates pass |
| Controller.SizeLimitInclusive | src/main/java/com/assessment/controller/AssessmentController.java:267 | exactly 10 MiB passes; one byte more is refused |
| Controller.UpperCaseExtensionRejected | src/main/java/com/assessment/controller/AssessmentController.java:260 | the extension test is case-sensitive |
| Controller.ImportExcel | src/main/java/com/assessment/controller/AssessmentController.java:247-289 | a refused upload or unreadable file changes nothing; otherwise the imported records are appended under consecutive new ids and returned, and the id counter advances by their number |
| Controller.StatisticsResponse | src/main/java/com/assessment/controller/AssessmentController.java:227-242 | a failure gives zero averages, zero count and no trends; otherwise the service's statistics |

## Left out

- Rendering: fonts, alignment, spacing, colours, page size, the PDF bytes and `DocumentException`. The report is a sequence of abstract elements. A number printed with `String.format("%.Nf")` is an abstract `Fixed` span; its rounding is not modelled.
- Floating point: doubles are mathematical reals. NaN, infinities, rounding and the saturation of `(int)` on values outside the int range are not modelled. `Spreadsheet.Truncate` is exact truncation toward zero.
- Integer widths: `Integer` and `Long` fields are unbounded integers, and ids are naturals.
- Dates: years are limited to 1..9999. Java's `yyyy-MM-dd` pattern reads the year as four digits or more, and it also accepts a '+' followed by 5 to 19 digits ("+12345-06-07" gives the year 12345). `Dates.Parse` reads such text as unparsable, because those years lie outside the modelled range.
- Spreadsheet.MisshapenDateTextGivesToday: holds only within the modelled years. A text cell holding a '+'-signed year of five or more digits is not ten characters long, yet Java parses it, and the row gets that date rather than today.
- Foreign calls: `Double.parseDouble` and POI's conversion of a date serial number are parameters of `Spreadsheet.Env`. Workbook decoding is an `Option<Sheet>` given to the import endpoint. The clock is a parameter, and one `now` serves both report timestamps.
- Formula cells: `getCellStringValue` returns the formula text. The date read takes a formula's cached text result, and a formula's other cached results fall back to today. POI's own cell-type coercions are modelled only through these cases.
- The row-level `catch` of the import: no cell access in the model throws, so that catch is never reached. Per-row independence is proved instead (`Service.ImportRowsIndependent`).
- `Store.AssessmentStore.AverageTaskCompletionRate`: rows with a zero total are left out of the SQL average. This assumes the database yields NULL for a division by zero. Every row that passes validation has a positive total (`Service.TaskAverageWithinRange`).
- `Entity.TaskCompletionRate`: requires a non-null completed count when the total is non-zero. Java would throw a `NullPointerException` on unboxing there.
- `getAssessmentsByDateRange`, `isValidDate`, `getAllAssessments`, `getAssessmentsByStudent` and `searchAssessmentsByStudentName`: they only delegate to repository queries and carry no logic of their own; `isValidDate` is never called.
- The unknown trend type of `generateTrendData` (a type string that matches no case): the metric is a closed datatype, so the empty groups that case produces are not modelled.
- The report reads the statistics twice, once on the main path and once in the fallback. The model gives both calls one outcome.
- HTTP plumbing: status codes, response maps, the success messages, exception message strings, logging and transactions are not modelled. Only the rejection messages of the create checks are kept (`Controller.CreateMessage`).
- Concurrency and the database's own constraint checking beyond `nullable = false` are not modelled.
