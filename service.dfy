/**
  * `AssessmentService`: record validation, the spreadsheet import, the statistics snapshot with
  * its three trend series, the excellent-student filter and the save that defaults the date.
  */
module Service {
  import opened Wrappers
  import opened Text
  import opened Dates
  import opened Entity
  import opened Seqs
  import opened Store
  import opened Spreadsheet
  import opened Trends

  /**
    * `isValidAssessment`: a non-blank name, a date, a score in 1..5, a skill rate in 0..100 and
    * task counts with 0 <= completed <= total and total > 0.
    */
  predicate IsValidAssessment(f: Fields)
    ensures IsValidAssessment(f) ==> HasAllColumns(f)
  {
    && f.studentName.Some? && !IsBlank(f.studentName.value)
    && f.assessmentDate.Some?
    && f.disciplineScore.Some? && 1 <= f.disciplineScore.value <= 5
    && f.skillCompletionRate.Some? && 0.0 <= f.skillCompletionRate.value <= 100.0
    && f.tasksCompleted.Some? && f.tasksCompleted.value >= 0
    && f.totalTasks.Some? && f.totalTasks.value > 0
    && f.tasksCompleted.value <= f.totalTasks.value
  }

  /** A valid record's derived task rate is a percentage. */
  lemma ValidTaskRateIsPercentage(f: Fields)
    requires IsValidAssessment(f)
    ensures 0.0 <= TaskCompletionRate(f.tasksCompleted, f.totalTasks) <= 100.0
  {
    TaskCompletionRateRange(f.tasksCompleted.value, f.totalTasks.value);
  }

  /** The candidates built from the data rows, in row order: missing rows and blank names give none. */
  function Candidates(entries: seq<Option<Row>>, env: Env): (r: seq<Fields>)
    ensures |r| <= |entries|
    ensures forall i :: 0 <= i < |r| ==> HasAllColumns(r[i]) && r[i].id.None?
  {
    if entries == [] then []
    else Candidates(entries[..|entries| - 1], env) + RowCandidate(entries[|entries| - 1], env)
  }

  /** What one row slot contributes: nothing for a missing row or a blank name, else its candidate. */
  function RowCandidate(entry: Option<Row>, env: Env): (r: seq<Fields>)
    ensures |r| <= 1
    ensures forall i :: 0 <= i < |r| ==> HasAllColumns(r[i]) && r[i].id.None?
  {
    if entry.None? || Candidate(entry.value, env).None? then [] else [Candidate(entry.value, env).value]
  }

  /** Each row gives its candidate on its own: what one row holds never changes another row's outcome. */
  lemma {:induction false} CandidatesAppend(a: seq<Option<Row>>, b: seq<Option<Row>>, env: Env)
    ensures Candidates(a + b, env) == Candidates(a, env) + Candidates(b, env)
  {
    if b == [] {
      assert a + b == a;
    } else {
      var front, last := b[..|b| - 1], b[|b| - 1];
      assert (a + b)[..|a + b| - 1] == a + front && (a + b)[|a + b| - 1] == last;
      assert Candidates(a + b, env) == Candidates(a + front, env) + RowCandidate(last, env);
      CandidatesAppend(a, front, env);
      AppendAssociative(Candidates(a, env), Candidates(front, env), RowCandidate(last, env));
    }
  }

  /** What `importFromExcel` keeps: the valid candidates of rows 1 to `getLastRowNum()`, in row order. */
  function Imported(sheet: Sheet, env: Env): (r: seq<Fields>)
    ensures |r| < |sheet| || r == []
    ensures forall i :: 0 <= i < |r| ==> IsValidAssessment(r[i]) && r[i].id.None?
  {
    if |sheet| <= 1 then [] else Filter(IsValidAssessment, Candidates(sheet[1..], env))
  }

  /** Row 0 is the header: whatever it holds, the import is the same. */
  lemma HeaderIgnored(sheet: Sheet, header: Option<Row>, env: Env)
    requires |sheet| > 0
    ensures Imported(sheet[0 := header], env) == Imported(sheet, env)
  {
    assert sheet[0 := header][1..] == sheet[1..];
  }

  /**
    * Rejecting a row costs only that row: the import of a sheet split into two runs of rows is
    * the import of the first run followed by the import of the second.
    */
  lemma ImportRowsIndependent(header: Option<Row>, a: seq<Option<Row>>, b: seq<Option<Row>>, env: Env)
    ensures Imported([header] + a + b, env) == Imported([header] + a, env) + Imported([header] + b, env)
  {
    assert ([header] + a + b)[1..] == a + b;
    assert ([header] + a)[1..] == a;
    assert ([header] + b)[1..] == b;
    CandidatesAppend(a, b, env);
    FilterAppend(IsValidAssessment, Candidates(a, env), Candidates(b, env));
  }

  /** A row whose score is text `Double.parseDouble` refuses is never imported. */
  lemma UnparsableScoreRejected(header: Option<Row>, row: Row, env: Env)
    requires GetCell(row, 2).Some? && GetCell(row, 2).value.StringCell?
    requires env.parseDouble(Trim(GetCell(row, 2).value.text)).None?
    ensures Imported([header, Some(row)], env) == []
  {
    UnparsableRowKeepsNothing(row, env);
    SingleRowImport([header, Some(row)], env);
  }

  /** A sheet of a header and one row imports exactly what that row keeps. */
  lemma SingleRowImport(sheet: Sheet, env: Env)
    requires |sheet| == 2
    ensures Imported(sheet, env) == Kept(sheet[1], env)
  {
    ImportStep(sheet, 1, env);
    assert sheet[1..1] == [];
    assert Candidates(sheet[1..1], env) == [];
  }

  lemma UnparsableRowKeepsNothing(row: Row, env: Env)
    requires GetCell(row, 2).Some? && GetCell(row, 2).value.StringCell?
    requires env.parseDouble(Trim(GetCell(row, 2).value.text)).None?
    ensures Kept(Some(row), env) == []
  {
    if Candidate(row, env).Some? {
      UnparsableScoreBecomesZero(row, env);
    }
  }

  /** What one entry of the sheet adds to the kept list: its candidate, if it has one and it is valid. */
  function Kept(e: Option<Row>, env: Env): (r: seq<Fields>)
    ensures |r| <= 1
  {
    if e.Some? && Candidate(e.value, env).Some? && IsValidAssessment(Candidate(e.value, env).value)
    then [Candidate(e.value, env).value] else []
  }

  /** A row keeps its candidate exactly when the candidate passes validation. */
  lemma KeptFiltersRowCandidate(e: Option<Row>, env: Env)
    ensures Filter(IsValidAssessment, RowCandidate(e, env)) == Kept(e, env)
  {
    var r := RowCandidate(e, env);
    if r != [] {
      assert r[..0] == [] && r[0..][1..] == [];
    }
  }

  /** One more row of the loop adds exactly what that row keeps. */
  lemma ImportStep(sheet: Sheet, i: int, env: Env)
    requires 1 <= i < |sheet|
    ensures Filter(IsValidAssessment, Candidates(sheet[1..i + 1], env))
      == Filter(IsValidAssessment, Candidates(sheet[1..i], env)) + Kept(sheet[i], env)
  {
    var e := sheet[i];
    var prefix := sheet[1..i];
    assert sheet[1..i + 1] == prefix + [e];
    var here := Candidates([e], env);
    assert Candidates(sheet[1..i + 1], env) == Candidates(prefix, env) + here by {
      CandidatesAppend(prefix, [e], env);
    }
    assert Filter(IsValidAssessment, Candidates(sheet[1..i + 1], env))
      == Filter(IsValidAssessment, Candidates(prefix, env)) + Filter(IsValidAssessment, here) by {
      FilterAppend(IsValidAssessment, Candidates(prefix, env), here);
    }
    assert here == RowCandidate(e, env) by {
      assert [e][..0] == [];
    }
    KeptFiltersRowCandidate(e, env);
  }

  /**
    * The body of the import loop for a present row: skip a blank name, otherwise fill a new
    * entity through its setters, the date defaulting to today and the numbers cast to `int`.
    */
  method ReadRow(row: Row, env: Env) returns (candidate: Option<Fields>)
    ensures candidate == Candidate(row, env)
  {
    var name := CellStringValue(GetCell(row, 0));
    if IsBlank(name) {
      return None;
    }
    var a := new Assessment();
    a.SetStudentName(Some(name));
    a.SetAssessmentDate(Some(CellDate(GetCell(row, 1), env)));
    a.SetDisciplineScore(Some(Truncate(CellNumericValue(GetCell(row, 2), env))));
    a.SetSkillCompletionRate(Some(CellNumericValue(GetCell(row, 3), env)));
    a.SetTasksCompleted(Some(Truncate(CellNumericValue(GetCell(row, 4), env))));
    a.SetTotalTasks(Some(Truncate(CellNumericValue(GetCell(row, 5), env))));
    candidate := Some(a.Value());
  }

  /** One turn of the import loop: a missing row keeps nothing; a present row keeps its entity if that is valid. */
  method ReadEntry(e: Option<Row>, env: Env) returns (kept: seq<Fields>)
    ensures kept == Kept(e, env)
  {
    kept := [];
    if e.Some? {
      var candidate := ReadRow(e.value, env);
      if candidate.Some? && IsValidAssessment(candidate.value) {
        kept := [candidate.value];
      }
    }
  }

  /**
    * `importFromExcel(file)` on the decoded first sheet: read every data row into a new entity
    * through its setters, keep the valid ones, and save the kept batch once if there is one.
    */
  method ImportFromExcel(store: AssessmentStore, sheet: Sheet, env: Env) returns (result: seq<Record>)
    requires store.Valid()
    modifies store
    ensures store.Valid()
    ensures Imported(sheet, env) == [] ==>
      result == [] && store.rows == old(store.rows) && store.nextId == old(store.nextId)
    ensures Imported(sheet, env) != [] ==>
      && |result| == |Imported(sheet, env)|
      && store.rows == old(store.rows) + result
      && store.nextId == old(store.nextId) + |result|
      && forall i :: 0 <= i < |result| ==> result[i] == ToRecord(Imported(sheet, env)[i], old(store.nextId) + i)
  {
    var accepted := ReadSheet(sheet, env);
    if accepted != [] {
      result := store.SaveAll(accepted);
    } else {
      result := [];
    }
  }

  /** The rows the import reads: none when the sheet has no row after the header. */
  method ReadSheet(sheet: Sheet, env: Env) returns (accepted: seq<Fields>)
    ensures accepted == Imported(sheet, env)
  {
    if |sheet| <= 1 {
      accepted := [];
    } else {
      accepted := ReadDataRows(sheet, env);
    }
  }

  /** The row loop of the import: rows 1 to `getLastRowNum()`, the kept entities in row order. */
  method ReadDataRows(sheet: Sheet, env: Env) returns (accepted: seq<Fields>)
    requires |sheet| > 1
    ensures accepted == Imported(sheet, env)
  {
    accepted := [];
    for i := 1 to |sheet|
      invariant accepted == Filter(IsValidAssessment, Candidates(sheet[1..i], env))
    {
      ImportStep(sheet, i, env);
      var kept := ReadEntry(sheet[i], env);
      accepted := accepted + kept;
    }
    ImportedWhole(sheet, env);
  }

  lemma ImportedWhole(sheet: Sheet, env: Env)
    requires |sheet| > 1
    ensures Imported(sheet, env) == Filter(IsValidAssessment, Candidates(sheet[1..|sheet|], env))
  {
    assert sheet[1..|sheet|] == sheet[1..];
  }

  /** `AssessmentStatistics`; the trend lists are absent only in the controller's fallback. */
  datatype Statistics = Statistics(
    averageDisciplineScore: real,
    averageSkillCompletionRate: real,
    averageTaskCompletionRate: real,
    totalAssessments: int,
    disciplineTrend: Option<seq<TrendPoint>>,
    skillTrend: Option<seq<TrendPoint>>,
    taskTrend: Option<seq<TrendPoint>>)

  /**
    * `getStatistics()`: the three storage averages with NULL read as 0.0, the row count, and the
    * three series built from the newest-first listing (empty series for an empty store).
    */
  method GetStatistics(store: AssessmentStore) returns (stats: Statistics)
    ensures stats.averageDisciplineScore == store.AverageDisciplineScore().GetOr(0.0)
    ensures stats.averageSkillCompletionRate == store.AverageSkillCompletionRate().GetOr(0.0)
    ensures stats.averageTaskCompletionRate == store.AverageTaskCompletionRate().GetOr(0.0)
    ensures stats.totalAssessments == |store.rows|
    ensures stats.disciplineTrend.Some? && IsTrend(store.rows, Discipline, stats.disciplineTrend.value)
    ensures stats.skillTrend.Some? && IsTrend(store.rows, Skill, stats.skillTrend.value)
    ensures stats.taskTrend.Some? && IsTrend(store.rows, Task, stats.taskTrend.value)
  {
    var avgDiscipline := store.AverageDisciplineScore();
    var avgSkill := store.AverageSkillCompletionRate();
    var avgTask := store.AverageTaskCompletionRate();
    var recent := store.FindRecentAssessments();
    var discipline, skill, task;
    if |recent| > 0 {
      discipline := GenerateTrendData(recent, Discipline);
      skill := GenerateTrendData(recent, Skill);
      task := GenerateTrendData(recent, Task);
      TrendOrderIndependent(recent, store.rows, Discipline, discipline);
      TrendOrderIndependent(recent, store.rows, Skill, skill);
      TrendOrderIndependent(recent, store.rows, Task, task);
    } else {
      discipline, skill, task := [], [], [];
      assert store.rows == [] by {
        assert |store.rows| == |multiset(store.rows)| == |multiset(recent)| == 0;
      }
    }
    stats := Statistics(avgDiscipline.GetOr(0.0), avgSkill.GetOr(0.0), avgTask.GetOr(0.0), store.Count(),
                        Some(discipline), Some(skill), Some(task));
  }

  /** A stored row that passes validation has its values in the validated ranges. */
  lemma ValidRecordBounds(r: Record)
    requires IsValidAssessment(r.ToFields())
    ensures 1 <= r.disciplineScore <= 5 && 0.0 <= r.skillCompletionRate <= 100.0 && r.totalTasks > 0
    ensures 0.0 <= TaskCompletionRate(Some(r.tasksCompleted), Some(r.totalTasks)) <= 100.0
  {
    TaskCompletionRateRange(r.tasksCompleted, r.totalTasks);
  }

  /** Over rows that all passed validation, the score and skill averages stay in the validated ranges. */
  lemma AveragesWithinRanges(rows: seq<Record>)
    requires forall i :: 0 <= i < |rows| ==> IsValidAssessment(rows[i].ToFields())
    ensures rows != [] ==> 1.0 <= Average(DisciplineScores(rows)).GetOr(0.0) <= 5.0
    ensures 0.0 <= Average(SkillRates(rows)).GetOr(0.0) <= 100.0
  {
    if rows != [] {
      var scores, skills := DisciplineScores(rows), SkillRates(rows);
      forall i | 0 <= i < |rows| ensures 1.0 <= scores[i] <= 5.0 && 0.0 <= skills[i] <= 100.0 {
        ValidRecordBounds(rows[i]);
      }
      MeanBetween(scores, 1.0, 5.0);
      MeanBetween(skills, 0.0, 100.0);
    }
  }

  lemma ValidTotalsPositive(rows: seq<Record>)
    requires forall i :: 0 <= i < |rows| ==> IsValidAssessment(rows[i].ToFields())
    ensures forall i :: 0 <= i < |rows| ==> rows[i].totalTasks > 0
  {
    forall i | 0 <= i < |rows| ensures rows[i].totalTasks > 0 {
      ValidRecordBounds(rows[i]);
    }
  }

  lemma ValidTaskRatesWithin(rows: seq<Record>)
    requires forall i :: 0 <= i < |rows| ==> IsValidAssessment(rows[i].ToFields())
    ensures forall i :: 0 <= i < |rows| ==> 0.0 <= EntityTaskRates(rows)[i] <= 100.0
  {
    var rates := EntityTaskRates(rows);
    forall i | 0 <= i < |rows| ensures 0.0 <= rates[i] <= 100.0 {
      ValidRecordBounds(rows[i]);
    }
  }

  /**
    * Over rows that all passed validation, the storage task average is the mean of the entity's
    * per-row rates, and so a percentage.
    */
  lemma TaskAverageWithinRange(rows: seq<Record>)
    requires forall i :: 0 <= i < |rows| ==> IsValidAssessment(rows[i].ToFields())
    ensures Average(SqlTaskRates(rows)).GetOr(0.0) == Mean(EntityTaskRates(rows))
    ensures 0.0 <= Average(SqlTaskRates(rows)).GetOr(0.0) <= 100.0
  {
    TaskAverageIsMean(rows);
    ValidTaskRatesWithin(rows);
    MeanOfPercentages(EntityTaskRates(rows));
  }

  lemma MeanOfPercentages(rates: seq<real>)
    requires forall i :: 0 <= i < |rates| ==> 0.0 <= rates[i] <= 100.0
    ensures 0.0 <= Mean(rates) <= 100.0
  {
    if rates != [] {
      MeanBetween(rates, 0.0, 100.0);
    }
  }

  lemma TaskAverageIsMean(rows: seq<Record>)
    requires forall i :: 0 <= i < |rows| ==> IsValidAssessment(rows[i].ToFields())
    ensures Average(SqlTaskRates(rows)).GetOr(0.0) == Mean(EntityTaskRates(rows))
  {
    ValidTotalsPositive(rows);
    StorageTaskRatesAreEntityRates(rows);
  }

  predicate IsExcellent(r: Record) {
    r.disciplineScore >= 4 && r.skillCompletionRate >= 80.0
  }

  /** `getExcellentStudents()`: the stored rows with a score of at least 4 and a skill rate of at least 80, in listing order. */
  function ExcellentStudents(rows: seq<Record>): (r: seq<Record>)
    ensures forall i :: 0 <= i < |r| ==> r[i] in rows && r[i].disciplineScore >= 4 && r[i].skillCompletionRate >= 80.0
    ensures forall i :: 0 <= i < |rows| && rows[i].disciplineScore >= 4 && rows[i].skillCompletionRate >= 80.0 ==> rows[i] in r
  {
    Filter(IsExcellent, rows)
  }

  /** The filter keeps the listing order: the excellent rows of two runs are those of the first, then of the second. */
  lemma ExcellentStudentsAppend(a: seq<Record>, b: seq<Record>)
    ensures ExcellentStudents(a + b) == ExcellentStudents(a) + ExcellentStudents(b)
  {
    FilterAppend(IsExcellent, a, b);
  }

  /** The entity with a null date replaced by `today`; a date already set is kept. */
  function WithDefaultDate(f: Fields, today: Date): (r: Fields)
    ensures r.assessmentDate.Some?
    ensures f.assessmentDate.Some? ==> r == f
    ensures f.assessmentDate.None? ==> r == f.(assessmentDate := Some(today))
  {
    if f.assessmentDate.None? then f.(assessmentDate := Some(today)) else f
  }

  /**
    * `saveAssessment(assessment)`: set a null date to today, then save. The save fails (None)
    * when another column is null. An entity without an id is persisted and receives its
    * generated id; an entity with an id is merged, and the object passed in keeps its id.
    */
  method SaveAssessment(store: AssessmentStore, a: Assessment, today: Date) returns (saved: Option<Record>)
    requires store.Valid()
    modifies store, a
    ensures store.Valid()
    ensures saved.Some? <==> HasAllColumns(old(a.Value()).(assessmentDate := Some(today)))
    ensures saved.None? ==> store.rows == old(store.rows) && store.nextId == old(store.nextId)
    ensures saved.Some? ==>
      && saved.value in store.rows
      && saved.value.ToFields() == WithDefaultDate(old(a.Value()), today).(id := Some(saved.value.id))
    ensures saved.Some? && old(a.id).Some? && IndexOf(old(store.rows), old(a.id).value).Some? ==>
      saved.value.id == old(a.id).value
      && store.rows == old(store.rows)[IndexOf(old(store.rows), old(a.id).value).value := saved.value]
      && store.nextId == old(store.nextId)
    ensures saved.Some? && (old(a.id).None? || IndexOf(old(store.rows), old(a.id).value).None?) ==>
      saved.value.id == old(store.nextId)
      && store.rows == old(store.rows) + [saved.value]
      && store.nextId == old(store.nextId) + 1
    ensures a.Value() == WithDefaultDate(old(a.Value()), today).(id :=
      if saved.Some? && old(a.id).None? then Some(saved.value.id) else old(a.id))
  {
    if a.assessmentDate.None? {
      a.SetAssessmentDate(Some(today));
    }
    var isNew := a.id.None?;
    saved := store.Save(a.Value());
    if saved.Some? && isNew {
      a.SetId(Some(saved.value.id));
    }
  }
}
