/**
  * `AssessmentController`: the request-level rules of the REST endpoints — the create checks
  * and their order, the five-field update, the delete guard, the upload gates of the import and
  * the zeroed statistics returned when the service fails. Status codes, headers and response
  * maps are reduced to an outcome per endpoint.
  */
module Controller {
  import opened Wrappers
  import opened Text
  import opened Dates
  import opened Entity
  import opened Store
  import opened Spreadsheet
  import opened Trends
  import opened Service

  /** The four create-time rejections, in the order they are checked. */
  datatype CreateError = NameRequired | DisciplineOutOfRange | SkillOutOfRange | TasksInvalid

  /** The message each rejection puts in the response. */
  function CreateMessage(e: CreateError): string {
    match e
    case NameRequired => "学生姓名不能为空"
    case DisciplineOutOfRange => "纪律遵守度必须在1-5分之间"
    case SkillOutOfRange => "技能达标率必须在0-100%之间"
    case TasksInvalid => "任务完成数据无效"
  }

  predicate NameMissing(f: Fields) {
    f.studentName.None? || IsBlank(f.studentName.value)
  }

  predicate DisciplineRejected(f: Fields) {
    f.disciplineScore.None? || f.disciplineScore.value < 1 || f.disciplineScore.value > 5
  }

  predicate SkillRejected(f: Fields) {
    f.skillCompletionRate.None? || f.skillCompletionRate.value < 0.0 || f.skillCompletionRate.value > 100.0
  }

  predicate TasksRejected(f: Fields) {
    || f.tasksCompleted.None? || f.totalTasks.None?
    || f.tasksCompleted.value < 0 || f.totalTasks.value <= 0
    || f.tasksCompleted.value > f.totalTasks.value
  }

  /** The checks of `createAssessment` in order: the first that fails decides the rejection. */
  function CheckCreate(f: Fields): (e: Option<CreateError>)
    ensures e == Some(NameRequired) <==> NameMissing(f)
    ensures e == Some(DisciplineOutOfRange) <==> !NameMissing(f) && DisciplineRejected(f)
    ensures e == Some(SkillOutOfRange) <==> !NameMissing(f) && !DisciplineRejected(f) && SkillRejected(f)
    ensures e == Some(TasksInvalid) <==>
      !NameMissing(f) && !DisciplineRejected(f) && !SkillRejected(f) && TasksRejected(f)
  {
    if NameMissing(f) then Some(NameRequired)
    else if DisciplineRejected(f) then Some(DisciplineOutOfRange)
    else if SkillRejected(f) then Some(SkillOutOfRange)
    else if TasksRejected(f) then Some(TasksInvalid)
    else None
  }

  /**
    * The controller's checks admit exactly what the service's validation admits once a missing
    * date is defaulted.
    */
  lemma CreateChecksMatchValidation(f: Fields, today: Date)
    ensures CheckCreate(f).None? <==> IsValidAssessment(WithDefaultDate(f, today))
  {
  }

  /** A body that fails several checks is rejected for the earliest one: a blank name hides a bad score. */
  lemma BlankNameReportedFirst(f: Fields)
    requires f.studentName == Some("   ") && f.disciplineScore == Some(9)
    ensures CheckCreate(f) == Some(NameRequired)
  {
  }

  /** All tasks done is accepted; one more than the total is not. */
  lemma TaskBoundary(f: Fields, n: int)
    requires !NameMissing(f) && !DisciplineRejected(f) && !SkillRejected(f) && n > 0
    ensures CheckCreate(f.(tasksCompleted := Some(n), totalTasks := Some(n))).None?
    ensures CheckCreate(f.(tasksCompleted := Some(n + 1), totalTasks := Some(n))) == Some(TasksInvalid)
  {
  }

  datatype CreateOutcome = Rejected(error: CreateError) | Created(record: Record)

  /**
    * `createAssessment(body)`: rejected with nothing saved when a check fails; otherwise a missing
    * date becomes today and the entity is saved. A body carrying the id of a stored row replaces
    * that row.
    */
  method CreateAssessment(store: AssessmentStore, body: Assessment, today: Date) returns (outcome: CreateOutcome)
    requires store.Valid()
    modifies store, body
    ensures store.Valid()
    ensures outcome.Rejected? <==> CheckCreate(old(body.Value())).Some?
    ensures outcome.Rejected? ==>
      outcome.error == CheckCreate(old(body.Value())).value
      && store.rows == old(store.rows) && store.nextId == old(store.nextId) && body.Value() == old(body.Value())
    ensures outcome.Created? ==>
      && outcome.record in store.rows
      && outcome.record.ToFields() == WithDefaultDate(old(body.Value()), today).(id := Some(outcome.record.id))
      && IsValidAssessment(outcome.record.ToFields())
    ensures outcome.Created? && old(body.id).Some? && IndexOf(old(store.rows), old(body.id).value).Some? ==>
      outcome.record.id == old(body.id).value
      && store.rows == old(store.rows)[IndexOf(old(store.rows), old(body.id).value).value := outcome.record]
      && store.nextId == old(store.nextId)
    ensures outcome.Created? && (old(body.id).None? || IndexOf(old(store.rows), old(body.id).value).None?) ==>
      outcome.record.id == old(store.nextId)
      && store.rows == old(store.rows) + [outcome.record]
      && store.nextId == old(store.nextId) + 1
    ensures outcome.Created? ==>
      body.Value() == WithDefaultDate(old(body.Value()), today).(id :=
        if old(body.id).None? then Some(outcome.record.id) else old(body.id))
  {
    var error := CheckCreate(body.Value());
    if error.Some? {
      return Rejected(error.value);
    }
    if body.assessmentDate.None? {
      body.SetAssessmentDate(Some(today));
    }
    CreateChecksMatchValidation(old(body.Value()), today);
    var saved := SaveAssessment(store, body, today);
    outcome := Created(saved.value);
  }

  /** The stored entity after the update's five setters: name, score, skill and both task counts from the body. */
  function CopyUpdate(r: Record, body: Fields): (u: Fields)
    ensures u.id == Some(r.id) && u.assessmentDate == Some(r.assessmentDate)
    ensures u.studentName == body.studentName && u.disciplineScore == body.disciplineScore
    ensures u.skillCompletionRate == body.skillCompletionRate
    ensures u.tasksCompleted == body.tasksCompleted && u.totalTasks == body.totalTasks
    ensures HasAllColumns(u) <==>
              && body.studentName.Some? && body.disciplineScore.Some? && body.skillCompletionRate.Some?
              && body.tasksCompleted.Some? && body.totalTasks.Some?
  {
    r.ToFields().(studentName := body.studentName, disciplineScore := body.disciplineScore,
                  skillCompletionRate := body.skillCompletionRate, tasksCompleted := body.tasksCompleted,
                  totalTasks := body.totalTasks)
  }

  /** The update never touches the id or the date, and whatever the body holds for them is ignored. */
  lemma UpdateKeepsIdAndDate(r: Record, body: Fields, other: Fields)
    requires other.studentName == body.studentName && other.disciplineScore == body.disciplineScore
    requires other.skillCompletionRate == body.skillCompletionRate
    requires other.tasksCompleted == body.tasksCompleted && other.totalTasks == body.totalTasks
    ensures CopyUpdate(r, body) == CopyUpdate(r, other)
    ensures CopyUpdate(r, body).id == Some(r.id) && CopyUpdate(r, body).assessmentDate == Some(r.assessmentDate)
  {
  }

  /**
    * The update applies no range checks: a body whose five fields are all present is stored even
    * when the result fails validation.
    */
  lemma UpdateSkipsValidation(r: Record, body: Fields)
    requires body.studentName.Some? && body.tasksCompleted.Some? && body.totalTasks.Some?
    requires body.skillCompletionRate.Some? && body.disciplineScore == Some(9)
    ensures HasAllColumns(CopyUpdate(r, body))
    ensures !IsValidAssessment(CopyUpdate(r, body))
  {
  }

  datatype UpdateOutcome = NotFound | Updated(record: Record) | UpdateFailed

  /**
    * `updateAssessment(id, body)`: not found when no row has the id; otherwise the five fields
    * are copied onto the stored entity, which is saved over its row. A null among them violates a
    * column constraint and the update fails with the store unchanged.
    */
  method UpdateAssessment(store: AssessmentStore, id: nat, body: Fields, today: Date) returns (outcome: UpdateOutcome)
    requires store.Valid()
    modifies store
    ensures store.Valid()
    ensures outcome.NotFound? <==> old(store.FindById(id)).None?
    ensures !outcome.Updated? ==> store.rows == old(store.rows) && store.nextId == old(store.nextId)
    ensures old(store.FindById(id)).Some? ==>
      var merged := CopyUpdate(old(store.FindById(id)).value, body);
      && (outcome.Updated? <==> HasAllColumns(merged))
      && (outcome.Updated? ==>
            && outcome.record.ToFields() == merged
            && store.rows == old(store.rows)[IndexOf(old(store.rows), id).value := outcome.record]
            && store.nextId == old(store.nextId))
  {
    var existing := store.FindById(id);
    if existing.None? {
      return NotFound;
    }
    var entity := new Assessment.Loaded(existing.value);
    entity.SetStudentName(body.studentName);
    entity.SetDisciplineScore(body.disciplineScore);
    entity.SetSkillCompletionRate(body.skillCompletionRate);
    entity.SetTasksCompleted(body.tasksCompleted);
    entity.SetTotalTasks(body.totalTasks);
    assert entity.Value() == CopyUpdate(existing.value, body);
    assert IndexOf(store.rows, id).Some? by {
      var i :| 0 <= i < |store.rows| && store.rows[i] == existing.value;
    }
    var saved := SaveAssessment(store, entity, today);
    if saved.None? {
      return UpdateFailed;
    }
    outcome := Updated(saved.value);
  }

  datatype DeleteOutcome = Missing | Deleted

  /** `deleteAssessment(id)`: a missing id is reported without deleting anything; otherwise exactly that row goes. */
  method DeleteAssessment(store: AssessmentStore, id: nat) returns (outcome: DeleteOutcome)
    requires store.Valid()
    modifies store
    ensures store.Valid() && store.nextId == old(store.nextId)
    ensures outcome.Deleted? <==> old(store.FindById(id)).Some?
    ensures outcome.Missing? ==> store.rows == old(store.rows)
    ensures outcome.Deleted? ==>
      store.rows == RemoveId(old(store.rows), id) && |store.rows| == |old(store.rows)| - 1
      && store.FindById(id).None?
  {
    var existing := store.FindById(id);
    if existing.None? {
      return Missing;
    }
    RemoveIdCount(store.rows, id);
    var deleted := store.DeleteById(id);
    assert deleted;
    outcome := Deleted;
  }

  /** An uploaded file: its size in bytes, its original name (may be null) and its first sheet, None when POI cannot decode it. */
  datatype Upload = Upload(size: nat, fileName: Option<string>, sheet: Option<Sheet>)

  /** The upload gates of `importExcel`, in order. */
  datatype UploadError = NoFile | NotExcel | TooLarge

  /** The size limit: 10 MB counted as 10 × 1024 × 1024 bytes. */
  const MaxUploadBytes: nat := 10 * 1024 * 1024

  predicate HasExcelName(name: Option<string>) {
    name.Some? && (EndsWith(name.value, ".xlsx") || EndsWith(name.value, ".xls"))
  }

  function CheckUpload(u: Upload): (e: Option<UploadError>)
    ensures e == Some(NoFile) <==> u.size == 0
    ensures e == Some(NotExcel) <==> u.size != 0 && !HasExcelName(u.fileName)
    ensures e == Some(TooLarge) <==> u.size != 0 && HasExcelName(u.fileName) && u.size > MaxUploadBytes
  {
    if u.size == 0 then Some(NoFile)
    else if !HasExcelName(u.fileName) then Some(NotExcel)
    else if u.size > MaxUploadBytes then Some(TooLarge)
    else None
  }

  /** A file of exactly 10 MiB with an Excel name passes the gates; one byte more does not. */
  lemma SizeLimitInclusive(name: string, sheet: Option<Sheet>)
    requires EndsWith(name, ".xlsx")
    ensures CheckUpload(Upload(10485760, Some(name), sheet)).None?
    ensures CheckUpload(Upload(10485761, Some(name), sheet)) == Some(TooLarge)
  {
  }

  /** The extension test is case-sensitive: an upper-case extension is refused. */
  lemma UpperCaseExtensionRejected(sheet: Option<Sheet>)
    ensures CheckUpload(Upload(100, Some("DATA.XLSX"), sheet)) == Some(NotExcel)
  {
    assert !EndsWith("DATA.XLSX", ".xlsx") by {
      assert "DATA.XLSX"[4..][1] != ".xlsx"[1];
    }
    assert !EndsWith("DATA.XLSX", ".xls") by {
      assert "DATA.XLSX"[5..][1] != ".xls"[1];
    }
  }

  datatype ImportOutcome = BadUpload(error: UploadError) | ImportFailed | ImportDone(records: seq<Record>)

  /**
    * `importExcel(file)`: the gates, then the service import. A file POI cannot read fails the
    * import with nothing stored.
    */
  method ImportExcel(store: AssessmentStore, u: Upload, env: Env) returns (outcome: ImportOutcome)
    requires store.Valid()
    modifies store
    ensures store.Valid()
    ensures outcome.BadUpload? <==> CheckUpload(u).Some?
    ensures outcome.BadUpload? ==> outcome.error == CheckUpload(u).value
    ensures outcome.ImportFailed? <==> CheckUpload(u).None? && u.sheet.None?
    ensures !outcome.ImportDone? ==> store.rows == old(store.rows) && store.nextId == old(store.nextId)
    ensures outcome.ImportDone? ==>
      && |outcome.records| == |Imported(u.sheet.value, env)|
      && store.rows == old(store.rows) + outcome.records
      && store.nextId == old(store.nextId) + |outcome.records|
      && forall i :: 0 <= i < |outcome.records| ==>
           outcome.records[i] == ToRecord(Imported(u.sheet.value, env)[i], old(store.nextId) + i)
  {
    var error := CheckUpload(u);
    if error.Some? {
      return BadUpload(error.value);
    }
    if u.sheet.None? {
      return ImportFailed;
    }
    var records := ImportFromExcel(store, u.sheet.value, env);
    outcome := ImportDone(records);
  }

  /**
    * `getStatistics()` as served: the service's statistics, or, when the service throws, zero
    * averages, a zero count and no trend lists.
    */
  method StatisticsResponse(store: AssessmentStore, serviceFails: bool) returns (stats: Statistics)
    ensures serviceFails ==> stats == Statistics(0.0, 0.0, 0.0, 0, None, None, None)
    ensures !serviceFails ==>
      && stats.totalAssessments == |store.rows|
      && stats.averageDisciplineScore == store.AverageDisciplineScore().GetOr(0.0)
      && stats.averageSkillCompletionRate == store.AverageSkillCompletionRate().GetOr(0.0)
      && stats.averageTaskCompletionRate == store.AverageTaskCompletionRate().GetOr(0.0)
      && stats.disciplineTrend.Some? && IsTrend(store.rows, Discipline, stats.disciplineTrend.value)
      && stats.skillTrend.Some? && IsTrend(store.rows, Skill, stats.skillTrend.value)
      && stats.taskTrend.Some? && IsTrend(store.rows, Task, stats.taskTrend.value)
    ensures stats.disciplineTrend.None? <==> serviceFails
    ensures stats.totalAssessments == 0 ==>
      stats.averageDisciplineScore == 0.0 && stats.averageSkillCompletionRate == 0.0
      && stats.averageTaskCompletionRate == 0.0
  {
    if serviceFails {
      return Statistics(0.0, 0.0, 0.0, 0, None, None, None);
    }
    stats := GetStatistics(store);
  }
}
