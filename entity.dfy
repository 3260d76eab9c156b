/**
  * The assessment entity: its nullable field values, the persisted row the table stores,
  * the derived task-completion rate, and the mutable JPA entity object with its setters.
  */
module Entity {
  import opened Wrappers
  import opened Dates

  /**
    * The values an `Assessment` object holds. Every field is a boxed Java value and may be null,
    * as in an entity built by the no-argument constructor or a request body with missing keys.
    */
  datatype Fields = Fields(
    id: Option<nat>,
    studentName: Option<string>,
    assessmentDate: Option<Date>,
    disciplineScore: Option<int>,
    skillCompletionRate: Option<real>,
    tasksCompleted: Option<int>,
    totalTasks: Option<int>)

  /** A stored row. Every column but the generated id is declared `nullable = false`. */
  datatype Record = Record(
    id: nat,
    studentName: string,
    assessmentDate: Date,
    disciplineScore: int,
    skillCompletionRate: real,
    tasksCompleted: int,
    totalTasks: int)
  {
    /** The entity the persistence layer materialises for this row. */
    function ToFields(): Fields {
      Fields(Some(id), Some(studentName), Some(assessmentDate), Some(disciplineScore),
             Some(skillCompletionRate), Some(tasksCompleted), Some(totalTasks))
    }
  }

  /** The entity satisfies every `nullable = false` column, so the table accepts it. */
  predicate HasAllColumns(f: Fields) {
    f.studentName.Some? && f.assessmentDate.Some? && f.disciplineScore.Some?
    && f.skillCompletionRate.Some? && f.tasksCompleted.Some? && f.totalTasks.Some?
  }

  /** The row stored for an entity under the identifier `id`. */
  function ToRecord(f: Fields, id: nat): (r: Record)
    requires HasAllColumns(f)
    ensures r.ToFields() == f.(id := Some(id))
  {
    Record(id, f.studentName.value, f.assessmentDate.value, f.disciplineScore.value,
           f.skillCompletionRate.value, f.tasksCompleted.value, f.totalTasks.value)
  }

  /**
    * `getTaskCompletionRate()`: 0.0 without a usable total, otherwise completed / total * 100.
    * With a non-zero total and a null completed count Java fails on unboxing; callers never do that.
    */
  function TaskCompletionRate(completed: Option<int>, total: Option<int>): (rate: real)
    requires total.None? || total == Some(0) || completed.Some?
    ensures total.None? || total == Some(0) ==> rate == 0.0
    ensures total.Some? && total.value != 0 ==>
      rate * (total.value as real) == (completed.value as real) * 100.0
  {
    if total.None? || total.value == 0 then 0.0
    else (completed.value as real) / (total.value as real) * 100.0
  }

  /** For counts the validation admits, the rate is a percentage, and 100 exactly when all tasks are done. */
  lemma TaskCompletionRateRange(completed: int, total: int)
    requires 0 <= completed <= total && total > 0
    ensures 0.0 <= TaskCompletionRate(Some(completed), Some(total)) <= 100.0
    ensures TaskCompletionRate(Some(completed), Some(total)) == 100.0 <==> completed == total
  {
    var c, t := completed as real, total as real;
    var q := c / t;
    assert q * t == c;
    assert (1.0 - q) * t == t - c;
    assert 0.0 <= q <= 1.0;
    assert q == 1.0 <==> completed == total;
  }

  /** The mutable JPA entity `Assessment`. */
  class Assessment {
    var id: Option<nat>
    var studentName: Option<string>
    var assessmentDate: Option<Date>
    var disciplineScore: Option<int>
    var skillCompletionRate: Option<real>
    var tasksCompleted: Option<int>
    var totalTasks: Option<int>

    function Value(): Fields
      reads this
    {
      Fields(id, studentName, assessmentDate, disciplineScore, skillCompletionRate, tasksCompleted, totalTasks)
    }

    /** `new Assessment()`: every field null. */
    constructor ()
      ensures Value() == Fields(None, None, None, None, None, None, None)
    {
      id, studentName, assessmentDate := None, None, None;
      disciplineScore, skillCompletionRate := None, None;
      tasksCompleted, totalTasks := None, None;
    }

    /** The five-argument constructor: the given values, today's date, no id yet. */
    constructor WithValues(studentName: Option<string>, disciplineScore: Option<int>,
                           skillCompletionRate: Option<real>, tasksCompleted: Option<int>,
                           totalTasks: Option<int>, today: Date)
      ensures Value() == Fields(None, studentName, Some(today), disciplineScore,
                                skillCompletionRate, tasksCompleted, totalTasks)
    {
      this.id := None;
      this.studentName := studentName;
      this.assessmentDate := Some(today);
      this.disciplineScore := disciplineScore;
      this.skillCompletionRate := skillCompletionRate;
      this.tasksCompleted := tasksCompleted;
      this.totalTasks := totalTasks;
    }

    /** The managed entity the persistence layer materialises for a stored row (`findById`). */
    constructor Loaded(r: Record)
      ensures Value() == r.ToFields()
    {
      id, studentName, assessmentDate := Some(r.id), Some(r.studentName), Some(r.assessmentDate);
      disciplineScore, skillCompletionRate := Some(r.disciplineScore), Some(r.skillCompletionRate);
      tasksCompleted, totalTasks := Some(r.tasksCompleted), Some(r.totalTasks);
    }

    /**
      * `getTaskCompletionRate()` on the object's current fields: 0 without a usable total,
      * otherwise the completed share of the total as a percentage.
      */
    function GetTaskCompletionRate(): (rate: real)
      reads this
      requires totalTasks.None? || totalTasks == Some(0) || tasksCompleted.Some?
      ensures totalTasks.None? || totalTasks == Some(0) ==> rate == 0.0
      ensures totalTasks.Some? && totalTasks.value != 0 ==>
        rate * (totalTasks.value as real) == (tasksCompleted.value as real) * 100.0
    {
      TaskCompletionRate(tasksCompleted, totalTasks)
    }

    method SetId(v: Option<nat>)
      modifies this
      ensures Value() == old(Value()).(id := v)
    {
      id := v;
    }

    method SetStudentName(v: Option<string>)
      modifies this
      ensures Value() == old(Value()).(studentName := v)
    {
      studentName := v;
    }

    method SetAssessmentDate(v: Option<Date>)
      modifies this
      ensures Value() == old(Value()).(assessmentDate := v)
    {
      assessmentDate := v;
    }

    method SetDisciplineScore(v: Option<int>)
      modifies this
      ensures Value() == old(Value()).(disciplineScore := v)
    {
      disciplineScore := v;
    }

    method SetSkillCompletionRate(v: Option<real>)
      modifies this
      ensures Value() == old(Value()).(skillCompletionRate := v)
    {
      skillCompletionRate := v;
    }

    method SetTasksCompleted(v: Option<int>)
      modifies this
      ensures Value() == old(Value()).(tasksCompleted := v)
    {
      tasksCompleted := v;
    }

    method SetTotalTasks(v: Option<int>)
      modifies this
      ensures Value() == old(Value()).(totalTasks := v)
    {
      totalTasks := v;
    }
  }
}
