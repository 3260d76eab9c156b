/**
  * An in-memory stand-in for the Spring Data repository of assessments: the rows of the
  * `assessments` table, identity-generated ids, the finder queries and the three SQL averages
  * the service reads.
  */
module Store {
  import opened Wrappers
  import opened Dates
  import opened Entity
  import opened Seqs

  /** The row with identifier `id`, if any (`findById`). */
  function Lookup(rows: seq<Record>, id: nat): (r: Option<Record>)
    ensures r.Some? ==> r.value in rows && r.value.id == id
    ensures r.None? ==> forall i :: 0 <= i < |rows| ==> rows[i].id != id
  {
    if rows == [] then None
    else if rows[0].id == id then Some(rows[0])
    else Lookup(rows[1..], id)
  }

  /** The position of the row with identifier `id`, if any. */
  function IndexOf(rows: seq<Record>, id: nat): (k: Option<nat>)
    ensures k.Some? ==> k.value < |rows| && rows[k.value].id == id
    ensures k.None? ==> forall i :: 0 <= i < |rows| ==> rows[i].id != id
  {
    if rows == [] then None
    else if rows[0].id == id then Some(0)
    else match IndexOf(rows[1..], id)
      case None => None
      case Some(k) => Some(k + 1)
  }

  /** `ORDER BY a.assessmentDate DESC`: no row is dated before a row listed after it. */
  predicate NewestFirst(rows: seq<Record>) {
    forall i, j :: 0 <= i < j < |rows| ==> !Before(rows[i].assessmentDate, rows[j].assessmentDate)
  }

  function InsertNewestFirst(x: Record, rows: seq<Record>): (r: seq<Record>)
    requires NewestFirst(rows)
    ensures NewestFirst(r)
    ensures multiset(r) == multiset(rows) + multiset{x}
    ensures forall i :: 0 <= i < |r| ==> r[i] == x || r[i] in rows
  {
    if rows == [] || !Before(x.assessmentDate, rows[0].assessmentDate) then [x] + rows
    else
      var rest := InsertNewestFirst(x, rows[1..]);
      assert rows == [rows[0]] + rows[1..];
      NewestFirstCons(rows[0], rows[1..], x, rest);
      [rows[0]] + rest
  }

  /** A row no older than every row of `rest` may stand in front of it. */
  lemma NewestFirstCons(y: Record, tail: seq<Record>, x: Record, rest: seq<Record>)
    requires NewestFirst([y] + tail) && NewestFirst(rest)
    requires Before(x.assessmentDate, y.assessmentDate)
    requires forall i :: 0 <= i < |rest| ==> rest[i] == x || rest[i] in tail
    ensures NewestFirst([y] + rest)
  {
    var r := [y] + rest;
    forall i, j | 0 <= i < j < |r| ensures !Before(r[i].assessmentDate, r[j].assessmentDate) {
      assert r[j] == rest[j - 1];
      if i > 0 {
        assert r[i] == rest[i - 1];
      } else if rest[j - 1] != x {
        var k :| 0 <= k < |tail| && tail[k] == rest[j - 1];
        var yt := [y] + tail;
        assert yt[0] == y && yt[k + 1] == tail[k];
        assert !Before(yt[0].assessmentDate, yt[k + 1].assessmentDate);
      }
    }
  }

  /**
    * `findRecentAssessments()`: the rows ordered by date, newest first. The query leaves the
    * order among rows of one date open; this model keeps one particular order, and the
    * statistics are proved not to depend on it.
    */
  function SortNewestFirst(rows: seq<Record>): (r: seq<Record>)
    ensures NewestFirst(r)
    ensures multiset(r) == multiset(rows)
  {
    if rows == [] then []
    else
      assert rows == [rows[0]] + rows[1..];
      InsertNewestFirst(rows[0], SortNewestFirst(rows[1..]))
  }

  function DisciplineScores(rows: seq<Record>): (s: seq<real>)
    ensures |s| == |rows|
    ensures forall i :: 0 <= i < |rows| ==> s[i] == rows[i].disciplineScore as real
  {
    seq(|rows|, i requires 0 <= i < |rows| => rows[i].disciplineScore as real)
  }

  function SkillRates(rows: seq<Record>): (s: seq<real>)
    ensures |s| == |rows|
    ensures forall i :: 0 <= i < |rows| ==> s[i] == rows[i].skillCompletionRate
  {
    seq(|rows|, i requires 0 <= i < |rows| => rows[i].skillCompletionRate)
  }

  /**
    * The per-row values of `a.tasksCompleted * 100.0 / a.totalTasks`. A row whose total is 0
    * yields SQL NULL, which `AVG` skips.
    */
  function SqlTaskRates(rows: seq<Record>): (s: seq<real>)
    ensures |s| <= |rows|
  {
    if rows == [] then []
    else
      var last := rows[|rows| - 1];
      SqlTaskRates(rows[..|rows| - 1])
        + (if last.totalTasks == 0 then []
           else [(last.tasksCompleted as real) * 100.0 / (last.totalTasks as real)])
  }

  /** The entity's derived rate of every row, in row order. */
  function EntityTaskRates(rows: seq<Record>): (s: seq<real>)
    ensures |s| == |rows|
    ensures forall i :: 0 <= i < |rows| ==>
      s[i] == TaskCompletionRate(Some(rows[i].tasksCompleted), Some(rows[i].totalTasks))
  {
    seq(|rows|, i requires 0 <= i < |rows| =>
      TaskCompletionRate(Some(rows[i].tasksCompleted), Some(rows[i].totalTasks)))
  }

  /** SQL `AVG`: NULL over no values. */
  function Average(values: seq<real>): (avg: Option<real>)
    ensures avg.None? <==> values == []
  {
    if values == [] then None else Some(Mean(values))
  }

  /**
    * When every stored total is positive, the storage-side task average is the plain mean of the
    * entity's derived rates: the SQL averages per row, it does not divide summed counts.
    */
  lemma {:induction false} StorageTaskRatesAreEntityRates(rows: seq<Record>)
    requires forall i :: 0 <= i < |rows| ==> rows[i].totalTasks > 0
    ensures SqlTaskRates(rows) == EntityTaskRates(rows)
    ensures Average(SqlTaskRates(rows)) == if rows == [] then None else Some(Mean(EntityTaskRates(rows)))
  {
    if rows != [] {
      var init := rows[..|rows| - 1];
      var last := rows[|rows| - 1];
      var rate := TaskCompletionRate(Some(last.tasksCompleted), Some(last.totalTasks));
      StorageTaskRatesAreEntityRates(init);
      SqlRateIsEntityRate(last.tasksCompleted, last.totalTasks);
      assert SqlTaskRates(rows) == SqlTaskRates(init) + [rate];
      var e, ei := EntityTaskRates(rows), EntityTaskRates(init);
      assert e == ei + [rate] by {
        assert |e| == |ei| + 1;
        forall i | 0 <= i < |ei| ensures e[i] == ei[i] {
          assert init[i] == rows[i];
        }
      }
    }
  }

  lemma SqlRateIsEntityRate(completed: int, total: int)
    requires total != 0
    ensures (completed as real) * 100.0 / (total as real) == TaskCompletionRate(Some(completed), Some(total))
  {
    var rate := TaskCompletionRate(Some(completed), Some(total));
    assert rate * (total as real) == (completed as real) * 100.0;
  }

  predicate DistinctIds(rows: seq<Record>) {
    forall i, j :: 0 <= i < j < |rows| ==> rows[i].id != rows[j].id
  }

  /** The rows without the one whose identifier is `id`, the others in their order. */
  function RemoveId(rows: seq<Record>, id: nat): (r: seq<Record>)
    ensures forall i :: 0 <= i < |r| ==> r[i] in rows && r[i].id != id
    ensures forall i :: 0 <= i < |rows| && rows[i].id != id ==> rows[i] in r
  {
    if rows == [] then []
    else
      var rest := RemoveId(rows[1..], id);
      assert forall i :: 0 <= i < |rest| ==> rest[i] in rows[1..];
      (if rows[0].id == id then [] else [rows[0]]) + rest
  }

  /** Removing rows keeps the remaining identifiers distinct. */
  lemma {:induction false} RemoveIdKeepsDistinct(rows: seq<Record>, id: nat)
    requires DistinctIds(rows)
    ensures DistinctIds(RemoveId(rows, id))
  {
    if rows != [] {
      var rest := RemoveId(rows[1..], id);
      RemoveIdKeepsDistinct(rows[1..], id);
      if rows[0].id != id {
        forall j | 0 <= j < |rest| ensures rows[0].id != rest[j].id {
          var k :| 0 <= k < |rows[1..]| && rows[1..][k] == rest[j];
          assert rows[k + 1] == rest[j];
        }
        DistinctCons(rows[0], rest);
      }
    }
  }

  lemma DistinctCons(x: Record, rest: seq<Record>)
    requires DistinctIds(rest)
    requires forall j :: 0 <= j < |rest| ==> x.id != rest[j].id
    ensures DistinctIds([x] + rest)
  {
    var r := [x] + rest;
    forall i, j | 0 <= i < j < |r| ensures r[i].id != r[j].id {
      assert r[j] == rest[j - 1];
      if i > 0 {
        assert r[i] == rest[i - 1];
      }
    }
  }

  /** With distinct ids, removing a present id drops exactly one row and an absent id drops none. */
  lemma {:induction false} RemoveIdCount(rows: seq<Record>, id: nat)
    requires DistinctIds(rows)
    ensures |RemoveId(rows, id)| == if Lookup(rows, id).Some? then |rows| - 1 else |rows|
  {
    if rows != [] {
      RemoveIdCount(rows[1..], id);
    }
  }

  class AssessmentStore {
    /** The table's rows in insertion order, which is the order `findAll()` returns. */
    var rows: seq<Record>
    /** The next value of the identity column. */
    var nextId: nat

    ghost predicate Valid()
      reads this
    {
      && (forall i :: 0 <= i < |rows| ==> rows[i].id < nextId)
      && DistinctIds(rows)
    }

    constructor ()
      ensures Valid() && rows == [] && nextId == 1
    {
      rows := [];
      nextId := 1;
    }

    function FindById(id: nat): (r: Option<Record>)
      reads this
      ensures r.Some? ==> r.value in rows && r.value.id == id
      ensures r.None? ==> forall i :: 0 <= i < |rows| ==> rows[i].id != id
    {
      Lookup(rows, id)
    }

    function Count(): nat
      reads this
    {
      |rows|
    }

    function FindRecentAssessments(): (r: seq<Record>)
      reads this
      ensures NewestFirst(r) && multiset(r) == multiset(rows)
    {
      SortNewestFirst(rows)
    }

    /** `SELECT AVG(a.disciplineScore)`. */
    function AverageDisciplineScore(): (avg: Option<real>)
      reads this
      ensures avg.None? <==> rows == []
    {
      Average(DisciplineScores(rows))
    }

    /** `SELECT AVG(a.skillCompletionRate)`. */
    function AverageSkillCompletionRate(): (avg: Option<real>)
      reads this
      ensures avg.None? <==> rows == []
    {
      Average(SkillRates(rows))
    }

    /** `SELECT AVG(a.tasksCompleted * 100.0 / a.totalTasks)`. */
    function AverageTaskCompletionRate(): (avg: Option<real>)
      reads this
      ensures rows == [] ==> avg.None?
    {
      Average(SqlTaskRates(rows))
    }

    /**
      * `save(entity)`. A null in a non-null column is a constraint violation (None, nothing
      * stored). An entity whose id names a stored row replaces that row; any other entity is
      * inserted under the next generated id.
      */
    method Save(f: Fields) returns (saved: Option<Record>)
      requires Valid()
      modifies this
      ensures Valid()
      ensures !HasAllColumns(f) ==> saved.None? && rows == old(rows) && nextId == old(nextId)
      ensures saved.Some? ==> saved.value in rows
      ensures HasAllColumns(f) && f.id.Some? && IndexOf(old(rows), f.id.value).Some? ==>
        var k := IndexOf(old(rows), f.id.value).value;
        saved == Some(ToRecord(f, f.id.value)) && rows == old(rows)[k := saved.value]
        && nextId == old(nextId)
      ensures HasAllColumns(f) && (f.id.None? || IndexOf(old(rows), f.id.value).None?) ==>
        saved == Some(ToRecord(f, old(nextId))) && rows == old(rows) + [saved.value]
        && nextId == old(nextId) + 1
    {
      if !HasAllColumns(f) {
        return None;
      }
      var k := if f.id.Some? then IndexOf(rows, f.id.value) else None;
      if k.Some? {
        var r := ToRecord(f, f.id.value);
        rows := rows[k.value := r];
        assert rows[k.value] == r;
        saved := Some(r);
      } else {
        var r := ToRecord(f, nextId);
        rows := rows + [r];
        nextId := nextId + 1;
        saved := Some(r);
      }
    }

    /** `saveAll(entities)` for new entities: each is inserted under the next generated id, in order. */
    method SaveAll(fs: seq<Fields>) returns (saved: seq<Record>)
      requires Valid()
      requires forall i :: 0 <= i < |fs| ==> HasAllColumns(fs[i]) && fs[i].id.None?
      modifies this
      ensures Valid()
      ensures |saved| == |fs| && rows == old(rows) + saved && nextId == old(nextId) + |fs|
      ensures forall i :: 0 <= i < |fs| ==> saved[i] == ToRecord(fs[i], old(nextId) + i)
    {
      saved := [];
      for i := 0 to |fs|
        invariant Valid()
        invariant |saved| == i && rows == old(rows) + saved && nextId == old(nextId) + i
        invariant forall t :: 0 <= t < i ==> saved[t] == ToRecord(fs[t], old(nextId) + t)
      {
        var r := Save(fs[i]);
        saved := saved + [r.value];
      }
    }

    /**
      * `deleteById(id)`: the row with that id disappears, the others keep their order. An id
      * that names no row makes Spring Data JPA throw `EmptyResultDataAccessException`, which
      * `deleteAssessment` lets propagate: `deleted` is false and nothing changes.
      */
    method DeleteById(id: nat) returns (deleted: bool)
      requires Valid()
      modifies this
      ensures Valid() && nextId == old(nextId)
      ensures deleted <==> Lookup(old(rows), id).Some?
      ensures !deleted ==> rows == old(rows)
      ensures deleted ==> rows == RemoveId(old(rows), id)
    {
      if Lookup(rows, id).None? {
        return false;
      }
      RemoveIdKeepsDistinct(rows, id);
      rows := RemoveId(rows, id);
      deleted := true;
    }
  }
}
