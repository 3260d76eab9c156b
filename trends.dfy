/**
  * `generateTrendData`: the records grouped by their `yyyy-MM-dd` date key, each group reduced
  * to the mean of one metric, the points listed in ascending key order.
  */
module Trends {
  import opened Wrappers
  import opened Text
  import opened Dates
  import opened Entity
  import opened Seqs

  /** The three series a statistics snapshot carries: "discipline", "skill" and "task". */
  datatype Metric = Discipline | Skill | Task

  /** One point of a series (`TrendData`): a date key and the mean of that day's values. */
  datatype TrendPoint = TrendPoint(date: string, value: real)

  function DateKey(r: Record): string {
    Format(r.assessmentDate)
  }

  /** The value a record contributes to a series. */
  function MetricValue(r: Record, m: Metric): real {
    match m
    case Discipline => r.disciplineScore as real
    case Skill => r.skillCompletionRate
    case Task => TaskCompletionRate(Some(r.tasksCompleted), Some(r.totalTasks))
  }

  /** The values of the records dated `key`, in record order. */
  function Values(rs: seq<Record>, key: string, m: Metric): seq<real> {
    if rs == [] then []
    else
      var last := rs[|rs| - 1];
      Values(rs[..|rs| - 1], key, m) + (if DateKey(last) == key then [MetricValue(last, m)] else [])
  }

  /** The distinct date keys of the records. */
  function Keys(rs: seq<Record>): set<string> {
    if rs == [] then {} else Keys(rs[..|rs| - 1]) + {DateKey(rs[|rs| - 1])}
  }

  lemma {:induction false} InKeys(rs: seq<Record>, k: string)
    ensures k in Keys(rs) <==> exists i :: 0 <= i < |rs| && DateKey(rs[i]) == k
  {
    if rs != [] {
      var init, last := rs[..|rs| - 1], rs[|rs| - 1];
      assert Keys(rs) == Keys(init) + {DateKey(last)};
      InKeys(init, k);
      if k in Keys(rs) {
        if k != DateKey(last) {
          var i :| 0 <= i < |init| && DateKey(init[i]) == k;
          assert rs[i] == init[i];
        }
      } else {
        forall i | 0 <= i < |rs| ensures DateKey(rs[i]) != k {
          if i < |init| {
            assert rs[i] == init[i];
          }
        }
      }
    }
  }

  /** The date keys of the points. */
  function PointDates(ps: seq<TrendPoint>): set<string> {
    if ps == [] then {} else {ps[0].date} + PointDates(ps[1..])
  }

  lemma {:induction false} InPointDates(ps: seq<TrendPoint>, k: string)
    ensures k in PointDates(ps) <==> exists i :: 0 <= i < |ps| && ps[i].date == k
  {
    if ps != [] {
      InPointDates(ps[1..], k);
      if k in PointDates(ps[1..]) {
        var i :| 0 <= i < |ps[1..]| && ps[1..][i].date == k;
        assert ps[i + 1].date == k;
      }
      if exists i :: 0 <= i < |ps| && ps[i].date == k {
        var i :| 0 <= i < |ps| && ps[i].date == k;
        if i > 0 {
          assert ps[1..][i - 1].date == k;
        }
      }
    }
  }

  /** Each point's key is smaller, as text, than every key after it. */
  predicate StrictlyAscending(ps: seq<TrendPoint>) {
    forall i, j :: 0 <= i < j < |ps| ==> Less(ps[i].date, ps[j].date)
  }

  /** `ps` is the `m` series of `rs`: one point per date key, in ascending key order, valued at the day's mean. */
  predicate IsTrend(rs: seq<Record>, m: Metric, ps: seq<TrendPoint>) {
    && StrictlyAscending(ps)
    && PointDates(ps) == Keys(rs)
    && (forall i :: 0 <= i < |ps| ==> ps[i].value == Mean(Values(rs, ps[i].date, m)))
  }

  lemma {:induction false} ValuesAppend(a: seq<Record>, b: seq<Record>, key: string, m: Metric)
    ensures Values(a + b, key, m) == Values(a, key, m) + Values(b, key, m)
  {
    if b == [] {
      assert a + b == a;
    } else {
      assert (a + b)[..|a + b| - 1] == a + b[..|b| - 1];
      ValuesAppend(a, b[..|b| - 1], key, m);
    }
  }

  lemma ValuesSnoc(rs: seq<Record>, key: string, m: Metric)
    requires rs != []
    ensures Values(rs, key, m) == Values(rs[..|rs| - 1], key, m)
      + (if DateKey(rs[|rs| - 1]) == key then [MetricValue(rs[|rs| - 1], m)] else [])
  {
  }

  lemma {:induction false} ValuesOfAbsentKey(rs: seq<Record>, key: string, m: Metric)
    requires key !in Keys(rs)
    ensures Values(rs, key, m) == []
  {
    if rs != [] {
      ValuesOfAbsentKey(rs[..|rs| - 1], key, m);
    }
  }

  /** Removing the record at `j` removes its contribution, and nothing else, from the values of a day. */
  lemma ValuesRemoveAt(b: seq<Record>, j: int, key: string, m: Metric)
    requires 0 <= j < |b|
    ensures multiset(Values(b, key, m))
      == multiset(Values(b[..j] + b[j + 1..], key, m)) + multiset(Values([b[j]], key, m))
  {
    var l, x, r := b[..j], b[j], b[j + 1..];
    var vl, vx, vr := Values(l, key, m), Values([x], key, m), Values(r, key, m);
    assert b == (l + [x]) + r;
    assert Values(b, key, m) == (vl + vx) + vr by {
      ValuesAppend(l, [x], key, m);
      ValuesAppend(l + [x], r, key, m);
    }
    assert Values(l + r, key, m) == vl + vr by {
      ValuesAppend(l, r, key, m);
    }
    assert multiset((vl + vx) + vr) == multiset(vl + vr) + multiset(vx);
  }

  /** The values of one day do not depend on the order of the records, up to permutation. */
  lemma {:induction false} ValuesPermutation(a: seq<Record>, b: seq<Record>, key: string, m: Metric)
    requires multiset(a) == multiset(b)
    ensures multiset(Values(a, key, m)) == multiset(Values(b, key, m))
    decreases |a|
  {
    if a == [] {
      assert |b| == |multiset(b)| == 0;
    } else {
      var x := a[|a| - 1];
      var a' := a[..|a| - 1];
      assert a == a' + [x];
      assert multiset(a') == multiset(a) - multiset{x};
      assert x in multiset(b);
      var j :| 0 <= j < |b| && b[j] == x;
      MultisetRemoveAt(b, j);
      ValuesRemoveAt(b, j, key, m);
      ValuesPermutation(a', b[..j] + b[j + 1..], key, m);
      ValuesAppend(a', [x], key, m);
    }
  }

  /** The mean of one day does not depend on the order of the records. */
  lemma MeanOrderIndependent(a: seq<Record>, b: seq<Record>, key: string, m: Metric)
    requires multiset(a) == multiset(b)
    ensures Mean(Values(a, key, m)) == Mean(Values(b, key, m))
  {
    ValuesPermutation(a, b, key, m);
    SumPermutation(Values(a, key, m), Values(b, key, m));
    assert |Values(a, key, m)| == |multiset(Values(a, key, m))|;
  }

  /** A series computed from one order of the records is the series of any reordering of them. */
  lemma TrendOrderIndependent(a: seq<Record>, b: seq<Record>, m: Metric, ps: seq<TrendPoint>)
    requires multiset(a) == multiset(b)
    requires IsTrend(a, m, ps)
    ensures IsTrend(b, m, ps)
  {
    forall k ensures k in Keys(a) <==> k in Keys(b) {
      InKeys(a, k);
      InKeys(b, k);
      if k in Keys(a) {
        var i :| 0 <= i < |a| && DateKey(a[i]) == k;
        assert a[i] in multiset(b);
        var j :| 0 <= j < |b| && b[j] == a[i];
      }
      if k in Keys(b) {
        var j :| 0 <= j < |b| && DateKey(b[j]) == k;
        assert b[j] in multiset(a);
        var i :| 0 <= i < |a| && a[i] == b[j];
      }
    }
    forall i | 0 <= i < |ps| ensures ps[i].value == Mean(Values(b, ps[i].date, m)) {
      MeanOrderIndependent(a, b, ps[i].date, m);
    }
  }

  /** Two ascending series over the same keys list the keys in the same order. */
  lemma {:induction false} AscendingDatesUnique(p: seq<TrendPoint>, q: seq<TrendPoint>)
    requires StrictlyAscending(p) && StrictlyAscending(q)
    requires PointDates(p) == PointDates(q)
    ensures |p| == |q|
    ensures forall i :: 0 <= i < |p| ==> p[i].date == q[i].date
  {
    if p != [] && q != [] {
      InPointDates(q, p[0].date);
      var j :| 0 <= j < |q| && q[j].date == p[0].date;
      InPointDates(p, q[0].date);
      var i :| 0 <= i < |p| && p[i].date == q[0].date;
      if j > 0 {
        if i > 0 {
          LessAsymmetric(p[0].date, p[i].date);
        } else {
          LessIrreflexive(p[0].date);
        }
      }
      AscendingTailDates(p);
      AscendingTailDates(q);
      AscendingDatesUnique(p[1..], q[1..]);
    }
  }

  /** In an ascending series the first key does not come back. */
  lemma AscendingTailDates(p: seq<TrendPoint>)
    requires StrictlyAscending(p) && p != []
    ensures PointDates(p[1..]) == PointDates(p) - {p[0].date}
  {
    InPointDates(p[1..], p[0].date);
    if p[0].date in PointDates(p[1..]) {
      var t :| 0 <= t < |p[1..]| && p[1..][t].date == p[0].date;
      assert p[t + 1].date == p[0].date;
      LessIrreflexive(p[0].date);
    }
  }

  /** A series is determined by the records and the metric: there is only one. */
  lemma TrendUnique(rs: seq<Record>, m: Metric, p: seq<TrendPoint>, q: seq<TrendPoint>)
    requires IsTrend(rs, m, p) && IsTrend(rs, m, q)
    ensures p == q
  {
    AscendingDatesUnique(p, q);
  }

  /** No records, no points. */
  lemma EmptyTrend(m: Metric, ps: seq<TrendPoint>)
    requires IsTrend([], m, ps)
    ensures ps == []
  {
  }

  /** The points follow the calendar: each key names a record's date, earlier days first. */
  lemma TrendChronological(rs: seq<Record>, m: Metric, ps: seq<TrendPoint>, i: int, j: int)
    requires IsTrend(rs, m, ps)
    requires 0 <= i < j < |ps|
    ensures Parse(ps[i].date).Some? && Parse(ps[j].date).Some?
    ensures Before(Parse(ps[i].date).value, Parse(ps[j].date).value)
  {
    InPointDates(ps, ps[i].date);
    InPointDates(ps, ps[j].date);
    InKeys(rs, ps[i].date);
    InKeys(rs, ps[j].date);
    var s :| 0 <= s < |rs| && DateKey(rs[s]) == ps[i].date;
    var t :| 0 <= t < |rs| && DateKey(rs[t]) == ps[j].date;
    FormatParse(rs[s].assessmentDate);
    FormatParse(rs[t].assessmentDate);
    FormatOrder(rs[s].assessmentDate, rs[t].assessmentDate);
  }

  /** Every point's mean lies within bounds that every record's value respects. */
  lemma TrendValuesWithin(rs: seq<Record>, m: Metric, ps: seq<TrendPoint>, lo: real, hi: real)
    requires IsTrend(rs, m, ps)
    requires forall i :: 0 <= i < |rs| ==> lo <= MetricValue(rs[i], m) <= hi
    ensures forall i :: 0 <= i < |ps| ==> lo <= ps[i].value <= hi
  {
    forall i | 0 <= i < |ps| ensures lo <= ps[i].value <= hi {
      InPointDates(ps, ps[i].date);
      InKeys(rs, ps[i].date);
      var s :| 0 <= s < |rs| && DateKey(rs[s]) == ps[i].date;
      ValuesWithin(rs, ps[i].date, m, lo, hi);
      ValuesNonEmpty(rs, s, m);
      MeanBetween(Values(rs, ps[i].date, m), lo, hi);
    }
  }

  lemma {:induction false} ValuesWithin(rs: seq<Record>, key: string, m: Metric, lo: real, hi: real)
    requires forall i :: 0 <= i < |rs| ==> lo <= MetricValue(rs[i], m) <= hi
    ensures forall i :: 0 <= i < |Values(rs, key, m)| ==> lo <= Values(rs, key, m)[i] <= hi
  {
    if rs != [] {
      ValuesWithin(rs[..|rs| - 1], key, m, lo, hi);
    }
  }

  /** A day that some record carries has at least one value. */
  lemma {:induction false} ValuesNonEmpty(rs: seq<Record>, s: int, m: Metric)
    requires 0 <= s < |rs|
    ensures |Values(rs, DateKey(rs[s]), m)| > 0
  {
    if s < |rs| - 1 {
      ValuesNonEmpty(rs[..|rs| - 1], s, m);
    }
  }

  /** The points with `p` put in its place by key. */
  function InsertPoint(ps: seq<TrendPoint>, p: TrendPoint): (r: seq<TrendPoint>)
    ensures |r| == |ps| + 1
  {
    if ps == [] || Less(p.date, ps[0].date) then [p] + ps
    else [ps[0]] + InsertPoint(ps[1..], p)
  }

  /** Inserting a point with a new key keeps the series ascending and adds exactly that point. */
  lemma {:induction false} InsertPointAscending(ps: seq<TrendPoint>, p: TrendPoint)
    requires StrictlyAscending(ps)
    requires p.date !in PointDates(ps)
    ensures StrictlyAscending(InsertPoint(ps, p))
    ensures PointDates(InsertPoint(ps, p)) == PointDates(ps) + {p.date}
    ensures forall i :: 0 <= i < |InsertPoint(ps, p)| ==> InsertPoint(ps, p)[i] == p || InsertPoint(ps, p)[i] in ps
  {
    InsertPointMembers(ps, p);
    InsertPointDates(ps, p);
    if ps == [] {
    } else if Less(p.date, ps[0].date) {
      forall j | 0 <= j < |ps| ensures Less(p.date, ps[j].date) {
        if j > 0 {
          LessTransitive(p.date, ps[0].date, ps[j].date);
        }
      }
      AscendingCons(p, ps);
    } else {
      InPointDates(ps, ps[0].date);
      LessTotal(p.date, ps[0].date);
      AscendingTailDates(ps);
      AscendingTail(ps);
      InsertPointAscending(ps[1..], p);
      var rest := InsertPoint(ps[1..], p);
      forall j | 0 <= j < |rest| ensures Less(ps[0].date, rest[j].date) {
        if rest[j] != p {
          var t :| 0 <= t < |ps[1..]| && ps[1..][t] == rest[j];
          assert ps[t + 1] == rest[j];
        }
      }
      AscendingCons(ps[0], rest);
    }
  }

  /** A point before every point of an ascending series can lead it. */
  lemma AscendingCons(x: TrendPoint, ps: seq<TrendPoint>)
    requires StrictlyAscending(ps)
    requires forall j :: 0 <= j < |ps| ==> Less(x.date, ps[j].date)
    ensures StrictlyAscending([x] + ps)
  {
    var r := [x] + ps;
    forall i, j | 0 <= i < j < |r| ensures Less(r[i].date, r[j].date) {
      assert r[j] == ps[j - 1];
      if i > 0 {
        assert r[i] == ps[i - 1];
      }
    }
  }

  lemma AscendingTail(ps: seq<TrendPoint>)
    requires StrictlyAscending(ps) && ps != []
    ensures StrictlyAscending(ps[1..])
  {
    forall i, j | 0 <= i < j < |ps[1..]| ensures Less(ps[1..][i].date, ps[1..][j].date) {
      assert ps[1..][i] == ps[i + 1] && ps[1..][j] == ps[j + 1];
    }
  }

  /** Every point after an insertion is the new one or an old one. */
  lemma {:induction false} InsertPointMembers(ps: seq<TrendPoint>, p: TrendPoint)
    ensures forall i :: 0 <= i < |InsertPoint(ps, p)| ==> InsertPoint(ps, p)[i] == p || InsertPoint(ps, p)[i] in ps
  {
    if ps != [] && !Less(p.date, ps[0].date) {
      InsertPointMembers(ps[1..], p);
      var rest := InsertPoint(ps[1..], p);
      assert InsertPoint(ps, p)[1..] == rest;
      forall j | 0 <= j < |rest| ensures rest[j] == p || rest[j] in ps {
        if rest[j] != p {
          assert rest[j] in ps[1..];
        }
      }
    }
  }

  /** An insertion adds the new point's key to the keys. */
  lemma {:induction false} InsertPointDates(ps: seq<TrendPoint>, p: TrendPoint)
    ensures PointDates(InsertPoint(ps, p)) == PointDates(ps) + {p.date}
  {
    if ps != [] && !Less(p.date, ps[0].date) {
      InsertPointDates(ps[1..], p);
      assert InsertPoint(ps, p)[1..] == InsertPoint(ps[1..], p);
    } else {
      assert ([p] + ps)[1..] == ps;
    }
  }

  /**
    * `generateTrendData(assessments, type)`: group the metric values in a map keyed by date,
    * then turn every entry into a point and sort the points by key.
    */
  method GenerateTrendData(rs: seq<Record>, m: Metric) returns (points: seq<TrendPoint>)
    ensures IsTrend(rs, m, points)
  {
    if |rs| == 0 {
      return [];
    }
    var grouped := GroupByDate(rs, m);
    points := AveragedPoints(grouped);
    forall i | 0 <= i < |points| ensures points[i].value == Mean(Values(rs, points[i].date, m)) {
      assert points[i] in points;
    }
  }

  /** Every point is keyed by an entry of the map and valued at that entry's mean. */
  predicate AveragedFrom(points: seq<TrendPoint>, grouped: map<string, seq<real>>) {
    forall q :: q in points ==> q.date in grouped && q.value == Mean(grouped[q.date])
  }

  lemma InsertAveraged(points: seq<TrendPoint>, p: TrendPoint, grouped: map<string, seq<real>>)
    requires StrictlyAscending(points) && p.date !in PointDates(points)
    requires AveragedFrom(points, grouped)
    requires p.date in grouped && p.value == Mean(grouped[p.date])
    ensures AveragedFrom(InsertPoint(points, p), grouped)
  {
    var r := InsertPoint(points, p);
    InsertPointAscending(points, p);
    forall q | q in r ensures q.date in grouped && q.value == Mean(grouped[q.date]) {
      var i :| 0 <= i < |r| && r[i] == q;
    }
  }

  /** The stream over the map's entries: one point per key, valued at the entry's mean, sorted by key. */
  method AveragedPoints(grouped: map<string, seq<real>>) returns (points: seq<TrendPoint>)
    ensures StrictlyAscending(points)
    ensures PointDates(points) == grouped.Keys
    ensures AveragedFrom(points, grouped)
  {
    var remaining := grouped.Keys;
    points := [];
    while remaining != {}
      invariant remaining <= grouped.Keys
      invariant StrictlyAscending(points)
      invariant PointDates(points) == grouped.Keys - remaining
      invariant AveragedFrom(points, grouped)
      decreases |remaining|
    {
      var k :| k in remaining;
      var p := TrendPoint(k, Mean(grouped[k]));
      InsertPointAscending(points, p);
      InsertAveraged(points, p, grouped);
      points := InsertPoint(points, p);
      remaining := remaining - {k};
    }
  }

  /** The grouping loop: each date key maps to the metric values of that day, in record order. */
  method GroupByDate(rs: seq<Record>, m: Metric) returns (grouped: map<string, seq<real>>)
    ensures grouped.Keys == Keys(rs)
    ensures forall k :: k in grouped ==> grouped[k] == Values(rs, k, m)
  {
    grouped := map[];
    for i := 0 to |rs|
      invariant grouped.Keys == Keys(rs[..i])
      invariant forall k :: k in grouped ==> grouped[k] == Values(rs[..i], k, m)
    {
      var key := DateKey(rs[i]);
      ghost var prev := grouped;
      if key !in grouped {
        grouped := grouped[key := []];
      }
      grouped := grouped[key := grouped[key] + [MetricValue(rs[i], m)]];
      assert grouped == prev[key := (if key in prev then prev[key] else []) + [MetricValue(rs[i], m)]];
      GroupSnoc(rs[..i], rs[i], m, prev);
      assert rs[..i + 1] == rs[..i] + [rs[i]];
    }
    assert rs[..|rs|] == rs;
  }

  /** One more record appends its value to its date's list, creating the list on the date's first record. */
  lemma GroupSnoc(init: seq<Record>, r: Record, m: Metric, prev: map<string, seq<real>>)
    requires prev.Keys == Keys(init)
    requires forall k :: k in prev ==> prev[k] == Values(init, k, m)
    ensures var key := DateKey(r);
      var next := prev[key := (if key in prev then prev[key] else []) + [MetricValue(r, m)]];
      && next.Keys == Keys(init + [r])
      && forall k :: k in next ==> next[k] == Values(init + [r], k, m)
  {
    var key, rs := DateKey(r), init + [r];
    var next := prev[key := (if key in prev then prev[key] else []) + [MetricValue(r, m)]];
    assert rs[..|rs| - 1] == init && rs[|rs| - 1] == r;
    assert Keys(rs) == Keys(init) + {key};
    forall k | k in next ensures next[k] == Values(rs, k, m) {
      ValuesSnoc(rs, k, m);
      if k == key && key !in prev {
        ValuesOfAbsentKey(init, k, m);
      }
    }
  }

  /** Two skill rates of 85 and 70 recorded on one day make a single point of 77.5 for that day. */
  lemma SameDayAveraged(a: Record, b: Record, ps: seq<TrendPoint>)
    requires a.assessmentDate == b.assessmentDate
    requires a.skillCompletionRate == 85.0 && b.skillCompletionRate == 70.0
    requires IsTrend([a, b], Skill, ps)
    ensures ps == [TrendPoint(DateKey(a), 77.5)]
  {
    assert [a, b][..1] == [a];
    assert [a][..0] == [];
    assert Keys([a]) == {DateKey(a)};
    assert Keys([a, b]) == {DateKey(a)};
    assert Values([a], DateKey(a), Skill) == [85.0];
    assert Values([a, b], DateKey(a), Skill) == [85.0, 70.0];
    assert IsTrend([a, b], Skill, [TrendPoint(DateKey(a), 77.5)]) by {
      var q := [TrendPoint(DateKey(a), 77.5)];
      assert q[1..] == [];
      assert Mean([85.0, 70.0]) == 77.5 by {
        assert [85.0, 70.0][..1] == [85.0];
        assert [85.0][..0] == [];
      }
    }
    TrendUnique([a, b], Skill, ps, [TrendPoint(DateKey(a), 77.5)]);
  }
}
