/**
  * `ReportService`: the content and layout of the PDF statistics report, as a sequence of
  * abstract elements (heading paragraphs, text paragraphs and flat tables of cells). Fonts,
  * alignment, spacing, colours and the byte output are not part of the model; a number printed
  * with `String.format("%.Nf")` stays an abstract span.
  */
module Report {
  import opened Wrappers
  import opened Text
  import opened Dates
  import opened Entity
  import opened Trends
  import opened Seqs
  import opened Service

  /** A run of text: literal characters, or a real printed to a fixed number of decimals. */
  datatype Span = Literal(text: string) | Fixed(value: real, places: nat)

  type Line = seq<Span>

  /** A `PdfPCell`: grey header cells and plain data cells. */
  datatype TableCell = HeaderCell(content: Line) | DataCell(content: Line)

  /**
    * What `document.add` receives: a paragraph set in the title or header font, a paragraph of
    * content text, or a `PdfPTable` with its column count and its cells in the order added.
    */
  datatype Element =
    | Heading(title: string)
    | Paragraph(content: Line)
    | Table(columns: nat, cells: seq<TableCell>)

  /** The iText document being written: the elements added so far, in order. */
  class Document {
    var elements: seq<Element>

    constructor ()
      ensures elements == []
    {
      elements := [];
    }

    method Add(e: Element)
      modifies this
      ensures elements == old(elements) + [e]
    {
      elements := elements + [e];
    }
  }

  const ReportTitle := "评估系统统计报告"
  const SummaryHeading := "一、数据概述"
  const DetailHeading := "二、详细评估记录"
  const AnalysisHeading := "三、数据分析"
  const RecommendationHeading := "四、改进建议"
  const NoDataNotice := "暂无评估数据"
  const SimpleTitle := "Assessment System Report"
  const SimpleSummaryHeading := "Summary Statistics:"

  /** `LocalDateTime.format` with `yyyy年MM月dd日 HH:mm:ss`. */
  function ChineseStamp(t: Timestamp): string {
    Pad(t.date.year, 4) + "年" + Pad(t.date.month, 2) + "月" + Pad(t.date.day, 2) + "日 "
    + Pad(t.hour, 2) + ":" + Pad(t.minute, 2) + ":" + Pad(t.second, 2)
  }

  /** `LocalDateTime.format` with `yyyy-MM-dd HH:mm:ss`. */
  function IsoStamp(t: Timestamp): string {
    Format(t.date) + " " + Pad(t.hour, 2) + ":" + Pad(t.minute, 2) + ":" + Pad(t.second, 2)
  }

  /** The title and the generation-time paragraph that open the main report. */
  function Opening(now: Timestamp): seq<Element> {
    [Heading(ReportTitle), Paragraph([Literal("报告生成时间: " + ChineseStamp(now))])]
  }

  /** `addTableRow`: a label cell and a value cell. */
  function TableRow(caption: string, value: Line): seq<TableCell> {
    [DataCell([Literal(caption)]), DataCell(value)]
  }

  /** The four label/value pairs of the summary table, without its header row. */
  function SummaryRows(s: Statistics): seq<TableCell> {
    TableRow("纪律遵守度", [Fixed(s.averageDisciplineScore, 2), Literal(" 分")])
    + TableRow("技能达标率", [Fixed(s.averageSkillCompletionRate, 1), Literal("%")])
    + TableRow("任务完成率", [Fixed(s.averageTaskCompletionRate, 1), Literal("%")])
    + TableRow("评估总数", [Literal(IntToString(s.totalAssessments) + " 条")])
  }

  function SummarySection(s: Statistics): seq<Element> {
    [Heading(SummaryHeading),
     Table(2, [HeaderCell([Literal("评估项目")]), HeaderCell([Literal("平均分/完成率")])] + SummaryRows(s))]
  }

  /**
    * The summary table has two columns: a header row, then one labelled row each for discipline
    * to two decimals with " 分", skill and task to one decimal with a percent sign, and the
    * record count with " 条", in that order.
    */
  lemma SummaryTableLayout(s: Statistics)
    ensures var t := SummarySection(s)[1];
      && t.Table? && t.columns == 2 && |t.cells| == 2 * 5
      && t.cells[0] == HeaderCell([Literal("评估项目")]) && t.cells[1] == HeaderCell([Literal("平均分/完成率")])
      && (forall k :: 2 <= k < |t.cells| ==> t.cells[k].DataCell?)
      && t.cells[2].content == [Literal("纪律遵守度")] && t.cells[4].content == [Literal("技能达标率")]
      && t.cells[6].content == [Literal("任务完成率")] && t.cells[8].content == [Literal("评估总数")]
      && t.cells[3].content == [Fixed(s.averageDisciplineScore, 2), Literal(" 分")]
      && t.cells[5].content == [Fixed(s.averageSkillCompletionRate, 1), Literal("%")]
      && t.cells[7].content == [Fixed(s.averageTaskCompletionRate, 1), Literal("%")]
      && t.cells[9].content == [Literal(IntToString(s.totalAssessments) + " 条")]
  {
  }

  /** `addSummarySection`: the heading, then the table filled row by row. */
  method AddSummarySection(doc: Document, s: Statistics)
    modifies doc
    ensures doc.elements == old(doc.elements) + SummarySection(s)
  {
    doc.Add(Heading(SummaryHeading));
    var cells: seq<TableCell> := [];
    cells := cells + [HeaderCell([Literal("评估项目")])];
    cells := cells + [HeaderCell([Literal("平均分/完成率")])];
    ghost var header := cells;
    var discipline := TableRow("纪律遵守度", [Fixed(s.averageDisciplineScore, 2), Literal(" 分")]);
    var skill := TableRow("技能达标率", [Fixed(s.averageSkillCompletionRate, 1), Literal("%")]);
    var task := TableRow("任务完成率", [Fixed(s.averageTaskCompletionRate, 1), Literal("%")]);
    var total := TableRow("评估总数", [Literal(IntToString(s.totalAssessments) + " 条")]);
    cells := cells + discipline;
    cells := cells + skill;
    cells := cells + task;
    cells := cells + total;
    assert SummaryRows(s) == discipline + skill + task + total;
    assert cells == header + (discipline + skill + task + total);
    assert Table(2, cells) == SummarySection(s)[1];
    doc.Add(Table(2, cells));
  }

  const DetailHeaders: seq<string> := ["学生姓名", "评估日期", "纪律遵守度", "技能达标率", "已完成任务", "总任务数"]

  function HeaderCells(titles: seq<string>): (cells: seq<TableCell>)
    ensures |cells| == |titles|
    ensures forall k :: 0 <= k < |titles| ==> cells[k] == HeaderCell([Literal(titles[k])])
  {
    seq(|titles|, k requires 0 <= k < |titles| => HeaderCell([Literal(titles[k])]))
  }

  /** The six cells of one record: name, date, score out of 5, skill rate, completed and total tasks. */
  function RecordCells(r: Record): seq<TableCell> {
    [DataCell([Literal(r.studentName)]),
     DataCell([Literal(Format(r.assessmentDate))]),
     DataCell([Literal(IntToString(r.disciplineScore) + "/5")]),
     DataCell([Fixed(r.skillCompletionRate, 1), Literal("%")]),
     DataCell([Literal(IntToString(r.tasksCompleted))]),
     DataCell([Literal(IntToString(r.totalTasks))])]
  }

  function DetailCells(rs: seq<Record>): seq<TableCell> {
    if rs == [] then [] else DetailCells(rs[..|rs| - 1]) + RecordCells(rs[|rs| - 1])
  }

  /** Six data cells per record, record `i`'s cells at positions `6 i` to `6 i + 5`, in fetch order. */
  lemma {:induction false} DetailCellsLayout(rs: seq<Record>)
    ensures |DetailCells(rs)| == 6 * |rs|
    ensures forall i, k :: 0 <= i < |rs| && 0 <= k < 6 ==> DetailCells(rs)[6 * i + k] == RecordCells(rs[i])[k]
  {
    if rs != [] {
      var init := rs[..|rs| - 1];
      DetailCellsLayout(init);
      forall i, k | 0 <= i < |rs| && 0 <= k < 6
        ensures DetailCells(rs)[6 * i + k] == RecordCells(rs[i])[k]
      {
        if i < |rs| - 1 {
          assert rs[i] == init[i];
        }
      }
    }
  }

  /** The detail section: a lone notice for no records, otherwise its heading and the six-column table. */
  function DetailSection(rs: seq<Record>): seq<Element> {
    if rs == [] then [Paragraph([Literal(NoDataNotice)])]
    else [Heading(DetailHeading), Table(6, HeaderCells(DetailHeaders) + DetailCells(rs))]
  }

  /**
    * With records, the detail table has six header cells in the fixed order and then one row of
    * six data cells per record; without records there is no heading and no table.
    */
  lemma DetailSectionLayout(rs: seq<Record>)
    ensures rs == [] ==> DetailSection(rs) == [Paragraph([Literal(NoDataNotice)])]
    ensures rs != [] ==>
      var t := DetailSection(rs)[1];
      && DetailSection(rs)[0] == Heading(DetailHeading)
      && t.Table? && t.columns == 6 && |t.cells| == 6 * (|rs| + 1)
      && (forall k :: 0 <= k < 6 ==> t.cells[k] == HeaderCell([Literal(DetailHeaders[k])]))
      && (forall i, k :: 0 <= i < |rs| && 0 <= k < 6 ==> t.cells[6 * (i + 1) + k] == RecordCells(rs[i])[k])
  {
    if rs != [] {
      var h, d := HeaderCells(DetailHeaders), DetailCells(rs);
      DetailCellsLayout(rs);
      var t := DetailSection(rs)[1];
      assert t.cells == h + d && |h| == 6;
      forall i, k | 0 <= i < |rs| && 0 <= k < 6
        ensures t.cells[6 * (i + 1) + k] == RecordCells(rs[i])[k]
      {
        var p := 6 * i + k;
        assert 6 * (i + 1) + k == 6 + p;
        assert t.cells[6 + p] == d[p];
      }
    }
  }

  /** The detail cells of one more record are that record's six cells appended. */
  lemma DetailCellsSnoc(rs: seq<Record>, i: int)
    requires 0 <= i < |rs|
    ensures DetailCells(rs[..i + 1]) == DetailCells(rs[..i]) + RecordCells(rs[i])
  {
    assert rs[..i + 1][..i] == rs[..i];
  }

  /** `addDetailTable` over the records `getAllAssessments()` returned. */
  method AddDetailTable(doc: Document, records: seq<Record>)
    modifies doc
    ensures doc.elements == old(doc.elements) + DetailSection(records)
  {
    if |records| == 0 {
      doc.Add(Paragraph([Literal(NoDataNotice)]));
      return;
    }
    doc.Add(Heading(DetailHeading));
    var cells := AddHeaderCells([], DetailHeaders);
    for i := 0 to |records|
      invariant cells == HeaderCells(DetailHeaders) + DetailCells(records[..i])
      invariant doc.elements == old(doc.elements) + [Heading(DetailHeading)]
    {
      ghost var prefix := DetailCells(records[..i]);
      cells := AddRecordCells(cells, records[i]);
      DetailCellsSnoc(records, i);
      AppendAssociative(HeaderCells(DetailHeaders), prefix, RecordCells(records[i]));
    }
    assert records[..|records|] == records;
    doc.Add(Table(6, cells));
  }

  /** The header loop of `addDetailTable`: one grey cell per title, in order. */
  method AddHeaderCells(cells: seq<TableCell>, titles: seq<string>) returns (cells': seq<TableCell>)
    ensures cells' == cells + HeaderCells(titles)
  {
    cells' := cells;
    for k := 0 to |titles|
      invariant cells' == cells + HeaderCells(titles[..k])
    {
      cells' := cells' + [HeaderCell([Literal(titles[k])])];
    }
    assert titles[..|titles|] == titles;
  }

  /** The six `addCell` calls for one record. */
  method AddRecordCells(cells: seq<TableCell>, r: Record) returns (cells': seq<TableCell>)
    ensures cells' == cells + RecordCells(r)
  {
    cells' := cells + [DataCell([Literal(r.studentName)])];
    cells' := cells' + [DataCell([Literal(Format(r.assessmentDate))])];
    cells' := cells' + [DataCell([Literal(IntToString(r.disciplineScore) + "/5")])];
    cells' := cells' + [DataCell([Fixed(r.skillCompletionRate, 1), Literal("%")])];
    cells' := cells' + [DataCell([Literal(IntToString(r.tasksCompleted))])];
    cells' := cells' + [DataCell([Literal(IntToString(r.totalTasks))])];
  }

  /** The qualitative verdict the analysis attaches to an average. */
  datatype Tier = Excellent | Good | Fair | NeedsImprovement

  /** How good a tier is: 3 for excellent down to 0 for needs-improvement. */
  function Standing(t: Tier): nat {
    match t
    case Excellent => 3
    case Good => 2
    case Fair => 1
    case NeedsImprovement => 0
  }

  /** The discipline verdict: excellent from 4.0, good from 3.0, and no middle "fair" band. */
  function DisciplineTier(score: real): (t: Tier)
    ensures t != Fair
    ensures t == Excellent <==> score >= 4.0
    ensures t == Good <==> 3.0 <= score < 4.0
    ensures t == NeedsImprovement <==> score < 3.0
  {
    if score >= 4.0 then Excellent else if score >= 3.0 then Good else NeedsImprovement
  }

  /** The skill and task verdict: excellent from 90, good from 80, fair from 70. */
  function RateTier(rate: real): (t: Tier)
    ensures t == Excellent <==> rate >= 90.0
    ensures t == Good <==> 80.0 <= rate < 90.0
    ensures t == Fair <==> 70.0 <= rate < 80.0
    ensures t == NeedsImprovement <==> rate < 70.0
  {
    if rate >= 90.0 then Excellent else if rate >= 80.0 then Good else if rate >= 70.0 then Fair else NeedsImprovement
  }

  /** A higher average never earns a worse verdict. */
  lemma TiersMonotone(a: real, b: real)
    requires a <= b
    ensures Standing(DisciplineTier(a)) <= Standing(DisciplineTier(b))
    ensures Standing(RateTier(a)) <= Standing(RateTier(b))
  {
  }

  /** The remark that follows an average in the analysis, by metric and verdict. */
  function Remark(m: Metric, t: Tier): string {
    match m
    case Discipline => (match t case Excellent => "，整体表现优秀" case Good => "，整体表现良好" case _ => "，需要改进")
    case Skill => (match t
                   case Excellent => "，技能掌握优秀"
                   case Good => "，技能掌握良好"
                   case Fair => "，技能掌握一般"
                   case NeedsImprovement => "，需要加强技能训练")
    case Task => (match t
                  case Excellent => "，执行能力优秀"
                  case Good => "，执行能力良好"
                  case Fair => "，执行能力一般"
                  case NeedsImprovement => "，需要提升执行能力")
  }

  /** The opening sentence of the analysis, which counts the records. */
  function AnalysisIntroduction(s: Statistics): Line {
    [Literal("基于当前"), Literal(IntToString(s.totalAssessments)), Literal("条评估记录的分析结果：\n\n")]
  }

  /** One metric's sentence: its caption, the average, its unit and the remark for its verdict. */
  function MetricSentence(m: Metric, average: real): Line {
    match m
    case Discipline =>
      [Literal("1. 纪律表现：平均"), Fixed(average, 2), Literal("分"), Literal(Remark(m, DisciplineTier(average)))]
    case Skill =>
      [Literal("2. 技能发展：平均达标率"), Fixed(average, 1), Literal("%"), Literal(Remark(m, RateTier(average)))]
    case Task =>
      [Literal("3. 任务执行：平均完成率"), Fixed(average, 1), Literal("%"), Literal(Remark(m, RateTier(average)))]
  }

  /** The analysis paragraph, one span per `StringBuilder.append`. */
  function AnalysisText(s: Statistics): Line {
    AnalysisIntroduction(s)
    + MetricSentence(Discipline, s.averageDisciplineScore) + [Literal("\n\n")]
    + MetricSentence(Skill, s.averageSkillCompletionRate) + [Literal("\n\n")]
    + MetricSentence(Task, s.averageTaskCompletionRate)
  }

  function AnalysisSection(s: Statistics): seq<Element> {
    [Heading(AnalysisHeading), Paragraph(AnalysisText(s))]
  }

  /** The advice lines of `addRecommendations`, in the order they can appear. */
  datatype Advice =
    | TightenDiscipline
    | RefineSkillTraining
    | ImproveTaskAssignment
    | AssessMoreOften
    | ReviewRegularly
    | RewardExcellence

  function Position(a: Advice): nat {
    match a
    case TightenDiscipline => 0
    case RefineSkillTraining => 1
    case ImproveTaskAssignment => 2
    case AssessMoreOften => 3
    case ReviewRegularly => 4
    case RewardExcellence => 5
  }

  /** The text appended for each advice; every line but the closing one ends in a newline. */
  function AdviceText(a: Advice): string {
    match a
    case TightenDiscipline => "• 加强纪律管理，建立更完善的行为规范体系\n"
    case RefineSkillTraining => "• 优化技能培训方案，增加实践操作机会\n"
    case ImproveTaskAssignment => "• 改进任务分配机制，提供更多支持和指导\n"
    case AssessMoreOften => "• 建议增加评估频次，获得更全面的数据支撑\n"
    case ReviewRegularly => "• 定期回顾评估结果，持续优化管理策略\n"
    case RewardExcellence => "• 建立激励机制，鼓励优秀表现"
  }

  /** Every advice line in its fixed order. */
  const AllAdvice: seq<Advice> := [TightenDiscipline, RefineSkillTraining, ImproveTaskAssignment,
                                   AssessMoreOften, ReviewRegularly, RewardExcellence]

  /** Whether the snapshot calls for an advice line: a shortfall for the targeted ones, always for the last two. */
  predicate Applies(s: Statistics, a: Advice) {
    match a
    case TightenDiscipline => s.averageDisciplineScore < 4.0
    case RefineSkillTraining => s.averageSkillCompletionRate < 85.0
    case ImproveTaskAssignment => s.averageTaskCompletionRate < 85.0
    case AssessMoreOften => s.totalAssessments < 10
    case ReviewRegularly => true
    case RewardExcellence => true
  }

  predicate InOrder(r: seq<Advice>) {
    forall i, j :: 0 <= i < j < |r| ==> Position(r[i]) < Position(r[j])
  }

  /** The lines of `pool` that apply to the snapshot, keeping the pool's order. */
  function Select(s: Statistics, pool: seq<Advice>): (r: seq<Advice>)
    ensures |r| <= |pool|
  {
    if pool == [] then [] else When(Applies(s, pool[0]), pool[0]) + Select(s, pool[1..])
  }

  /** A line is selected exactly when it is in the pool and applies. */
  lemma {:induction false} SelectMembers(s: Statistics, pool: seq<Advice>, a: Advice)
    ensures a in Select(s, pool) <==> a in pool && Applies(s, a)
  {
    if pool != [] {
      SelectMembers(s, pool[1..], a);
      assert pool == [pool[0]] + pool[1..];
    }
  }

  /** Selecting keeps the pool's order. */
  lemma {:induction false} SelectInOrder(s: Statistics, pool: seq<Advice>)
    requires InOrder(pool)
    ensures InOrder(Select(s, pool))
  {
    if pool != [] {
      var rest := Select(s, pool[1..]);
      SelectInOrder(s, pool[1..]);
      forall a | a in rest ensures Position(pool[0]) < Position(a) {
        SelectMembers(s, pool[1..], a);
        var k :| 0 <= k < |pool[1..]| && pool[1..][k] == a;
        assert pool[k + 1] == a;
      }
      var r := When(Applies(s, pool[0]), pool[0]) + rest;
      forall i, j | 0 <= i < j < |r| ensures Position(r[i]) < Position(r[j]) {
        if Applies(s, pool[0]) && i == 0 {
          assert r[j] in rest;
        }
      }
    }
  }

  /**
    * The advice for a statistics snapshot: each targeted line exactly when its average or count
    * falls short, in the fixed order, and the two standing lines always last.
    */
  function Recommendations(s: Statistics): (r: seq<Advice>)
    ensures TightenDiscipline in r <==> s.averageDisciplineScore < 4.0
    ensures RefineSkillTraining in r <==> s.averageSkillCompletionRate < 85.0
    ensures ImproveTaskAssignment in r <==> s.averageTaskCompletionRate < 85.0
    ensures AssessMoreOften in r <==> s.totalAssessments < 10
    ensures InOrder(r)
  {
    SelectMembers(s, AllAdvice, TightenDiscipline);
    SelectMembers(s, AllAdvice, RefineSkillTraining);
    SelectMembers(s, AllAdvice, ImproveTaskAssignment);
    SelectMembers(s, AllAdvice, AssessMoreOften);
    SelectInOrder(s, AllAdvice);
    Select(s, AllAdvice)
  }

  /** Between two and six lines, and the two standing lines close the list. */
  lemma RecommendationsShape(s: Statistics)
    ensures var r := Recommendations(s);
      2 <= |r| <= 6 && r[|r| - 2..] == [ReviewRegularly, RewardExcellence]
  {
    RecommendationsUnfolded(s);
  }

  function When(condition: bool, a: Advice): seq<Advice> {
    if condition then [a] else []
  }

  lemma SelectStep(s: Statistics, pool: seq<Advice>)
    requires pool != []
    ensures Select(s, pool) == When(Applies(s, pool[0]), pool[0]) + Select(s, pool[1..])
  {
  }

  /** The selection written out as the four conditional lines followed by the two standing ones. */
  lemma RecommendationsUnfolded(s: Statistics)
    ensures Recommendations(s)
      == When(s.averageDisciplineScore < 4.0, TightenDiscipline)
         + When(s.averageSkillCompletionRate < 85.0, RefineSkillTraining)
         + When(s.averageTaskCompletionRate < 85.0, ImproveTaskAssignment)
         + When(s.totalAssessments < 10, AssessMoreOften)
         + [ReviewRegularly, RewardExcellence]
  {
    var pool := AllAdvice;
    var w0 := When(s.averageDisciplineScore < 4.0, TightenDiscipline);
    var w1 := When(s.averageSkillCompletionRate < 85.0, RefineSkillTraining);
    var w2 := When(s.averageTaskCompletionRate < 85.0, ImproveTaskAssignment);
    var w3 := When(s.totalAssessments < 10, AssessMoreOften);
    var standing := [ReviewRegularly, RewardExcellence];
    assert Select(s, pool[5..]) == [RewardExcellence] by {
      SelectStep(s, pool[5..]);
      assert pool[5..][1..] == [];
    }
    assert Select(s, pool[4..]) == standing by {
      SelectStep(s, pool[4..]);
      assert pool[4..][1..] == pool[5..];
    }
    assert Select(s, pool[3..]) == w3 + standing by {
      SelectStep(s, pool[3..]);
      assert pool[3..][1..] == pool[4..];
    }
    assert Select(s, pool[2..]) == w2 + (w3 + standing) by {
      SelectStep(s, pool[2..]);
      assert pool[2..][1..] == pool[3..];
    }
    assert Select(s, pool[1..]) == w1 + (w2 + (w3 + standing)) by {
      SelectStep(s, pool[1..]);
      assert pool[1..][1..] == pool[2..];
    }
    assert Select(s, pool) == w0 + (w1 + (w2 + (w3 + standing))) by {
      SelectStep(s, pool);
    }
    AppendAssociative(w2, w3, standing);
    AppendAssociative(w1, w2 + w3, standing);
    AppendAssociative(w0, w1 + w2 + w3, standing);
    AppendAssociative(w1, w2, w3);
    AppendAssociative(w0, w1 + w2, w3);
    AppendAssociative(w0, w1, w2);
  }

  function AdviceLines(r: seq<Advice>): (l: Line)
    ensures |l| == |r|
    ensures forall i :: 0 <= i < |r| ==> l[i] == Literal(AdviceText(r[i]))
  {
    seq(|r|, i requires 0 <= i < |r| => Literal(AdviceText(r[i])))
  }

  function RecommendationSection(s: Statistics): seq<Element> {
    [Heading(RecommendationHeading), Paragraph(AdviceLines(Recommendations(s)))]
  }

  /** Discipline advice is given exactly when the discipline verdict is not excellent. */
  lemma DisciplineAdviceUnlessExcellent(s: Statistics)
    ensures TightenDiscipline in Recommendations(s) <==> DisciplineTier(s.averageDisciplineScore) != Excellent
  {
  }

  /**
    * Skill and task advice use their own threshold of 85: an excellent verdict never gets the
    * advice, a fair or worse verdict always does, and a good verdict gets it below 85.
    */
  lemma RateAdviceAgainstTiers(s: Statistics)
    ensures RateTier(s.averageSkillCompletionRate) == Excellent ==> RefineSkillTraining !in Recommendations(s)
    ensures Standing(RateTier(s.averageSkillCompletionRate)) <= 1 ==> RefineSkillTraining in Recommendations(s)
    ensures RateTier(s.averageTaskCompletionRate) == Excellent ==> ImproveTaskAssignment !in Recommendations(s)
    ensures Standing(RateTier(s.averageTaskCompletionRate)) <= 1 ==> ImproveTaskAssignment in Recommendations(s)
  {
  }

  /** A good skill rate of 82 is praised in the analysis and still draws the skill advice. */
  lemma GoodSkillStillAdvised(s: Statistics)
    requires s.averageSkillCompletionRate == 82.0
    ensures RateTier(s.averageSkillCompletionRate) == Good
    ensures RefineSkillTraining in Recommendations(s)
  {
  }

  /** An all-zero snapshot, as for an empty store, draws all six lines in order. */
  lemma EmptyStoreGetsEveryAdvice(s: Statistics)
    requires s.averageDisciplineScore == 0.0 && s.averageSkillCompletionRate == 0.0
    requires s.averageTaskCompletionRate == 0.0 && s.totalAssessments == 0
    ensures Recommendations(s) == [TightenDiscipline, RefineSkillTraining, ImproveTaskAssignment,
                                   AssessMoreOften, ReviewRegularly, RewardExcellence]
  {
    RecommendationsUnfolded(s);
  }

  /** With every average at or above its threshold and ten records or more, only the standing lines remain. */
  lemma StrongResultsGetStandingAdvice(s: Statistics)
    requires s.averageDisciplineScore >= 4.0 && s.averageSkillCompletionRate >= 85.0
    requires s.averageTaskCompletionRate >= 85.0 && s.totalAssessments >= 10
    ensures Recommendations(s) == [ReviewRegularly, RewardExcellence]
  {
    RecommendationsUnfolded(s);
  }

  /** `addRecommendations`: the heading, then the paragraph built line by line. */
  method AddRecommendations(doc: Document, s: Statistics)
    modifies doc
    ensures doc.elements == old(doc.elements) + RecommendationSection(s)
  {
    doc.Add(Heading(RecommendationHeading));
    var text := RecommendationText(s);
    doc.Add(Paragraph(text));
    AppendTwo(old(doc.elements), Heading(RecommendationHeading), Paragraph(text));
  }

  /** The `recommendations` buffer: each applicable conditional line in turn, then the two standing lines. */
  method RecommendationText(s: Statistics) returns (text: Line)
    ensures text == AdviceLines(Recommendations(s))
  {
    text := [];
    ghost var chosen: seq<Advice> := [];
    ghost var discipline := When(s.averageDisciplineScore < 4.0, TightenDiscipline);
    ghost var skill := When(s.averageSkillCompletionRate < 85.0, RefineSkillTraining);
    ghost var task := When(s.averageTaskCompletionRate < 85.0, ImproveTaskAssignment);
    ghost var frequency := When(s.totalAssessments < 10, AssessMoreOften);
    if s.averageDisciplineScore < 4.0 {
      text, chosen := AppendAdvice(text, chosen, TightenDiscipline);
    }
    assert chosen == discipline;
    if s.averageSkillCompletionRate < 85.0 {
      text, chosen := AppendAdvice(text, chosen, RefineSkillTraining);
    }
    assert chosen == discipline + skill;
    if s.averageTaskCompletionRate < 85.0 {
      text, chosen := AppendAdvice(text, chosen, ImproveTaskAssignment);
    }
    assert chosen == discipline + skill + task;
    if s.totalAssessments < 10 {
      text, chosen := AppendAdvice(text, chosen, AssessMoreOften);
    }
    ghost var conditional := discipline + skill + task + frequency;
    assert chosen == conditional;
    text, chosen := AppendAdvice(text, chosen, ReviewRegularly);
    text, chosen := AppendAdvice(text, chosen, RewardExcellence);
    AppendTwo(conditional, ReviewRegularly, RewardExcellence);
    RecommendationsUnfolded(s);
  }

  /** One `recommendations.append` of an advice line, with the advice it stands for. */
  method AppendAdvice(text: Line, ghost chosen: seq<Advice>, a: Advice) returns (text': Line, ghost chosen': seq<Advice>)
    requires text == AdviceLines(chosen)
    ensures text' == text + [Literal(AdviceText(a))]
    ensures chosen' == chosen + [a] && text' == AdviceLines(chosen')
  {
    text' := text + [Literal(AdviceText(a))];
    chosen' := chosen + [a];
  }

  /** `addAnalysisSection`: the heading, the verdict paragraph, then the recommendations. */
  method AddAnalysisSection(doc: Document, s: Statistics)
    modifies doc
    ensures doc.elements == old(doc.elements) + AnalysisSection(s) + RecommendationSection(s)
  {
    doc.Add(Heading(AnalysisHeading));
    var text := AnalysisParagraph(s);
    doc.Add(Paragraph(text));
    AppendTwo(old(doc.elements), Heading(AnalysisHeading), Paragraph(text));
    AddRecommendations(doc, s);
  }

  /** The `analysis` buffer: the introduction, then each metric's sentence with the remark its tier selects. */
  method AnalysisParagraph(s: Statistics) returns (text: Line)
    ensures text == AnalysisText(s)
  {
    text := AnalysisIntroduction(s);
    var discipline := s.averageDisciplineScore;
    var sentence := [Literal("1. 纪律表现：平均"), Fixed(discipline, 2), Literal("分")];
    if discipline >= 4.0 {
      sentence := sentence + [Literal(Remark(Discipline, Excellent))];
    } else if discipline >= 3.0 {
      sentence := sentence + [Literal(Remark(Discipline, Good))];
    } else {
      sentence := sentence + [Literal(Remark(Discipline, NeedsImprovement))];
    }
    assert sentence == MetricSentence(Discipline, discipline);
    text := text + sentence + [Literal("\n\n")];
    var skill := s.averageSkillCompletionRate;
    sentence := [Literal("2. 技能发展：平均达标率"), Fixed(skill, 1), Literal("%")];
    if skill >= 90.0 {
      sentence := sentence + [Literal(Remark(Skill, Excellent))];
    } else if skill >= 80.0 {
      sentence := sentence + [Literal(Remark(Skill, Good))];
    } else if skill >= 70.0 {
      sentence := sentence + [Literal(Remark(Skill, Fair))];
    } else {
      sentence := sentence + [Literal(Remark(Skill, NeedsImprovement))];
    }
    assert sentence == MetricSentence(Skill, skill);
    text := text + sentence + [Literal("\n\n")];
    var task := s.averageTaskCompletionRate;
    sentence := [Literal("3. 任务执行：平均完成率"), Fixed(task, 1), Literal("%")];
    if task >= 90.0 {
      sentence := sentence + [Literal(Remark(Task, Excellent))];
    } else if task >= 80.0 {
      sentence := sentence + [Literal(Remark(Task, Good))];
    } else if task >= 70.0 {
      sentence := sentence + [Literal(Remark(Task, Fair))];
    } else {
      sentence := sentence + [Literal(Remark(Task, NeedsImprovement))];
    }
    assert sentence == MetricSentence(Task, task);
    text := text + sentence;
  }

  /** The simplified report's four rows, in English and without a header row. */
  function SimpleSummaryRows(s: Statistics): seq<TableCell> {
    TableRow("Average Discipline Score", [Fixed(s.averageDisciplineScore, 2)])
    + TableRow("Average Skill Rate", [Fixed(s.averageSkillCompletionRate, 1), Literal("%")])
    + TableRow("Average Task Rate", [Fixed(s.averageTaskCompletionRate, 1), Literal("%")])
    + TableRow("Total Records", [Literal(IntToString(s.totalAssessments))])
  }

  /**
    * What `generateSimplePDFReport` adds: with statistics, the English title, the summary heading
    * and table, and the footer; when reading the statistics fails, the title alone.
    */
  function SimpleReport(now: Timestamp, stats: Option<Statistics>): seq<Element> {
    match stats
    case None => [Heading(SimpleTitle)]
    case Some(s) =>
      [Heading(SimpleTitle), Heading(SimpleSummaryHeading), Table(2, SimpleSummaryRows(s)),
       Paragraph([Literal("Generated: " + IsoStamp(now))])]
  }

  /** `generateSimplePDFReport`; `ok` is false when the statistics call throws out of it. */
  method GenerateSimplePdfReport(doc: Document, now: Timestamp, stats: Option<Statistics>) returns (ok: bool)
    modifies doc
    ensures ok == stats.Some?
    ensures doc.elements == old(doc.elements) + SimpleReport(now, stats)
  {
    doc.Add(Heading(SimpleTitle));
    if stats.None? {
      return false;
    }
    var s := stats.value;
    doc.Add(Heading(SimpleSummaryHeading));
    var cells: seq<TableCell> := [];
    cells := cells + TableRow("Average Discipline Score", [Fixed(s.averageDisciplineScore, 2)]);
    cells := cells + TableRow("Average Skill Rate", [Fixed(s.averageSkillCompletionRate, 1), Literal("%")]);
    cells := cells + TableRow("Average Task Rate", [Fixed(s.averageTaskCompletionRate, 1), Literal("%")]);
    cells := cells + TableRow("Total Records", [Literal(IntToString(s.totalAssessments))]);
    assert cells == SimpleSummaryRows(s);
    doc.Add(Table(2, cells));
    doc.Add(Paragraph([Literal("Generated: " + IsoStamp(now))]));
    ok := true;
  }

  /** The complete main-path report. */
  function MainReport(now: Timestamp, s: Statistics, records: seq<Record>): seq<Element> {
    Opening(now) + SummarySection(s) + DetailSection(records) + AnalysisSection(s) + RecommendationSection(s)
  }

  /** The heading texts of a run of elements, in order. */
  function Headings(es: seq<Element>): seq<string> {
    if es == [] then []
    else Headings(es[..|es| - 1]) + (if es[|es| - 1].Heading? then [es[|es| - 1].title] else [])
  }

  lemma {:induction false} HeadingsAppend(a: seq<Element>, b: seq<Element>)
    ensures Headings(a + b) == Headings(a) + Headings(b)
  {
    if b != [] {
      var ab := a + b;
      assert ab[..|ab| - 1] == a + b[..|b| - 1];
      assert ab[|ab| - 1] == b[|b| - 1];
      HeadingsAppend(a, b[..|b| - 1]);
    } else {
      assert a + b == a;
    }
  }

  lemma HeadingsOfPair(x: Element, y: Element)
    ensures Headings([x, y]) == (if x.Heading? then [x.title] else []) + (if y.Heading? then [y.title] else [])
  {
    assert [x, y][..1] == [x];
    assert [x][..0] == [];
    assert Headings([x]) == Headings([]) + (if x.Heading? then [x.title] else []);
    assert Headings([x, y]) == Headings([x]) + (if y.Heading? then [y.title] else []);
  }

  /** The headings of each main-path section. */
  lemma SectionHeadings(now: Timestamp, s: Statistics, records: seq<Record>)
    ensures Headings(Opening(now)) == [ReportTitle]
    ensures Headings(SummarySection(s)) == [SummaryHeading]
    ensures Headings(DetailSection(records)) == if records == [] then [] else [DetailHeading]
    ensures Headings(AnalysisSection(s)) == [AnalysisHeading]
    ensures Headings(RecommendationSection(s)) == [RecommendationHeading]
  {
    var o := Opening(now);
    HeadingsOfPair(o[0], o[1]);
    var m := SummarySection(s);
    HeadingsOfPair(m[0], m[1]);
    var a := AnalysisSection(s);
    HeadingsOfPair(a[0], a[1]);
    var r := RecommendationSection(s);
    HeadingsOfPair(r[0], r[1]);
    var d := DetailSection(records);
    if records != [] {
      HeadingsOfPair(d[0], d[1]);
    } else {
      assert d[..0] == [];
    }
  }

  /**
    * The main report reads: title, summary, detail (only when there are records), analysis and
    * recommendations; it ends with the recommendation paragraph.
    */
  lemma MainReportOrder(now: Timestamp, s: Statistics, records: seq<Record>)
    ensures Headings(MainReport(now, s, records))
      == [ReportTitle, SummaryHeading] + (if records == [] then [] else [DetailHeading])
         + [AnalysisHeading, RecommendationHeading]
    ensures MainReport(now, s, records)[|MainReport(now, s, records)| - 1]
      == Paragraph(AdviceLines(Recommendations(s)))
  {
    var o, m, d, a, r := Opening(now), SummarySection(s), DetailSection(records), AnalysisSection(s), RecommendationSection(s);
    HeadingsOfFive(o, m, d, a, r);
    SectionHeadings(now, s, records);
    FiveHeadingsShape(ReportTitle, SummaryHeading, if records == [] then [] else [DetailHeading],
                      AnalysisHeading, RecommendationHeading);
    LastOfAppend(o + m + d + a, r);
  }

  lemma HeadingsOfFive(o: seq<Element>, m: seq<Element>, d: seq<Element>, a: seq<Element>, r: seq<Element>)
    ensures Headings(o + m + d + a + r) == Headings(o) + Headings(m) + Headings(d) + Headings(a) + Headings(r)
  {
    HeadingsAppend(o, m);
    HeadingsAppend(o + m, d);
    HeadingsAppend(o + m + d, a);
    HeadingsAppend(o + m + d + a, r);
  }

  lemma FiveHeadingsShape(t: string, u: string, hd: seq<string>, v: string, w: string)
    ensures [t] + [u] + hd + [v] + [w] == [t, u] + hd + [v, w]
  {
    assert [t] + [u] == [t, u];
    AppendTwo([t, u] + hd, v, w);
    AppendAssociative([t, u], hd, [v, w]);
  }

  lemma LastOfAppend<T>(front: seq<T>, r: seq<T>)
    requires r != []
    ensures (front + r)[|front + r| - 1] == r[|r| - 1]
  {
  }
  /** The simplified report has neither the detail table nor the analysis or the recommendations. */
  lemma SimpleReportContent(now: Timestamp, stats: Option<Statistics>)
    ensures Headings(SimpleReport(now, stats))
      == if stats.Some? then [SimpleTitle, SimpleSummaryHeading] else [SimpleTitle]
    ensures forall e :: e in SimpleReport(now, stats) ==> !(e.Table? && e.columns == 6)
    ensures stats.Some? ==> |SimpleReport(now, stats)[2].cells| == 2 * 4
  {
    var es := SimpleReport(now, stats);
    if stats.Some? {
      assert es == [es[0], es[1]] + [es[2], es[3]];
      HeadingsAppend([es[0], es[1]], [es[2], es[3]]);
      HeadingsOfPair(es[0], es[1]);
      HeadingsOfPair(es[2], es[3]);
    }
  }

  /**
    * `generatePDFReport()` with the outcomes of its collaborators: whether the Chinese font can
    * be created, the statistics (None when the call throws) and the records for the detail table
    * (None when `getAllAssessments()` throws). A failure on the main path appends the simplified
    * report to what was already added; `ok` is false when the simplified report fails too.
    */
  method GeneratePdfReport(now: Timestamp, fontAvailable: bool, stats: Option<Statistics>,
                           records: Option<seq<Record>>)
    returns (doc: Document, ok: bool)
    ensures fresh(doc)
    ensures ok == stats.Some?
    ensures !fontAvailable ==> doc.elements == SimpleReport(now, stats)
    ensures fontAvailable && stats.None? ==> doc.elements == Opening(now) + SimpleReport(now, None)
    ensures fontAvailable && stats.Some? && records.None? ==>
      doc.elements == Opening(now) + SummarySection(stats.value) + SimpleReport(now, stats)
    ensures fontAvailable && stats.Some? && records.Some? ==>
      doc.elements == MainReport(now, stats.value, records.value)
  {
    doc := new Document();
    if !fontAvailable {
      ok := GenerateSimplePdfReport(doc, now, stats);
      return;
    }
    doc.Add(Heading(ReportTitle));
    doc.Add(Paragraph([Literal("报告生成时间: " + ChineseStamp(now))]));
    assert doc.elements == Opening(now);
    if stats.None? {
      ok := GenerateSimplePdfReport(doc, now, stats);
      return;
    }
    AddSummarySection(doc, stats.value);
    if records.None? {
      ok := GenerateSimplePdfReport(doc, now, stats);
      return;
    }
    AddDetailTable(doc, records.value);
    AddAnalysisSection(doc, stats.value);
    ok := true;
  }
}
