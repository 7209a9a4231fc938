/**
 * The structure of the e-mailed reports (the HTML text and styling are not
 * modelled): a table of result lines per test, the "No results" placeholder
 * row for a test without results, and the "No tests found." placeholder for a
 * patient without tests.
 */
module Reports {
  import opened Common
  import opened Store

  /** One rendered result: parameter, value with unit, normal range. */
  datatype ResultLine = ResultLine(parameter: string, value: real, unit: string, normalMin: real, normalMax: real)

  datatype TableRow = Line(line: ResultLine) | NoResults

  function LineOf(r: TestResult): ResultLine {
    ResultLine(r.parameterName, r.value, r.unit, r.normalMin, r.normalMax)
  }

  /** `results.map(r => <tr>…</tr>).join('')`: one line per result, in order. */
  function Lines(results: seq<Row<TestResult>>): (rows: seq<TableRow>)
    ensures |rows| == |results|
    ensures forall i :: 0 <= i < |rows| ==> rows[i] == Line(LineOf(results[i].val))
  {
    if results == [] then [] else [Line(LineOf(results[0].val))] + Lines(results[1..])
  }

  /** The table body: the result lines, or the single placeholder row when they render to nothing. */
  function ResultTable(results: seq<Row<TestResult>>): (rows: seq<TableRow>)
    ensures rows == [NoResults] <==> results == []
    ensures NoResults in rows <==> results == []
    ensures results != [] ==> rows == Lines(results)
  {
    if results == [] then [NoResults] else Lines(results)
  }

  /** Recovering the displayed lines from a table gives back exactly the results' lines. */
  function DisplayedLines(rows: seq<TableRow>): (lines: seq<ResultLine>) {
    if rows == [] then []
    else (if rows[0].Line? then [rows[0].line] else []) + DisplayedLines(rows[1..])
  }

  lemma {:induction false} ResultTableRoundTrip(results: seq<Row<TestResult>>)
    ensures |DisplayedLines(ResultTable(results))| == |results|
    ensures forall i :: 0 <= i < |results| ==> DisplayedLines(ResultTable(results))[i] == LineOf(results[i].val)
  {
    if results != [] {
      LinesRoundTrip(results);
    }
  }

  lemma {:induction false} LinesRoundTrip(results: seq<Row<TestResult>>)
    ensures |DisplayedLines(Lines(results))| == |results|
    ensures forall i :: 0 <= i < |results| ==> DisplayedLines(Lines(results))[i] == LineOf(results[i].val)
  {
    if results != [] {
      LinesRoundTrip(results[1..]);
      assert Lines(results)[1..] == Lines(results[1..]);
    }
  }

  /** The single-test report sent by `send-to-doctor`. */
  datatype TestReport = TestReport(patientName: string, testType: string, dateTaken: string, table: seq<TableRow>)

  /** One test's section of a patient report: heading and table. */
  datatype Section = Section(testType: string, dateTaken: string, table: seq<TableRow>)

  datatype ReportBody = NoTestsFound | Sections(sections: seq<Section>)

  /** The patient report sent by `send-results`. */
  datatype PatientReport = PatientReport(name: string, dob: string, gender: string, body: ReportBody)

  function SectionOf(st: Tables, t: Row<Test>): Section {
    Section(t.val.testType, t.val.dateTaken, ResultTable(st.ResultsOf(t.id)))
  }

  /** `tests.map(t => …)`: one section per test, in order. */
  function SectionsOf(st: Tables, tests: seq<Row<Test>>): (s: seq<Section>)
    ensures |s| == |tests|
    ensures forall i :: 0 <= i < |s| ==> s[i] == SectionOf(st, tests[i])
  {
    if tests == [] then [] else [SectionOf(st, tests[0])] + SectionsOf(st, tests[1..])
  }

  /** The body of a patient report: the sections, or the placeholder when they render to nothing. */
  function PatientBody(st: Tables, tests: seq<Row<Test>>): (b: ReportBody)
    ensures b.NoTestsFound? <==> tests == []
    ensures b.Sections? ==> |b.sections| == |tests| && b.sections != []
  {
    if tests == [] then NoTestsFound else Sections(SectionsOf(st, tests))
  }

  function PatientReportOf(st: Tables, p: Row<Patient>): (r: PatientReport)
    ensures r.name == p.val.name && r.dob == p.val.dob && r.gender == p.val.gender
    ensures r.body.NoTestsFound? <==> st.TestsOf(p.id) == []
    ensures r.body.Sections? ==> r.body.sections == SectionsOf(st, st.TestsOf(p.id))
  {
    PatientReport(p.val.name, p.val.dob, p.val.gender, PatientBody(st, st.TestsOf(p.id)))
  }

  /**
   * A patient report has one section per test of that patient, in id order;
   * each section lists exactly that test's results, and carries the
   * "No results" row exactly when the test has none.
   */
  lemma PatientReportSections(st: Tables, p: Row<Patient>, i: nat)
    requires PatientReportOf(st, p).body.Sections?
    requires i < |st.TestsOf(p.id)|
    ensures var t := st.TestsOf(p.id)[i];
            var sec := PatientReportOf(st, p).body.sections[i];
            && t.id in st.tests && st.tests[t.id].patientId == Some(p.id)
            && sec.testType == t.val.testType && sec.dateTaken == t.val.dateTaken
            && sec.table == ResultTable(st.ResultsOf(t.id))
            && (NoResults in sec.table <==> st.ResultsOf(t.id) == [])
            && (forall r :: r in st.ResultsOf(t.id) <==> r.id in st.results && st.results[r.id] == r.val && r.val.testId == Some(t.id) && r.id < st.nextResult)
  {
    var t := st.TestsOf(p.id)[i];
    assert t in st.TestsOf(p.id);
  }

  /** The patient report shows the placeholder exactly when the patient has no test. */
  lemma PatientReportPlaceholder(st: Tables, p: Row<Patient>)
    ensures PatientReportOf(st, p).body.NoTestsFound? <==>
            forall id :: id in st.tests && id < st.nextTest ==> st.tests[id].patientId != Some(p.id)
  {
    var ts := st.TestsOf(p.id);
    if ts != [] {
      assert ts[0] in ts;
    } else {
      forall id | id in st.tests && id < st.nextTest
        ensures st.tests[id].patientId != Some(p.id)
      {
        assert Row(id, st.tests[id]) !in ts;
      }
    }
  }
}
