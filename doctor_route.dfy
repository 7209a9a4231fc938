/**
 * `GET /api/doctor/inbox?email=`: the doctor's inbox rows joined with their
 * test, the test's patient (looked up once per distinct patient id while it
 * is found) and the test's results.
 */
module DoctorRoute {
  import opened Common
  import opened Store

  /** One inbox entry as sent to the client. */
  datatype Entry = Entry(
    id: nat, doctorEmail: string, test: Row<Test>,
    patient: Option<Row<Patient>>, results: seq<Row<TestResult>>)

  /** The entry an inbox row joins to, or `None` when its test no longer exists. */
  function EntryFor(st: Tables, item: Row<InboxRow>): Option<Entry> {
    var tid := item.val.testId;
    if tid !in st.tests then None
    else Some(Entry(item.id, item.val.doctorEmail, Row(tid, st.tests[tid]),
                    st.PatientOf(st.tests[tid].patientId), st.ResultsOf(tid)))
  }

  /** The join of a sequence of inbox rows: one entry per row, in order, or `None` if any row's test is gone. */
  function View(st: Tables, items: seq<Row<InboxRow>>): (r: Option<seq<Entry>>)
    ensures r.Some? <==> forall i :: 0 <= i < |items| ==> items[i].val.testId in st.tests
    ensures r.Some? ==> |r.value| == |items| && forall k :: 0 <= k < |items| ==> EntryFor(st, items[k]) == Some(r.value[k])
  {
    if items == [] then Some([])
    else
      var e := EntryFor(st, items[0]);
      var rest := View(st, items[1..]);
      if e.None? || rest.None? then None else Some([e.value] + rest.value)
  }

  /** What the route answers for a query, as a function of the tables. */
  function InboxResponse(st: Tables, email: Option<string>): (r: Response<seq<Entry>>)
    ensures r.BadRequest? <==> !Truthy(email)
    ensures r.Ok? <==>
              Truthy(email) && forall k :: 0 <= k < |st.InboxFor(email.value)| ==> st.InboxFor(email.value)[k].val.testId in st.tests
    ensures r.Ok? || r.BadRequest? || r.ServerError?
    ensures r.Ok? ==> |r.value| == |st.InboxFor(email.value)|
  {
    if !Truthy(email) then BadRequest("email query is required")
    else
      var v := View(st, st.InboxFor(email.value));
      if v.Some? then Ok(v.value) else ServerError("Server error")
  }

  /**
   * A successful answer has exactly one entry per inbox row addressed to
   * the queried doctor, in id order, carrying that row's id and address,
   * its test, the direct lookup of the test's patient and exactly the
   * results that belong to the test.
   */
  lemma InboxIsJoin(st: Tables, email: Option<string>)
    requires st.Valid()
    requires InboxResponse(st, email).Ok?
    ensures var es := InboxResponse(st, email).value;
            var items := st.InboxFor(email.value);
            && |es| == |items|
            && (forall k, l :: 0 <= k < l < |es| ==> es[k].id < es[l].id)
            && (forall id :: id in st.inbox && st.inbox[id].doctorEmail == email.value <==>
                               exists k :: 0 <= k < |es| && es[k].id == id)
            && forall k :: 0 <= k < |es| ==>
                 && es[k].id in st.inbox && es[k].doctorEmail == email.value
                 && es[k].test.id == st.inbox[es[k].id].testId
                 && es[k].test.id in st.tests && es[k].test.val == st.tests[es[k].test.id]
                 && es[k].patient == st.PatientOf(es[k].test.val.patientId)
                 && (forall r :: r in es[k].results <==>
                       r.id in st.results && st.results[r.id] == r.val && r.val.testId == Some(es[k].test.id))
  {
    var es := InboxResponse(st, email).value;
    var items := st.InboxFor(email.value);
    forall k | 0 <= k < |es|
      ensures es[k].id == items[k].id && items[k] in items
    {
      assert EntryFor(st, items[k]) == Some(es[k]);
    }
    forall id | id in st.inbox && st.inbox[id].doctorEmail == email.value
      ensures exists k :: 0 <= k < |es| && es[k].id == id
    {
      var x := Row(id, st.inbox[id]);
      assert x in items;
      var k :| 0 <= k < |items| && items[k] == x;
      assert es[k].id == id;
    }
  }

  /** The route answers 500 exactly when some addressed inbox row refers to a deleted test. */
  lemma InboxFailsOnDanglingRow(st: Tables, email: string)
    ensures InboxResponse(st, Some(email)).ServerError? <==>
            email != "" && exists i :: i in st.InboxFor(email) && i.val.testId !in st.tests
  {
    var items := st.InboxFor(email);
    if email != "" && View(st, items).None? {
      var k :| 0 <= k < |items| && items[k].val.testId !in st.tests;
      assert items[k] in items;
    }
  }

  /** Two rows for the same test join to the same test, patient and results: no de-duplication. */
  lemma SameTestSameEntry(st: Tables, email: Option<string>, k: nat, l: nat)
    requires InboxResponse(st, email).Ok?
    requires k < |st.InboxFor(email.value)| && l < |st.InboxFor(email.value)|
    requires st.InboxFor(email.value)[k].val.testId == st.InboxFor(email.value)[l].val.testId
    ensures var es := InboxResponse(st, email).value;
            es[k].test == es[l].test && es[k].patient == es[l].patient && es[k].results == es[l].results
  {
  }

  /** `where: { id: testIds }`. */
  function InIds(ids: set<nat>): Row<Test> -> bool {
    (x: Row<Test>) => x.id in ids
  }

  /** The final `items.map(...)`: `tests.find` the row's test and read both maps; a missing test throws. */
  function Project(items: seq<Row<InboxRow>>, tests: seq<Row<Test>>,
                   patientsMap: map<Option<nat>, Option<Row<Patient>>>,
                   resultsMap: map<nat, seq<Row<TestResult>>>): (r: Option<seq<Entry>>)
    requires forall t :: t in tests ==> t.val.patientId in patientsMap && t.id in resultsMap
    ensures r.Some? <==> forall k :: 0 <= k < |items| ==> exists t :: t in tests && t.id == items[k].val.testId
    ensures r.Some? ==> |r.value| == |items| && forall k :: 0 <= k < |items| ==>
              && r.value[k].id == items[k].id && r.value[k].doctorEmail == items[k].val.doctorEmail
              && r.value[k].test in tests && r.value[k].test.id == items[k].val.testId
              && r.value[k].patient == patientsMap[r.value[k].test.val.patientId]
              && r.value[k].results == resultsMap[r.value[k].test.id]
  {
    if items == [] then Some([])
    else
      var t := FindRow(tests, items[0].val.testId);
      var rest := Project(items[1..], tests, patientsMap, resultsMap);
      if t.None? || rest.None? then None
      else Some([Entry(items[0].id, items[0].val.doctorEmail, t.value,
                       patientsMap[t.value.val.patientId], resultsMap[t.value.id])] + rest.value)
  }

  lemma {:induction false} ProjectIsView(st: Tables, items: seq<Row<InboxRow>>, tests: seq<Row<Test>>,
                                         patientsMap: map<Option<nat>, Option<Row<Patient>>>,
                                         resultsMap: map<nat, seq<Row<TestResult>>>)
    requires forall t :: t in tests ==> t.val.patientId in patientsMap && t.id in resultsMap
    requires forall key :: key in patientsMap ==> patientsMap[key] == st.PatientOf(key)
    requires forall id :: id in resultsMap ==> resultsMap[id] == st.ResultsOf(id)
    requires forall i :: i in items ==>
               FindRow(tests, i.val.testId) == if i.val.testId in st.tests then Some(Row(i.val.testId, st.tests[i.val.testId])) else None
    ensures Project(items, tests, patientsMap, resultsMap) == View(st, items)
  {
    if items != [] {
      assert items[0] in items;
      assert forall i :: i in items[1..] ==> i in items;
      ProjectIsView(st, items[1..], tests, patientsMap, resultsMap);
    }
  }

  /**
   * The first loop: fill `patientsMap` with `Patient.findByPk` for each
   * test's patient id, skipping ids already mapped to a found patient.
   * Returns the map and the ids passed to `findByPk`, in call order.
   */
  method MemoisePatients(st: Tables, tests: seq<Row<Test>>)
    returns (patientsMap: map<Option<nat>, Option<Row<Patient>>>, lookups: seq<Option<nat>>)
    ensures forall key :: key in patientsMap ==> patientsMap[key] == st.PatientOf(key)
    ensures forall key :: key in patientsMap <==> exists t :: t in tests && t.val.patientId == key
    ensures forall key :: key in lookups <==> key in patientsMap
    ensures forall a, b :: 0 <= a < b < |lookups| && lookups[a] == lookups[b] ==> st.PatientOf(lookups[a]).None?
  {
    patientsMap := map[];
    lookups := [];
    var k := 0;
    while k < |tests|
      invariant 0 <= k <= |tests|
      invariant forall key :: key in patientsMap ==> patientsMap[key] == st.PatientOf(key)
      invariant forall key :: key in patientsMap <==> exists j :: 0 <= j < k && tests[j].val.patientId == key
      invariant forall key :: key in lookups <==> key in patientsMap
      invariant forall a, b :: 0 <= a < b < |lookups| && lookups[a] == lookups[b] ==> st.PatientOf(lookups[a]).None?
    {
      var pid := tests[k].val.patientId;
      if pid !in patientsMap || patientsMap[pid].None? {
        patientsMap := patientsMap[pid := st.PatientOf(pid)];
        lookups := lookups + [pid];
      }
      k := k + 1;
    }
    forall key | key in patientsMap
      ensures exists t :: t in tests && t.val.patientId == key
    {
      var j :| 0 <= j < |tests| && tests[j].val.patientId == key;
      assert tests[j] in tests;
    }
    forall key | exists t :: t in tests && t.val.patientId == key
      ensures key in patientsMap
    {
      var t :| t in tests && t.val.patientId == key;
      var j :| 0 <= j < |tests| && tests[j] == t;
    }
  }

  /** The second loop: `resultsMap[t.id]` is every result of test `t`. */
  method CollectResults(st: Tables, tests: seq<Row<Test>>) returns (resultsMap: map<nat, seq<Row<TestResult>>>)
    ensures forall id :: id in resultsMap ==> resultsMap[id] == st.ResultsOf(id)
    ensures forall t :: t in tests ==> t.id in resultsMap
  {
    resultsMap := map[];
    var k := 0;
    while k < |tests|
      invariant 0 <= k <= |tests|
      invariant forall id :: id in resultsMap ==> resultsMap[id] == st.ResultsOf(id)
      invariant forall j :: 0 <= j < k ==> tests[j].id in resultsMap
    {
      resultsMap := resultsMap[tests[k].id := st.ResultsOf(tests[k].id)];
      k := k + 1;
    }
  }

  /** The tests fetched for a set of inbox rows are found by `tests.find` exactly when they still exist. */
  lemma FetchedTestsFound(st: Tables, items: seq<Row<InboxRow>>, tests: seq<Row<Test>>)
    requires st.Valid()
    requires tests == Filter(Listing(st.tests, st.nextTest), InIds(set i | i in items :: i.val.testId))
    ensures forall i :: i in items ==>
              FindRow(tests, i.val.testId) == if i.val.testId in st.tests then Some(Row(i.val.testId, st.tests[i.val.testId])) else None
    ensures forall t :: t in tests ==>
              t.id in st.tests && st.tests[t.id] == t.val && exists i :: i in items && i.val.testId == t.id
    ensures forall i :: i in items && i.val.testId in st.tests ==> Row(i.val.testId, st.tests[i.val.testId]) in tests
  {
    var testIds := set i | i in items :: i.val.testId;
    forall i | i in items
      ensures FindRow(tests, i.val.testId) ==
              if i.val.testId in st.tests then Some(Row(i.val.testId, st.tests[i.val.testId])) else None
    {
      assert i.val.testId in testIds;
      if i.val.testId in st.tests {
        assert Row(i.val.testId, st.tests[i.val.testId]) in tests;
      }
    }
    forall t | t in tests
      ensures exists i :: i in items && i.val.testId == t.id
    {
      var i :| i in items && i.val.testId == t.id;
    }
    forall i | i in items && i.val.testId in st.tests
      ensures Row(i.val.testId, st.tests[i.val.testId]) in tests
    {
      assert i.val.testId in testIds;
    }
  }

  /**
   * The handler. Besides the response it returns the patient ids it passed
   * to `Patient.findByPk`, in call order: every patient id of a joined test
   * is looked up, and an id is looked up again only when it was not found.
   */
  method FetchInbox(db: Database, email: Option<string>) returns (r: Response<seq<Entry>>, lookups: seq<Option<nat>>)
    requires db.Valid()
    ensures r == InboxResponse(db.State(), email)
    ensures !Truthy(email) ==> lookups == []
    ensures forall a, b :: 0 <= a < b < |lookups| && lookups[a] == lookups[b] ==> db.State().PatientOf(lookups[a]).None?
    ensures Truthy(email) ==>
              forall pid :: pid in lookups <==>
                exists i :: i in db.State().InboxFor(email.value) && i.val.testId in db.tests
                            && db.tests[i.val.testId].patientId == pid
  {
    if !Truthy(email) {
      return BadRequest("email query is required"), [];
    }
    var st := db.State();
    var items := st.InboxFor(email.value);
    var testIds := set i | i in items :: i.val.testId;
    var tests := Filter(Listing(db.tests, db.nextTest), InIds(testIds));
    var patientsMap;
    patientsMap, lookups := MemoisePatients(st, tests);
    var resultsMap := CollectResults(st, tests);
    FetchedTestsFound(st, items, tests);
    ProjectIsView(st, items, tests, patientsMap, resultsMap);
    var inbox := Project(items, tests, patientsMap, resultsMap);
    r := if inbox.Some? then Ok(inbox.value) else ServerError("Server error");
  }
}
