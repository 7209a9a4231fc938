/**
 * The four tables the route handlers work on (Patients, Tests, TestResults,
 * DoctorInboxes), their record shapes, and the ORM operations the handlers
 * use: look up by primary key, list in id order, and `instance.update(body)`,
 * which merges a request body into a record and rejects a null in a
 * NOT NULL column.
 */
module Store {
  import opened Common

  /** A Patients row. `doctorEmail` is read and written by the routes, though the model file declares no such column. */
  datatype Patient = Patient(name: string, dob: string, gender: string, userId: Option<nat>, doctorEmail: Option<string>)

  /** A Tests row; `patientId` is the nullable foreign key to Patients. */
  datatype Test = Test(testType: string, dateTaken: string, patientId: Option<nat>)

  /** A TestResults row. The FLOAT columns are carried as reals and never computed with. */
  datatype TestResult = TestResult(
    parameterName: string, value: real, unit: string,
    normalMin: real, normalMax: real, testId: Option<nat>)

  /** A DoctorInboxes row: this test was assigned to this doctor. */
  datatype InboxRow = InboxRow(doctorEmail: string, testId: nat)

  /** One field of an update body: not mentioned, explicitly null, or given a value. */
  datatype Field<T> = Absent | Null | Given(value: T)

  /** Set a NOT NULL column; `None` is the ORM's notNull violation. */
  function SetRequired<T>(cur: T, f: Field<T>): (r: Option<T>)
    ensures r.None? <==> f.Null?
    ensures f.Absent? ==> r == Some(cur)
    ensures f.Given? ==> r == Some(f.value)
  {
    match f
    case Absent => Some(cur)
    case Null => None
    case Given(v) => Some(v)
  }

  /** Set a nullable column; an explicit null clears it. */
  function SetNullable<T>(cur: Option<T>, f: Field<T>): (r: Option<T>)
    ensures f.Absent? ==> r == cur
    ensures f.Null? ==> r == None
    ensures f.Given? ==> r == Some(f.value)
  {
    match f
    case Absent => cur
    case Null => None
    case Given(v) => Some(v)
  }

  /** Sequential composition of two updates of one field: the later one wins unless it is absent. */
  function ThenField<T>(p: Field<T>, q: Field<T>): Field<T> {
    if q.Absent? then p else q
  }

  lemma SetRequiredThen<T>(cur: T, p: Field<T>, q: Field<T>)
    requires SetRequired(cur, p).Some?
    ensures SetRequired(SetRequired(cur, p).value, q) == SetRequired(cur, ThenField(p, q))
  {
  }

  lemma SetNullableThen<T>(cur: Option<T>, p: Field<T>, q: Field<T>)
    ensures SetNullable(SetNullable(cur, p), q) == SetNullable(cur, ThenField(p, q))
  {
  }

  datatype PatientPatch = PatientPatch(
    name: Field<string>, dob: Field<string>, gender: Field<string>,
    userId: Field<nat>, doctorEmail: Field<string>)
  {
    function Then(q: PatientPatch): PatientPatch {
      PatientPatch(ThenField(name, q.name), ThenField(dob, q.dob), ThenField(gender, q.gender),
                   ThenField(userId, q.userId), ThenField(doctorEmail, q.doctorEmail))
    }
  }

  datatype TestPatch = TestPatch(testType: Field<string>, dateTaken: Field<string>, patientId: Field<nat>)
  {
    function Then(q: TestPatch): TestPatch {
      TestPatch(ThenField(testType, q.testType), ThenField(dateTaken, q.dateTaken), ThenField(patientId, q.patientId))
    }
  }

  datatype ResultPatch = ResultPatch(
    parameterName: Field<string>, value: Field<real>, unit: Field<string>,
    normalMin: Field<real>, normalMax: Field<real>, testId: Field<nat>)
  {
    function Then(q: ResultPatch): ResultPatch {
      ResultPatch(ThenField(parameterName, q.parameterName), ThenField(value, q.value), ThenField(unit, q.unit),
                  ThenField(normalMin, q.normalMin), ThenField(normalMax, q.normalMax), ThenField(testId, q.testId))
    }
  }

  /** `patient.update(body)`: fails iff a NOT NULL column is set to null. */
  function MergePatient(p: Patient, b: PatientPatch): (r: Option<Patient>)
    ensures r.None? <==> b.name.Null? || b.dob.Null? || b.gender.Null?
    ensures r.Some? ==>
              && r.value.name == (if b.name.Given? then b.name.value else p.name)
              && r.value.dob == (if b.dob.Given? then b.dob.value else p.dob)
              && r.value.gender == (if b.gender.Given? then b.gender.value else p.gender)
              && r.value.userId == (if b.userId.Given? then Some(b.userId.value) else if b.userId.Null? then None else p.userId)
              && r.value.doctorEmail == (if b.doctorEmail.Given? then Some(b.doctorEmail.value)
                                         else if b.doctorEmail.Null? then None else p.doctorEmail)
  {
    var name := SetRequired(p.name, b.name);
    var dob := SetRequired(p.dob, b.dob);
    var gender := SetRequired(p.gender, b.gender);
    if name.None? || dob.None? || gender.None? then None
    else Some(Patient(name.value, dob.value, gender.value,
                      SetNullable(p.userId, b.userId), SetNullable(p.doctorEmail, b.doctorEmail)))
  }

  /** `test.update(body)`: fails iff a NOT NULL column is set to null. */
  function MergeTest(t: Test, b: TestPatch): (r: Option<Test>)
    ensures r.None? <==> b.testType.Null? || b.dateTaken.Null?
    ensures r.Some? ==>
              && r.value.testType == (if b.testType.Given? then b.testType.value else t.testType)
              && r.value.dateTaken == (if b.dateTaken.Given? then b.dateTaken.value else t.dateTaken)
              && r.value.patientId == (if b.patientId.Given? then Some(b.patientId.value)
                                       else if b.patientId.Null? then None else t.patientId)
  {
    var ty := SetRequired(t.testType, b.testType);
    var date := SetRequired(t.dateTaken, b.dateTaken);
    if ty.None? || date.None? then None
    else Some(Test(ty.value, date.value, SetNullable(t.patientId, b.patientId)))
  }

  /** `result.update(body)`: fails iff a NOT NULL column is set to null. */
  function MergeResult(t: TestResult, b: ResultPatch): (r: Option<TestResult>)
    ensures r.None? <==> b.parameterName.Null? || b.value.Null? || b.unit.Null? || b.normalMin.Null? || b.normalMax.Null?
    ensures r.Some? ==>
              && r.value.parameterName == (if b.parameterName.Given? then b.parameterName.value else t.parameterName)
              && r.value.value == (if b.value.Given? then b.value.value else t.value)
              && r.value.unit == (if b.unit.Given? then b.unit.value else t.unit)
              && r.value.normalMin == (if b.normalMin.Given? then b.normalMin.value else t.normalMin)
              && r.value.normalMax == (if b.normalMax.Given? then b.normalMax.value else t.normalMax)
              && r.value.testId == (if b.testId.Given? then Some(b.testId.value) else if b.testId.Null? then None else t.testId)
  {
    var name := SetRequired(t.parameterName, b.parameterName);
    var value := SetRequired(t.value, b.value);
    var unit := SetRequired(t.unit, b.unit);
    var lo := SetRequired(t.normalMin, b.normalMin);
    var hi := SetRequired(t.normalMax, b.normalMax);
    if name.None? || value.None? || unit.None? || lo.None? || hi.None? then None
    else Some(TestResult(name.value, value.value, unit.value, lo.value, hi.value, SetNullable(t.testId, b.testId)))
  }

  /** Two successive updates of a test equal one update with the combined body. */
  lemma MergeTestThen(t: Test, p: TestPatch, q: TestPatch)
    requires MergeTest(t, p).Some?
    ensures MergeTest(MergeTest(t, p).value, q) == MergeTest(t, p.Then(q))
  {
  }

  /** Two successive updates of a patient equal one update with the combined body. */
  lemma MergePatientThen(t: Patient, p: PatientPatch, q: PatientPatch)
    requires MergePatient(t, p).Some?
    ensures MergePatient(MergePatient(t, p).value, q) == MergePatient(t, p.Then(q))
  {
  }

  /** Two successive updates of a result equal one update with the combined body. */
  lemma MergeResultThen(t: TestResult, p: ResultPatch, q: ResultPatch)
    requires MergeResult(t, p).Some?
    ensures MergeResult(MergeResult(t, p).value, q) == MergeResult(t, p.Then(q))
  {
  }

  /** Repeating a successful update changes nothing further. */
  lemma MergeTestIdempotent(t: Test, p: TestPatch)
    requires MergeTest(t, p).Some?
    ensures MergeTest(MergeTest(t, p).value, p) == MergeTest(t, p)
  {
    MergeTestThen(t, p, p);
    assert p.Then(p) == p;
  }

  /** The `where` clauses of the handlers' queries. */
  function OfTest(testId: nat): Row<TestResult> -> bool {
    (x: Row<TestResult>) => x.val.testId == Some(testId)
  }

  function OfPatient(patientId: nat): Row<Test> -> bool {
    (x: Row<Test>) => x.val.patientId == Some(patientId)
  }

  function AddressedTo(email: string): Row<InboxRow> -> bool {
    (x: Row<InboxRow>) => x.val.doctorEmail == email
  }

  /** The whole database as a value: four tables and their autoincrement counters. */
  datatype Tables = Tables(
    patients: map<nat, Patient>, tests: map<nat, Test>,
    results: map<nat, TestResult>, inbox: map<nat, InboxRow>,
    nextPatient: nat, nextTest: nat, nextResult: nat, nextInbox: nat)
  {
    /** Every stored id was issued by its table's counter. */
    predicate Valid() {
      && KeysBelow(patients, nextPatient)
      && KeysBelow(tests, nextTest)
      && KeysBelow(results, nextResult)
      && KeysBelow(inbox, nextInbox)
      && nextPatient >= 1 && nextTest >= 1 && nextResult >= 1 && nextInbox >= 1
    }

    /** `Patient.findByPk(pid)`; a null or unknown id finds nothing. */
    function PatientOf(pid: Option<nat>): (r: Option<Row<Patient>>)
      ensures r.Some? <==> pid.Some? && pid.value in patients
      ensures r.Some? ==> r.value == Row(pid.value, patients[pid.value])
    {
      if pid.Some? && pid.value in patients then Some(Row(pid.value, patients[pid.value])) else None
    }

    /** `TestResult.findAll({ where: { testId } })`. */
    function ResultsOf(testId: nat): (r: seq<Row<TestResult>>)
      ensures forall x :: x in r <==> x.id in results && results[x.id] == x.val && x.val.testId == Some(testId) && x.id < nextResult
      ensures Ascending(r)
    {
      FilterAscending(Listing(results, nextResult), OfTest(testId));
      Filter(Listing(results, nextResult), OfTest(testId))
    }

    /** `Test.findAll({ where: { patientId } })`. */
    function TestsOf(patientId: nat): (r: seq<Row<Test>>)
      ensures forall x :: x in r <==> x.id in tests && tests[x.id] == x.val && x.val.patientId == Some(patientId) && x.id < nextTest
      ensures Ascending(r)
    {
      FilterAscending(Listing(tests, nextTest), OfPatient(patientId));
      Filter(Listing(tests, nextTest), OfPatient(patientId))
    }

    /** `DoctorInbox.findAll({ where: { doctorEmail } })`. */
    function InboxFor(email: string): (r: seq<Row<InboxRow>>)
      ensures forall x :: x in r <==> x.id in inbox && inbox[x.id] == x.val && x.val.doctorEmail == email && x.id < nextInbox
      ensures Ascending(r)
    {
      FilterAscending(Listing(inbox, nextInbox), AddressedTo(email));
      Filter(Listing(inbox, nextInbox), AddressedTo(email))
    }
  }

  /** The live database the handlers read and change in place. */
  class Database {
    var patients: map<nat, Patient>
    var tests: map<nat, Test>
    var results: map<nat, TestResult>
    var inbox: map<nat, InboxRow>
    var nextPatient: nat
    var nextTest: nat
    var nextResult: nat
    var nextInbox: nat

    function State(): Tables
      reads this
    {
      Tables(patients, tests, results, inbox, nextPatient, nextTest, nextResult, nextInbox)
    }

    predicate Valid()
      reads this
    {
      State().Valid()
    }

    /** A freshly synced, empty database. */
    constructor ()
      ensures Valid()
      ensures State() == Tables(map[], map[], map[], map[], 1, 1, 1, 1)
    {
      patients, tests, results, inbox := map[], map[], map[], map[];
      nextPatient, nextTest, nextResult, nextInbox := 1, 1, 1, 1;
    }
  }
}
