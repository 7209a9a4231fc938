/**
 * The `/api/tests` routes: CRUD on the Tests table, `send-to-doctor`
 * (mail one test's results) and `assign-to-doctor` (add a DoctorInboxes row).
 * Every handler answers with a status-tagged `Response`.
 */
module TestsRoutes {
  import opened Common
  import opened Store
  import opened Reports

  /** The fields `POST /tests` reads from its body; a missing or null field is `None`. */
  datatype TestBody = TestBody(testType: Option<string>, dateTaken: Option<string>, patientId: Option<nat>)

  /** A message handed to the mail transport. */
  datatype Mail<R> = Mail(to: string, report: R)

  /** `GET /tests`: every Tests row, in id order. */
  method ListTests(db: Database) returns (r: Response<seq<Row<Test>>>)
    requires db.Valid()
    ensures r.Ok?
    ensures forall x :: x in r.value <==> x.id in db.tests && db.tests[x.id] == x.val
    ensures Ascending(r.value)
  {
    r := Ok(Listing(db.tests, db.nextTest));
  }

  /** `GET /tests/:id`. */
  method GetTest(db: Database, id: nat) returns (r: Response<Row<Test>>)
    ensures id in db.tests ==> r == Ok(Row(id, db.tests[id]))
    ensures id !in db.tests ==> r == NotFound("Test not found")
  {
    if id !in db.tests {
      return NotFound("Test not found");
    }
    r := Ok(Row(id, db.tests[id]));
  }

  /**
   * `POST /tests`: stores exactly `type`, `date_taken` and `patientId` under
   * the next id. The patient is not looked up; a missing NOT NULL column
   * makes the ORM throw, answered with 500.
   */
  method CreateTest(db: Database, body: TestBody) returns (r: Response<Row<Test>>)
    requires db.Valid()
    modifies db
    ensures db.Valid()
    ensures body.testType.None? || body.dateTaken.None? ==>
              r == ServerError("Server error") && db.State() == old(db.State())
    ensures body.testType.Some? && body.dateTaken.Some? ==>
              var row := Test(body.testType.value, body.dateTaken.value, body.patientId);
              && old(db.nextTest) !in old(db.tests)
              && r == Created(Row(old(db.nextTest), row))
              && db.State() == old(db.State()).(tests := old(db.tests)[old(db.nextTest) := row],
                                                nextTest := old(db.nextTest) + 1)
  {
    if body.testType.None? || body.dateTaken.None? {
      return ServerError("Server error");
    }
    var row := Test(body.testType.value, body.dateTaken.value, body.patientId);
    var id := db.nextTest;
    db.tests := db.tests[id := row];
    db.nextTest := id + 1;
    r := Created(Row(id, row));
  }

  /** `PUT /tests/:id`: merges the body into the stored test; nothing else changes. */
  method UpdateTest(db: Database, id: nat, body: TestPatch) returns (r: Response<Row<Test>>)
    requires db.Valid()
    modifies db
    ensures db.Valid()
    ensures id !in old(db.tests) ==> r == NotFound("Test not found") && db.State() == old(db.State())
    ensures id in old(db.tests) && MergeTest(old(db.tests[id]), body).None? ==>
              r == ServerError("Server error") && db.State() == old(db.State())
    ensures id in old(db.tests) && MergeTest(old(db.tests[id]), body).Some? ==>
              var t := MergeTest(old(db.tests[id]), body).value;
              r == Ok(Row(id, t)) && db.State() == old(db.State()).(tests := old(db.tests)[id := t])
  {
    if id !in db.tests {
      return NotFound("Test not found");
    }
    var merged := MergeTest(db.tests[id], body);
    if merged.None? {
      return ServerError("Server error");
    }
    db.tests := db.tests[id := merged.value];
    r := Ok(Row(id, merged.value));
  }

  /** `DELETE /tests/:id`: removes that one row; results and inbox rows of the test stay. */
  method DeleteTest(db: Database, id: nat) returns (r: Response<string>)
    requires db.Valid()
    modifies db
    ensures db.Valid()
    ensures id !in old(db.tests) ==> r == NotFound("Test not found") && db.State() == old(db.State())
    ensures id in old(db.tests) ==>
              r == Ok("Test deleted") && db.State() == old(db.State()).(tests := old(db.tests) - {id})
  {
    if id !in db.tests {
      return NotFound("Test not found");
    }
    db.tests := db.tests - {id};
    r := Ok("Test deleted");
  }

  /** What the doctor-facing handlers resolve before acting. */
  datatype Target = Target(test: Test, patient: Row<Patient>, email: string)

  /**
   * The precondition chain shared by `send-to-doctor` and `assign-to-doctor`:
   * test, then patientId, then patient, then e-mail. `patientFirst` picks the
   * e-mail precedence: the patient's address over the body's, or the reverse.
   */
  function ResolveTarget(st: Tables, id: nat, bodyEmail: Option<string>, patientFirst: bool): (r: Response<Target>)
    ensures id !in st.tests ==> r == NotFound("Test not found")
    ensures id in st.tests && !HasId(st.tests[id].patientId) ==> r == BadRequest("Test has no associated patient")
    ensures id in st.tests && HasId(st.tests[id].patientId) && st.tests[id].patientId.value !in st.patients ==>
              r == NotFound("Patient not found")
    ensures r.Ok? || r.NotFound? || r.BadRequest?
    ensures r.Ok? <==>
              && id in st.tests && HasId(st.tests[id].patientId)
              && st.tests[id].patientId.value in st.patients
              && (Truthy(st.patients[st.tests[id].patientId.value].doctorEmail) || Truthy(bodyEmail))
    ensures r.Ok? ==>
              && id in st.tests && r.value.test == st.tests[id]
              && HasId(r.value.test.patientId)
              && (var pid := r.value.test.patientId.value;
                  pid in st.patients && r.value.patient == Row(pid, st.patients[pid]))
              && r.value.email != ""
              && (var mine := r.value.patient.val.doctorEmail;
                  Some(r.value.email) == (if patientFirst then Either(mine, bodyEmail) else Either(bodyEmail, mine)))
    ensures r == BadRequest("Doctor email not set for this patient") <==>
              && id in st.tests && HasId(st.tests[id].patientId)
              && st.tests[id].patientId.value in st.patients
              && !Truthy(st.patients[st.tests[id].patientId.value].doctorEmail) && !Truthy(bodyEmail)
  {
    if id !in st.tests then NotFound("Test not found")
    else
      var test := st.tests[id];
      if !HasId(test.patientId) then BadRequest("Test has no associated patient")
      else if test.patientId.value !in st.patients then NotFound("Patient not found")
      else
        var patient := Row(test.patientId.value, st.patients[test.patientId.value]);
        var mine := patient.val.doctorEmail;
        var email := if patientFirst then Either(mine, bodyEmail) else Either(bodyEmail, mine);
        if email.None? then BadRequest("Doctor email not set for this patient")
        else Ok(Target(test, patient, email.value))
  }

  /**
   * The two handlers fail in the same way on the same request; when both
   * succeed they address the same test and patient, and they choose
   * different doctors exactly when the patient and the body both name one
   * and the two differ.
   */
  lemma SendAndAssignPrecedence(st: Tables, id: nat, bodyEmail: Option<string>)
    ensures var s := ResolveTarget(st, id, bodyEmail, true);
            var a := ResolveTarget(st, id, bodyEmail, false);
            && (s.Ok? <==> a.Ok?)
            && (!s.Ok? ==> s == a)
            && (s.Ok? ==> s.value.test == a.value.test && s.value.patient == a.value.patient
                          && (s.value.email != a.value.email <==>
                                Truthy(s.value.patient.val.doctorEmail) && Truthy(bodyEmail)
                                && s.value.patient.val.doctorEmail != bodyEmail))
  {
    var s := ResolveTarget(st, id, bodyEmail, true);
    if s.Ok? {
      EitherOrderMatters(s.value.patient.val.doctorEmail, bodyEmail);
    }
  }

  /** A failed resolution, re-typed for the handler's own response. */
  function Reject<U>(c: Response<Target>): (r: Response<U>)
    requires !c.Ok? && !c.Created?
    ensures r.NotFound? <==> c.NotFound?
    ensures r.BadRequest? <==> c.BadRequest?
    ensures r.ServerError? <==> c.ServerError?
    ensures r.message == c.message
  {
    match c
    case NotFound(m) => NotFound(m)
    case BadRequest(m) => BadRequest(m)
    case ServerError(m) => ServerError(m)
  }

  /**
   * `POST /tests/:id/send-to-doctor`: after the chain (patient's e-mail
   * first), mails the test report; a transport failure answers 500. The
   * tables are only read.
   */
  method SendToDoctor(db: Database, id: nat, bodyEmail: Option<string>, transportOk: bool)
    returns (r: Response<string>, mail: Option<Mail<TestReport>>)
    requires db.Valid()
    ensures var c := ResolveTarget(db.State(), id, bodyEmail, true);
            && (!c.Ok? ==> r == Reject(c) && mail == None)
            && (c.Ok? ==>
                  && mail == Some(Mail(c.value.email,
                                       TestReport(c.value.patient.val.name, c.value.test.testType,
                                                  c.value.test.dateTaken, ResultTable(db.State().ResultsOf(id)))))
                  && r == (if transportOk then Ok("Test result sent to doctor")
                           else ServerError("Failed to send test result")))
  {
    var c := ResolveTarget(db.State(), id, bodyEmail, true);
    if !c.Ok? {
      return Reject(c), None;
    }
    var results := db.State().ResultsOf(id);
    var report := TestReport(c.value.patient.val.name, c.value.test.testType, c.value.test.dateTaken, ResultTable(results));
    mail := Some(Mail(c.value.email, report));
    if transportOk {
      r := Ok("Test result sent to doctor");
    } else {
      r := ServerError("Failed to send test result");
    }
  }

  /** The body of a successful assignment: a message and the new inbox row's id. */
  datatype Assignment = Assignment(message: string, id: nat)

  /**
   * `POST /tests/:id/assign-to-doctor`: after the chain (body's e-mail
   * first), inserts one inbox row and answers with its id and a message. No check for an
   * existing identical row; no row on any failure path.
   */
  method AssignToDoctor(db: Database, id: nat, bodyEmail: Option<string>) returns (r: Response<Assignment>)
    requires db.Valid()
    modifies db
    ensures db.Valid()
    ensures var c := ResolveTarget(old(db.State()), id, bodyEmail, false);
            && (!c.Ok? ==> r == Reject(c) && db.State() == old(db.State()))
            && (c.Ok? ==>
                  && r == Ok(Assignment("Assigned to doctor inbox", old(db.nextInbox)))
                  && old(db.nextInbox) !in old(db.inbox)
                  && |db.inbox| == |old(db.inbox)| + 1
                  && db.State() == old(db.State()).(inbox := old(db.inbox)[old(db.nextInbox) := InboxRow(c.value.email, id)],
                                                    nextInbox := old(db.nextInbox) + 1))
  {
    var c := ResolveTarget(db.State(), id, bodyEmail, false);
    if !c.Ok? {
      return Reject(c);
    }
    var rowId := db.nextInbox;
    db.inbox := db.inbox[rowId := InboxRow(c.value.email, id)];
    db.nextInbox := rowId + 1;
    r := Ok(Assignment("Assigned to doctor inbox", rowId));
  }

  /**
   * Inserting an inbox row puts it last in that doctor's inbox and leaves
   * every other doctor's inbox as it was; assigning the same test twice
   * therefore lists it twice.
   */
  lemma AssignAppendsToInbox(st: Tables, row: InboxRow, email: string)
    requires st.Valid()
    ensures var st' := st.(inbox := st.inbox[st.nextInbox := row], nextInbox := st.nextInbox + 1);
            st'.InboxFor(email) == st.InboxFor(email) + (if row.doctorEmail == email then [Row(st.nextInbox, row)] else [])
  {
    var p := AddressedTo(email);
    var last := [Row(st.nextInbox, row)];
    ListingAppend(st.inbox, st.nextInbox, row);
    FilterAppend(Listing(st.inbox, st.nextInbox), last, p);
    assert |last| == 1 && p(last[0]) == (row.doctorEmail == email);
  }
}
