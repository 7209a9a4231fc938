/**
 * The `/api/patients` routes: CRUD on the Patients table and `send-results`,
 * which mails a report of all the patient's tests to the patient's doctor.
 */
module PatientsRoutes {
  import opened Common
  import opened Store
  import opened Reports
  import TestsRoutes

  /** The fields `POST /patients` reads from its body; a missing or null field is `None`. */
  datatype PatientBody = PatientBody(
    name: Option<string>, dob: Option<string>, gender: Option<string>,
    userId: Option<nat>, doctorEmail: Option<string>)

  /** `GET /patients`: every Patients row, in id order. */
  method ListPatients(db: Database) returns (r: Response<seq<Row<Patient>>>)
    requires db.Valid()
    ensures r.Ok?
    ensures forall x :: x in r.value <==> x.id in db.patients && db.patients[x.id] == x.val
    ensures Ascending(r.value)
  {
    r := Ok(Listing(db.patients, db.nextPatient));
  }

  /** `GET /patients/:id`. */
  method GetPatient(db: Database, id: nat) returns (r: Response<Row<Patient>>)
    ensures id in db.patients ==> r == Ok(Row(id, db.patients[id]))
    ensures id !in db.patients ==> r == NotFound("Patient not found")
  {
    if id !in db.patients {
      return NotFound("Patient not found");
    }
    r := Ok(Row(id, db.patients[id]));
  }

  /**
   * `POST /patients`: stores exactly `name`, `dob`, `gender`, `userId` and
   * `doctorEmail` under the next id; a missing NOT NULL column answers 500.
   */
  method CreatePatient(db: Database, body: PatientBody) returns (r: Response<Row<Patient>>)
    requires db.Valid()
    modifies db
    ensures db.Valid()
    ensures body.name.None? || body.dob.None? || body.gender.None? ==>
              r == ServerError("Server error") && db.State() == old(db.State())
    ensures body.name.Some? && body.dob.Some? && body.gender.Some? ==>
              var row := Patient(body.name.value, body.dob.value, body.gender.value, body.userId, body.doctorEmail);
              && old(db.nextPatient) !in old(db.patients)
              && r == Created(Row(old(db.nextPatient), row))
              && db.State() == old(db.State()).(patients := old(db.patients)[old(db.nextPatient) := row],
                                                nextPatient := old(db.nextPatient) + 1)
  {
    if body.name.None? || body.dob.None? || body.gender.None? {
      return ServerError("Server error");
    }
    var row := Patient(body.name.value, body.dob.value, body.gender.value, body.userId, body.doctorEmail);
    var id := db.nextPatient;
    db.patients := db.patients[id := row];
    db.nextPatient := id + 1;
    r := Created(Row(id, row));
  }

  /** `PUT /patients/:id`: merges the body into the stored patient; nothing else changes. */
  method UpdatePatient(db: Database, id: nat, body: PatientPatch) returns (r: Response<Row<Patient>>)
    requires db.Valid()
    modifies db
    ensures db.Valid()
    ensures id !in old(db.patients) ==> r == NotFound("Patient not found") && db.State() == old(db.State())
    ensures id in old(db.patients) && MergePatient(old(db.patients[id]), body).None? ==>
              r == ServerError("Server error") && db.State() == old(db.State())
    ensures id in old(db.patients) && MergePatient(old(db.patients[id]), body).Some? ==>
              var p := MergePatient(old(db.patients[id]), body).value;
              r == Ok(Row(id, p)) && db.State() == old(db.State()).(patients := old(db.patients)[id := p])
  {
    if id !in db.patients {
      return NotFound("Patient not found");
    }
    var merged := MergePatient(db.patients[id], body);
    if merged.None? {
      return ServerError("Server error");
    }
    db.patients := db.patients[id := merged.value];
    r := Ok(Row(id, merged.value));
  }

  /** `DELETE /patients/:id`: removes that one row; the patient's tests stay. */
  method DeletePatient(db: Database, id: nat) returns (r: Response<string>)
    requires db.Valid()
    modifies db
    ensures db.Valid()
    ensures id !in old(db.patients) ==> r == NotFound("Patient not found") && db.State() == old(db.State())
    ensures id in old(db.patients) ==>
              r == Ok("Patient deleted") && db.State() == old(db.State()).(patients := old(db.patients) - {id})
  {
    if id !in db.patients {
      return NotFound("Patient not found");
    }
    db.patients := db.patients - {id};
    r := Ok("Patient deleted");
  }

  /**
   * `POST /patients/:id/send-results`: 404 for an unknown patient; the
   * address is the patient's `doctorEmail`, else the body's, else 400; then
   * the patient report is mailed, and a transport failure answers 500.
   */
  method SendResults(db: Database, id: nat, bodyEmail: Option<string>, transportOk: bool)
    returns (r: Response<string>, mail: Option<TestsRoutes.Mail<PatientReport>>)
    requires db.Valid()
    ensures id !in db.patients ==> r == NotFound("Patient not found") && mail == None
    ensures id in db.patients && Either(db.patients[id].doctorEmail, bodyEmail).None? ==>
              r == BadRequest("Doctor email not set for this patient") && mail == None
    ensures id in db.patients && Either(db.patients[id].doctorEmail, bodyEmail).Some? ==>
              && mail == Some(TestsRoutes.Mail(Either(db.patients[id].doctorEmail, bodyEmail).value,
                                               PatientReportOf(db.State(), Row(id, db.patients[id]))))
              && r == (if transportOk then Ok("Results sent to doctor") else ServerError("Failed to send results"))
  {
    if id !in db.patients {
      return NotFound("Patient not found"), None;
    }
    var patient := Row(id, db.patients[id]);
    var email := Either(patient.val.doctorEmail, bodyEmail);
    if email.None? {
      return BadRequest("Doctor email not set for this patient"), None;
    }
    var report := PatientReportOf(db.State(), patient);
    mail := Some(TestsRoutes.Mail(email.value, report));
    if transportOk {
      r := Ok("Results sent to doctor");
    } else {
      r := ServerError("Failed to send results");
    }
  }

  /**
   * `send-results` addresses the same doctor as `send-to-doctor` does for
   * any of the patient's tests: both prefer the patient's own address.
   */
  lemma SendResultsAgreesWithSendToDoctor(st: Tables, testId: nat, bodyEmail: Option<string>)
    requires TestsRoutes.ResolveTarget(st, testId, bodyEmail, true).Ok?
    ensures var t := TestsRoutes.ResolveTarget(st, testId, bodyEmail, true).value;
            Either(st.patients[t.patient.id].doctorEmail, bodyEmail) == Some(t.email)
  {
  }

  /**
   * What the Patients table keeps of a record as the model file declares it:
   * `doctorEmail` is not a declared attribute, so the ORM drops it on save
   * and the schema sync removes any such column.
   */
  function AsDeclared(p: Patient): (q: Patient)
    ensures q.doctorEmail == None
    ensures q.(doctorEmail := p.doctorEmail) == p
  {
    p.(doctorEmail := None)
  }

  /**
   * As written: when no stored patient carries an address, the two
   * precedence rules coincide, and a request without a body address can
   * never reach a doctor.
   */
  lemma AsDeclaredIgnoresPatientAddress(st: Tables, id: nat, bodyEmail: Option<string>)
    requires forall pid :: pid in st.patients ==> st.patients[pid] == AsDeclared(st.patients[pid])
    ensures TestsRoutes.ResolveTarget(st, id, bodyEmail, true) == TestsRoutes.ResolveTarget(st, id, bodyEmail, false)
    ensures !Truthy(bodyEmail) ==> !TestsRoutes.ResolveTarget(st, id, bodyEmail, true).Ok?
  {
    var r := TestsRoutes.ResolveTarget(st, id, bodyEmail, true);
    if r.Ok? {
      var pid := r.value.patient.id;
      assert st.patients[pid] == AsDeclared(st.patients[pid]);
    }
    TestsRoutes.SendAndAssignPrecedence(st, id, bodyEmail);
  }

  /** A patient created with a doctor address, and one test of that patient. */
  const Ann := Patient("Ann", "1990-01-01", "F", None, Some("dr@lab"))
  const Cbc := Test("CBC", "2024-05-01", Some(1))

  /** As written: the address given at creation is lost, and `send-to-doctor` without a body address answers 400. */
  lemma AddressLostAsDeclared()
    ensures var st := Tables(map[1 := AsDeclared(Ann)], map[1 := Cbc], map[], map[], 2, 2, 1, 1);
            TestsRoutes.ResolveTarget(st, 1, None, true) == BadRequest("Doctor email not set for this patient")
  {
  }

  /** Corrected, as this model stores it: the same request mails the address given at creation. */
  lemma AddressKeptWhenStored()
    ensures var st := Tables(map[1 := Ann], map[1 := Cbc], map[], map[], 2, 2, 1, 1);
            TestsRoutes.ResolveTarget(st, 1, None, true) == Ok(TestsRoutes.Target(Cbc, Row(1, Ann), "dr@lab"))
  {
  }
}
