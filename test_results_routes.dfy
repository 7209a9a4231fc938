/**
 * The `/api/test-results` routes: CRUD on the TestResults table, each
 * lookup answering 404 for an unknown id.
 */
module TestResultsRoutes {
  import opened Common
  import opened Store

  /** The six fields `POST /test-results` reads from its body; a missing or null field is `None`. */
  datatype ResultBody = ResultBody(
    parameterName: Option<string>, value: Option<real>, unit: Option<string>,
    normalMin: Option<real>, normalMax: Option<real>, testId: Option<nat>)

  predicate Complete(b: ResultBody) {
    b.parameterName.Some? && b.value.Some? && b.unit.Some? && b.normalMin.Some? && b.normalMax.Some?
  }

  /** `GET /test-results`: every TestResults row, in id order. */
  method ListResults(db: Database) returns (r: Response<seq<Row<TestResult>>>)
    requires db.Valid()
    ensures r.Ok?
    ensures forall x :: x in r.value <==> x.id in db.results && db.results[x.id] == x.val
    ensures Ascending(r.value)
  {
    r := Ok(Listing(db.results, db.nextResult));
  }

  /** `GET /test-results/:id`. */
  method GetResult(db: Database, id: nat) returns (r: Response<Row<TestResult>>)
    ensures id in db.results ==> r == Ok(Row(id, db.results[id]))
    ensures id !in db.results ==> r == NotFound("Test result not found")
  {
    if id !in db.results {
      return NotFound("Test result not found");
    }
    r := Ok(Row(id, db.results[id]));
  }

  /**
   * `POST /test-results`: stores exactly the six body fields under the next
   * id, without looking the test up; a missing NOT NULL column answers 500.
   */
  method CreateResult(db: Database, body: ResultBody) returns (r: Response<Row<TestResult>>)
    requires db.Valid()
    modifies db
    ensures db.Valid()
    ensures !Complete(body) ==> r == ServerError("Server error") && db.State() == old(db.State())
    ensures Complete(body) ==>
              var row := TestResult(body.parameterName.value, body.value.value, body.unit.value,
                                    body.normalMin.value, body.normalMax.value, body.testId);
              && old(db.nextResult) !in old(db.results)
              && r == Created(Row(old(db.nextResult), row))
              && db.State() == old(db.State()).(results := old(db.results)[old(db.nextResult) := row],
                                                nextResult := old(db.nextResult) + 1)
  {
    if !Complete(body) {
      return ServerError("Server error");
    }
    var row := TestResult(body.parameterName.value, body.value.value, body.unit.value,
                          body.normalMin.value, body.normalMax.value, body.testId);
    var id := db.nextResult;
    db.results := db.results[id := row];
    db.nextResult := id + 1;
    r := Created(Row(id, row));
  }

  /** `PUT /test-results/:id`: merges the body into the stored result; nothing else changes. */
  method UpdateResult(db: Database, id: nat, body: ResultPatch) returns (r: Response<Row<TestResult>>)
    requires db.Valid()
    modifies db
    ensures db.Valid()
    ensures id !in old(db.results) ==> r == NotFound("Test result not found") && db.State() == old(db.State())
    ensures id in old(db.results) && MergeResult(old(db.results[id]), body).None? ==>
              r == ServerError("Server error") && db.State() == old(db.State())
    ensures id in old(db.results) && MergeResult(old(db.results[id]), body).Some? ==>
              var t := MergeResult(old(db.results[id]), body).value;
              r == Ok(Row(id, t)) && db.State() == old(db.State()).(results := old(db.results)[id := t])
  {
    if id !in db.results {
      return NotFound("Test result not found");
    }
    var merged := MergeResult(db.results[id], body);
    if merged.None? {
      return ServerError("Server error");
    }
    db.results := db.results[id := merged.value];
    r := Ok(Row(id, merged.value));
  }

  /** `DELETE /test-results/:id`: removes that one row. */
  method DeleteResult(db: Database, id: nat) returns (r: Response<string>)
    requires db.Valid()
    modifies db
    ensures db.Valid()
    ensures id !in old(db.results) ==> r == NotFound("Test result not found") && db.State() == old(db.State())
    ensures id in old(db.results) ==>
              r == Ok("Test result deleted") && db.State() == old(db.State()).(results := old(db.results) - {id})
  {
    if id !in db.results {
      return NotFound("Test result not found");
    }
    db.results := db.results - {id};
    r := Ok("Test result deleted");
  }
}
