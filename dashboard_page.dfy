/**
 * The lab dashboard page: the patient list held in page state, the add/edit
 * form, and the searched, gender-filtered and sorted view of the list.
 * Requests are returned as values and their replies passed in.
 */
module DashboardPage {
  import opened Common
  import opened Text
  import opened Sorting

  /** A patient as the page holds it; `id` is what the server sent back. */
  datatype ClientPatient = ClientPatient(id: Option<nat>, name: string, dob: string, gender: string)

  /** The add/edit form. */
  datatype Form = Form(name: string, dob: string, gender: string)

  const EmptyForm := Form("", "", "")

  /** The form inputs, by their `name` attribute. */
  datatype FormField = NameField | DobField | GenderField

  /** The JSON body of a save reply: a stored patient, or an error object. */
  datatype Reply = Reply(record: ClientPatient, message: Option<string>)

  /** The JSON body of the initial `GET /patients`: a list, or an error object. */
  datatype LoadReply = PatientList(patients: seq<ClientPatient>) | ErrorObject(message: Option<string>)

  /** A request the page sends to the patients API. */
  datatype Request = Put(id: nat, form: Form) | Post(form: Form, userId: nat) | Delete(target: Option<nat>)

  // ---------------------------------------------------------------------
  // The displayed list
  // ---------------------------------------------------------------------

  /** The search and gender filter, both case-insensitive. */
  predicate Shown(p: ClientPatient, searchTerm: string, genderFilter: string) {
    && Contains(Lower(p.name), Lower(searchTerm))
    && (genderFilter == "all" || Lower(p.gender) == Lower(genderFilter))
  }

  function ShownBy(searchTerm: string, genderFilter: string): ClientPatient -> bool {
    (p: ClientPatient) => Shown(p, searchTerm, genderFilter)
  }

  /**
   * `cmp(a, b) <= 0` for the sort comparator: names or genders in collation
   * order, dates of birth by day number, and everything equal for any other key.
   */
  function PatientLeq(sortBy: string, dayOf: string -> int): (ClientPatient, ClientPatient) -> bool {
    (a: ClientPatient, b: ClientPatient) =>
      if sortBy == "name" then LexLeq(a.name, b.name)
      else if sortBy == "dob" then dayOf(a.dob) <= dayOf(b.dob)
      else if sortBy == "gender" then LexLeq(a.gender, b.gender)
      else true
  }

  /** `filteredAndSortedPatients`: a sorted copy of the shown patients; `patients` itself is a value and stays as it was. */
  function FilterAndSortPatients(patients: seq<ClientPatient>, searchTerm: string, genderFilter: string,
                                 sortBy: string, dayOf: string -> int): (r: seq<ClientPatient>)
    ensures multiset(r) == multiset(Filter(patients, ShownBy(searchTerm, genderFilter)))
    ensures forall p :: p in r <==> p in patients && Shown(p, searchTerm, genderFilter)
  {
    var shown := Filter(patients, ShownBy(searchTerm, genderFilter));
    var r := SortBy(shown, PatientLeq(sortBy, dayOf));
    assert forall p :: p in r <==> p in multiset(r);
    r
  }

  /** Every sort key the page offers orders patients by a total preorder. */
  lemma PatientOrderIsTotal(sortBy: string, dayOf: string -> int)
    ensures TotalPreorder(PatientLeq(sortBy, dayOf))
  {
    var leq := PatientLeq(sortBy, dayOf);
    forall a, b
      ensures leq(a, b) || leq(b, a)
    {
      LexLeqTotal(a.name, b.name);
      LexLeqTotal(a.gender, b.gender);
    }
    forall a, b, c | leq(a, b) && leq(b, c)
      ensures leq(a, c)
    {
      if sortBy == "name" {
        LexLeqTransitive(a.name, b.name, c.name);
      } else if sortBy == "gender" {
        LexLeqTransitive(a.gender, b.gender, c.gender);
      }
    }
  }

  /** The displayed list is ordered by the chosen key. */
  lemma DisplayedIsSorted(patients: seq<ClientPatient>, searchTerm: string, genderFilter: string,
                          sortBy: string, dayOf: string -> int)
    ensures var r := FilterAndSortPatients(patients, searchTerm, genderFilter, sortBy, dayOf);
            forall i, j :: 0 <= i < j < |r| ==>
              && (sortBy == "name" ==> LexLeq(r[i].name, r[j].name))
              && (sortBy == "dob" ==> dayOf(r[i].dob) <= dayOf(r[j].dob))
              && (sortBy == "gender" ==> LexLeq(r[i].gender, r[j].gender))
  {
    PatientOrderIsTotal(sortBy, dayOf);
    SortBySorted(Filter(patients, ShownBy(searchTerm, genderFilter)), PatientLeq(sortBy, dayOf));
  }

  /**
   * Patients that the comparator calls equal (same gender under "gender",
   * say) are displayed in the order the list had them.
   */
  lemma DisplayedIsStable(patients: seq<ClientPatient>, searchTerm: string, genderFilter: string,
                          sortBy: string, dayOf: string -> int, z: ClientPatient)
    ensures var leq := PatientLeq(sortBy, dayOf);
            Filter(FilterAndSortPatients(patients, searchTerm, genderFilter, sortBy, dayOf), TiedWith(leq, z))
            == Filter(Filter(patients, ShownBy(searchTerm, genderFilter)), TiedWith(leq, z))
  {
    PatientOrderIsTotal(sortBy, dayOf);
    SortByStable(Filter(patients, ShownBy(searchTerm, genderFilter)), PatientLeq(sortBy, dayOf), z);
  }

  /** With any other sort key the comparator answers 0 throughout, and the stable sort keeps the list order. */
  lemma UnknownKeyKeepsOrder(patients: seq<ClientPatient>, searchTerm: string, genderFilter: string,
                             sortBy: string, dayOf: string -> int)
    requires sortBy != "name" && sortBy != "dob" && sortBy != "gender"
    ensures FilterAndSortPatients(patients, searchTerm, genderFilter, sortBy, dayOf)
            == Filter(patients, ShownBy(searchTerm, genderFilter))
  {
    SortByAllEqual(Filter(patients, ShownBy(searchTerm, genderFilter)), PatientLeq(sortBy, dayOf));
  }

  /** An empty search with gender filter `all` shows every patient. */
  lemma EmptySearchShowsAll(patients: seq<ClientPatient>, sortBy: string, dayOf: string -> int)
    ensures multiset(FilterAndSortPatients(patients, "", "all", sortBy, dayOf)) == multiset(patients)
  {
    forall p | p in patients
      ensures Shown(p, "", "all")
    {
      ContainsEmpty(Lower(p.name));
    }
    FilterAll(patients, ShownBy("", "all"));
  }

  // ---------------------------------------------------------------------
  // List updates after a successful request
  // ---------------------------------------------------------------------

  /** `patients.map(p => p.id === id ? q : p)`. */
  function Replaced(ps: seq<ClientPatient>, id: Option<nat>, q: ClientPatient): (r: seq<ClientPatient>)
    ensures |r| == |ps|
    ensures forall i :: 0 <= i < |ps| ==> r[i] == if ps[i].id == id then q else ps[i]
  {
    if ps == [] then []
    else [if ps[0].id == id then q else ps[0]] + Replaced(ps[1..], id, q)
  }

  /** Replacing an id no patient has changes nothing; replacing with a record of the same id twice is the same as once. */
  lemma {:induction false} ReplacedProperties(ps: seq<ClientPatient>, id: Option<nat>, q: ClientPatient)
    ensures (forall p :: p in ps ==> p.id != id) ==> Replaced(ps, id, q) == ps
    ensures q.id == id ==> Replaced(Replaced(ps, id, q), id, q) == Replaced(ps, id, q)
  {
    if ps != [] {
      ReplacedProperties(ps[1..], id, q);
      assert ps[0] in ps;
      assert forall p :: p in ps[1..] ==> p in ps;
    }
  }

  function NotId(id: Option<nat>): ClientPatient -> bool {
    (p: ClientPatient) => p.id != id
  }

  /** `patients.filter(p => p.id !== id)`. */
  function Removed(ps: seq<ClientPatient>, id: Option<nat>): (r: seq<ClientPatient>)
    ensures forall p :: p in r <==> p in ps && p.id != id
    ensures |r| <= |ps|
    ensures forall p :: multiset(r)[p] == if p.id != id then multiset(ps)[p] else 0
    ensures (forall p :: p in ps ==> p.id != id) ==> r == ps
    ensures r == Filter(ps, NotId(id))
  {
    FilterMultiplicity(ps, NotId(id));
    if forall p :: p in ps ==> p.id != id then
      FilterAll(ps, NotId(id));
      Filter(ps, NotId(id))
    else Filter(ps, NotId(id))
  }

  /** Deleting a patient just added, whose id was new, gives back the list from before the add. */
  lemma AddThenDeleteRestores(ps: seq<ClientPatient>, q: ClientPatient)
    requires forall p :: p in ps ==> p.id != q.id
    ensures Removed(ps + [q], q.id) == ps
  {
    FilterAppend(ps, [q], NotId(q.id));
    FilterAll(ps, NotId(q.id));
    assert Filter([q], NotId(q.id)) == [];
  }

  /** The page state the handlers update. */
  class Dashboard {
    var patients: seq<ClientPatient>
    var form: Form
    var editingId: Option<nat>
    var message: string
    var error: string
    var loading: bool

    constructor ()
      ensures patients == [] && form == EmptyForm && editingId == None
      ensures message == "" && error == "" && loading
    {
      patients, form, editingId := [], EmptyForm, None;
      message, error, loading := "", "", true;
    }

    /** The mount effect: without a token, "Not logged in"; else a list reply replaces `patients` and an error reply sets `error`. */
    method Load(token: Option<string>, reply: LoadReply)
      modifies this
      ensures !loading && form == old(form) && editingId == old(editingId) && message == old(message)
      ensures !Truthy(token) ==> error == "Not logged in" && patients == old(patients)
      ensures Truthy(token) && reply.PatientList? ==> patients == reply.patients && error == old(error)
      ensures Truthy(token) && reply.ErrorObject? ==>
                patients == old(patients) && error == Either(reply.message, Some("Failed to fetch patients")).value
    {
      if !Truthy(token) {
        error := "Not logged in";
        loading := false;
        return;
      }
      match reply {
        case PatientList(ps) => patients := ps;
        case ErrorObject(m) => error := Either(m, Some("Failed to fetch patients")).value;
      }
      loading := false;
    }

    /** `handleChange`: one form input edited. */
    method HandleChange(field: FormField, value: string)
      modifies this
      ensures form == (match field
                       case NameField => old(form).(name := value)
                       case DobField => old(form).(dob := value)
                       case GenderField => old(form).(gender := value))
      ensures patients == old(patients) && editingId == old(editingId) && message == old(message)
      ensures error == old(error) && loading == old(loading)
    {
      match field {
        case NameField => form := form.(name := value);
        case DobField => form := form.(dob := value);
        case GenderField => form := form.(gender := value);
      }
    }

    /**
     * `handleSubmit`: with an `editingId` a PUT of the form to that id, else
     * a POST of the form with `userId: 1`. A reply with an id updates the
     * list and resets the form; any other reply only sets the message, from
     * the reply's own message if it has one.
     */
    method HandleSubmit(token: Option<string>, reply: Reply) returns (req: Option<Request>)
      modifies this
      ensures error == old(error) && loading == old(loading)
      ensures !Truthy(token) ==>
                && req == None && message == "Not logged in"
                && patients == old(patients) && form == old(form) && editingId == old(editingId)
      ensures Truthy(token) && HasId(old(editingId)) ==>
                && req == Some(Put(old(editingId).value, old(form)))
                && (HasId(reply.record.id) ==>
                      && message == "Patient updated!"
                      && patients == Replaced(old(patients), old(editingId), reply.record)
                      && form == EmptyForm && editingId == None)
                && (!HasId(reply.record.id) ==>
                      && message == Either(reply.message, Some("Failed to update patient")).value
                      && patients == old(patients) && form == old(form) && editingId == old(editingId))
      ensures Truthy(token) && !HasId(old(editingId)) ==>
                && req == Some(Post(old(form), 1))
                && editingId == old(editingId)
                && (HasId(reply.record.id) ==>
                      message == "Patient added!" && patients == old(patients) + [reply.record] && form == EmptyForm)
                && (!HasId(reply.record.id) ==>
                      && message == Either(reply.message, Some("Failed to add patient")).value
                      && patients == old(patients) && form == old(form))
    {
      message := "";
      if !Truthy(token) {
        message := "Not logged in";
        return None;
      }
      if HasId(editingId) {
        req := Some(Put(editingId.value, form));
        if HasId(reply.record.id) {
          message := "Patient updated!";
          patients := Replaced(patients, editingId, reply.record);
          form := EmptyForm;
          editingId := None;
        } else {
          message := Either(reply.message, Some("Failed to update patient")).value;
        }
      } else {
        req := Some(Post(form, 1));
        if HasId(reply.record.id) {
          message := "Patient added!";
          patients := patients + [reply.record];
          form := EmptyForm;
        } else {
          message := Either(reply.message, Some("Failed to add patient")).value;
        }
      }
    }

    /** `handleEdit`: load the patient into the form and remember its id. */
    method HandleEdit(patient: ClientPatient)
      modifies this
      ensures form == Form(patient.name, patient.dob, patient.gender) && editingId == patient.id
      ensures patients == old(patients) && message == old(message)
      ensures error == old(error) && loading == old(loading)
    {
      form := Form(patient.name, patient.dob, patient.gender);
      editingId := patient.id;
    }

    /**
     * `handleDelete`: a DELETE for the id; on an ok reply the patients with
     * that id leave the list, and an edit of that patient is abandoned.
     */
    method HandleDelete(id: Option<nat>, ok: bool) returns (req: Request)
      modifies this
      ensures req == Delete(id)
      ensures message == old(message) && error == old(error) && loading == old(loading)
      ensures !ok ==> patients == old(patients) && form == old(form) && editingId == old(editingId)
      ensures ok ==> patients == Removed(old(patients), id)
      ensures ok && old(editingId) == id ==> editingId == None && form == EmptyForm
      ensures ok && old(editingId) != id ==> editingId == old(editingId) && form == old(form)
    {
      req := Delete(id);
      if ok {
        patients := Removed(patients, id);
        if editingId == id {
          editingId := None;
          form := EmptyForm;
        }
      }
    }

    /** `handleCancelEdit`. */
    method HandleCancelEdit()
      modifies this
      ensures editingId == None && form == EmptyForm
      ensures patients == old(patients) && message == old(message)
      ensures error == old(error) && loading == old(loading)
    {
      editingId := None;
      form := EmptyForm;
    }
  }
}
