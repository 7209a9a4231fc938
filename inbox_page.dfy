/**
 * The doctor inbox page: the inbox entries fetched for the saved e-mail,
 * searched by patient name or test type, sorted by name, type or date, and
 * shown with the first two results of each test.
 */
module InboxPage {
  import opened Common
  import opened Text
  import opened Sorting
  import opened Store
  import opened DoctorRoute

  /** The fields of an inbox entry the page reads; optional chaining on a missing patient gives `None`. */
  datatype InboxItem = InboxItem(
    id: nat, patientName: Option<string>, testType: Option<string>,
    dateTaken: Option<string>, results: seq<Row<TestResult>>)

  /** An entry of the route's JSON answer as the page sees it. */
  function ItemOf(e: Entry): (i: InboxItem)
    ensures i.id == e.id && i.results == e.results
    ensures i.patientName.Some? <==> e.patient.Some?
    ensures e.patient.Some? ==> i.patientName.value == e.patient.value.val.name
    ensures i.testType == Some(e.test.val.testType) && i.dateTaken == Some(e.test.val.dateTaken)
  {
    InboxItem(e.id, if e.patient.Some? then Some(e.patient.value.val.name) else None,
              Some(e.test.val.testType), Some(e.test.val.dateTaken), e.results)
  }

  function ItemsOf(es: seq<Entry>): (r: seq<InboxItem>)
    ensures |r| == |es| && forall k :: 0 <= k < |es| ==> r[k] == ItemOf(es[k])
  {
    seq(|es|, k requires 0 <= k < |es| => ItemOf(es[k]))
  }

  // ---------------------------------------------------------------------
  // fetchInbox
  // ---------------------------------------------------------------------

  /** What `fetchInbox` leaves behind: whether it sent a request, and the items. */
  datatype Fetched = Fetched(requested: bool, items: seq<InboxItem>)

  /**
   * `fetchInbox`: nothing at all for an empty e-mail; otherwise the items
   * become the answer when it is a list and the empty list when it is an
   * error object.
   */
  function FetchInbox(email: string, items: seq<InboxItem>, answer: Response<seq<Entry>>): (r: Fetched)
    ensures r.requested <==> email != ""
    ensures !r.requested ==> r.items == items
    ensures r.requested && answer.Ok? ==> r.items == ItemsOf(answer.value)
    ensures r.requested && !answer.Ok? ==> r.items == []
  {
    if email == "" then Fetched(false, items)
    else if answer.Ok? then Fetched(true, ItemsOf(answer.value))
    else Fetched(true, [])
  }

  /** The page's guard and the route's 400 agree: the page never sends the query the route would refuse. */
  lemma GuardMatchesRoute(st: Tables, email: string, items: seq<InboxItem>)
    ensures FetchInbox(email, items, InboxResponse(st, Some(email))).requested
            <==> !InboxResponse(st, Some(email)).BadRequest?
  {
  }

  /**
   * After a fetch against a database with no dangling inbox row, the page
   * holds one item per inbox row addressed to the e-mail, in id order, each
   * with its test's type and date and exactly that test's results.
   */
  lemma FetchShowsInbox(st: Tables, email: string, items: seq<InboxItem>)
    requires st.Valid()
    requires email != ""
    requires forall i :: i in st.InboxFor(email) ==> i.val.testId in st.tests
    ensures var got := FetchInbox(email, items, InboxResponse(st, Some(email))).items;
            var rows := st.InboxFor(email);
            && |got| == |rows|
            && forall k :: 0 <= k < |got| ==>
                 var t := st.tests[rows[k].val.testId];
                 && got[k].id == rows[k].id
                 && got[k].testType == Some(t.testType) && got[k].dateTaken == Some(t.dateTaken)
                 && got[k].results == st.ResultsOf(rows[k].val.testId)
  {
    InboxFailsOnDanglingRow(st, email);
    var es := InboxResponse(st, Some(email)).value;
    var rows := st.InboxFor(email);
    forall k | 0 <= k < |es|
      ensures EntryFor(st, rows[k]) == Some(es[k])
    {
    }
  }

  // ---------------------------------------------------------------------
  // filteredAndSorted
  // ---------------------------------------------------------------------

  /** `x || ''` for an optional string. */
  function OrEmpty(s: Option<string>): (r: string)
    ensures Truthy(s) ==> r == s.value
    ensures !Truthy(s) ==> r == ""
  {
    if s.Some? then s.value else ""
  }

  /** The search query: trimmed, then lower-cased. */
  function Query(search: string): string {
    Lower(Trim(search))
  }

  /** The search predicate for a non-empty query. */
  predicate Matches(i: InboxItem, q: string) {
    Contains(Lower(OrEmpty(i.patientName)), q) || Contains(Lower(OrEmpty(i.testType)), q)
  }

  function MatchesQuery(q: string): InboxItem -> bool {
    (i: InboxItem) => Matches(i, q)
  }

  /** The items the search keeps, before sorting. */
  function Base(items: seq<InboxItem>, search: string): (r: seq<InboxItem>)
    ensures forall i :: i in r <==> i in items && (Query(search) == "" || Matches(i, Query(search)))
    ensures Query(search) == "" ==> r == items
    ensures Query(search) != "" ==> r == Filter(items, MatchesQuery(Query(search)))
  {
    var q := Query(search);
    if q == "" then items else Filter(items, MatchesQuery(q))
  }

  /** The day number the date sort compares; a missing date counts as day 0. */
  function DateKey(i: InboxItem, dayOf: string -> int): int {
    if Truthy(i.dateTaken) then dayOf(i.dateTaken.value) else 0
  }

  /** `cmp(a, b) <= 0` for the page's comparator: name or type ascending, otherwise newest date first. */
  function ItemLeq(sortBy: string, dayOf: string -> int): (InboxItem, InboxItem) -> bool {
    (a: InboxItem, b: InboxItem) =>
      if sortBy == "name" then LexLeq(OrEmpty(a.patientName), OrEmpty(b.patientName))
      else if sortBy == "type" then LexLeq(OrEmpty(a.testType), OrEmpty(b.testType))
      else DateKey(b, dayOf) <= DateKey(a, dayOf)
  }

  /** `filteredAndSorted`: a sorted copy of the searched items; the page's `items` are not touched. */
  function FilteredAndSorted(items: seq<InboxItem>, search: string, sortBy: string, dayOf: string -> int)
    : (r: seq<InboxItem>)
    ensures multiset(r) == multiset(Base(items, search))
    ensures forall i :: i in r <==> i in items && (Query(search) == "" || Matches(i, Query(search)))
  {
    var r := SortBy(Base(items, search), ItemLeq(sortBy, dayOf));
    assert forall i :: i in r <==> i in multiset(r);
    r
  }

  /** A search of only whitespace keeps every item. */
  lemma BlankSearchKeepsAll(items: seq<InboxItem>, search: string, sortBy: string, dayOf: string -> int)
    requires forall k :: 0 <= k < |search| ==> IsSpace(search[k])
    ensures multiset(FilteredAndSorted(items, search, sortBy, dayOf)) == multiset(items)
  {
    assert Trim(search) == "";
  }

  /** A query is matched case-insensitively: changing the case of the search changes nothing. */
  lemma SearchIgnoresCase(items: seq<InboxItem>, search: string, sortBy: string, dayOf: string -> int)
    ensures FilteredAndSorted(items, Lower(search), sortBy, dayOf) == FilteredAndSorted(items, search, sortBy, dayOf)
  {
    LowerTrimCommute(search);
    LowerIdempotent(Trim(search));
  }

  /** Every sort key orders items by a total preorder. */
  lemma ItemOrderIsTotal(sortBy: string, dayOf: string -> int)
    ensures TotalPreorder(ItemLeq(sortBy, dayOf))
  {
    var leq := ItemLeq(sortBy, dayOf);
    forall a, b
      ensures leq(a, b) || leq(b, a)
    {
      LexLeqTotal(OrEmpty(a.patientName), OrEmpty(b.patientName));
      LexLeqTotal(OrEmpty(a.testType), OrEmpty(b.testType));
    }
    forall a, b, c | leq(a, b) && leq(b, c)
      ensures leq(a, c)
    {
      if sortBy == "name" {
        LexLeqTransitive(OrEmpty(a.patientName), OrEmpty(b.patientName), OrEmpty(c.patientName));
      } else if sortBy == "type" {
        LexLeqTransitive(OrEmpty(a.testType), OrEmpty(b.testType), OrEmpty(c.testType));
      }
    }
  }

  /** Name and type sort ascending; the date key and every other key sort newest first. */
  lemma SortedByKey(items: seq<InboxItem>, search: string, sortBy: string, dayOf: string -> int)
    ensures var r := FilteredAndSorted(items, search, sortBy, dayOf);
            forall i, j :: 0 <= i < j < |r| ==>
              && (sortBy == "name" ==> LexLeq(OrEmpty(r[i].patientName), OrEmpty(r[j].patientName)))
              && (sortBy == "type" ==> LexLeq(OrEmpty(r[i].testType), OrEmpty(r[j].testType)))
              && (sortBy != "name" && sortBy != "type" ==> DateKey(r[j], dayOf) <= DateKey(r[i], dayOf))
  {
    ItemOrderIsTotal(sortBy, dayOf);
    SortBySorted(Base(items, search), ItemLeq(sortBy, dayOf));
  }

  /** Items the comparator calls equal (same test type under "type", say) keep the order of the fetched list. */
  lemma SortedIsStable(items: seq<InboxItem>, search: string, sortBy: string, dayOf: string -> int, z: InboxItem)
    ensures var leq := ItemLeq(sortBy, dayOf);
            Filter(FilteredAndSorted(items, search, sortBy, dayOf), TiedWith(leq, z))
            == Filter(Base(items, search), TiedWith(leq, z))
  {
    ItemOrderIsTotal(sortBy, dayOf);
    SortByStable(Base(items, search), ItemLeq(sortBy, dayOf), z);
  }

  // ---------------------------------------------------------------------
  // Result highlights
  // ---------------------------------------------------------------------

  /** The results shown in an inbox row, and whether "…and more" follows them. */
  datatype Highlight = Highlight(shown: seq<Row<TestResult>>, more: bool)

  function Highlights(results: seq<Row<TestResult>>): (h: Highlight)
    ensures |h.shown| == if |results| < 2 then |results| else 2
    ensures h.shown <= results
    ensures h.more <==> |results| > 2
  {
    Highlight(if |results| < 2 then results else results[..2], |results| > 2)
  }

  /** Without "…and more" every result is shown; with it, the first two are shown and the rest are hidden behind it. */
  lemma HighlightsComplete(results: seq<Row<TestResult>>)
    ensures !Highlights(results).more ==> Highlights(results).shown == results
    ensures Highlights(results).more ==> Highlights(results).shown + results[2..] == results
  {
  }
}
