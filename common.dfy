/**
 * Shared vocabulary of the model: optional values, HTTP-style responses,
 * JavaScript truthiness, stored rows, and the two list operations the
 * backend's queries are built from (listing a table in id order, filtering).
 */
module Common {

  datatype Option<T> = None | Some(value: T)

  /** A handler's answer: the status it sends and its JSON payload. */
  datatype Response<T> =
    | Ok(value: T)              // 200
    | Created(value: T)         // 201
    | NotFound(message: string) // 404
    | BadRequest(message: string) // 400
    | ServerError(message: string) // 500

  /** A stored record together with its primary key. */
  datatype Row<T> = Row(id: nat, val: T)

  /** JavaScript truthiness of an optional string: undefined, null and "" are falsy. */
  predicate Truthy(s: Option<string>) {
    s.Some? && s.value != ""
  }

  /** JavaScript truthiness of an optional numeric id: undefined, null and 0 are falsy. */
  predicate HasId(n: Option<nat>) {
    n.Some? && n.value != 0
  }

  /** `a || b` on two optional strings, collapsed to "some truthy string or nothing". */
  function Either(a: Option<string>, b: Option<string>): (r: Option<string>)
    ensures r.Some? <==> Truthy(a) || Truthy(b)
    ensures r.Some? ==> Truthy(r) && (r == a || r == b)
    ensures Truthy(a) ==> r == a
  {
    if Truthy(a) then a else if Truthy(b) then b else None
  }

  /**
   * The two resolution orders `a || b` and `b || a` pick different values
   * exactly when both candidates are set and differ.
   */
  lemma EitherOrderMatters(a: Option<string>, b: Option<string>)
    ensures Either(a, b) != Either(b, a) <==> Truthy(a) && Truthy(b) && a != b
  {
  }

  /** The rows of `s` that satisfy `p`, in their original order. */
  function Filter<T(!new)>(s: seq<T>, p: T -> bool): (r: seq<T>)
    ensures |r| <= |s|
    ensures forall x :: x in r <==> x in s && p(x)
    ensures forall i :: 0 <= i < |r| ==> p(r[i])
    ensures |s| == 1 ==> r == (if p(s[0]) then s else [])
  {
    if s == [] then []
    else if p(s[0]) then [s[0]] + Filter(s[1..], p)
    else Filter(s[1..], p)
  }

  /** The filter keeps every satisfying element as often as it occurs, and drops the others. */
  lemma {:induction false} FilterMultiplicity<T(!new)>(s: seq<T>, p: T -> bool)
    ensures forall x :: multiset(Filter(s, p))[x] == if p(x) then multiset(s)[x] else 0
  {
    if s != [] {
      FilterMultiplicity(s[1..], p);
      assert s == [s[0]] + s[1..];
    }
  }

  lemma {:induction false} FilterAppend<T(!new)>(s: seq<T>, t: seq<T>, p: T -> bool)
    ensures Filter(s + t, p) == Filter(s, p) + Filter(t, p)
  {
    if s == [] {
      assert s + t == t;
    } else {
      assert (s + t)[1..] == s[1..] + t;
      FilterAppend(s[1..], t, p);
    }
  }

  /** A filter that keeps everything is the identity. */
  lemma {:induction false} FilterAll<T(!new)>(s: seq<T>, p: T -> bool)
    requires forall x :: x in s ==> p(x)
    ensures Filter(s, p) == s
  {
    if s != [] {
      FilterAll(s[1..], p);
    }
  }

  /** A filter that keeps nothing gives the empty sequence. */
  lemma {:induction false} FilterNone<T(!new)>(s: seq<T>, p: T -> bool)
    requires forall k :: 0 <= k < |s| ==> !p(s[k])
    ensures Filter(s, p) == []
  {
    if s != [] {
      FilterNone(s[1..], p);
    }
  }

  lemma ConcatAssociative<T>(a: seq<T>, b: seq<T>, c: seq<T>)
    ensures (a + b) + c == a + (b + c)
  {
  }

  /** Row ids strictly increase along the sequence. */
  predicate Ascending<T>(r: seq<Row<T>>) {
    forall i, j :: 0 <= i < j < |r| ==> r[i].id < r[j].id
  }

  /** Every key of `m` is a valid autoincrement id issued before `next`. */
  predicate KeysBelow<T>(m: map<nat, T>, next: nat) {
    forall k :: k in m ==> 1 <= k < next
  }

  /**
   * The rows of table `m` whose ids are below `n`, in ascending id order:
   * the order in which an autoincrement table returns an unordered `findAll`.
   */
  function Listing<T(!new)>(m: map<nat, T>, n: nat): (r: seq<Row<T>>)
    ensures forall x :: x in r <==> x.id < n && x.id in m && m[x.id] == x.val
    ensures Ascending(r)
    decreases n
  {
    if n == 0 then []
    else
      var rest := Listing(m, n - 1);
      if n - 1 in m then rest + [Row(n - 1, m[n - 1])] else rest
  }

  /** Inserting the next autoincrement row appends it to the listing. */
  lemma ListingAppend<T(!new)>(m: map<nat, T>, n: nat, v: T)
    requires KeysBelow(m, n)
    ensures Listing(m[n := v], n + 1) == Listing(m, n) + [Row(n, v)]
  {
    ListingUnchangedBelow(m, m[n := v], n);
  }

  /** The listing up to `n` depends only on the keys below `n`. */
  lemma {:induction false} ListingUnchangedBelow<T(!new)>(m: map<nat, T>, m': map<nat, T>, n: nat)
    requires forall k :: k < n ==> (k in m <==> k in m') && (k in m ==> m[k] == m'[k])
    ensures Listing(m, n) == Listing(m', n)
  {
    if n > 0 {
      ListingUnchangedBelow(m, m', n - 1);
    }
  }

  lemma {:induction false} FilterAscending<T(!new)>(s: seq<Row<T>>, p: Row<T> -> bool)
    requires Ascending(s)
    ensures Ascending(Filter(s, p))
  {
    if s != [] {
      FilterAscending(s[1..], p);
      var r := Filter(s[1..], p);
      assert forall x :: x in r ==> x in s[1..];
      assert forall x :: x in s[1..] ==> s[0].id < x.id;
    }
  }

  /** The first row of `s` with id `id` (JavaScript `Array.find`). */
  function FindRow<T(!new)>(s: seq<Row<T>>, id: nat): (r: Option<Row<T>>)
    ensures r.Some? ==> r.value in s && r.value.id == id
    ensures r.Some? ==> exists k :: 0 <= k < |s| && s[k] == r.value && forall j :: 0 <= j < k ==> s[j].id != id
    ensures r.None? <==> forall x :: x in s ==> x.id != id
  {
    if s == [] then None
    else if s[0].id == id then Some(s[0])
    else FindRow(s[1..], id)
  }
}
