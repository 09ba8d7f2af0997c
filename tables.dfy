/** The document store as the route handlers use it: a collection is a map
    from document id to document, ids are handed out in increasing order
    (so ascending id is the collection's natural, insertion order), and
    every document carries the `createdAt` stamp its schema gives it. */
module Tables {

  import opened Common

  /** A stored document: its id, its creation stamp and its schema fields. */
  datatype Doc<T> = Doc(id: nat, createdAt: nat, body: T)

  type Table<T> = map<nat, Doc<T>>

  /** Every document is stored under its own id. */
  ghost predicate UnderOwnId<T>(t: Table<T>) {
    forall k :: k in t ==> t[k].id == k
  }

  /** Every document is stored under its own id, and every id is below the
      next id to be handed out. */
  ghost predicate Keyed<T>(t: Table<T>, next: nat) {
    UnderOwnId(t) && forall k :: k in t ==> k < next
  }

  /** Every creation stamp is earlier than the clock's current reading. */
  ghost predicate StampedBefore<T>(t: Table<T>, clock: nat) {
    forall k :: k in t ==> t[k].createdAt < clock
  }

  /** `d` is, unchanged, one of the documents of `t`. */
  ghost predicate Stored<T>(d: Doc<T>, t: Table<T>) {
    d.id in t && t[d.id] == d
  }

  /** The order of `.sort({ createdAt: -1 })`: most recent first. */
  ghost predicate NewestFirst<T>(s: seq<Doc<T>>) {
    forall i, j :: 0 <= i < j < |s| ==> s[i].createdAt >= s[j].createdAt
  }

  /** No document is listed twice. */
  ghost predicate Once<T(!new)>(s: seq<Doc<T>>) {
    forall d :: multiset(s)[d] <= 1
  }

  /** Natural order: ascending ids. */
  ghost predicate Ascending<T>(s: seq<Doc<T>>) {
    forall i, j :: 0 <= i < j < |s| ==> s[i].id < s[j].id
  }

  /** `find(filter)`: the documents with an id below `n` whose fields satisfy
      `keep`, in natural order. */
  function Where<T(!new)>(t: Table<T>, n: nat, keep: T -> bool): (r: seq<Doc<T>>)
    requires UnderOwnId(t)
    ensures forall d :: d in r <==> Stored(d, t) && d.id < n && keep(d.body)
    ensures Ascending(r) && Once(r)
  {
    if n == 0 then []
    else
      var before := Where(t, n - 1, keep);
      if n - 1 in t && keep(t[n - 1].body) then
        assert t[n - 1] !in before;
        before + [t[n - 1]]
      else before
  }

  /** `findOne(filter)`: the id of the first document in natural order whose
      fields satisfy `keep`, if any. */
  function First<T>(t: Table<T>, n: nat, keep: T -> bool): (r: Option<nat>)
    ensures r.Some? ==> r.value in t && r.value < n && keep(t[r.value].body)
    ensures r.Some? ==> forall k :: k in t && k < r.value ==> !keep(t[k].body)
    ensures r.None? ==> forall k :: k in t && k < n ==> !keep(t[k].body)
  {
    if n == 0 then None
    else
      match First(t, n - 1, keep)
      case Some(k) => Some(k)
      case None => if n - 1 in t && keep(t[n - 1].body) then Some(n - 1) else None
  }

  /** Places `d` in front of the first document of `s` that is not newer. */
  function InsertNewest<T>(d: Doc<T>, s: seq<Doc<T>>): (r: seq<Doc<T>>)
    requires NewestFirst(s)
    ensures NewestFirst(r)
    ensures multiset(r) == multiset(s) + multiset{d}
    ensures forall x :: x in r ==> x == d || x in s
  {
    if s == [] || s[0].createdAt <= d.createdAt then [d] + s
    else
      var rest := InsertNewest(d, s[1..]);
      assert s == [s[0]] + s[1..];
      assert forall x :: x in rest ==> x.createdAt <= s[0].createdAt;
      [s[0]] + rest
  }

  /** `.sort({ createdAt: -1 })` applied to a result list. */
  function SortNewest<T>(s: seq<Doc<T>>): (r: seq<Doc<T>>)
    ensures NewestFirst(r)
    ensures multiset(r) == multiset(s)
  {
    if s == [] then []
    else
      assert s == [s[0]] + s[1..];
      InsertNewest(s[0], SortNewest(s[1..]))
  }

  /** `find(filter).sort({ createdAt: -1 })`: exactly the matching documents,
      each once, most recent first. */
  function Query<T(!new)>(t: Table<T>, n: nat, keep: T -> bool): (r: seq<Doc<T>>)
    requires Keyed(t, n)
    ensures forall d :: d in r <==> Stored(d, t) && keep(d.body)
    ensures NewestFirst(r) && Once(r)
  {
    var found := Where(t, n, keep);
    var r := SortNewest(found);
    assert forall d :: d in r <==> d in found by {
      forall d ensures d in r <==> d in found {
        assert d in r <==> d in multiset(r);
      }
    }
    r
  }

  /** In a most-recent-first listing, a document strictly newer than every
      other listed document comes first. */
  lemma NewestComesFirst<T>(s: seq<Doc<T>>, d: Doc<T>)
    requires NewestFirst(s) && d in s
    requires forall x :: x in s && x != d ==> x.createdAt < d.createdAt
    ensures s[0] == d
  {
    var i :| 0 <= i < |s| && s[i] == d;
    if i != 0 {
      assert s[0].createdAt >= s[i].createdAt;
    }
  }
}
