/**
  Keyset pagination of backend/api/src/notes.rs: each request takes the limit + 1 newest rows
  strictly below its cursor, while other requests insert and delete notes in between.
 */
module Pagination {
  import opened Basics
  import opened Bytes
  import opened CursorCodec

  // ---- the order of (created_at, id) ----------------------------------------------------------

  datatype Key = Key(micros: int, id: Uuid)

  // Byte order of two UUIDs.
  predicate DigitsBelow(a: seq<Nibble>, b: seq<Nibble>)
    requires |a| == |b|
  {
    a != [] && (a[0] < b[0] || (a[0] == b[0] && DigitsBelow(a[1..], b[1..])))
  }

  /** Row comparison (a.created_at, a.id) < (b.created_at, b.id). */
  predicate Below(a: Key, b: Key) {
    a.micros < b.micros || (a.micros == b.micros && DigitsBelow(a.id, b.id))
  }

  /** In full: the older time, or the smaller digit where two UUIDs of one time first differ. */
  ghost predicate Older(a: Key, b: Key) {
    || a.micros < b.micros
    || (a.micros == b.micros && exists d: nat :: DifferAt(a.id, b.id, d))
  }

  predicate DifferAt(a: seq<Nibble>, b: seq<Nibble>, d: nat) {
    d < |a| && d < |b| && a[..d] == b[..d] && a[d] < b[d]
  }

  lemma {:induction false} DigitsBelowMeans(a: seq<Nibble>, b: seq<Nibble>)
    requires |a| == |b|
    ensures DigitsBelow(a, b) <==> exists d: nat :: DifferAt(a, b, d)
  {
    if a != [] {
      DigitsBelowMeans(a[1..], b[1..]);
      if a[0] < b[0] {
        assert DifferAt(a, b, 0);
      } else if DigitsBelow(a, b) {
        var d: nat :| DifferAt(a[1..], b[1..], d);
        assert a[..d + 1] == [a[0]] + a[1..][..d] && b[..d + 1] == [b[0]] + b[1..][..d];
        assert DifferAt(a, b, d + 1);
      }
      forall d: nat | DifferAt(a, b, d) ensures DigitsBelow(a, b) {
        if 0 < d {
          assert a[0] == a[..d][0] == b[..d][0] == b[0];
          assert a[1..][..d - 1] == a[..d][1..] && b[1..][..d - 1] == b[..d][1..];
          assert DifferAt(a[1..], b[1..], d - 1);
        }
      }
    }
  }

  lemma BelowIsOlder(a: Key, b: Key)
    ensures Below(a, b) <==> Older(a, b)
  {
    DigitsBelowMeans(a.id, b.id);
  }

  lemma DigitsTrichotomy(a: seq<Nibble>, b: seq<Nibble>)
    requires |a| == |b|
    ensures DigitsBelow(a, b) || DigitsBelow(b, a) || a == b
    ensures !(DigitsBelow(a, b) && DigitsBelow(b, a))
    ensures a == b ==> !DigitsBelow(a, b)
  {
    if a == [] {
    } else {
      DigitsTrichotomy(a[1..], b[1..]);
      assert a == [a[0]] + a[1..] && b == [b[0]] + b[1..];
    }
  }

  lemma DigitsTransitive(a: seq<Nibble>, b: seq<Nibble>, c: seq<Nibble>)
    requires |a| == |b| == |c| && DigitsBelow(a, b) && DigitsBelow(b, c)
    ensures DigitsBelow(a, c)
  {
    if a[0] == b[0] == c[0] {
      DigitsTransitive(a[1..], b[1..], c[1..]);
    }
  }

  lemma Trichotomy(a: Key, b: Key)
    ensures Below(a, b) || Below(b, a) || a == b
    ensures !(Below(a, b) && Below(b, a))
    ensures !Below(a, a)
  {
    DigitsTrichotomy(a.id, b.id);
    DigitsTrichotomy(a.id, a.id);
  }

  lemma Transitive(a: Key, b: Key, c: Key)
    requires Below(a, b) && Below(b, c)
    ensures Below(a, c)
  {
    if a.micros == b.micros == c.micros {
      DigitsTransitive(a.id, b.id, c.id);
    }
  }

  lemma GreatestExists(s: set<Key>)
    requires s != {}
    ensures exists k :: k in s && forall other :: other in s && other != k ==> Below(other, k)
  {
    var x :| x in s;
    if s == {x} {
    } else {
      GreatestExists(s - {x});
      var m :| m in s - {x} && forall other :: other in s - {x} && other != m ==> Below(other, m);
      Trichotomy(x, m);
      if Below(m, x) {
        forall other | other in s && other != x ensures Below(other, x) {
          if other != m { Transitive(other, m, x); }
        }
      } else {
        assert forall other :: other in s && other != m ==> Below(other, m);
      }
    }
  }

  ghost function Greatest(s: set<Key>): (k: Key)
    requires s != {}
    ensures k in s && forall other :: other in s && other != k ==> Below(other, k)
  {
    GreatestExists(s);
    var k :| k in s && forall other :: other in s && other != k ==> Below(other, k);
    k
  }

  /** ORDER BY created_at DESC, id DESC LIMIT n */
  ghost function TopDesc(s: set<Key>, n: nat): seq<Key> {
    if n == 0 || s == {} then [] else [Greatest(s)] + TopDesc(s - {Greatest(s)}, n - 1)
  }

  ghost predicate Descending(keys: seq<Key>) {
    forall i, j :: 0 <= i < j < |keys| ==> Below(keys[j], keys[i])
  }

  lemma {:induction false} TopDescSpec(s: set<Key>, n: nat)
    ensures var t := TopDesc(s, n);
            && |t| == (if |s| < n then |s| else n)
            && Descending(t)
            && (forall k :: k in t ==> k in s)
            && (forall k, j :: k in s && k !in t && 0 <= j < |t| ==> Below(k, t[j]))
    decreases n
  {
    if n == 0 || s == {} {
    } else {
      var g := Greatest(s);
      TopDescSpec(s - {g}, n - 1);
      assert |s - {g}| == |s| - 1;
      var rest := TopDesc(s - {g}, n - 1);
      assert TopDesc(s, n) == [g] + rest;
      forall j | 0 <= j < |rest| ensures Below(rest[j], g) {
        assert rest[j] in rest;
      }
    }
  }

  // ---- list_notes -----------------------------------------------------------------------------

  datatype Note = Note(owner: string, micros: int)
  type Table = map<Uuid, Note>

  // created_at fits the 64-bit microsecond count of the cursor, and the server's date type.
  ghost predicate Storable(table: Table, dates: iset<int>) {
    forall id :: id in table ==> table[id].micros in dates && I64_MIN <= table[id].micros <= I64_MAX
  }

  function KeysOf(table: Table, owner: string): set<Key> {
    set id | id in table && table[id].owner == owner :: Key(table[id].micros, id)
  }

  function Clamp(perPage: int): nat { if perPage < 1 then 1 else if 100 < perPage then 100 else perPage }

  /** The decoded cursor; garbage of any kind means the first page. */
  ghost function CursorParam(cursor: Option<Bytes>, dates: iset<int>): Option<Key> {
    if cursor.None? then None
    else
      var parts := DecodeCursor(cursor.value);
      if parts.None? || parts.value.0 !in dates then None
      else
        var id := ParseUuid(parts.value.1);
        if id.None? then None else Some(Key(parts.value.0, id.value))
  }

  ghost predicate BelowCursor(k: Key, cursor: Option<Key>) { cursor.None? || Below(k, cursor.value) }

  ghost function Rows(table: Table, owner: string, cursor: Option<Key>): set<Key> {
    set k | k in KeysOf(table, owner) && BelowCursor(k, cursor)
  }

  datatype Page = Page(items: seq<Key>, nextCursor: Option<Bytes>, hasMore: bool, perPage: nat)

  ghost function ListNotes(table: Table, owner: string, cursor: Option<Bytes>, perPage: int, dates: iset<int>): Page {
    var limit := Clamp(perPage);
    var rows := TopDesc(Rows(table, owner, CursorParam(cursor, dates)), limit + 1);
    var hasMore := limit < |rows|;
    var items := if hasMore then rows[..limit] else rows;
    var next :=
      if hasMore then Some(EncodeCursor(items[|items| - 1].micros, UuidText(items[|items| - 1].id))) else None;
    Page(items, next, hasMore, limit)
  }

  lemma NextCursorDecodes(k: Key, dates: iset<int>)
    requires k.micros in dates && I64_MIN <= k.micros <= I64_MAX
    ensures CursorParam(Some(EncodeCursor(k.micros, UuidText(k.id))), dates) == Some(k)
  {
    assert UuidText(k.id) + [] == UuidText(k.id);
    AsciiPrefixUtf8(UuidText(k.id), []);
    CursorRoundTrip(k.micros, UuidText(k.id));
    ParseOfUuidText(k.id);
  }

  ghost predicate GoodItems(items: seq<Key>, hasMore: bool, rows: set<Key>, limit: nat) {
    && Descending(items) && (forall k :: k in items ==> k in rows)
    && (hasMore <==> limit < |rows|)
    && |items| == (if hasMore then limit else |rows|)
    && (!hasMore ==> forall k :: k in rows ==> k in items)
    && (hasMore ==> items != [] && forall k :: k in rows && k !in items ==> Below(k, items[|items| - 1]))
  }

  ghost predicate GoodNext(p: Page, dates: iset<int>) {
    && (p.nextCursor.Some? <==> p.hasMore)
    && (p.hasMore ==> p.items != [] && CursorParam(p.nextCursor, dates) == Some(p.items[|p.items| - 1]))
  }

  ghost predicate GoodPage(p: Page, rows: set<Key>, limit: nat, dates: iset<int>) {
    GoodItems(p.items, p.hasMore, rows, limit) && GoodNext(p, dates)
  }

  lemma FullPage(rows: set<Key>, limit: nat, items: seq<Key>)
    requires 0 < limit < |rows| && limit <= |TopDesc(rows, limit + 1)| && items == TopDesc(rows, limit + 1)[..limit]
    ensures GoodItems(items, true, rows, limit)
  {
    TopDescSpec(rows, limit + 1);
    DropOne(rows, limit);
    assert forall k :: k in items ==> k in TopDesc(rows, limit + 1);
  }

  lemma LastRows(rows: set<Key>, limit: nat, items: seq<Key>)
    requires |rows| <= limit && items == TopDesc(rows, limit + 1)
    ensures GoodItems(items, false, rows, limit)
  {
    TopDescSpec(rows, limit + 1);
    AllRowsTaken(rows, limit + 1);
  }

  lemma TopLength(rows: set<Key>, n: nat)
    ensures |TopDesc(rows, n)| == if |rows| < n then |rows| else n
    ensures forall k :: k in TopDesc(rows, n) ==> k in rows
  {
    TopDescSpec(rows, n);
  }

  lemma PageItems(table: Table, owner: string, cursor: Option<Bytes>, perPage: int, dates: iset<int>, rows: set<Key>)
    requires rows == Rows(table, owner, CursorParam(cursor, dates))
    ensures var p := ListNotes(table, owner, cursor, perPage, dates);
            GoodItems(p.items, p.hasMore, rows, Clamp(perPage))
  {
    var limit := Clamp(perPage);
    TopLength(rows, limit + 1);
    if limit < |rows| {
      FullPage(rows, limit, TopDesc(rows, limit + 1)[..limit]);
    } else {
      LastRows(rows, limit, TopDesc(rows, limit + 1));
    }
  }

  lemma RowsStorable(table: Table, owner: string, cursor: Option<Key>, dates: iset<int>, k: Key)
    requires Storable(table, dates) && k in Rows(table, owner, cursor)
    ensures k.micros in dates && I64_MIN <= k.micros <= I64_MAX
  {
  }

  lemma PageNext(table: Table, owner: string, cursor: Option<Bytes>, perPage: int, dates: iset<int>)
    requires Storable(table, dates)
    ensures GoodNext(ListNotes(table, owner, cursor, perPage, dates), dates)
  {
    var limit, p := Clamp(perPage), ListNotes(table, owner, cursor, perPage, dates);
    var rows := Rows(table, owner, CursorParam(cursor, dates));
    var top := TopDesc(rows, limit + 1);
    TopLength(rows, limit + 1);
    if limit < |rows| {
      var last := top[limit - 1];
      assert last in top && p.items == top[..limit] && p.items[|p.items| - 1] == last;
      RowsStorable(table, owner, CursorParam(cursor, dates), dates, last);
      NextCursorDecodes(last, dates);
    }
  }

  /** One page: the newest rows below the cursor, and a next cursor exactly at its last row. */
  lemma PageSpec(table: Table, owner: string, cursor: Option<Bytes>, perPage: int, dates: iset<int>)
    requires Storable(table, dates)
    ensures GoodPage(ListNotes(table, owner, cursor, perPage, dates), Rows(table, owner, CursorParam(cursor, dates)),
                     Clamp(perPage), dates)
  {
    PageItems(table, owner, cursor, perPage, dates, Rows(table, owner, CursorParam(cursor, dates)));
    PageNext(table, owner, cursor, perPage, dates);
  }

  /** per_page as asked for, and brought into 1 to 100. */
  lemma PageSize(table: Table, owner: string, cursor: Option<Bytes>, perPage: int, dates: iset<int>)
    requires Storable(table, dates)
    ensures var limit := if perPage < 1 then 1 else if 100 < perPage then 100 else perPage;
            var n := |Rows(table, owner, CursorParam(cursor, dates))|;
            var p := ListNotes(table, owner, cursor, perPage, dates);
            && p.perPage == limit
            && |p.items| == (if n < limit then n else limit)
            && (p.hasMore <==> limit < n)
  {
    PageSpec(table, owner, cursor, perPage, dates);
  }

  /**
    A page in terms of the table: each item is a row of the user, older than the cursor and than the
    items before it, and on a page without a next one no such row is missing.
   */
  lemma PageShowsRows(table: Table, owner: string, cursor: Option<Bytes>, perPage: int, dates: iset<int>)
    requires Storable(table, dates)
    ensures var p := ListNotes(table, owner, cursor, perPage, dates);
            var c := CursorParam(cursor, dates);
            && (forall k :: k in p.items ==>
                  k.id in table && table[k.id] == Note(owner, k.micros) && (c.Some? ==> Older(k, c.value)))
            && (forall i, j :: 0 <= i < j < |p.items| ==> Older(p.items[j], p.items[i]))
            && (!p.hasMore ==>
                  forall id :: id in table && table[id].owner == owner ==>
                    var k := Key(table[id].micros, id);
                    (c.Some? ==> Older(k, c.value)) ==> k in p.items)
  {
    PageSpec(table, owner, cursor, perPage, dates);
    forall a, b ensures Below(a, b) <==> Older(a, b) {
      BelowIsOlder(a, b);
    }
  }

  lemma DropOne(rows: set<Key>, limit: nat)
    requires 0 < limit < |rows|
    ensures var top := TopDesc(rows, limit + 1);
            && |top| == limit + 1
            && forall k :: k in rows && k !in top[..limit] ==> Below(k, top[limit - 1])
  {
    TopDescSpec(rows, limit + 1);
    var top := TopDesc(rows, limit + 1);
    assert forall j :: 0 <= j < limit ==> top[..limit][j] == top[j];
    forall k | k in rows && k !in top[..limit] ensures Below(k, top[limit - 1]) {
      if k in top {
        var j :| 0 <= j < |top| && top[j] == k;
      }
    }
  }

  lemma AllRowsTaken(rows: set<Key>, n: nat)
    requires |rows| <= n
    ensures forall k :: k in rows ==> k in TopDesc(rows, n)
  {
    TopDescSpec(rows, n);
    var t := TopDesc(rows, n);
    DistinctCount(t);
    SubsetCardinality(Elements(t), rows);
  }

  function Elements(t: seq<Key>): set<Key> { set k | k in t }

  lemma {:induction false} DistinctCount(t: seq<Key>)
    requires Descending(t)
    ensures |Elements(t)| == |t|
  {
    if t == [] {
    } else {
      var last, rest := t[|t| - 1], t[..|t| - 1];
      DistinctCount(rest);
      assert t == rest + [last];
      assert last !in rest by {
        Trichotomy(last, last);
      }
      assert Elements(t) == Elements(rest) + {last};
    }
  }

  // ---- following next_cursor ------------------------------------------------------------------

  // One request: what the table holds when it is served, and the per_page the client asks for.
  datatype Request = Request(table: Table, perPage: int)

  /** The pages a client gets that follows next_cursor until has_more is false or it stops. */
  ghost function Follow(requests: seq<Request>, owner: string, cursor: Option<Bytes>, dates: iset<int>): seq<Page> {
    if requests == [] then []
    else
      var p := ListNotes(requests[0].table, owner, cursor, requests[0].perPage, dates);
      if p.hasMore then [p] + Follow(requests[1..], owner, p.nextCursor, dates) else [p]
  }

  function Items(pages: seq<Page>): seq<Key> {
    if pages == [] then [] else pages[0].items + Items(pages[1..])
  }

  predicate Finished(pages: seq<Page>) { pages != [] && !pages[|pages| - 1].hasMore }

  ghost predicate AllStorable(requests: seq<Request>, dates: iset<int>) {
    forall r :: r in requests ==> Storable(r.table, dates)
  }

  lemma DescendingConcat(a: seq<Key>, b: seq<Key>)
    requires Descending(a) && Descending(b)
    requires a != [] && forall k :: k in b ==> Below(k, a[|a| - 1])
    ensures Descending(a + b)
  {
    forall i, j | 0 <= i < j < |a + b| ensures Below((a + b)[j], (a + b)[i]) {
      if i < |a| <= j {
        assert b[j - |a|] in b;
        if i < |a| - 1 {
          Transitive(b[j - |a|], a[|a| - 1], a[i]);
        }
      }
    }
  }

  ghost predicate Throughout(k: Key, requests: seq<Request>, owner: string) {
    forall r :: r in requests ==> k in KeysOf(r.table, owner)
  }

  ghost predicate Sometime(k: Key, requests: seq<Request>, owner: string) {
    exists r :: r in requests && k in KeysOf(r.table, owner)
  }

  ghost predicate GoodListing(pages: seq<Page>, requests: seq<Request>, owner: string, c: Option<Key>) {
    && Descending(Items(pages))
    && (forall k :: k in Items(pages) ==> BelowCursor(k, c) && Sometime(k, requests, owner))
    && (Finished(pages) ==> forall k :: BelowCursor(k, c) && Throughout(k, requests, owner) ==> k in Items(pages))
  }

  lemma PrependPage(p: Page, more: seq<Page>, requests: seq<Request>, owner: string, c: Option<Key>, dates: iset<int>)
    requires requests != []
    requires p.hasMore && GoodPage(p, Rows(requests[0].table, owner, c), Clamp(requests[0].perPage), dates)
    requires GoodListing(more, requests[1..], owner, CursorParam(p.nextCursor, dates))
    ensures GoodListing([p] + more, requests, owner, c)
  {
    var last, pages := p.items[|p.items| - 1], [p] + more;
    assert pages[1..] == more && last in p.items;
    DescendingConcat(p.items, Items(more));
    forall k | k in Items(more) ensures BelowCursor(k, c) && Sometime(k, requests, owner) {
      if c.Some? { Transitive(k, last, c.value); }
      var r :| r in requests[1..] && k in KeysOf(r.table, owner);
      assert r in requests;
    }
    forall k | k in p.items ensures Sometime(k, requests, owner) {
      assert requests[0] in requests;
    }
    if Finished(pages) {
      assert pages[|pages| - 1] == if more == [] then p else more[|more| - 1];
      forall k | BelowCursor(k, c) && Throughout(k, requests, owner) ensures k in Items(pages) {
        assert requests[0] in requests && k in Rows(requests[0].table, owner, c);
        assert Throughout(k, requests[1..], owner);
      }
    }
  }

  lemma LastPage(p: Page, requests: seq<Request>, owner: string, c: Option<Key>, dates: iset<int>)
    requires requests != []
    requires !p.hasMore && GoodPage(p, Rows(requests[0].table, owner, c), Clamp(requests[0].perPage), dates)
    ensures GoodListing([p], requests, owner, c)
  {
    assert [p][1..] == [] && Items([p]) == p.items && requests[0] in requests;
    forall k | BelowCursor(k, c) && Throughout(k, requests, owner) ensures k in Items([p]) {
      assert k in Rows(requests[0].table, owner, c);
    }
  }

  lemma {:induction false} FollowFrom(requests: seq<Request>, owner: string, cursor: Option<Bytes>, dates: iset<int>)
    requires AllStorable(requests, dates)
    ensures GoodListing(Follow(requests, owner, cursor, dates), requests, owner, CursorParam(cursor, dates))
  {
    if requests == [] {
    } else {
      var r := requests[0];
      assert r in requests && forall q :: q in requests[1..] ==> q in requests;
      PageSpec(r.table, owner, cursor, r.perPage, dates);
      var p := ListNotes(r.table, owner, cursor, r.perPage, dates);
      if p.hasMore {
        FollowFrom(requests[1..], owner, p.nextCursor, dates);
        PrependPage(p, Follow(requests[1..], owner, p.nextCursor, dates), requests, owner, CursorParam(cursor, dates),
                    dates);
      } else {
        LastPage(p, requests, owner, CursorParam(cursor, dates), dates);
      }
    }
  }

  // created_at and owner of a note never change: updates touch title, body and updated_at only.
  ghost predicate Immutable(requests: seq<Request>) {
    forall r, q, id :: r in requests && q in requests && id in r.table && id in q.table ==> r.table[id] == q.table[id]
  }

  /**
    Exactly once under churn: however notes come and go between requests and whatever page sizes
    are asked for, every note returned is the owner's, none is returned twice, and once has_more
    is false every note that was there at every request has been returned.
   */
  lemma ExactlyOnce(requests: seq<Request>, owner: string, dates: iset<int>)
    requires AllStorable(requests, dates) && Immutable(requests)
    ensures var pages := Follow(requests, owner, None, dates);
            var all := Items(pages);
            && (forall k :: k in all ==> Sometime(k, requests, owner))
            && (forall i, j :: 0 <= i < j < |all| ==> all[i].id != all[j].id && Below(all[j], all[i]))
            && (Finished(pages) ==> forall k :: Throughout(k, requests, owner) ==> k in all)
  {
    FollowFrom(requests, owner, None, dates);
    var all := Items(Follow(requests, owner, None, dates));
    forall i, j | 0 <= i < j < |all| ensures all[i].id != all[j].id {
      var a, b := all[i], all[j];
      assert a in all && b in all && Below(b, a);
      Trichotomy(a, b);
      Trichotomy(a, a);
      var r :| r in requests && a in KeysOf(r.table, owner);
      var q :| q in requests && b in KeysOf(q.table, owner);
      assert a.id in r.table && b.id in q.table;
    }
  }

  // ---- an unchanging table --------------------------------------------------------------------

  /** All pages of a table nobody changes, from a cursor on. */
  ghost function Browse(table: Table, owner: string, cursor: Option<Bytes>, perPage: int, dates: iset<int>): seq<Page>
    requires Storable(table, dates)
    decreases |Rows(table, owner, CursorParam(cursor, dates))|
  {
    var p := ListNotes(table, owner, cursor, perPage, dates);
    if !p.hasMore then [p]
    else
      FewerRowsBelow(table, owner, cursor, perPage, dates);
      [p] + Browse(table, owner, p.nextCursor, perPage, dates)
  }

  lemma FewerRowsBelow(table: Table, owner: string, cursor: Option<Bytes>, perPage: int, dates: iset<int>)
    requires Storable(table, dates)
    requires ListNotes(table, owner, cursor, perPage, dates).hasMore
    ensures var p := ListNotes(table, owner, cursor, perPage, dates);
            var rows := Rows(table, owner, CursorParam(cursor, dates));
            var rest := Rows(table, owner, CursorParam(p.nextCursor, dates));
            && rest == rows - Elements(p.items)
            && |rest| == |rows| - Clamp(perPage)
  {
    PageSpec(table, owner, cursor, perPage, dates);
    var p := ListNotes(table, owner, cursor, perPage, dates);
    var c := CursorParam(cursor, dates);
    var rows := Rows(table, owner, c);
    var last := p.items[|p.items| - 1];
    var rest := Rows(table, owner, Some(last));
    assert last in p.items;
    forall k ensures k in rest <==> k in rows && k !in p.items {
      if k in rest {
        if c.Some? { Transitive(k, last, c.value); }
        if k in p.items {
          var i :| 0 <= i < |p.items| && p.items[i] == k;
          Trichotomy(k, last);
        }
      }
    }
    DistinctCount(p.items);
    assert rest == rows - Elements(p.items);
    assert Elements(p.items) <= rows;
    assert |rows - Elements(p.items)| == |rows| - |Elements(p.items)|;
  }

  // The number of pages of at most `limit` rows that `rows` rows take: max(1, ceil(rows / limit)).
  predicate PageCount(pages: nat, rows: nat, limit: nat) {
    (pages - 1) * limit < (if rows == 0 then 1 else rows) <= pages * limit
  }

  lemma OnePageMore(pages: nat, rows: nat, limit: nat)
    requires 0 < limit < rows && PageCount(pages, rows - limit, limit)
    ensures PageCount(pages + 1, rows, limit)
  {
    assert (pages + 1) * limit == pages * limit + limit;
    assert pages * limit == (pages - 1) * limit + limit;
  }

  ghost predicate FullListing(pages: seq<Page>, rows: set<Key>, limit: nat) {
    && Descending(Items(pages))
    && Elements(Items(pages)) == rows
    && PageCount(|pages|, |rows|, limit)
  }

  lemma PrependFullPage(p: Page, more: seq<Page>, rows: set<Key>, rest: set<Key>, limit: nat, dates: iset<int>)
    requires p.hasMore && GoodPage(p, rows, limit, dates) && 0 < limit
    requires rest == rows - Elements(p.items) && |rest| == |rows| - limit
    requires FullListing(more, rest, limit)
    ensures FullListing([p] + more, rows, limit)
  {
    assert ([p] + more)[1..] == more;
    OnePageMore(|more|, |rows|, limit);
    forall k | k in Items(more) ensures Below(k, p.items[|p.items| - 1]) {
      assert k in Elements(Items(more));
    }
    DescendingConcat(p.items, Items(more));
    assert Elements(p.items + Items(more)) == Elements(p.items) + Elements(Items(more));
    assert Elements(p.items) <= rows;
  }

  lemma {:induction false} BrowseFrom(table: Table, owner: string, cursor: Option<Bytes>, perPage: int,
                                      dates: iset<int>)
    requires Storable(table, dates)
    ensures FullListing(Browse(table, owner, cursor, perPage, dates), Rows(table, owner, CursorParam(cursor, dates)),
                        Clamp(perPage))
    decreases |Rows(table, owner, CursorParam(cursor, dates))|
  {
    var p := ListNotes(table, owner, cursor, perPage, dates);
    var rows := Rows(table, owner, CursorParam(cursor, dates));
    PageSpec(table, owner, cursor, perPage, dates);
    if p.hasMore {
      FewerRowsBelow(table, owner, cursor, perPage, dates);
      BrowseFrom(table, owner, p.nextCursor, perPage, dates);
      PrependFullPage(p, Browse(table, owner, p.nextCursor, perPage, dates), rows,
                      Rows(table, owner, CursorParam(p.nextCursor, dates)), Clamp(perPage), dates);
    } else {
      assert [p][1..] == [] && Items([p]) == p.items;
      assert Elements(p.items) == rows;
    }
  }

  /**
    On an unchanging table the pages concatenate to the owner's notes, newest first, in
    max(1, ceil(n / limit)) requests.
   */
  lemma StaticListing(table: Table, owner: string, perPage: int, dates: iset<int>)
    requires Storable(table, dates)
    ensures var pages := Browse(table, owner, None, perPage, dates);
            var n := |KeysOf(table, owner)|;
            var limit := Clamp(perPage);
            && limit == (if perPage < 1 then 1 else if 100 < perPage then 100 else perPage)
            && Descending(Items(pages))
            && Elements(Items(pages)) == KeysOf(table, owner) && |Items(pages)| == n
            && (|pages| - 1) * limit < (if n == 0 then 1 else n) <= |pages| * limit
  {
    BrowseFrom(table, owner, None, perPage, dates);
    assert Rows(table, owner, None) == KeysOf(table, owner);
    DistinctCount(Items(Browse(table, owner, None, perPage, dates)));
  }

  /** What a cursor that means `k` looks like on the wire. */
  ghost predicate Denotes(cursor: Bytes, k: Key, dates: iset<int>) {
    && k.micros in dates
    && exists number, id ::
         IsCursor(cursor, number, id) && ParseI64(number) == Some(k.micros) && ParseUuid(id) == Some(k.id)
  }

  ghost predicate IsCursor(cursor: Bytes, number: Bytes, id: Bytes) {
    58 !in number && Utf8(number + [58] + id) && cursor == Base64Encode(number + [58] + id)
  }

  lemma {:induction false} SplitJoins(raw: Bytes)
    requires SplitAtColon(raw).Some?
    ensures raw == SplitAtColon(raw).value.0 + [58] + SplitAtColon(raw).value.1 && 58 !in SplitAtColon(raw).value.0
  {
    if raw[0] == 58 {
      assert raw == [] + [58] + raw[1..];
    } else {
      SplitJoins(raw[1..]);
      assert raw == [raw[0]] + raw[1..];
    }
  }

  /**
    A cursor means `k` exactly when it is the encoding of some number that reads as its time and some UUID text
    of its id.
   */
  lemma CursorMeans(cursor: Bytes, k: Key, dates: iset<int>)
    ensures CursorParam(Some(cursor), dates) == Some(k) <==> Denotes(cursor, k, dates)
  {
    var raw := Base64Decode(cursor);
    if CursorParam(Some(cursor), dates) == Some(k) {
      SplitJoins(raw.value);
      EncodeOfDecode(cursor);
      var parts := SplitAtColon(raw.value).value;
      assert IsCursor(cursor, parts.0, parts.1);
    }
    if Denotes(cursor, k, dates) {
      var number, id :|
        IsCursor(cursor, number, id) && ParseI64(number) == Some(k.micros) && ParseUuid(id) == Some(k.id);
      DecodeOfEncode(number + [58] + id);
      SplitAfterColonFree(number, id);
    }
  }

  /**
    Garbage of every kind, text that denotes no time the server can represent and no UUID, starts
    over at the first page. Any other cursor, issued here or not, is honoured.
   */
  lemma GarbageCursorIsFirstPage(table: Table, owner: string, cursor: Bytes, perPage: int, dates: iset<int>)
    ensures (forall k :: !Denotes(cursor, k, dates)) ==>
              ListNotes(table, owner, Some(cursor), perPage, dates) == ListNotes(table, owner, None, perPage, dates)
    ensures forall k :: Denotes(cursor, k, dates) ==>
              forall note :: note in ListNotes(table, owner, Some(cursor), perPage, dates).items ==> Below(note, k)
  {
    forall k ensures CursorParam(Some(cursor), dates) == Some(k) <==> Denotes(cursor, k, dates) {
      CursorMeans(cursor, k, dates);
    }
    var p := ListNotes(table, owner, Some(cursor), perPage, dates);
    var c := CursorParam(Some(cursor), dates);
    if c.Some? {
      assert Denotes(cursor, c.value, dates);
      TopDescSpec(Rows(table, owner, c), Clamp(perPage) + 1);
      assert forall note :: note in p.items ==> note in Rows(table, owner, c);
    }
  }
}
