/** Keyset pagination of gateway/api/routes_api.py: `_encode_cursor`, `_decode_cursor` and
    `list_messages`. Texts compare by code point, as SQLite's default collation and Python do. */
module Pagination {
  import opened Common

  // ---- the cursor ----

  datatype Decoded = Position(createdAt: string, id: string) | InvalidCursor

  /** Base64 over UTF-8 is a bijection and left out: a cursor is the text it encodes. */
  function EncodeCursor(createdAt: string, id: string): string { createdAt + "|" + id }

  function Bar(s: string): nat {
    if |s| == 0 || s[0] == '|' then 0 else 1 + Bar(s[1..])
  }

  lemma {:induction false} BarIsFirst(s: string)
    ensures Bar(s) <= |s| && '|' !in s[..Bar(s)]
    ensures Bar(s) < |s| ==> s[Bar(s)] == '|'
  {
    if |s| > 0 && s[0] != '|' {
      BarIsFirst(s[1..]);
      assert s[..Bar(s)] == [s[0]] + s[1..][..Bar(s[1..])];
    }
  }

  /** `partition("|")`, then 422 for a missing separator or an empty half. */
  function DecodeCursor(cursor: string): Decoded {
    BarIsFirst(cursor);
    var bar := Bar(cursor);
    if bar == |cursor| || bar == 0 || bar + 1 == |cursor| then InvalidCursor
    else Position(cursor[..bar], cursor[bar + 1..])
  }

  lemma {:induction false} BarOf(a: string, rest: string)
    requires '|' !in a && |rest| > 0 && rest[0] == '|'
    ensures Bar(a + rest) == |a|
  {
    if |a| == 0 {
      assert a + rest == rest;
    } else {
      assert (a + rest)[1..] == a[1..] + rest;
      BarOf(a[1..], rest);
    }
  }

  /** A cursor is read exactly as the two texts around its first `|`, both not empty; any other is refused. */
  lemma DecodeIff(cursor: string, createdAt: string, id: string)
    ensures DecodeCursor(cursor) == Position(createdAt, id)
            <==> cursor == createdAt + "|" + id && createdAt != "" && '|' !in createdAt && id != ""
    ensures cursor == createdAt + "|" + id && '|' !in createdAt && DecodeCursor(cursor).Position? ==>
              createdAt != "" && id != ""
  {
    BarIsFirst(cursor);
    var bar := Bar(cursor);
    assert bar < |cursor| ==> cursor == cursor[..bar] + "|" + cursor[bar + 1..];
    if cursor == createdAt + "|" + id && '|' !in createdAt {
      BarOf(createdAt, "|" + id);
      assert cursor == createdAt + ("|" + id);
      assert cursor[..|createdAt|] == createdAt && cursor[|createdAt| + 1..] == id;
    }
  }

  /** The cursor comes back as it was made exactly when the time is not empty and has no `|` and the
      id is not empty. */
  lemma CursorRoundTrip(createdAt: string, id: string)
    ensures DecodeCursor(EncodeCursor(createdAt, id)) == Position(createdAt, id)
            <==> createdAt != "" && '|' !in createdAt && id != ""
  {
    var cursor := EncodeCursor(createdAt, id);
    BarIsFirst(cursor);
    assert cursor[|createdAt|] == '|';
    if '|' !in createdAt {
      BarOf(createdAt, "|" + id);
      assert cursor == createdAt + ("|" + id);
      assert cursor[..|createdAt|] == createdAt && cursor[|createdAt| + 1..] == id;
    }
  }

  // ---- rows and their order ----

  datatype Row = Row(createdAt: string, id: string, direction: string, status: string, msisdn: string)

  /** The filters of one request; the same for every page of a walk. */
  datatype Query = Query(direction: Option<string>, status: Option<string>, since: Option<string>,
                         until: Option<string>, to: Option<string>, from: Option<string>)

  predicate TextLess(a: string, b: string) {
    |b| > 0 && (|a| == 0 || a[0] < b[0] || (a[0] == b[0] && TextLess(a[1..], b[1..])))
  }

  /** The same without recursion: at the first difference `a` ends or has the lower character. */
  ghost predicate Precedes(a: string, b: string) {
    exists k: nat :: k <= |a| && k < |b| && a[..k] == b[..k] && (k == |a| || a[k] < b[k])
  }

  lemma {:induction false} TextLessIs(a: string, b: string)
    ensures TextLess(a, b) <==> Precedes(a, b)
    decreases |a|
  {
    if |a| > 0 && |b| > 0 && a[0] == b[0] {
      TextLessIs(a[1..], b[1..]);
      if k: nat :| k <= |a| && k < |b| && a[..k] == b[..k] && (k == |a| || a[k] < b[k]) {
        assert a[..k][..0] == [] && k > 0;
        assert a[1..][..k - 1] == a[..k][1..] == b[..k][1..] == b[1..][..k - 1];
      }
      if k: nat :| k <= |a[1..]| && k < |b[1..]| && a[1..][..k] == b[1..][..k]
                   && (k == |a[1..]| || a[1..][k] < b[1..][k]) {
        assert a[..k + 1] == [a[0]] + a[1..][..k] && b[..k + 1] == [b[0]] + b[1..][..k];
      }
    } else if |b| > 0 {
      assert a[..0] == b[..0];
      if k: nat :| k <= |a| && k < |b| && a[..k] == b[..k] && (k == |a| || a[k] < b[k]) {
        assert k > 0 ==> a[..k][0] == b[..k][0];
      }
    }
  }

  predicate Matches(q: Query, r: Row) {
    && (q.direction.Some? ==> r.direction == q.direction.value)
    && (q.status.Some? ==> r.status == q.status.value)
    && (q.since.Some? ==> !TextLess(r.createdAt, q.since.value))
    && (q.until.Some? ==> !TextLess(q.until.value, r.createdAt))
    && (q.to.Some? ==> r.direction == "outbound" && r.msisdn == q.to.value)
    && (q.from.Some? ==> r.direction == "inbound" && r.msisdn == q.from.value)
  }

  lemma {:induction false} TextOrder(a: string, b: string, c: string)
    ensures TextLess(a, b) && TextLess(b, c) ==> TextLess(a, c)
    ensures !(TextLess(a, b) && TextLess(b, a))
    ensures TextLess(a, b) || TextLess(b, a) || a == b
    decreases |a|
  {
    if |a| > 0 && |b| > 0 {
      if |c| > 0 {
        TextOrder(a[1..], b[1..], c[1..]);
      } else {
        TextOrder(a[1..], b[1..], []);
      }
      assert a[0] == b[0] && a[1..] == b[1..] ==> a == b by {
        assert a == [a[0]] + a[1..] && b == [b[0]] + b[1..];
      }
    }
  }

  /** (created_at, id) after the cursor: the or_/and_ filter of the query. */
  predicate After(r: Row, createdAt: string, id: string) {
    TextLess(createdAt, r.createdAt) || (r.createdAt == createdAt && TextLess(id, r.id))
  }

  predicate Less(a: Row, b: Row) { After(b, a.createdAt, a.id) }

  lemma LessIsOrder(a: Row, b: Row, c: Row)
    ensures Less(a, b) && Less(b, c) ==> Less(a, c)
    ensures !(Less(a, b) && Less(b, a))
    ensures Less(a, b) || Less(b, a) || (a.createdAt == b.createdAt && a.id == b.id)
  {
    TextOrder(a.createdAt, b.createdAt, c.createdAt);
    TextOrder(b.createdAt, c.createdAt, a.createdAt);
    TextOrder(a.id, b.id, c.id);
  }

  ghost predicate Increasing(rows: seq<Row>) { forall i, j | 0 <= i < j < |rows| :: Less(rows[i], rows[j]) }

  /** A table at one moment: ids are a primary key, times are in the stored format. */
  ghost predicate IsTable(t: set<Row>) {
    && (forall a, b | a in t && b in t && a.id == b.id :: a == b)
    && (forall r | r in t :: r.createdAt != "" && '|' !in r.createdAt && r.id != "")
  }

  // ---- one request ----

  datatype Cursor = Start | From(text: string)

  /** No cursor and an empty one both ask for the first page. */
  predicate IsGiven(cursor: Cursor) { cursor.From? && cursor.text != "" }

  predicate Beyond(r: Row, cursor: Cursor) {
    IsGiven(cursor) ==>
      var d := DecodeCursor(cursor.text);
      d.Position? && After(r, d.createdAt, d.id)
  }

  /** Rows the filters and the cursor let through. */
  function Eligible(t: set<Row>, q: Query, cursor: Cursor): set<Row> {
    set r | r in t && Matches(q, r) && Beyond(r, cursor)
  }

  /** order_by(created_at, id) */
  ghost predicate IsListing(rows: seq<Row>, t: set<Row>) {
    Increasing(rows) && forall r :: r in rows <==> r in t
  }

  function InsertRow(rows: seq<Row>, r: Row): seq<Row> {
    if |rows| == 0 || Less(r, rows[0]) then [r] + rows else [rows[0]] + InsertRow(rows[1..], r)
  }

  lemma {:induction false} InsertRowKeepsOrder(rows: seq<Row>, r: Row)
    requires Increasing(rows) && forall x | x in rows :: Less(x, r) || Less(r, x)
    ensures Increasing(InsertRow(rows, r))
    ensures forall x :: x in InsertRow(rows, r) <==> x == r || x in rows
  {
    if |rows| > 0 {
      LessIsOrder(r, rows[0], r);
      if Less(r, rows[0]) {
        forall j | 1 <= j < |rows| ensures Less(r, rows[j]) {
          LessIsOrder(r, rows[0], rows[j]);
        }
      } else {
        assert rows[0] in rows;
        assert forall x :: x in rows <==> x == rows[0] || x in rows[1..];
        InsertRowKeepsOrder(rows[1..], r);
        var rest := InsertRow(rows[1..], r);
        forall j | 0 <= j < |rest| ensures Less(rows[0], rest[j]) {
          if rest[j] != r {
            assert rest[j] in rows[1..];
          }
        }
      }
    }
  }

  method SortRows(t: set<Row>) returns (rows: seq<Row>)
    requires forall a, b | a in t && b in t && a.id == b.id :: a == b
    ensures IsListing(rows, t)
  {
    rows := [];
    var rest := t;
    while rest != {}
      invariant rest <= t && Increasing(rows) && forall r :: r in rows <==> r in t - rest
    {
      var r :| r in rest;
      rest := rest - {r};
      forall x | x in rows ensures Less(x, r) || Less(r, x) {
        LessIsOrder(x, r, x);
      }
      InsertRowKeepsOrder(rows, r);
      rows := InsertRow(rows, r);
    }
  }

  datatype Response = Page(data: seq<Row>, next: Cursor) | LastPage(data: seq<Row>) | Unprocessable

  /** What one request may answer: the first `limit` eligible rows, with a cursor to the last of them
      when the page is full. */
  ghost predicate Answers(t: set<Row>, q: Query, cursor: Cursor, limit: nat, r: Response) {
    if IsGiven(cursor) && DecodeCursor(cursor.text).InvalidCursor? then r.Unprocessable?
    else
      exists all: seq<Row> :: IsListing(all, Eligible(t, q, cursor)) &&
        if limit <= |all| then
          r == Page(all[..limit],
                    if limit == 0 then Start else From(EncodeCursor(all[limit - 1].createdAt, all[limit - 1].id)))
        else r == LastPage(all)
  }

  /** `list_messages`; limit is between 1 and 200. */
  method ListMessages(t: set<Row>, q: Query, cursor: Cursor, limit: nat) returns (r: Response)
    requires IsTable(t) && 1 <= limit <= 200
    ensures Answers(t, q, cursor, limit, r)
  {
    if IsGiven(cursor) && DecodeCursor(cursor.text).InvalidCursor? {
      return Unprocessable;
    }
    var all := SortRows(Eligible(t, q, cursor));
    if limit <= |all| {
      var data := all[..limit];
      var last := data[|data| - 1];
      return Page(data, From(EncodeCursor(last.createdAt, last.id)));
    }
    return LastPage(all);
  }

  // ---- the same in terms of the texts ----

  /** What the query parameters ask for. */
  ghost predicate Wanted(q: Query, row: Row) {
    && (q.direction.Some? ==> row.direction == q.direction.value)
    && (q.status.Some? ==> row.status == q.status.value)
    && (q.since.Some? ==> !Precedes(row.createdAt, q.since.value))
    && (q.until.Some? ==> !Precedes(q.until.value, row.createdAt))
    && (q.to.Some? ==> row.direction == "outbound" && row.msisdn == q.to.value)
    && (q.from.Some? ==> row.direction == "inbound" && row.msisdn == q.from.value)
  }

  /** Later by (created_at, id). */
  ghost predicate Past(row: Row, createdAt: string, id: string) {
    Precedes(createdAt, row.createdAt) || (createdAt == row.createdAt && Precedes(id, row.id))
  }

  lemma WantedIs(q: Query, row: Row)
    ensures Matches(q, row) <==> Wanted(q, row)
  {
    hide TextLess, Precedes;
    if q.since.Some? { TextLessIs(row.createdAt, q.since.value); }
    if q.until.Some? { TextLessIs(q.until.value, row.createdAt); }
  }

  lemma PastIs(row: Row, createdAt: string, id: string)
    ensures After(row, createdAt, id) <==> Past(row, createdAt, id)
  {
    TextLessIs(createdAt, row.createdAt);
    TextLessIs(id, row.id);
  }

  /** Only a cursor that is given and splits into two texts that are not empty is accepted. */
  lemma CursorIs(text: string)
    ensures DecodeCursor(text).InvalidCursor? <==>
            forall a, b :: text == a + "|" + b ==> a == "" || '|' in a || b == ""
  {
    forall a, b ensures DecodeCursor(text) == Position(a, b)
              <==> text == a + "|" + b && a != "" && '|' !in a && b != ""
    {
      DecodeIff(text, a, b);
    }
    if DecodeCursor(text).Position? {
      var d := DecodeCursor(text);
      assert text == d.createdAt + "|" + d.id;
    }
  }

  /** The cursor of a full page stands for its last row. */
  lemma NextCursor(t: set<Row>, q: Query, cursor: Cursor, limit: nat, page: Response)
    requires IsTable(t) && limit >= 1 && Answers(t, q, cursor, limit, page) && page.Page?
    ensures |page.data| == limit && Increasing(page.data)
    ensures forall r | r in page.data :: r in t && Matches(q, r) && Beyond(r, cursor)
    ensures forall r :: Beyond(r, page.next) <==> Less(page.data[limit - 1], r)
    ensures forall r | r in t && Matches(q, r) && Beyond(r, cursor) && !Beyond(r, page.next) :: r in page.data
  {
    var all: seq<Row> :| IsListing(all, Eligible(t, q, cursor)) && limit <= |all| && page.data == all[..limit]
               && page.next == From(EncodeCursor(all[limit - 1].createdAt, all[limit - 1].id));
    var last := all[limit - 1];
    assert forall r | r in page.data :: r in all;
    assert last in all;
    CursorRoundTrip(last.createdAt, last.id);
    forall r | r in t && Matches(q, r) && Beyond(r, cursor) && !Beyond(r, page.next) ensures r in page.data {
      assert r in all;
      var i :| 0 <= i < |all| && all[i] == r;
      assert i >= limit ==> Less(last, r);
      assert page.data[i] == r;
    }
  }

  lemma LastPageHasAll(t: set<Row>, q: Query, cursor: Cursor, limit: nat, page: Response)
    requires IsTable(t) && Answers(t, q, cursor, limit, page) && page.LastPage?
    ensures Increasing(page.data) && forall r :: r in page.data <==> r in Eligible(t, q, cursor)
  {
  }

  lemma PageRows(t: set<Row>, q: Query, cursor: Cursor, limit: nat, r: Response)
    requires IsTable(t) && 1 <= limit && Answers(t, q, cursor, limit, r) && !r.Unprocessable?
    ensures |r.data| <= limit && (r.Page? <==> |r.data| == limit) && Increasing(r.data)
    ensures forall row | row in r.data :: row in t && Matches(q, row) && Beyond(row, cursor)
    ensures forall row | row in t && Matches(q, row) && Beyond(row, cursor) && row !in r.data ::
              r.Page? && Less(r.data[limit - 1], row)
  {
    if r.Page? {
      NextCursor(t, q, cursor, limit, r);
    } else {
      LastPageHasAll(t, q, cursor, limit, r);
    }
  }

  /** A row is refused by the cursor when it does not lie past it. */
  lemma NotBeyond(row: Row, cursor: Cursor)
    requires !Beyond(row, cursor) && (IsGiven(cursor) ==> DecodeCursor(cursor.text).Position?)
    ensures exists a, b :: cursor == From(a + "|" + b) && !Past(row, a, b)
  {
    var d := DecodeCursor(cursor.text);
    DecodeIff(cursor.text, d.createdAt, d.id);
    PastIs(row, d.createdAt, d.id);
    assert cursor == From(d.createdAt + "|" + d.id);
  }

  /** One request: the rows are those of the table that are asked for and lie past the cursor, in order and without
      a gap, `limit` of them exactly when a cursor is returned; and a cursor that does not split is refused. */
  lemma AnswerIs(t: set<Row>, q: Query, cursor: Cursor, limit: nat, r: Response)
    requires IsTable(t) && 1 <= limit && Answers(t, q, cursor, limit, r)
    ensures r.Unprocessable? <==>
            && cursor.From? && cursor.text != ""
            && forall a, b :: cursor.text == a + "|" + b ==> a == "" || '|' in a || b == ""
    ensures !r.Unprocessable? ==>
              && |r.data| <= limit && (r.Page? <==> |r.data| == limit)
              && (forall i, j | 0 <= i < j < |r.data| :: Past(r.data[j], r.data[i].createdAt, r.data[i].id))
              && (forall row | row in r.data :: row in t && Wanted(q, row))
              && (forall row, a, b | row in r.data && cursor == From(a + "|" + b) && '|' !in a :: Past(row, a, b))
    ensures !r.Unprocessable? ==>
              forall row | row in t && Wanted(q, row) && row !in r.data ::
                || (exists a, b :: cursor == From(a + "|" + b) && !Past(row, a, b))
                || (r.Page? && Past(row, r.data[limit - 1].createdAt, r.data[limit - 1].id))
  {
    hide IsTable, Matches, Wanted, After, Past, DecodeCursor;
    if IsGiven(cursor) { CursorIs(cursor.text); }
    forall row ensures Matches(q, row) <==> Wanted(q, row) { WantedIs(q, row); }
    forall row, a, b ensures After(row, a, b) <==> Past(row, a, b) { PastIs(row, a, b); }
    if !r.Unprocessable? {
      PageRows(t, q, cursor, limit, r);
      forall row, a, b | row in r.data && cursor == From(a + "|" + b) && '|' !in a ensures Past(row, a, b) {
        DecodeIff(cursor.text, a, b);
      }
      forall row | row in t && Wanted(q, row) && row !in r.data && !Beyond(row, cursor)
        ensures exists a, b :: cursor == From(a + "|" + b) && !Past(row, a, b)
      {
        NotBeyond(row, cursor);
      }
    }
  }

  // ---- the walk ----

  /** Following next_cursor: request i sees table tables[i] and gets pages[i]. */
  ghost predicate IsWalk(tables: seq<set<Row>>, q: Query, cursor: Cursor, limit: nat, pages: seq<Response>)
    decreases tables
  {
    && |tables| == |pages|
    && (|tables| > 0 ==>
          && IsTable(tables[0]) && Answers(tables[0], q, cursor, limit, pages[0])
          && (|tables| > 1 ==> pages[0].Page? && IsWalk(tables[1..], q, pages[0].next, limit, pages[1..])))
  }

  function Output(pages: seq<Response>): seq<Row> {
    if |pages| == 0 then []
    else (if pages[0].Unprocessable? then [] else pages[0].data) + Output(pages[1..])
  }

  lemma Tail(a: seq<Row>, t: set<Row>)
    requires IsListing(a, t) && |a| > 0
    ensures IsListing(a[1..], t - {a[0]})
  {
    forall i | 1 <= i < |a| ensures a[i] != a[0] {
      LessIsOrder(a[0], a[i], a[0]);
    }
    assert forall r :: r in a <==> r == a[0] || r in a[1..];
  }

  /** Two listings of one set are the same list. */
  lemma {:induction false} ListingIsUnique(a: seq<Row>, b: seq<Row>, t: set<Row>)
    requires IsListing(a, t) && IsListing(b, t)
    ensures a == b
    decreases |a|
  {
    assert |a| > 0 ==> a[0] in t;
    assert |b| > 0 ==> b[0] in t;
    if |a| > 0 && |b| > 0 {
      assert a[0] == b[0] by {
        assert a[0] in b && b[0] in a;
        if a[0] != b[0] {
          var i :| 0 < i < |b| && b[i] == a[0];
          var j :| 0 < j < |a| && a[j] == b[0];
          LessIsOrder(a[0], b[0], a[0]);
          assert false;
        }
      }
      var t' := t - {a[0]};
      Tail(a, t);
      Tail(b, t);
      ListingIsUnique(a[1..], b[1..], t');
    }
  }

  /** Later rows lie beyond earlier cursors. */
  lemma BeyondStays(t: set<Row>, q: Query, cursor: Cursor, limit: nat, page: Response, r: Row)
    requires IsTable(t) && limit >= 1 && Answers(t, q, cursor, limit, page) && page.Page? && Beyond(r, page.next)
    ensures Beyond(r, cursor)
  {
    NextCursor(t, q, cursor, limit, page);
    var last := page.data[limit - 1];
    assert last in page.data;
    if IsGiven(cursor) {
      var d := DecodeCursor(cursor.text);
      LessIsOrder(Row(d.createdAt, d.id, "", "", ""), last, r);
    }
  }

  ghost predicate Lies(rows: seq<Row>, q: Query, cursor: Cursor) {
    Increasing(rows) && forall r | r in rows :: Matches(q, r) && Beyond(r, cursor)
  }

  lemma IncreasingConcat(a: seq<Row>, b: seq<Row>)
    requires Increasing(a) && Increasing(b)
    requires forall x, y | x in a && y in b :: Less(x, y)
    ensures Increasing(a + b)
  {
    var all := a + b;
    forall i, j | 0 <= i < j < |all| ensures Less(all[i], all[j]) {
      if i < |a| && j >= |a| {
        assert a[i] in a && b[j - |a|] in b;
      }
    }
  }

  lemma FullPageFirst(t: set<Row>, q: Query, cursor: Cursor, limit: nat, page: Response, rest: seq<Row>)
    requires IsTable(t) && limit >= 1 && Answers(t, q, cursor, limit, page) && page.Page? && Lies(rest, q, page.next)
    ensures Lies(page.data + rest, q, cursor)
  {
    NextCursor(t, q, cursor, limit, page);
    var last := page.data[limit - 1];
    forall b | b in rest ensures Beyond(b, cursor) {
      BeyondStays(t, q, cursor, limit, page, b);
    }
    forall a, b | a in page.data && b in rest ensures Less(a, b) {
      var i :| 0 <= i < limit && page.data[i] == a;
      LessIsOrder(a, last, b);
    }
    IncreasingConcat(page.data, rest);
  }

  /** While rows come and go between the requests, the walk still never repeats a row and never goes
      back: its output is strictly increasing in (created_at, id), and lies beyond the cursor. */
  lemma {:induction false} WalkIncreases(tables: seq<set<Row>>, q: Query, cursor: Cursor, limit: nat,
                                         pages: seq<Response>)
    requires limit >= 1 && IsWalk(tables, q, cursor, limit, pages)
    ensures Lies(Output(pages), q, cursor)
    decreases tables
  {
    if |tables| > 0 {
      if pages[0].Page? {
        if |tables| > 1 {
          WalkIncreases(tables[1..], q, pages[0].next, limit, pages[1..]);
        }
        FullPageFirst(tables[0], q, cursor, limit, pages[0], Output(pages[1..]));
      } else {
        assert Output(pages[1..]) == [];
        if pages[0].LastPage? {
          LastPageHasAll(tables[0], q, cursor, limit, pages[0]);
          assert Output(pages) == pages[0].data;
        }
      }
    }
  }

  /** A row under this key that passes the filters; other columns may differ from page to page. */
  ghost predicate Listed(t: set<Row>, q: Query, createdAt: string, id: string) {
    exists r :: r in t && Matches(q, r) && r.createdAt == createdAt && r.id == id
  }

  lemma SameKey(r: Row, key: Row)
    requires r.createdAt == key.createdAt && r.id == key.id
    ensures forall cursor :: Beyond(r, cursor) <==> Beyond(key, cursor)
  {
  }

  /** A walk that reached its last page has listed every message that was present and matched during
      all of it, even if its other columns changed meanwhile. */
  lemma {:induction false} WalkMissesNothing(tables: seq<set<Row>>, q: Query, cursor: Cursor, limit: nat,
                                             pages: seq<Response>, key: Row)
    requires limit >= 1 && IsWalk(tables, q, cursor, limit, pages)
    requires |pages| > 0 && pages[|pages| - 1].LastPage?
    requires Beyond(key, cursor) && forall i | 0 <= i < |tables| :: Listed(tables[i], q, key.createdAt, key.id)
    ensures exists r :: r in Output(pages) && r.createdAt == key.createdAt && r.id == key.id
    decreases tables
  {
    hide Answers, IsTable, Increasing, Less, Matches, Beyond;
    assert Listed(tables[0], q, key.createdAt, key.id);
    var r :| r in tables[0] && Matches(q, r) && r.createdAt == key.createdAt && r.id == key.id;
    SameKey(r, key);
    if pages[0].LastPage? {
      LastPageHasAll(tables[0], q, cursor, limit, pages[0]);
      assert r in Output(pages);
    } else {
      NextCursor(tables[0], q, cursor, limit, pages[0]);
      if Beyond(key, pages[0].next) {
        assert pages[1..][|pages| - 2] == pages[|pages| - 1];
        WalkMissesNothing(tables[1..], q, pages[0].next, limit, pages[1..], key);
      } else {
        assert r in Output(pages);
      }
    }
  }

  function Repeat(t: set<Row>, n: nat): seq<set<Row>> { seq(n, _ => t) }

  lemma {:induction false} OutputFromTable(t: set<Row>, q: Query, cursor: Cursor, limit: nat, pages: seq<Response>,
                                           r: Row)
    requires limit >= 1 && IsWalk(Repeat(t, |pages|), q, cursor, limit, pages) && r in Output(pages)
    ensures r in t
    decreases |pages|
  {
    var tables := Repeat(t, |pages|);
    assert |pages| > 0 && tables[1..] == Repeat(t, |pages| - 1);
    if pages[0].LastPage? {
      LastPageHasAll(t, q, cursor, limit, pages[0]);
      if |pages| == 1 {
        assert Output(pages[1..]) == [];
      }
    } else if pages[0].Page? {
      NextCursor(t, q, cursor, limit, pages[0]);
      if r !in pages[0].data {
        OutputFromTable(t, q, pages[0].next, limit, pages[1..], r);
      }
    }
  }

  /** On a table that does not change, a complete walk is exactly the sorted filtered list. */
  lemma WalkOnFixedTable(t: set<Row>, q: Query, limit: nat, pages: seq<Response>, all: seq<Row>)
    requires limit >= 1 && |pages| > 0 && IsWalk(Repeat(t, |pages|), q, Start, limit, pages)
    requires pages[|pages| - 1].LastPage? && IsListing(all, set r | r in t && Matches(q, r))
    ensures Output(pages) == all
  {
    var tables := Repeat(t, |pages|);
    WalkIncreases(tables, q, Start, limit, pages);
    forall r ensures r in Output(pages) <==> r in t && Matches(q, r) {
      if r in t && Matches(q, r) {
        forall i | 0 <= i < |tables| ensures Listed(tables[i], q, r.createdAt, r.id) {
          assert tables[i] == t;
        }
        WalkMissesNothing(tables, q, Start, limit, pages, r);
        var x :| x in Output(pages) && x.createdAt == r.createdAt && x.id == r.id;
        OutputFromTable(t, q, Start, limit, pages, x);
        assert IsTable(tables[0]);
      } else if r in Output(pages) {
        OutputFromTable(t, q, Start, limit, pages, r);
      }
    }
    ListingIsUnique(Output(pages), all, set r | r in t && Matches(q, r));
  }

  /** Rows on so many full pages. */
  function Rows(pages: nat, limit: nat): nat { if pages == 0 then 0 else limit + Rows(pages - 1, limit) }

  /** Pages are full until the last one, so a walk over a fixed table of m matching rows has at most
      m / limit pages before it: it ends. */
  lemma {:induction false} FullPages(tables: seq<set<Row>>, q: Query, cursor: Cursor, limit: nat, pages: seq<Response>)
    requires limit >= 1 && IsWalk(tables, q, cursor, limit, pages) && |pages| > 0
    ensures |Output(pages)| >= Rows(|pages| - 1, limit)
    decreases tables
  {
    if |pages| > 1 {
      NextCursor(tables[0], q, cursor, limit, pages[0]);
      FullPages(tables[1..], q, pages[0].next, limit, pages[1..]);
    }
  }

  lemma {:induction false} RowsIsProduct(pages: nat, limit: nat)
    ensures Rows(pages, limit) == pages * limit
  {
    if pages > 0 {
      RowsIsProduct(pages - 1, limit);
    }
  }

  lemma {:induction false} IncreasingIsSmall(rows: seq<Row>, t: set<Row>)
    requires Increasing(rows) && forall r | r in rows :: r in t
    ensures |rows| <= |t|
    decreases |rows|
  {
    if |rows| > 0 {
      forall i | 1 <= i < |rows| ensures rows[i] != rows[0] {
        LessIsOrder(rows[0], rows[i], rows[0]);
      }
      assert rows[0] in rows && forall r | r in rows[1..] :: r in rows && r != rows[0];
      IncreasingIsSmall(rows[1..], t - {rows[0]});
    }
  }

  /** Following next_cursor on a fixed table ends: a walk has at most |t| / limit + 1 pages. */
  lemma WalkTerminates(t: set<Row>, q: Query, limit: nat, pages: seq<Response>)
    requires limit >= 1 && |pages| > 0 && IsWalk(Repeat(t, |pages|), q, Start, limit, pages)
    ensures (|pages| - 1) * limit <= |t|
  {
    var tables := Repeat(t, |pages|);
    FullPages(tables, q, Start, limit, pages);
    RowsIsProduct(|pages| - 1, limit);
    WalkIncreases(tables, q, Start, limit, pages);
    forall r | r in Output(pages) ensures r in t {
      OutputFromTable(t, q, Start, limit, pages, r);
    }
    IncreasingIsSmall(Output(pages), t);
  }
}
