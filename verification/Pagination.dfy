/** Walking a listing page by page: runs newest first, and the events of one run in order. */
module Pagination {
  import opened Common
  import opened Cursors

  /** A row as far as the listing is concerned. */
  datatype Row =
    | RunRow(at: Instant, id: nat)
    | EventRow(sequence: nat)
  {
    /** What the columns hold: calendar instants, 128-bit identifiers, sequences below 10^12. */
    predicate Valid() {
      match this
      case RunRow(at, id) => at.Valid() && id < TWO_128
      case EventRow(sequence) => 1 <= sequence < 1_000_000_000_000
    }

    /** Position in the listing: `ORDER BY created_at DESC, id DESC`, or `ORDER BY sequence`. */
    function Key(): Position {
      match this
      case RunRow(at, id) => Position(0 - at.Microseconds(), 0 - id)
      case EventRow(sequence) => Position(sequence, 0)
    }

    function Cursor(): string
      requires Valid()
    {
      match this
      case RunRow(at, id) => EncodeAudit(at, id)
      case EventRow(sequence) => EncodeSequence(sequence)
    }
  }

  datatype Position = Position(major: int, minor: int)
  {
    predicate Before(other: Position) {
      major < other.major || (major == other.major && minor < other.minor)
    }
  }

  datatype Kind = Runs | Events

  predicate IsOf(kind: Kind, row: Row) {
    row.Valid() && if kind.Runs? then row.RunRow? else row.EventRow?
  }

  /** A table's rows in listing order. */
  predicate Listing(kind: Kind, rows: seq<Row>) {
    && (forall i | 0 <= i < |rows| :: IsOf(kind, rows[i]))
    && (forall i, j | 0 <= i < j < |rows| :: rows[i].Key().Before(rows[j].Key()))
  }

  function DecodeCursor(kind: Kind, cursor: string): Outcome<Position, CursorError> {
    match kind
    case Runs =>
      (match DecodeAudit(cursor)
       case Err(error) => Err(error)
       case Ok((at, id)) => Ok(RunRow(at, id).Key()))
    case Events =>
      match DecodeSequence(cursor)
      case Err(error) => Err(error)
      case Ok(sequence) => Ok(EventRow(sequence).Key())
  }

  /** The position a cursor stands for is its row's. */
  lemma CursorMarksRow(kind: Kind, row: Row)
    requires IsOf(kind, row)
    ensures DecodeCursor(kind, row.Cursor()) == Ok(row.Key())
  {
    hide EncodeAudit, DecodeAudit, EncodeSequence, DecodeSequence;
    match row
    case RunRow(at, id) => AuditRoundTrip(at, id);
    case EventRow(sequence) => SequenceRoundTrip(sequence);
  }

  // ---------- one page ----------

  /** The rows strictly after a position, in order. */
  function After(rows: seq<Row>, position: Position): (rest: seq<Row>)
    ensures |rest| <= |rows|
    ensures forall row | row in rest :: row in rows && position.Before(row.Key())
    ensures forall row | row in rows && position.Before(row.Key()) :: row in rest
  {
    if rows == [] then []
    else if position.Before(rows[0].Key()) then [rows[0]] + After(rows[1..], position)
    else After(rows[1..], position)
  }

  datatype Page = Page(items: seq<Row>, nextCursor: Option<string>)

  function PageOf(rows: seq<Row>, limit: nat): Page
    requires limit >= 1 && forall i | 0 <= i < |rows| :: rows[i].Valid()
  {
    var taken := if |rows| > limit then rows[..limit + 1] else rows;
    var items := if |taken| > limit then taken[..limit] else taken;
    Page(items, if |taken| > limit then Some(items[|items| - 1].Cursor()) else None)
  }

  function ListPage(kind: Kind, rows: seq<Row>, limit: nat, cursor: Option<string>): Outcome<Page, CursorError>
    requires limit >= 1 && Listing(kind, rows)
  {
    if cursor.None? then Ok(PageOf(rows, limit))
    else
      match DecodeCursor(kind, cursor.value)
      case Err(error) => Err(error)
      case Ok(position) =>
        var rest := After(rows, position);
        AfterIsListing(kind, rows, position);
        Ok(PageOf(rest, limit))
  }

  lemma {:induction false} AfterIsListing(kind: Kind, rows: seq<Row>, position: Position)
    requires Listing(kind, rows)
    ensures Listing(kind, After(rows, position))
  {
    if rows != [] {
      AfterIsListing(kind, rows[1..], position);
      forall row | row in After(rows[1..], position) ensures rows[0].Key().Before(row.Key()) {
        assert row in rows[1..];
      }
    }
  }

  /** Everything after the i-th row is the rest of the listing. */
  lemma {:induction false} AfterRow(kind: Kind, rows: seq<Row>, i: nat)
    requires Listing(kind, rows) && i < |rows|
    ensures After(rows, rows[i].Key()) == rows[i + 1..]
  {
    if i == 0 {
      AllAfter(rows[1..], rows[0].Key());
    } else {
      assert rows[0].Key().Before(rows[i].Key());
      AfterRow(kind, rows[1..], i - 1);
      assert rows[1..][i - 1] == rows[i] && rows[1..][i..] == rows[i + 1..];
    }
  }

  lemma {:induction false} AllAfter(rows: seq<Row>, position: Position)
    requires forall i | 0 <= i < |rows| :: position.Before(rows[i].Key())
    ensures After(rows, position) == rows
  {
    if rows != [] {
      AllAfter(rows[1..], position);
      assert rows == [rows[0]] + rows[1..];
    }
  }

  // ---------- walking to the end ----------

  datatype Collected = Collected(items: seq<Row>) | RepeatedCursor | Refused

  /** The client's loop: it collects every row once, in order, and never meets a cursor twice. */
  method CollectPages(kind: Kind, rows: seq<Row>, limit: nat) returns (result: Collected)
    requires limit >= 1 && Listing(kind, rows)
    ensures result == Collected(rows)
  {
    hide After, Listing, IsOf, PageOf, ListPage, DecodeCursor, SeenBefore, EncodeAudit, EncodeSequence;
    var items: seq<Row> := [];
    var seen: set<string> := {};
    var cursor: Option<string> := None;
    while true
      invariant |items| <= |rows| && items == rows[..|items|]
      invariant cursor.None? ==> items == []
      invariant cursor.Some? ==> 0 < |items| < |rows| && rows[|items| - 1].Valid() && cursor.value == rows[|items| - 1].Cursor()
      invariant forall c | c in seen :: SeenBefore(rows, c, |items|)
      decreases |rows| - |items|, if cursor.None? then 1 else 0
    {
      if cursor.Some? { NextPage(kind, rows, |items|, limit); } else { FirstPage(kind, rows, limit); }
      PageShape(kind, rows, |items|, limit);
      var reply := ListPage(kind, rows, limit, cursor);
      if reply.Err? {
        return Refused;
      }
      var page := reply.value;
      ghost var before := |items|;
      items := items + page.items;
      if page.nextCursor.None? {
        return Collected(items);
      }
      NotSeen(kind, rows, seen, before, |items|);
      if page.nextCursor.value in seen {
        return RepeatedCursor;
      }
      seen := seen + {page.nextCursor.value};
      cursor := page.nextCursor;
    }
  }

  predicate SeenBefore(rows: seq<Row>, cursor: string, n: nat) {
    exists k | 0 <= k < n :: k < |rows| && rows[k].Valid() && rows[k].Cursor() == cursor
  }

  lemma FirstPage(kind: Kind, rows: seq<Row>, limit: nat)
    requires Listing(kind, rows) && limit >= 1
    ensures forall i | 0 <= i < |rows| :: rows[i].Valid()
    ensures ListPage(kind, rows, limit, None) == Ok(PageOf(rows[0..], limit))
  {
    assert rows[0..] == rows;
  }

  lemma NextPage(kind: Kind, rows: seq<Row>, n: nat, limit: nat)
    requires Listing(kind, rows) && 0 < n <= |rows| && limit >= 1
    ensures forall i | 0 <= i < |rows| :: rows[i].Valid()
    ensures ListPage(kind, rows, limit, Some(rows[n - 1].Cursor())) == Ok(PageOf(rows[n..], limit))
  {
    hide DecodeCursor, After;
    CursorMarksRow(kind, rows[n - 1]);
    AfterRow(kind, rows, n - 1);
  }

  lemma PageShape(kind: Kind, rows: seq<Row>, n: nat, limit: nat)
    requires Listing(kind, rows) && n <= |rows| && limit >= 1
    ensures forall i | 0 <= i < |rows| :: rows[i].Valid()
    ensures var page := PageOf(rows[n..], limit);
      && |page.items| <= |rows| - n
      && rows[..n] + page.items == rows[..n + |page.items|]
      && (page.nextCursor.None? ==> n + |page.items| == |rows|)
      && (page.nextCursor.Some? ==>
            && |page.items| == limit && n + limit < |rows|
            && page.nextCursor.value == rows[n + limit - 1].Cursor())
  {
    var rest := rows[n..];
    if |rest| > limit {
      assert rest[..limit + 1][..limit] == rest[..limit];
      assert rows[..n] + rest[..limit] == rows[..n + limit];
      assert rest[..limit][limit - 1] == rows[n + limit - 1];
    } else {
      assert rows[..n] + rest == rows;
    }
  }

  /** Different rows have different cursors. */
  lemma CursorsDiffer(kind: Kind, rows: seq<Row>, i: nat, j: nat)
    requires Listing(kind, rows) && i < j < |rows|
    ensures rows[i].Valid() && rows[j].Valid() && rows[i].Cursor() != rows[j].Cursor()
  {
    hide DecodeCursor;
    CursorMarksRow(kind, rows[i]);
    CursorMarksRow(kind, rows[j]);
    assert rows[i].Key().Before(rows[j].Key());
  }

  lemma NotSeen(kind: Kind, rows: seq<Row>, seen: set<string>, n: nat, later: nat)
    requires Listing(kind, rows) && n < later <= |rows|
    requires forall c | c in seen :: SeenBefore(rows, c, n)
    ensures rows[later - 1].Valid() && rows[later - 1].Cursor() !in seen
    ensures forall c | c in seen + {rows[later - 1].Cursor()} :: SeenBefore(rows, c, later)
  {
    hide EncodeAudit, EncodeSequence;
    forall c | c in seen ensures c != rows[later - 1].Cursor() && SeenBefore(rows, c, later) {
      assert SeenBefore(rows, c, n);
      var k :| 0 <= k < n && k < |rows| && rows[k].Valid() && rows[k].Cursor() == c;
      CursorsDiffer(kind, rows, k, later - 1);
    }
  }

  // ---------- a table that changes between pages ----------

  /** What a walk has seen when each page is read from the table as it is then. */
  datatype Walk = Walk(items: seq<Row>, cursor: Option<string>, finished: bool, refused: bool)

  function WalkPages(kind: Kind, tables: seq<seq<Row>>, limit: nat): Walk
    requires limit >= 1 && forall i | 0 <= i < |tables| :: Listing(kind, tables[i])
    decreases |tables|
  {
    if tables == [] then Walk([], None, false, false)
    else
      var walk := WalkPages(kind, tables[..|tables| - 1], limit);
      if walk.finished || walk.refused then walk
      else
        match ListPage(kind, tables[|tables| - 1], limit, walk.cursor)
        case Err(_) => walk.(refused := true)
        case Ok(page) => Extend(walk, page)
  }

  function Extend(walk: Walk, page: Page): Walk {
    Walk(walk.items + page.items, page.nextCursor, page.nextCursor.None?, false)
  }

  /** What the table still holds after the walk's last item. */
  function Rest(table: seq<Row>, walk: Walk): seq<Row> {
    if walk.items == [] then table else After(table, walk.items[|walk.items| - 1].Key())
  }

  /** The position up to which a walk has looked: its last item. */
  predicate Covers(walk: Walk, row: Row) {
    walk.finished || (walk.items != [] && !walk.items[|walk.items| - 1].Key().Before(row.Key()))
  }

  predicate WalkFits(kind: Kind, walk: Walk) {
    && !walk.refused
    && Listing(kind, walk.items)
    && (walk.cursor.None? ==> walk.finished || walk.items == [])
    && (walk.cursor.Some? ==>
          && walk.items != [] && walk.items[|walk.items| - 1].Valid()
          && walk.cursor.value == walk.items[|walk.items| - 1].Cursor())
  }

  lemma PageFits(kind: Kind, table: seq<Row>, limit: nat, walk: Walk)
    requires limit >= 1 && Listing(kind, table) && !walk.finished && WalkFits(kind, walk)
    ensures Listing(kind, Rest(table, walk))
    ensures ListPage(kind, table, limit, walk.cursor) == Ok(PageOf(Rest(table, walk), limit))
  {
    hide After, DecodeCursor;
    if walk.cursor.Some? {
      CursorMarksRow(kind, walk.items[|walk.items| - 1]);
      AfterIsListing(kind, table, walk.items[|walk.items| - 1].Key());
    }
  }

  lemma JoinListings(kind: Kind, items: seq<Row>, more: seq<Row>)
    requires Listing(kind, items) && Listing(kind, more)
    requires items != [] ==> forall row | row in more :: items[|items| - 1].Key().Before(row.Key())
    ensures Listing(kind, items + more)
  {
    var all := items + more;
    forall i, j | 0 <= i < j < |all| ensures all[i].Key().Before(all[j].Key()) {
      if i < |items| <= j {
        assert more[j - |items|] in more;
        assert i < |items| - 1 ==> items[i].Key().Before(items[|items| - 1].Key());
      }
    }
  }

  lemma {:induction false} WalkStaysInOrder(kind: Kind, tables: seq<seq<Row>>, limit: nat)
    requires limit >= 1 && forall i | 0 <= i < |tables| :: Listing(kind, tables[i])
    ensures WalkFits(kind, WalkPages(kind, tables, limit))
    decreases |tables|
  {
    if tables != [] {
      var table, before := tables[|tables| - 1], tables[..|tables| - 1];
      WalkStaysInOrder(kind, before, limit);
      var walk := WalkPages(kind, before, limit);
      if !walk.finished {
        WalkOnePage(kind, table, limit, walk);
      }
    }
  }

  lemma WalkOnePage(kind: Kind, table: seq<Row>, limit: nat, walk: Walk)
    requires limit >= 1 && Listing(kind, table) && !walk.finished && WalkFits(kind, walk)
    ensures ListPage(kind, table, limit, walk.cursor).Ok?
    ensures WalkFits(kind, Extend(walk, ListPage(kind, table, limit, walk.cursor).value))
  {
    hide ListPage, Listing, PageOf, WalkFits, Rest;
    PageFits(kind, table, limit, walk);
    RestFollows(table, walk);
    ExtendFits(kind, walk, Rest(table, walk), limit);
  }

  lemma RestFollows(table: seq<Row>, walk: Walk)
    ensures walk.items != [] ==> forall row | row in Rest(table, walk) :: walk.items[|walk.items| - 1].Key().Before(row.Key())
  {
  }

  lemma ExtendFits(kind: Kind, walk: Walk, rest: seq<Row>, limit: nat)
    requires limit >= 1 && WalkFits(kind, walk) && Listing(kind, rest)
    requires walk.items != [] ==> forall row | row in rest :: walk.items[|walk.items| - 1].Key().Before(row.Key())
    ensures WalkFits(kind, Extend(walk, PageOf(rest, limit)))
  {
    hide IsOf, Listing, PageOf, EncodeAudit, EncodeSequence;
    PageEnds(kind, rest, limit);
    var page := PageOf(rest, limit);
    JoinListings(kind, walk.items, page.items);
    if page.items != [] {
      assert (walk.items + page.items)[|walk.items + page.items| - 1] == page.items[|page.items| - 1];
    }
  }

  /** A page is the beginning of what it was taken from, and its cursor is its last row's. */
  lemma PageEnds(kind: Kind, rest: seq<Row>, limit: nat)
    requires limit >= 1 && Listing(kind, rest)
    ensures forall i | 0 <= i < |rest| :: rest[i].Valid()
    ensures var page := PageOf(rest, limit);
      && Listing(kind, page.items)
      && |page.items| <= |rest| && page.items == rest[..|page.items|]
      && (forall row | row in page.items :: row in rest)
      && (page.nextCursor.None? ==> page.items == rest)
      && (page.nextCursor.Some? ==>
            && page.items != [] && page.items[|page.items| - 1].Valid()
            && page.nextCursor.value == page.items[|page.items| - 1].Cursor())
  {
    hide PageOf, EncodeAudit, EncodeSequence;
    assert rest[0..] == rest;
    PageShape(kind, rest, 0, limit);
    var page := PageOf(rest, limit);
    assert page.items == rest[..|page.items|];
    PrefixListing(kind, rest, |page.items|);
  }

  lemma PrefixListing(kind: Kind, rows: seq<Row>, n: nat)
    requires Listing(kind, rows) && n <= |rows|
    ensures Listing(kind, rows[..n])
    ensures forall row | row in rows[..n] :: row in rows && row.Valid()
  {
  }

  /**
    However the table changes between pages, no row is returned twice and the order is kept; a
    row that was there for every page is returned once the walk has got past its position.
  */
  lemma {:induction false} StableRowsAreVisited(kind: Kind, tables: seq<seq<Row>>, limit: nat, row: Row)
    requires limit >= 1 && forall i | 0 <= i < |tables| :: Listing(kind, tables[i]) && row in tables[i]
    ensures var walk := WalkPages(kind, tables, limit);
      && Listing(kind, walk.items)
      && (Covers(walk, row) ==> row in walk.items)
    decreases |tables|
  {
    hide Listing, ListPage, PageOf, Rest, Covers;
    WalkStaysInOrder(kind, tables, limit);
    if tables == [] {
      NothingCovered(row);
    } else {
      var table, before := tables[|tables| - 1], tables[..|tables| - 1];
      StableRowsAreVisited(kind, before, limit, row);
      WalkStaysInOrder(kind, before, limit);
      var walk := WalkPages(kind, before, limit);
      if !walk.finished {
        PageFits(kind, table, limit, walk);
        VisitedOnPage(kind, table, limit, walk, row);
      }
    }
  }

  lemma NothingCovered(row: Row)
    ensures !Covers(Walk([], None, false, false), row)
  {
  }

  lemma VisitedOnPage(kind: Kind, table: seq<Row>, limit: nat, walk: Walk, row: Row)
    requires limit >= 1 && row in table && !walk.finished
    requires Covers(walk, row) ==> row in walk.items
    requires Listing(kind, Rest(table, walk))
    ensures forall i | 0 <= i < |Rest(table, walk)| :: Rest(table, walk)[i].Valid()
    ensures var next := Extend(walk, PageOf(Rest(table, walk), limit));
      Covers(next, row) ==> row in next.items
  {
    hide PageOf, EncodeAudit, EncodeSequence;
    var rest := Rest(table, walk);
    PageEnds(kind, rest, limit);
    var page := PageOf(rest, limit);
    if row in rest {
      var at :| 0 <= at < |rest| && rest[at] == row;
      if at < |page.items| {
        assert page.items[at] == row;
      } else {
        assert rest[|page.items| - 1].Key().Before(row.Key());
        assert page.items[|page.items| - 1] == rest[|page.items| - 1];
      }
    }
  }
}
