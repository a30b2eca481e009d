/** Paging a search by cursor.

    A page whose filters reach into plugin tables examines at most `budget` calls; when it comes
    back short with the window full, it reports the last call it examined. A client resumes from
    that report if there is one, else from the last row of a full page, and stops when there is
    neither. */
module CursorSearch {
  import opened Collections
  import opened OrderBy
  import opened CallTable

  /** The position of a row a client already has. */
  datatype Cursor = Cursor(dateTime: int, id: nat)

  datatype Query = Query(desc: bool, limit: nat, budget: nat, cheap: Row -> bool, reachesPlugins: bool)
  {
    predicate Valid() { limit > 0 && budget > 0 }
  }

  /** What one page request sees: the calls, and which of them the plugin predicates admit. */
  datatype Snapshot = Snapshot(calls: Table, pluginHolds: nat -> bool)

  /** `nextAfter` is set exactly when the response says More. */
  datatype Page = Page(results: seq<Row>, nextAfter: Option<Cursor>)

  function At(r: Row): Cursor { Cursor(r.dateTime, r.id) }

  /** ``order by `dateTime`, `id` ``, both ascending or both descending. */
  function Order(desc: bool): Row -> Key {
    (r: Row) => if desc then Key(-r.dateTime, 0 - r.id as int, 0) else Key(r.dateTime, r.id, 0)
  }

  /** The cursor predicate, written out as the source does. */
  predicate Past(desc: bool, after: Option<Cursor>, r: Row) {
    match after
    case None => true
    case Some(c) =>
      if desc then r.dateTime < c.dateTime || (r.dateTime == c.dateTime && r.id < c.id)
      else r.dateTime > c.dateTime || (r.dateTime == c.dateTime && r.id > c.id)
  }

  function Inner(q: Query, snap: Snapshot, after: Option<Cursor>): set<Row> {
    set r | r in Rows(snap.calls) && q.cheap(r) && Past(q.desc, after, r)
  }

  /** The cheap part of the page query, before any limit. */
  function Candidates(q: Query, snap: Snapshot, after: Option<Cursor>): seq<Row> {
    Sorted(Order(q.desc), Inner(q, snap, after))
  }

  function Held(snap: Snapshot): Row -> bool { (r: Row) => snap.pluginHolds(r.id) }

  /** The candidates one request may examine. */
  function Window(q: Query, snap: Snapshot, after: Option<Cursor>): seq<Row> {
    var c := Candidates(q, snap, after);
    if q.reachesPlugins then Take(q.budget, c) else c
  }

  /** Those of them the plugin predicates admit. */
  function Kept(q: Query, snap: Snapshot, after: Option<Cursor>): seq<Row> {
    var window := Window(q, snap, after);
    if q.reachesPlugins then Keep(Held(snap), window) else window
  }

  /** The page as the two SQL statements define it. */
  function PageOf(q: Query, snap: Snapshot, after: Option<Cursor>): Page
    requires q.Valid()
  {
    var c := Candidates(q, snap, after);
    var results := Take(q.limit, Kept(q, snap, after));
    var spent := q.reachesPlugins && |results| < q.limit && |c| >= q.budget;
    Page(results, if spent then Some(At(c[q.budget - 1])) else None)
  }

  /** The page as the server produces it: the limits pipeline, so the scan stops at the first of
      a full page, a spent budget and the end of the data, and only a short page looks at the
      budget's edge. */
  method SearchPage(q: Query, snap: Snapshot, after: Option<Cursor>) returns (page: Page)
    requires q.Valid()
    ensures page == PageOf(q, snap, after)
  {
    hide Candidates, Keep;
    var c := Candidates(q, snap, after);
    if !q.reachesPlugins {
      return Page(Take(q.limit, c), None);
    }
    var results := ScanWindow(snap, Take(q.budget, c), q.limit);
    page := Page(results, None);
    if |results| < q.limit && |c| >= q.budget {
      page := page.(nextAfter := Some(At(c[q.budget - 1])));
    }
  }

  method ScanWindow(snap: Snapshot, window: seq<Row>, limit: nat) returns (results: seq<Row>)
    ensures results == Take(limit, Keep(Held(snap), window))
  {
    var i := 0;
    results := [];
    while i < |window| && |results| < limit
      invariant 0 <= i <= |window|
      invariant results == Keep(Held(snap), window[..i]) && |results| <= limit
    {
      assert window[..i + 1][..i] == window[..i];
      if snap.pluginHolds(window[i].id) {
        results := results + [window[i]];
      }
      i := i + 1;
    }
    KeepPrefix(Held(snap), window, i);
    assert i == |window| ==> window[..i] == window;
  }

  /** Where the client goes next: NextAfter whenever the server sets it, else the last row of a full
      page, else nowhere. */
  function Next(q: Query, page: Page): Option<Cursor>
    requires q.Valid()
  {
    if page.nextAfter.Some? then page.nextAfter
    else if |page.results| == q.limit then Some(At(page.results[q.limit - 1]))
    else None
  }

  /** The flat query, without limit or budget. */
  predicate Matches(q: Query, snap: Snapshot, r: Row) {
    r in Rows(snap.calls) && q.cheap(r) && (q.reachesPlugins ==> snap.pluginHolds(r.id))
  }

  /** `r` lies after one cursor and not after the other. */
  predicate Between(q: Query, after: Option<Cursor>, upTo: Option<Cursor>, r: Row) {
    Past(q.desc, after, r) && (upTo.Some? ==> !Past(q.desc, upTo, r))
  }

  lemma PastIsBelow(desc: bool, edge: Row, r: Row)
    ensures Past(desc, Some(At(edge)), r) <==> Below(Order(desc)(edge), Order(desc)(r))
  {
  }

  lemma WindowHolds(q: Query, snap: Snapshot, after: Option<Cursor>)
    requires q.Valid()
    ensures var c := Candidates(q, snap, after);
            var window := Window(q, snap, after);
            && Ascending(Order(q.desc), window)
            && (if q.reachesPlugins && |c| >= q.budget
                then forall r :: r in window <==> r in Inner(q, snap, after) && !Past(q.desc, Some(At(c[q.budget - 1])), r)
                else forall r :: r in window <==> r in Inner(q, snap, after))
  {
    var c := Candidates(q, snap, after);
    var window := Window(q, snap, after);
    if q.reachesPlugins && |c| >= q.budget {
      var edge := c[q.budget - 1];
      PrefixIsDownset(Order(q.desc), c, q.budget);
      forall r ensures r in window <==> r in Inner(q, snap, after) && !Past(q.desc, Some(At(edge)), r) {
        PastIsBelow(q.desc, edge, r);
        if r in window { assert r in c; }
      }
    } else {
      assert window == c;
    }
  }

  lemma KeptHolds(q: Query, snap: Snapshot, after: Option<Cursor>)
    requires q.Valid()
    ensures Ascending(Order(q.desc), Kept(q, snap, after))
    ensures forall r :: r in Kept(q, snap, after) <==> r in Window(q, snap, after) && Matches(q, snap, r)
  {
    WindowHolds(q, snap, after);
    if q.reachesPlugins { KeepAscending(Order(q.desc), Held(snap), Window(q, snap, after)); }
    forall r ensures r in Kept(q, snap, after) <==> r in Window(q, snap, after) && Matches(q, snap, r) {
      assert r in Window(q, snap, after) ==> r in Inner(q, snap, after);
    }
  }

  ghost predicate IsInterval(q: Query, snap: Snapshot, after: Option<Cursor>, rows: seq<Row>, next: Option<Cursor>) {
    && Ascending(Order(q.desc), rows)
    && (forall r :: r in rows <==> Matches(q, snap, r) && Between(q, after, next, r))
    && (next.Some? ==> exists r :: r in Inner(q, snap, after) && At(r) == next.value)
  }

  lemma FullPageIsAnInterval(q: Query, snap: Snapshot, after: Option<Cursor>)
    requires q.Valid() && |Kept(q, snap, after)| >= q.limit
    ensures var kept := Kept(q, snap, after);
            IsInterval(q, snap, after, kept[..q.limit], Some(At(kept[q.limit - 1])))
  {
    hide Kept, Window, Keep, Sorted;
    var kept := Kept(q, snap, after);
    var last := kept[q.limit - 1];
    WindowHolds(q, snap, after);
    KeptHolds(q, snap, after);
    PrefixIsDownset(Order(q.desc), kept, q.limit);
    assert last in kept;
    assert last in Inner(q, snap, after);
    forall r ensures r in kept[..q.limit] <==> Matches(q, snap, r) && Between(q, after, Some(At(last)), r) {
      PastIsBelow(q.desc, last, r);
      if r in kept[..q.limit] { assert r in kept; }
    }
  }

  /** One page returns exactly the flat query's rows between the cursor it was given and the
      cursor it leads to, in order, and that cursor is a row strictly further on. */
  lemma PageIsAnInterval(q: Query, snap: Snapshot, after: Option<Cursor>)
    requires q.Valid()
    ensures var page := PageOf(q, snap, after);
            IsInterval(q, snap, after, page.results, Next(q, page))
  {
    hide Sorted, Keep, Order, Below;
    var c := Candidates(q, snap, after);
    var page := PageOf(q, snap, after);
    if |Kept(q, snap, after)| >= q.limit {
      FullPageIsAnInterval(q, snap, after);
    } else {
      WindowHolds(q, snap, after);
      KeptHolds(q, snap, after);
      assert page.results == Kept(q, snap, after);
      if page.nextAfter.Some? {
        assert c[q.budget - 1] in c;
      }
    }
  }

  /** The candidates not past a row, and those ahead of it. */
  function UpTo(q: Query, snap: Snapshot, after: Option<Cursor>, c: Cursor): set<Row> {
    set r | r in Inner(q, snap, after) && !Past(q.desc, Some(c), r)
  }

  function Ahead(q: Query, snap: Snapshot, after: Option<Cursor>, r: Row): set<Row> {
    UpTo(q, snap, after, At(r)) - {r}
  }

  /** A prefix of the candidates is what does not lie past its last row. */
  lemma PrefixIsUpTo(q: Query, snap: Snapshot, after: Option<Cursor>, n: nat)
    requires 0 < n <= |Candidates(q, snap, after)|
    ensures |UpTo(q, snap, after, At(Candidates(q, snap, after)[n - 1]))| == n
  {
    hide Below, Order;
    var c := Candidates(q, snap, after);
    PrefixIsDownset(Order(q.desc), c, n);
    AscendingCount(Order(q.desc), c[..n]);
    forall r | r in Inner(q, snap, after) ensures r in c[..n] <==> !Past(q.desc, Some(At(c[n - 1])), r) {
      PastIsBelow(q.desc, c[n - 1], r);
    }
    assert forall r | r in c[..n] :: r in c;
    assert UpTo(q, snap, after, At(c[n - 1])) == Elements(c[..n]);
  }

  /** What one page says by itself: no more rows than asked for, none from beyond the budget, and a
      report exactly when it is short with candidates enough to fill the window; the report stands at
      the last candidate the budget reaches, and every match up to it is on the page. */
  lemma PageReportsItsScan(q: Query, snap: Snapshot, after: Option<Cursor>)
    requires q.Valid()
    ensures var page := PageOf(q, snap, after);
            && |page.results| <= q.limit
            && (q.reachesPlugins ==> forall r | r in page.results :: |Ahead(q, snap, after, r)| < q.budget)
            && (page.nextAfter.Some? <==> q.reachesPlugins && |page.results| < q.limit && |Inner(q, snap, after)| >= q.budget)
            && (page.nextAfter.Some? ==> |UpTo(q, snap, after, page.nextAfter.value)| == q.budget)
            && (|page.results| < q.limit ==>
                  forall r | Matches(q, snap, r) && Between(q, after, page.nextAfter, r) :: r in page.results)
  {
    hide PageOf, Order, Below, Inner, Matches, Between, Ahead, UpTo;
    var page := PageOf(q, snap, after);
    ReportIsTheEdge(q, snap, after);
    if q.reachesPlugins {
      forall r | r in page.results ensures |Ahead(q, snap, after, r)| < q.budget { ResultIsAhead(q, snap, after, r); }
    }
    PageIsAnInterval(q, snap, after);
  }

  lemma ReportIsTheEdge(q: Query, snap: Snapshot, after: Option<Cursor>)
    requires q.Valid()
    ensures var page := PageOf(q, snap, after);
            && |page.results| <= q.limit
            && (page.nextAfter.Some? <==> q.reachesPlugins && |page.results| < q.limit && |Inner(q, snap, after)| >= q.budget)
            && (page.nextAfter.Some? ==> |UpTo(q, snap, after, page.nextAfter.value)| == q.budget)
  {
    hide Kept, Order, Below, Inner, UpTo, Sorted;
    if |Candidates(q, snap, after)| >= q.budget { PrefixIsUpTo(q, snap, after, q.budget); }
  }

  lemma ResultIsAhead(q: Query, snap: Snapshot, after: Option<Cursor>, r: Row)
    requires q.Valid() && q.reachesPlugins && r in PageOf(q, snap, after).results
    ensures |Ahead(q, snap, after, r)| < q.budget
  {
    var c := Candidates(q, snap, after);
    var i := ResultIsInWindow(q, snap, after, r);
    assert r in c;
    hide Order, Below, Inner, Sorted, Candidates, PageOf, UpTo;
    PrefixIsUpTo(q, snap, after, i + 1);
    ItselfIsUpTo(q, snap, after, r);
  }

  lemma ResultIsInWindow(q: Query, snap: Snapshot, after: Option<Cursor>, r: Row) returns (i: nat)
    requires q.Valid() && q.reachesPlugins && r in PageOf(q, snap, after).results
    ensures i < |Candidates(q, snap, after)| && i < q.budget && Candidates(q, snap, after)[i] == r
  {
    hide Candidates, Keep;
    var window := Window(q, snap, after);
    assert r in Kept(q, snap, after) && r in window;
    i :| 0 <= i < |window| && window[i] == r;
  }

  lemma ItselfIsUpTo(q: Query, snap: Snapshot, after: Option<Cursor>, r: Row)
    requires r in Inner(q, snap, after)
    ensures r in UpTo(q, snap, after, At(r))
  {
  }

  /** A walk issues one request per snapshot until a page leads nowhere; `done` says it got there
      rather than running out of snapshots. */
  datatype Walked = Walked(rows: seq<Row>, done: bool)

  ghost function Walk(q: Query, snaps: seq<Snapshot>, after: Option<Cursor>): Walked
    requires q.Valid()
  {
    if snaps == [] then Walked([], false) else
      var page := PageOf(q, snaps[0], after);
      match Next(q, page)
      case None => Walked(page.results, true)
      case Some(c) =>
        var rest := Walk(q, snaps[1..], Some(c));
        Walked(page.results + rest.rows, rest.done)
  }

  /** Same (dateTime, id), whatever else about the row has changed meanwhile. */
  predicate Contains(rows: seq<Row>, at: Cursor) { exists r :: r in rows && At(r) == at }

  predicate PresentAndMatching(q: Query, snap: Snapshot, at: Cursor) {
    at.id in snap.calls && At(snap.calls[at.id]) == at && Matches(q, snap, snap.calls[at.id])
  }

  /** Two stretches of rows on either side of a cursor, put together, still rise. */
  lemma JoinAscending(desc: bool, c: Cursor, low: seq<Row>, high: seq<Row>)
    requires Ascending(Order(desc), low) && Ascending(Order(desc), high)
    requires forall r | r in low :: !Past(desc, Some(c), r)
    requires forall r | r in high :: Past(desc, Some(c), r)
    ensures Ascending(Order(desc), low + high)
  {
    var rows := low + high;
    forall i, j | 0 <= i < j < |rows| ensures Below(Order(desc)(rows[i]), Order(desc)(rows[j])) {
      if i < |low| <= j {
        assert low[i] in low && high[j - |low|] in high;
      }
    }
  }

  /** Earliest first or latest first, equal times by id the same way. */
  predicate InTimeOrder(desc: bool, rows: seq<Row>) {
    forall i, j | 0 <= i < j < |rows| ::
      if desc then rows[i].dateTime > rows[j].dateTime || (rows[i].dateTime == rows[j].dateTime && rows[i].id > rows[j].id)
      else rows[i].dateTime < rows[j].dateTime || (rows[i].dateTime == rows[j].dateTime && rows[i].id < rows[j].id)
  }

  lemma AscendingIsInTimeOrder(desc: bool, rows: seq<Row>)
    requires Ascending(Order(desc), rows)
    ensures InTimeOrder(desc, rows)
  {
    forall i, j | 0 <= i < j < |rows| ensures Below(Order(desc)(rows[i]), Order(desc)(rows[j])) {}
  }

  /** Every row of a walk really matched, in the snapshot of the page that returned it. */
  ghost predicate AllMatched(q: Query, snaps: seq<Snapshot>, rows: seq<Row>) {
    forall r | r in rows :: exists snap :: snap in snaps && Matches(q, snap, r)
  }

  /** With any inserts, deletes and updates between the requests of a walk, the rows come out in
      strictly rising (dateTime, id) order, so no position comes out twice. */
  lemma {:induction false} WalkNeverRepeats(q: Query, snaps: seq<Snapshot>, after: Option<Cursor>)
    requires q.Valid()
    ensures var walked := Walk(q, snaps, after);
            && Ascending(Order(q.desc), walked.rows)
            && (forall r | r in walked.rows :: Past(q.desc, after, r))
            && AllMatched(q, snaps, walked.rows)
  {
    hide PageOf, Order, Below;
    if snaps != [] {
      PageIsAnInterval(q, snaps[0], after);
      var page := PageOf(q, snaps[0], after);
      var next := Next(q, page);
      if next.Some? {
        WalkNeverRepeats(q, snaps[1..], next);
        var rest := Walk(q, snaps[1..], next);
        JoinAscending(q.desc, next.value, page.results, rest.rows);
        forall r | r in rest.rows ensures Past(q.desc, after, r) {
          hide Ascending;
        }
        forall r | r in page.results + rest.rows ensures exists snap :: snap in snaps && Matches(q, snap, r) {
          hide Ascending;
          if r in rest.rows {
            var snap :| snap in snaps[1..] && Matches(q, snap, r);
            assert snap in snaps;
          } else {
            assert snaps[0] in snaps;
          }
        }
      } else {
        forall r | r in page.results ensures exists snap :: snap in snaps && Matches(q, snap, r) {
          assert snaps[0] in snaps;
        }
      }
    }
  }

  /** So a walk reads from the earliest call to the latest, or the other way when asked to. */
  lemma WalkIsInTimeOrder(q: Query, snaps: seq<Snapshot>, after: Option<Cursor>)
    requires q.Valid()
    ensures InTimeOrder(q.desc, Walk(q, snaps, after).rows)
  {
    hide Walk;
    WalkNeverRepeats(q, snaps, after);
    AscendingIsInTimeOrder(q.desc, Walk(q, snaps, after).rows);
  }

  /** No call's time is rewritten during the walk. */
  ghost predicate TimesStand(snaps: seq<Snapshot>) {
    forall a, b, id | a in snaps && b in snaps && id in a.calls && id in b.calls ::
      a.calls[id].dateTime == b.calls[id].dateTime
  }

  /** Then no call comes out twice, whatever else about it changes and whatever comes and goes. */
  lemma WalkNeverRepeatsACall(q: Query, snaps: seq<Snapshot>, after: Option<Cursor>)
    requires q.Valid() && TimesStand(snaps)
    ensures Distinct(Ids(Walk(q, snaps, after).rows))
  {
    hide Walk;
    WalkNeverRepeats(q, snaps, after);
    var rows := Walk(q, snaps, after).rows;
    forall i, j | 0 <= i < j < |rows| ensures rows[i].id != rows[j].id {
      assert rows[i] in rows && rows[j] in rows && Below(Order(q.desc)(rows[i]), Order(q.desc)(rows[j]));
      var a :| a in snaps && Matches(q, a, rows[i]);
      var b :| b in snaps && Matches(q, b, rows[j]);
      assert rows[i].id in a.calls && rows[j].id in b.calls;
    }
  }

  function Ids(rows: seq<Row>): seq<nat> { seq(|rows|, i requires 0 <= i < |rows| => rows[i].id) }

  /** And a walk that ends has returned every row that was there and matching throughout it. */
  lemma {:induction false} WalkSkipsNothing(q: Query, snaps: seq<Snapshot>, after: Option<Cursor>, r: Row)
    requires q.Valid() && Walk(q, snaps, after).done
    requires Past(q.desc, after, r) && forall snap | snap in snaps :: PresentAndMatching(q, snap, At(r))
    ensures Contains(Walk(q, snaps, after).rows, At(r))
  {
    hide PageOf, Order, Below, Ascending;
    PageIsAnInterval(q, snaps[0], after);
    var page := PageOf(q, snaps[0], after);
    var next := Next(q, page);
    var walked := Walk(q, snaps, after);
    assert PresentAndMatching(q, snaps[0], At(r));
    if next.None? || !Past(q.desc, next, r) {
      var now := snaps[0].calls[r.id];
      assert Between(q, after, next, now);
      assert now in walked.rows;
    } else {
      WalkSkipsNothing(q, snaps[1..], next, r);
      var found :| found in Walk(q, snaps[1..], next).rows && At(found) == At(r);
      assert found in walked.rows;
    }
  }

  ghost function Steady(snap: Snapshot, n: nat): (s: seq<Snapshot>)
    ensures |s| == n && forall x | x in s :: x == snap
  {
    seq(n, _ => snap)
  }

  lemma OneRowPerPosition(desc: bool, t: Table, rows: set<Row>)
    requires rows <= Rows(t)
    ensures Injective(Order(desc), rows)
  {
  }

  /** The flat query's answer past a cursor. */
  ghost function Flat(q: Query, snap: Snapshot, after: Option<Cursor>): (rows: seq<Row>)
    ensures Ascending(Order(q.desc), rows)
    ensures forall r :: r in rows <==> Matches(q, snap, r) && Past(q.desc, after, r)
  {
    var rows := set r | r in Rows(snap.calls) && Matches(q, snap, r) && Past(q.desc, after, r);
    OneRowPerPosition(q.desc, snap.calls, rows);
    Sorted(Order(q.desc), rows)
  }

  /** On a table that stands still, the walk ends within one request more than there are
      candidates, and its pages put together are the flat query: nothing skipped, nothing
      repeated, whatever the limit, the budget and the rarity of matches. */
  lemma {:induction false} WalkEnumeratesFlatQuery(q: Query, snap: Snapshot, after: Option<Cursor>, n: nat)
    requires q.Valid() && n > |Inner(q, snap, after)|
    ensures Walk(q, Steady(snap, n), after) == Walked(Flat(q, snap, after), true)
    decreases n
  {
    hide PageOf, Order, Below, Ascending;
    PageIsAnInterval(q, snap, after);
    WalkNeverRepeats(q, Steady(snap, n), after);
    var page := PageOf(q, snap, after);
    var next := Next(q, page);
    var walked := Walk(q, Steady(snap, n), after);
    if next.Some? {
      var edge :| edge in Inner(q, snap, after) && At(edge) == next.value;
      Smaller(Inner(q, snap, next), Inner(q, snap, after), edge);
      assert Steady(snap, n)[1..] == Steady(snap, n - 1);
      hide IsInterval, Inner, Flat, Next;
      WalkEnumeratesFlatQuery(q, snap, next, n - 1);
    }
    FlatSplits(q, snap, after, page.results, next, walked.rows);
  }

  /** One page and the flat query past where it leads make up the flat query. */
  lemma FlatSplits(q: Query, snap: Snapshot, after: Option<Cursor>, rows: seq<Row>, next: Option<Cursor>, all: seq<Row>)
    requires IsInterval(q, snap, after, rows, next)
    requires all == if next.None? then rows else rows + Flat(q, snap, next)
    requires Ascending(Order(q.desc), all) && forall r | r in all :: Past(q.desc, after, r)
    ensures all == Flat(q, snap, after)
  {
    hide Order, Below, Ascending, Past, Matches;
    var flat := Flat(q, snap, after);
    forall r ensures r in all <==> r in flat {}
    AscendingUnique(Order(q.desc), all, flat);
  }

  lemma Smaller(part: set<Row>, whole: set<Row>, extra: Row)
    requires extra in whole && part <= whole - {extra}
    ensures |part| < |whole|
  {
    var rest := (whole - {extra}) - part;
    assert whole - {extra} == part + rest;
  }
}
