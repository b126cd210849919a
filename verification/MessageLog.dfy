/**
 * Keyset pagination of the message log: descending (created_at, id), the cursor being the
 * last row returned. Following cursors to the end visits every matching row exactly once.
 */
module MessageLog {
  import opened Options
  import opened Collections

  datatype Key = Key(createdAt: int, id: int)

  datatype Log = Log(key: Key, tenant: int, source: int, status: int, campaign: Option<int>, text: string)

  /** The WHERE clause: the tenant, the optional columns, and the ILIKE search as a test on the text columns. */
  datatype Filter = Filter(tenant: int, source: Option<int>, status: Option<int>, campaign: Option<int>, search: string -> bool)

  predicate Matches(f: Filter, r: Log) {
    && r.tenant == f.tenant
    && (f.source.Some? ==> r.source == f.source.value)
    && (f.status.Some? ==> r.status == f.status.value)
    && (f.campaign.Some? ==> r.campaign == f.campaign)
    && f.search(r.text)
  }

  predicate KeyLess(a: Key, b: Key) {
    a.createdAt < b.createdAt || (a.createdAt == b.createdAt && a.id < b.id)
  }

  /** (created_at, id) < cursor, or no cursor at all. */
  predicate Below(k: Key, cursor: Option<Key>) {
    cursor.None? || KeyLess(k, cursor.value)
  }

  predicate UniqueKeys(rows: set<Log>) {
    forall r, r' :: r in rows && r' in rows && r.key == r'.key ==> r == r'
  }

  predicate Descending(rows: seq<Log>) {
    forall i, j :: 0 <= i < j < |rows| ==> KeyLess(rows[j].key, rows[i].key)
  }

  function Candidates(rows: set<Log>, f: Filter, cursor: Option<Key>): set<Log> {
    set r | r in rows && Matches(f, r) && Below(r.key, cursor)
  }

  /** ORDER BY created_at DESC, id DESC LIMIT n. */
  predicate IsPage(rows: set<Log>, f: Filter, cursor: Option<Key>, n: nat, page: seq<Log>) {
    && Descending(page)
    && |page| <= n
    && (forall r :: r in page ==> r in Candidates(rows, f, cursor))
    && (forall r :: r in Candidates(rows, f, cursor) && r !in page ==> |page| == n && forall q :: q in page ==> KeyLess(r.key, q.key))
  }

  method Greatest(rows: set<Log>) returns (top: Log)
    requires rows != {} && UniqueKeys(rows)
    ensures top in rows && forall r :: r in rows && r != top ==> KeyLess(r.key, top.key)
  {
    top :| top in rows;
    var rest := rows - {top};
    while rest != {}
      invariant top in rows && rest <= rows
      invariant forall r :: r in rows && r !in rest && r != top ==> KeyLess(r.key, top.key)
      decreases rest
    {
      var r :| r in rest;
      if KeyLess(top.key, r.key) {
        top := r;
      }
      rest := rest - {r};
    }
  }

  /** WALogRepository.List: one page, and the cursor of its last row. */
  method List(rows: set<Log>, f: Filter, limit: int, cursor: Option<Key>) returns (page: seq<Log>, next: Option<Key>)
    requires UniqueKeys(rows)
    ensures IsPage(rows, f, cursor, if 1 <= limit <= 200 then limit else 50, page)
    ensures next == if page == [] then None else Some(page[|page| - 1].key)
  {
    var n := if limit <= 0 || limit > 200 then 50 else limit;
    var rest := Candidates(rows, f, cursor);
    page := [];
    while rest != {} && |page| < n
      invariant |page| <= n && Descending(page)
      invariant rest <= Candidates(rows, f, cursor)
      invariant forall r :: r in Candidates(rows, f, cursor) <==> r in page || r in rest
      invariant forall r, q :: r in rest && q in page ==> KeyLess(r.key, q.key)
      decreases rest
    {
      var top := Greatest(rest);
      page := page + [top];
      rest := rest - {top};
    }
    if page == [] {
      next := None;
    } else {
      next := Some(page[|page| - 1].key);
    }
  }

  /** What a page is, column by column: the tenant's rows that pass every filter given, strictly before the cursor by creation time and then id, newest first, and none left out that comes before its end. */
  lemma PageMeans(rows: set<Log>, f: Filter, cursor: Option<Key>, n: nat, page: seq<Log>, r: Log)
    requires IsPage(rows, f, cursor, n, page)
    ensures forall i, j :: 0 <= i < j < |page| ==>
      page[j].key.createdAt < page[i].key.createdAt || (page[j].key.createdAt == page[i].key.createdAt && page[j].key.id < page[i].key.id)
    ensures var passes :=
        && r in rows && r.tenant == f.tenant
        && (f.source == None || f.source == Some(r.source))
        && (f.status == None || f.status == Some(r.status))
        && (f.campaign == None || f.campaign == r.campaign)
        && f.search(r.text)
        && (cursor == None || r.key.createdAt < cursor.value.createdAt || (r.key.createdAt == cursor.value.createdAt && r.key.id < cursor.value.id));
      && (r in page ==> passes)
      && (passes && r !in page ==> |page| == n)
      && (passes && r !in page ==> forall i :: 0 <= i < |page| ==>
            r.key.createdAt < page[i].key.createdAt || (r.key.createdAt == page[i].key.createdAt && r.key.id < page[i].key.id))
  {
    assert r in Candidates(rows, f, cursor) <==> r in rows && Matches(f, r) && Below(r.key, cursor);
  }

  // ---------- following cursors ----------

  function LastKey(page: seq<Log>): Option<Key>
    requires page != []
  {
    Some(page[|page| - 1].key)
  }

  function NextCursor(cursor: Option<Key>, page: seq<Log>): Option<Key> {
    if page == [] then cursor else LastKey(page)
  }

  /**
   * Reads that follow cursors, finished or not: page i is read from tables[i], rows may be
   * added between two reads, each next cursor is the last row read, and there is none after
   * an empty page.
   */
  ghost predicate IsReading(tables: seq<set<Log>>, f: Filter, n: nat, cursor: Option<Key>, pages: seq<seq<Log>>)
    decreases |pages|
  {
    && |tables| == |pages|
    && (pages == [] ||
        (&& UniqueKeys(tables[0])
         && IsPage(tables[0], f, cursor, n, pages[0])
         && (|pages| > 1 ==> pages[0] != [] && tables[0] <= tables[1])
         && IsReading(tables[1..], f, n, NextCursor(cursor, pages[0]), pages[1..])))
  }

  /** A reading that has come to its empty page. */
  ghost predicate IsWalk(tables: seq<set<Log>>, f: Filter, n: nat, cursor: Option<Key>, pages: seq<seq<Log>>) {
    IsReading(tables, f, n, cursor, pages) && pages != [] && pages[|pages| - 1] == []
  }

  function Concat(pages: seq<seq<Log>>): seq<Log> {
    if pages == [] then [] else pages[0] + Concat(pages[1..])
  }

  /** Matching rows that arrived between two reads below the cursor of that moment. */
  ghost function LateArrivals(tables: seq<set<Log>>, f: Filter, pages: seq<seq<Log>>): set<Log>
    requires |tables| == |pages|
    decreases |pages|
  {
    if |pages| <= 1 || pages[0] == [] then {}
    else
      (Candidates(tables[1], f, LastKey(pages[0])) - Candidates(tables[0], f, LastKey(pages[0])))
      + LateArrivals(tables[1..], f, pages[1..])
  }

  /** A page takes the candidates above its last row; the next cursor's candidates are the rest. */
  lemma PageSplits(rows: set<Log>, f: Filter, cursor: Option<Key>, n: nat, page: seq<Log>)
    requires UniqueKeys(rows) && IsPage(rows, f, cursor, n, page) && page != []
    ensures forall r :: r in Candidates(rows, f, cursor) <==> r in page || r in Candidates(rows, f, LastKey(page))
    ensures forall r :: r in page ==> r !in Candidates(rows, f, LastKey(page))
  {
    var last := page[|page| - 1];
    assert last in page;
    forall r | r in page ensures r == last || KeyLess(last.key, r.key) {
      var i :| 0 <= i < |page| && page[i] == r;
    }
  }

  /** So far, whatever arrives: descending order, no row twice, and only matching rows there at the start or arrived in time. */
  lemma {:induction false} ReadingReturns(tables: seq<set<Log>>, f: Filter, n: nat, cursor: Option<Key>, pages: seq<seq<Log>>)
    requires IsReading(tables, f, n, cursor, pages) && pages != []
    ensures Descending(Concat(pages))
    ensures forall r :: r in Concat(pages) ==> r in Candidates(tables[0], f, cursor) || r in LateArrivals(tables, f, pages)
    ensures forall r :: r in Concat(pages) ==> Below(r.key, cursor)
    decreases |pages|
  {
    if |pages| == 1 {
      assert Concat(pages) == pages[0];
    } else {
      var head, tail := pages[0], Concat(pages[1..]);
      PageSplits(tables[0], f, cursor, n, head);
      ReadingReturns(tables[1..], f, n, LastKey(head), pages[1..]);
      forall i, j | 0 <= i < j < |head + tail| ensures KeyLess((head + tail)[j].key, (head + tail)[i].key) {
        BelowTheRest(head, tail, i, j);
      }
    }
  }

  /** A finished walk has returned all of them. */
  lemma {:induction false} WalkReturns(tables: seq<set<Log>>, f: Filter, n: nat, cursor: Option<Key>, pages: seq<seq<Log>>)
    requires n > 0 && IsWalk(tables, f, n, cursor, pages)
    ensures Descending(Concat(pages))
    ensures forall r :: r in Concat(pages) <==> r in Candidates(tables[0], f, cursor) || r in LateArrivals(tables, f, pages)
    decreases |pages|
  {
    hide Descending, UniqueKeys, Matches, Below;
    ReadingReturns(tables, f, n, cursor, pages);
    if |pages| == 1 {
      assert Concat(pages) == [];
    } else {
      var head := pages[0];
      PageSplits(tables[0], f, cursor, n, head);
      WalkReturns(tables[1..], f, n, LastKey(head), pages[1..]);
      forall r | r in Candidates(tables[0], f, LastKey(head)) ensures r in Candidates(tables[1], f, LastKey(head)) {
      }
    }
  }

  lemma BelowTheRest(head: seq<Log>, tail: seq<Log>, i: nat, j: nat)
    requires head != [] && Descending(head) && Descending(tail) && i < j < |head + tail|
    requires forall r :: r in tail ==> Below(r.key, LastKey(head))
    ensures KeyLess((head + tail)[j].key, (head + tail)[i].key)
  {
    if i < |head| <= j {
      assert tail[j - |head|] in tail;
    }
  }

  lemma {:induction false} LateIsNew(tables: seq<set<Log>>, f: Filter, n: nat, cursor: Option<Key>, pages: seq<seq<Log>>)
    requires IsReading(tables, f, n, cursor, pages) && pages != []
    ensures forall r :: r in LateArrivals(tables, f, pages) ==> r !in tables[0]
    decreases |pages|
  {
    if |pages| > 1 {
      LateIsNew(tables[1..], f, n, LastKey(pages[0]), pages[1..]);
    }
  }

  /**
   * From the start, the walk returns every matching row of the first table once, and nothing
   * else exactly when no matching row arrived late.
   */
  lemma WalkFromStart(tables: seq<set<Log>>, f: Filter, n: nat, pages: seq<seq<Log>>)
    requires n > 0 && IsWalk(tables, f, n, None, pages)
    ensures Descending(Concat(pages))
    ensures forall r :: r in tables[0] && Matches(f, r) ==> r in Concat(pages)
    ensures (forall r :: r in Concat(pages) ==> r in tables[0] && Matches(f, r)) <==> LateArrivals(tables, f, pages) == {}
  {
    WalkReturns(tables, f, n, None, pages);
    LateIsNew(tables, f, n, None, pages);
    if r :| r in LateArrivals(tables, f, pages) {
      assert r in Concat(pages);
    }
  }

  /** Between two reads only rows not below the cursor are added. */
  ghost predicate OnlyNewer(tables: seq<set<Log>>, pages: seq<seq<Log>>)
    requires |tables| == |pages|
    decreases |pages|
  {
    |pages| <= 1 || pages[0] == [] ||
    ((forall r :: r in tables[1] && r !in tables[0] ==> !Below(r.key, LastKey(pages[0]))) && OnlyNewer(tables[1..], pages[1..]))
  }

  lemma {:induction false} NewerRowsAreNotLate(tables: seq<set<Log>>, f: Filter, pages: seq<seq<Log>>)
    requires |tables| == |pages| && OnlyNewer(tables, pages)
    ensures LateArrivals(tables, f, pages) == {}
    decreases |pages|
  {
    if |pages| > 1 && pages[0] != [] {
      NewerRowsAreNotLate(tables[1..], f, pages[1..]);
    }
  }

  /** Pages of n needed for count rows. */
  function PagesFor(count: nat, n: nat): nat
    requires n > 0
  {
    if count == 0 then 0 else if count <= n then 1 else 1 + PagesFor(count - n, n)
  }

  /** A page and what is left are all the candidates, and a page that leaves some is full. */
  lemma PageTakes(rows: set<Log>, f: Filter, cursor: Option<Key>, n: nat, page: seq<Log>)
    requires UniqueKeys(rows) && IsPage(rows, f, cursor, n, page) && page != []
    ensures |Candidates(rows, f, cursor)| == |page| + |Candidates(rows, f, LastKey(page))|
    ensures Candidates(rows, f, LastKey(page)) != {} ==> |page| == n
  {
    hide Candidates;
    var here, rest := Candidates(rows, f, cursor), Candidates(rows, f, LastKey(page));
    PageSplits(rows, f, cursor, n, page);
    DescendingSize(page);
    assert here == Elements(page) + rest && Elements(page) !! rest;
    if rest != {} {
      var r :| r in rest;
      assert r in here && r !in page;
    }
  }

  lemma PageCount(rows: set<Log>, f: Filter, cursor: Option<Key>, n: nat, page: seq<Log>)
    requires n > 0 && UniqueKeys(rows) && IsPage(rows, f, cursor, n, page) && page != []
    ensures PagesFor(|Candidates(rows, f, cursor)|, n) == 1 + PagesFor(|Candidates(rows, f, LastKey(page))|, n)
  {
    PageTakes(rows, f, cursor, n, page);
    hide Candidates, UniqueKeys, Descending;
    assert |page| <= n;
  }

  lemma NoneLate(before: set<Log>, after: set<Log>, f: Filter, c: Option<Key>)
    requires before <= after && Candidates(after, f, c) - Candidates(before, f, c) == {}
    ensures Candidates(after, f, c) == Candidates(before, f, c)
  {
    forall r | r in Candidates(after, f, c) ensures r in Candidates(before, f, c) {
      assert r !in Candidates(after, f, c) - Candidates(before, f, c);
    }
  }

  // ---------- every reading ends ----------

  /** However rows arrive, there are no more reads than matching rows that can be returned, and one that is empty. */
  lemma ReadingEnds(tables: seq<set<Log>>, f: Filter, n: nat, cursor: Option<Key>, pages: seq<seq<Log>>)
    requires IsReading(tables, f, n, cursor, pages) && pages != []
    ensures |pages| <= |Candidates(tables[0], f, cursor) + LateArrivals(tables, f, pages)| + 1
  {
    var rows := Concat(pages);
    ReadingReturns(tables, f, n, cursor, pages);
    ReadsAreFruitful(tables, f, n, cursor, pages);
    DescendingSize(rows);
    SubsetSize(Elements(rows), Candidates(tables[0], f, cursor) + LateArrivals(tables, f, pages));
  }

  lemma {:induction false} ReadsAreFruitful(tables: seq<set<Log>>, f: Filter, n: nat, cursor: Option<Key>, pages: seq<seq<Log>>)
    requires IsReading(tables, f, n, cursor, pages) && pages != []
    ensures |Concat(pages)| >= |pages| - 1
    decreases |pages|
  {
    if |pages| > 1 {
      ReadsAreFruitful(tables[1..], f, n, LastKey(pages[0]), pages[1..]);
    }
  }

  /** With nothing arriving late, a reading takes at most one read per page and one that is empty; a finished walk exactly those. */
  lemma {:induction false} WalkLength(tables: seq<set<Log>>, f: Filter, n: nat, cursor: Option<Key>, pages: seq<seq<Log>>)
    requires n > 0 && IsReading(tables, f, n, cursor, pages) && pages != [] && LateArrivals(tables, f, pages) == {}
    ensures |pages| <= PagesFor(|Candidates(tables[0], f, cursor)|, n) + 1
    ensures IsWalk(tables, f, n, cursor, pages) <==> |pages| == PagesFor(|Candidates(tables[0], f, cursor)|, n) + 1
    decreases |pages|
  {
    hide Candidates, UniqueKeys, IsPage;
    if |pages| == 1 {
      LastRead(tables[0], f, cursor, n, pages[0]);
    } else {
      var c := LastKey(pages[0]);
      assert Candidates(tables[1], f, c) - Candidates(tables[0], f, c) <= LateArrivals(tables, f, pages);
      NoneLate(tables[0], tables[1], f, c);
      WalkLength(tables[1..], f, n, c, pages[1..]);
      PageCount(tables[0], f, cursor, n, pages[0]);
    }
  }

  lemma LastRead(rows: set<Log>, f: Filter, cursor: Option<Key>, n: nat, page: seq<Log>)
    requires n > 0 && IsPage(rows, f, cursor, n, page)
    ensures page == [] <==> PagesFor(|Candidates(rows, f, cursor)|, n) == 0
  {
    if page == [] {
      assert Candidates(rows, f, cursor) == {};
    } else {
      assert page[0] in Candidates(rows, f, cursor);
    }
  }

  lemma DescendingSize(rows: seq<Log>)
    requires Descending(rows)
    ensures |Elements(rows)| == |rows|
  {
    forall i, j | 0 <= i < j < |rows| ensures rows[i] != rows[j] {
      assert KeyLess(rows[j].key, rows[i].key);
    }
    DistinctSize(rows);
  }
}
