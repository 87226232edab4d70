/**
 * Keyset pagination. A page is cut from the matching rows, sorted by key, behind a cursor that is the
 * key of the last row handed out. Sorting and cursor comparison take separate orders, because the
 * in-memory store sorts with one comparison and filters with another; the SQL query uses one for both.
 */
module KeysetPaging {
  import opened Text
  import opened Wrappers

  /** What one listing selects, and the two orders it works with. */
  datatype Listing<!R, !K> = Listing(matches: R -> bool, key: R -> K, sortLt: (K, K) -> bool, cursorLt: (K, K) -> bool)

  datatype Page<R, K> = Page(items: seq<R>, next: Option<K>)

  ghost predicate Strict<K(!new)>(lt: (K, K) -> bool) {
    (forall a :: !lt(a, a)) && (forall a, b, c :: lt(a, b) && lt(b, c) ==> lt(a, c))
  }

  ghost predicate Total<K(!new)>(lt: (K, K) -> bool) {
    Strict(lt) && forall a, b :: lt(a, b) || lt(b, a) || a == b
  }

  function Select<R>(rows: seq<R>, keep: R -> bool): seq<R> {
    if rows == [] then [] else (if keep(rows[0]) then [rows[0]] else []) + Select(rows[1..], keep)
  }

  function Insert<R, K>(row: R, sorted: seq<R>, key: R -> K, lt: (K, K) -> bool): seq<R> {
    if sorted == [] || !lt(key(sorted[0]), key(row)) then [row] + sorted
    else [sorted[0]] + Insert(row, sorted[1..], key, lt)
  }

  /** A stable sort, as the library's is. */
  function Sort<R, K>(rows: seq<R>, key: R -> K, lt: (K, K) -> bool): seq<R> {
    if rows == [] then [] else Insert(rows[0], Sort(rows[1..], key, lt), key, lt)
  }

  function Take<R>(s: seq<R>, n: nat): seq<R> { if |s| <= n then s else s[..n] }

  predicate Behind<K>(lt: (K, K) -> bool, cursor: Option<K>, k: K) { cursor.None? || lt(cursor.value, k) }

  function After<R, K>(l: Listing<R, K>, cursor: Option<K>): R -> bool { r => Behind(l.cursorLt, cursor, l.key(r)) }

  function Cut<R, K>(l: Listing<R, K>, found: seq<R>, limit: nat): Page<R, K> {
    var items := Take(found, limit);
    Page(items, if |found| > limit && items != [] then Some(l.key(items[|items| - 1])) else None)
  }

  /** The in-memory store: filter, sort, drop what is not behind the cursor, cut. */
  function ListPage<R, K>(l: Listing<R, K>, rows: seq<R>, cursor: Option<K>, limit: nat): Page<R, K> {
    Cut(l, Select(Sort(Select(rows, l.matches), l.key, l.sortLt), After(l, cursor)), limit)
  }

  function Both<R>(p: R -> bool, q: R -> bool): R -> bool { r => p(r) && q(r) }

  /** The SQL store: one WHERE clause, ORDER BY, LIMIT one more than the page, and the repository trims. */
  function QueryPage<R, K>(l: Listing<R, K>, rows: seq<R>, cursor: Option<K>, limit: nat): Page<R, K> {
    Cut(l, Take(Sort(Select(rows, Both(l.matches, After(l, cursor))), l.key, l.sortLt), limit + 1), limit)
  }

  /** Follows next cursors: page i is served from tables[i], the state of the table at that moment. */
  function Traverse<R, K>(l: Listing<R, K>, tables: seq<seq<R>>, cursor: Option<K>, limit: nat): seq<R>
    decreases |tables|
  {
    if tables == [] then []
    else
      var page := ListPage(l, tables[0], cursor, limit);
      page.items + if page.next.None? then [] else Traverse(l, tables[1..], page.next, limit)
  }

  /** The traversal reaches a page without a next cursor. */
  predicate Finishes<R, K>(l: Listing<R, K>, tables: seq<seq<R>>, cursor: Option<K>, limit: nat)
    decreases |tables|
  {
    tables != [] &&
    var page := ListPage(l, tables[0], cursor, limit);
    page.next.None? || Finishes(l, tables[1..], page.next, limit)
  }

  // ---- selecting and sorting ----

  ghost predicate Ascending<R, K>(s: seq<R>, key: R -> K, lt: (K, K) -> bool)
    decreases |s|
  {
    s == [] || ((forall r | r in s[1..] :: lt(key(s[0]), key(r))) && Ascending(s[1..], key, lt))
  }

  /** Any two rows are ordered one way or the other. The order need not compare keys of no row. */
  ghost predicate Sortable<R, K>(rows: seq<R>, key: R -> K, lt: (K, K) -> bool)
    decreases |rows|
  {
    rows == [] ||
    (&& (forall r | r in rows[1..] :: lt(key(rows[0]), key(r)) || lt(key(r), key(rows[0])))
     && Sortable(rows[1..], key, lt))
  }

  /** No two rows share a key. */
  ghost predicate Distinct<R, K>(rows: seq<R>, key: R -> K)
    decreases |rows|
  {
    rows == [] || ((forall r | r in rows[1..] :: key(rows[0]) != key(r)) && Distinct(rows[1..], key))
  }

  lemma {:induction false} AscendingPairs<R, K(!new)>(s: seq<R>, key: R -> K, lt: (K, K) -> bool)
    ensures Ascending(s, key, lt) <==> forall i, j :: 0 <= i < j < |s| ==> lt(key(s[i]), key(s[j]))
  {
    if s != [] {
      AscendingPairs(s[1..], key, lt);
      assert forall i | 1 <= i < |s| :: s[i] == s[1..][i - 1] && s[i] in s[1..];
    }
  }

  lemma {:induction false} SelectKeeps<R>(rows: seq<R>, keep: R -> bool)
    ensures forall r | r in Select(rows, keep) :: r in rows && keep(r)
    ensures forall r | r in rows && keep(r) :: r in Select(rows, keep)
    ensures |Select(rows, keep)| <= |rows|
  {
    if rows != [] {
      SelectKeeps(rows[1..], keep);
      assert rows == [rows[0]] + rows[1..];
    }
  }

  lemma {:induction false} SelectAscending<R, K(!new)>(s: seq<R>, keep: R -> bool, key: R -> K, lt: (K, K) -> bool)
    requires Ascending(s, key, lt)
    ensures Ascending(Select(s, keep), key, lt)
  {
    if s != [] {
      SelectAscending(s[1..], keep, key, lt);
      SelectKeeps(s[1..], keep);
      if keep(s[0]) {
        assert Select(s, keep)[1..] == Select(s[1..], keep);
        forall r | r in Select(s[1..], keep) ensures lt(key(s[0]), key(r)) { assert r in s[1..]; }
      } else {
        assert Select(s, keep) == Select(s[1..], keep);
      }
    }
  }

  lemma {:induction false} SelectSortable<R, K>(rows: seq<R>, keep: R -> bool, key: R -> K, lt: (K, K) -> bool)
    requires Sortable(rows, key, lt)
    ensures Sortable(Select(rows, keep), key, lt)
  {
    if rows != [] {
      SelectSortable(rows[1..], keep, key, lt);
      SelectKeeps(rows[1..], keep);
      if keep(rows[0]) {
        assert Select(rows, keep)[1..] == Select(rows[1..], keep);
        forall r | r in Select(rows[1..], keep) ensures lt(key(rows[0]), key(r)) || lt(key(r), key(rows[0])) {
          assert r in rows[1..];
        }
      } else {
        assert Select(rows, keep) == Select(rows[1..], keep);
      }
    }
  }

  /** A total order sorts any rows with distinct keys. */
  lemma {:induction false} TotalSorts<R, K(!new)>(rows: seq<R>, key: R -> K, lt: (K, K) -> bool)
    requires Total(lt) && Distinct(rows, key)
    ensures Sortable(rows, key, lt)
  {
    if rows != [] { TotalSorts(rows[1..], key, lt); }
  }

  lemma {:induction false} InsertAdds<R, K>(row: R, s: seq<R>, key: R -> K, lt: (K, K) -> bool)
    ensures multiset(Insert(row, s, key, lt)) == multiset{row} + multiset(s)
    ensures forall r | r in Insert(row, s, key, lt) :: r == row || r in s
    ensures forall r | r in s :: r in Insert(row, s, key, lt)
    ensures row in Insert(row, s, key, lt)
  {
    if s != [] {
      assert s == [s[0]] + s[1..];
      InsertAdds(row, s[1..], key, lt);
    }
  }

  lemma {:induction false} InsertSorts<R, K(!new)>(row: R, s: seq<R>, key: R -> K, lt: (K, K) -> bool)
    requires Strict(lt) && Ascending(s, key, lt)
    requires forall r | r in s :: lt(key(row), key(r)) || lt(key(r), key(row))
    ensures Ascending(Insert(row, s, key, lt), key, lt)
  {
    if s != [] {
      assert s == [s[0]] + s[1..];
      var rest := Insert(row, s[1..], key, lt);
      if lt(key(s[0]), key(row)) {
        InsertSorts(row, s[1..], key, lt);
        InsertAdds(row, s[1..], key, lt);
        assert Insert(row, s, key, lt)[1..] == rest;
      } else {
        assert lt(key(row), key(s[0]));
        assert ([row] + s)[1..] == s;
      }
    } else {
      assert [row][1..] == s;
    }
  }

  /** The sorted rows are a permutation of the rows, strictly ascending by key. */
  lemma {:induction false} SortSorts<R, K(!new)>(rows: seq<R>, key: R -> K, lt: (K, K) -> bool)
    requires Strict(lt) && Sortable(rows, key, lt)
    ensures Ascending(Sort(rows, key, lt), key, lt)
    ensures multiset(Sort(rows, key, lt)) == multiset(rows)
    ensures forall r | r in Sort(rows, key, lt) :: r in rows
    ensures forall r | r in rows :: r in Sort(rows, key, lt)
  {
    if rows != [] {
      assert rows == [rows[0]] + rows[1..];
      var rest := Sort(rows[1..], key, lt);
      SortSorts(rows[1..], key, lt);
      InsertAdds(rows[0], rest, key, lt);
      forall r | r in rest ensures lt(key(rows[0]), key(r)) || lt(key(r), key(rows[0])) { assert r in rows[1..]; }
      InsertSorts(rows[0], rest, key, lt);
    }
  }

  /** The sorted, matching rows. */
  function Found<R, K>(l: Listing<R, K>, rows: seq<R>): seq<R> { Sort(Select(rows, l.matches), l.key, l.sortLt) }

  lemma FoundIsSorted<R, K(!new)>(l: Listing<R, K>, rows: seq<R>)
    requires Strict(l.sortLt) && Sortable(rows, l.key, l.sortLt)
    ensures Ascending(Found(l, rows), l.key, l.sortLt)
    ensures forall r | r in Found(l, rows) :: r in rows && l.matches(r)
    ensures forall r | r in rows && l.matches(r) :: r in Found(l, rows)
    ensures multiset(Found(l, rows)) == multiset(Select(rows, l.matches))
  {
    SelectSortable(rows, l.matches, l.key, l.sortLt);
    SelectKeeps(rows, l.matches);
    SortSorts(Select(rows, l.matches), l.key, l.sortLt);
  }

  lemma {:induction false} AscendingConcat<R, K(!new)>(a: seq<R>, b: seq<R>, key: R -> K, lt: (K, K) -> bool)
    requires Ascending(a, key, lt) && Ascending(b, key, lt)
    requires forall x, y | x in a && y in b :: lt(key(x), key(y))
    ensures Ascending(a + b, key, lt)
  {
    if a == [] {
      assert a + b == b;
    } else {
      assert a == [a[0]] + a[1..] && (a + b)[1..] == a[1..] + b;
      AscendingConcat(a[1..], b, key, lt);
    }
  }

  lemma {:induction false} AscendingSplit<R, K(!new)>(s: seq<R>, n: nat, key: R -> K, lt: (K, K) -> bool)
    requires Ascending(s, key, lt) && n <= |s|
    ensures Ascending(s[..n], key, lt) && Ascending(s[n..], key, lt)
    ensures forall x, y | x in s[..n] && y in s[n..] :: lt(key(x), key(y))
  {
    if n > 0 {
      AscendingSplit(s[1..], n - 1, key, lt);
      assert s[..n][1..] == s[1..][..n - 1] && s[n..] == s[1..][n - 1..];
      assert s[..n] == [s[0]] + s[1..][..n - 1];
      assert s[1..] == s[1..][..n - 1] + s[1..][n - 1..];
    }
  }

  /** Cutting ascending rows keeps the ones up to the next cursor and leaves the ones behind it. */
  lemma CutFacts<R, K(!new)>(l: Listing<R, K>, found: seq<R>, limit: nat)
    requires Strict(l.sortLt) && Ascending(found, l.key, l.sortLt) && limit >= 1
    ensures var page := Cut(l, found, limit);
      && Ascending(page.items, l.key, l.sortLt)
      && (forall r | r in page.items :: r in found)
      && (page.next.None? ==> page.items == found)
      && (page.next.Some? ==>
            && (exists r :: r in found && l.key(r) == page.next.value)
            && (forall r | r in page.items :: l.key(r) == page.next.value || l.sortLt(l.key(r), page.next.value))
            && (forall r | r in found :: r in page.items || l.sortLt(page.next.value, l.key(r))))
  {
    hide Ascending;
    if |found| > limit {
      AscendingSplit(found, limit, l.key, l.sortLt);
      AscendingSplit(found, limit - 1, l.key, l.sortLt);
      var last := found[limit - 1];
      assert found[..limit] == found[..limit - 1] + [last];
      assert last in found[limit - 1..] && last in found[..limit] && last in found;
      assert found == found[..limit] + found[limit..];
      forall r | r in found[..limit] ensures r == last || l.sortLt(l.key(r), l.key(last)) {
        if r in found[..limit - 1] { assert l.sortLt(l.key(r), l.key(last)); }
      }
    }
  }

  /** The rows a page is cut from are the matching rows behind the cursor, ascending. */
  lemma RestFacts<R, K(!new)>(l: Listing<R, K>, rows: seq<R>, cursor: Option<K>)
    requires Strict(l.sortLt) && Sortable(rows, l.key, l.sortLt)
    ensures var rest := Select(Found(l, rows), After(l, cursor));
      && Ascending(rest, l.key, l.sortLt)
      && (forall r | r in rest :: r in rows && l.matches(r) && Behind(l.cursorLt, cursor, l.key(r)))
      && (forall r | r in rows && l.matches(r) && Behind(l.cursorLt, cursor, l.key(r)) :: r in rest)
  {
    FoundIsSorted(l, rows);
    SelectAscending(Found(l, rows), After(l, cursor), l.key, l.sortLt);
    SelectKeeps(Found(l, rows), After(l, cursor));
    forall r | r in rows && l.matches(r) && Behind(l.cursorLt, cursor, l.key(r))
      ensures r in Select(Found(l, rows), After(l, cursor))
    {
      assert After(l, cursor)(r);
    }
  }

  /**
   * A page is full unless the rows run out: it holds the first rows behind its cursor, as many as asked for if
   * there are that many, and names a next cursor, the key of its last row, exactly when there are more.
   */
  lemma PageIsFull<R, K(!new)>(l: Listing<R, K>, rows: seq<R>, cursor: Option<K>, limit: nat)
    requires limit >= 1
    ensures var behind, page := Select(Found(l, rows), After(l, cursor)), ListPage(l, rows, cursor, limit);
      && page.items <= behind && |page.items| == (if |behind| < limit then |behind| else limit)
      && (page.next.Some? <==> |behind| > limit)
      && (page.next.Some? ==> page.next.value == l.key(behind[limit - 1]))
  {
    hide Select, Sort;
  }

  /** The table shows a matching row with this key. */
  ghost predicate Shows<R, K>(l: Listing<R, K>, rows: seq<R>, k: K) {
    exists r :: r in rows && l.matches(r) && l.key(r) == k
  }

  ghost predicate ShownThroughout<R, K>(l: Listing<R, K>, tables: seq<seq<R>>, k: K) {
    forall t | t in tables :: Shows(l, t, k)
  }

  ghost predicate WasThere<R, K>(l: Listing<R, K>, tables: seq<seq<R>>, r: R) {
    exists t :: t in tables && r in t && l.matches(r)
  }

  /** One order for sorting and for cursors, and a table that it sorts at every page. */
  ghost predicate OneOrder<R, K(!new)>(l: Listing<R, K>, tables: seq<seq<R>>) {
    Strict(l.sortLt) && l.cursorLt == l.sortLt && forall t | t in tables :: Sortable(t, l.key, l.sortLt)
  }

  /** What a traversal hands out is strictly ascending, behind its cursor, and was in some table. */
  lemma {:induction false} HandedOutInOrder<R, K(!new)>(l: Listing<R, K>, tables: seq<seq<R>>, cursor: Option<K>,
                                                        limit: nat)
    requires OneOrder(l, tables) && limit >= 1
    ensures var seen := Traverse(l, tables, cursor, limit);
      && Ascending(seen, l.key, l.sortLt)
      && (forall r | r in seen :: Behind(l.sortLt, cursor, l.key(r)) && WasThere(l, tables, r))
    decreases |tables|
  {
    hide Select, Sort, Cut;
    if tables != [] {
      var page := ListPage(l, tables[0], cursor, limit);
      assert tables == [tables[0]] + tables[1..];
      RestFacts(l, tables[0], cursor);
      CutFacts(l, Select(Found(l, tables[0]), After(l, cursor)), limit);
      forall r | r in page.items ensures WasThere(l, tables, r) { assert r in tables[0]; }
      if page.next.Some? {
        var later := Traverse(l, tables[1..], page.next, limit);
        HandedOutInOrder(l, tables[1..], page.next, limit);
        forall x, y | x in page.items && y in later ensures l.sortLt(l.key(x), l.key(y)) {
          assert Behind(l.sortLt, page.next, l.key(y));
          assert l.key(x) == page.next.value || l.sortLt(l.key(x), page.next.value);
        }
        AscendingConcat(page.items, later, l.key, l.sortLt);
        forall r | r in later ensures WasThere(l, tables, r) && Behind(l.sortLt, cursor, l.key(r)) {
          assert WasThere(l, tables[1..], r);
        }
      } else {
        assert page.items + [] == page.items;
      }
    }
  }

  lemma {:induction false} NothingMissed<R, K(!new)>(l: Listing<R, K>, tables: seq<seq<R>>, cursor: Option<K>,
                                                     limit: nat, k: K)
    requires OneOrder(l, tables) && limit >= 1 && Finishes(l, tables, cursor, limit)
    requires Behind(l.sortLt, cursor, k) && ShownThroughout(l, tables, k)
    ensures exists r :: r in Traverse(l, tables, cursor, limit) && l.key(r) == k
    decreases |tables|
  {
    var page := ListPage(l, tables[0], cursor, limit);
    assert tables == [tables[0]] + tables[1..];
    RestFacts(l, tables[0], cursor);
    CutFacts(l, Select(Found(l, tables[0]), After(l, cursor)), limit);
    assert Shows(l, tables[0], k);
    var row :| row in tables[0] && l.matches(row) && l.key(row) == k;
    if row in page.items {
      assert row in Traverse(l, tables, cursor, limit);
    } else {
      NothingMissed(l, tables[1..], page.next, limit, k);
    }
  }

  /**
   * Rows may come, go and change between pages. The pages are still strictly ascending, so nothing is
   * handed out twice; each row handed out was there; and a key shown throughout is handed out.
   */
  lemma TraversalUnderChange<R, K(!new)>(l: Listing<R, K>, tables: seq<seq<R>>, limit: nat)
    requires OneOrder(l, tables) && limit >= 1
    ensures var seen := Traverse(l, tables, None, limit);
      && (forall i, j | 0 <= i < j < |seen| :: l.sortLt(l.key(seen[i]), l.key(seen[j])))
      && (forall r | r in seen :: WasThere(l, tables, r))
      && (Finishes(l, tables, None, limit) ==>
            forall k | ShownThroughout(l, tables, k) :: exists r :: r in seen && l.key(r) == k)
  {
    var seen := Traverse(l, tables, None, limit);
    HandedOutInOrder(l, tables, None, limit);
    AscendingPairs(seen, l.key, l.sortLt);
    if Finishes(l, tables, None, limit) {
      forall k | ShownThroughout(l, tables, k) ensures exists r :: r in seen && l.key(r) == k {
        NothingMissed(l, tables, None, limit, k);
      }
    }
  }

  // ---- a table that does not change ----

  lemma {:induction false} SelectSuffix<R>(s: seq<R>, n: nat, keep: R -> bool)
    requires n <= |s| && (forall i | 0 <= i < n :: !keep(s[i])) && (forall i | n <= i < |s| :: keep(s[i]))
    ensures Select(s, keep) == s[n..]
    decreases |s|
  {
    if s != [] {
      SelectSuffix(s[1..], if n == 0 then 0 else n - 1, keep);
      if n == 0 { assert s == [s[0]] + s[1..]; } else { assert s[n..] == s[1..][n - 1..]; }
    }
  }

  /** Where a traversal stands after n rows: the cursor is the key of the last of them. */
  function CursorAt<R, K>(l: Listing<R, K>, found: seq<R>, n: nat): Option<K>
    requires n <= |found|
  {
    if n == 0 then None else Some(l.key(found[n - 1]))
  }

  lemma BehindCursor<R, K(!new)>(l: Listing<R, K>, found: seq<R>, n: nat)
    requires Strict(l.cursorLt) && Ascending(found, l.key, l.cursorLt) && n <= |found|
    ensures Select(found, After(l, CursorAt(l, found, n))) == found[n..]
  {
    var keep := After(l, CursorAt(l, found, n));
    AscendingPairs(found, l.key, l.cursorLt);
    if n > 0 {
      var c := l.key(found[n - 1]);
      forall i | 0 <= i < n ensures !keep(found[i]) {
        if i < n - 1 { assert l.cursorLt(l.key(found[i]), c); }
      }
      forall i | n <= i < |found| ensures keep(found[i]) { assert l.cursorLt(c, l.key(found[i])); }
    }
    SelectSuffix(found, n, keep);
  }

  lemma StaticPage<R, K(!new)>(l: Listing<R, K>, t: seq<R>, limit: nat, n: nat)
    requires Strict(l.cursorLt) && Ascending(Found(l, t), l.key, l.cursorLt) && limit >= 1 && n <= |Found(l, t)|
    ensures var found := Found(l, t);
      && (|found| <= n + limit ==> ListPage(l, t, CursorAt(l, found, n), limit) == Page(found[n..], None))
      && (|found| > n + limit ==>
            ListPage(l, t, CursorAt(l, found, n), limit) == Page(found[n..][..limit], CursorAt(l, found, n + limit)))
  {
    BehindCursor(l, Found(l, t), n);
  }

  lemma TraverseStep<R, K>(l: Listing<R, K>, tables: seq<seq<R>>, cursor: Option<K>, limit: nat)
    requires tables != []
    ensures var page := ListPage(l, tables[0], cursor, limit);
      && Traverse(l, tables, cursor, limit)
           == (if page.next.None? then page.items else page.items + Traverse(l, tables[1..], page.next, limit))
      && Finishes(l, tables, cursor, limit) == (page.next.None? || Finishes(l, tables[1..], page.next, limit))
  {
    hide ListPage;
    var page := ListPage(l, tables[0], cursor, limit);
    assert page.items + [] == page.items;
  }

  /** Enough pages of any size hand out exactly the sorted rows when the cursor order ascends along them. */
  lemma {:induction false} StaticFrom<R, K(!new)>(l: Listing<R, K>, t: seq<R>, tables: seq<seq<R>>, limit: nat, n: nat)
    requires Strict(l.cursorLt) && Ascending(Found(l, t), l.key, l.cursorLt)
    requires limit >= 1 && tables != [] && (forall i | 0 <= i < |tables| :: tables[i] == t)
    requires n <= |Found(l, t)| <= n + |tables|
    ensures Traverse(l, tables, CursorAt(l, Found(l, t), n), limit) == Found(l, t)[n..]
    ensures Finishes(l, tables, CursorAt(l, Found(l, t), n), limit)
    decreases |tables|
  {
    hide Found, ListPage, Ascending, Traverse, Finishes;
    var found := Found(l, t);
    StaticPage(l, t, limit, n);
    assert tables[0] == t;
    TraverseStep(l, tables, CursorAt(l, found, n), limit);
    if |found| > n + limit {
      StaticFrom(l, t, tables[1..], limit, n + limit);
      assert found[n..] == found[n..][..limit] + found[n + limit..];
    }
  }

  ghost predicate Agree<R, K>(l: Listing<R, K>, rows: seq<R>) {
    forall a, b | a in rows && b in rows :: l.sortLt(l.key(a), l.key(b)) <==> l.cursorLt(l.key(a), l.key(b))
  }

  lemma CutsFound<R, K(!new)>(l: Listing<R, K>, t: seq<R>, cursor: Option<K>, limit: nat)
    ensures ListPage(l, t, cursor, limit) == Cut(l, Select(Found(l, t), After(l, cursor)), limit)
  {}

  /** A page of one starts with a row that is behind the cursor, and names it as the next cursor. */
  lemma FirstOfPage<R, K(!new)>(l: Listing<R, K>, t: seq<R>, cursor: Option<K>)
    ensures var page := ListPage(l, t, cursor, 1);
      && (page.items == [] ==> page.next.None?)
      && (page.items != [] ==>
            && |page.items| == 1 && Behind(l.cursorLt, cursor, l.key(page.items[0]))
            && (page.next.Some? ==> page.next.value == l.key(page.items[0])))
  {
    hide Found;
    var rest := Select(Found(l, t), After(l, cursor));
    CutsFound(l, t, cursor, 1);
    SelectKeeps(Found(l, t), After(l, cursor));
    if rest != [] {
      assert rest[0] in rest;
      assert After(l, cursor)(rest[0]);
    }
  }

  /** One row a page: handing out every row means each row's key is before the next one's for the cursor. */
  lemma {:induction false} OneByOne<R, K(!new)>(l: Listing<R, K>, t: seq<R>, tables: seq<seq<R>>, n: nat)
    requires n <= |Found(l, t)| && forall i | 0 <= i < |tables| :: tables[i] == t
    requires Traverse(l, tables, CursorAt(l, Found(l, t), n), 1) == Found(l, t)[n..]
    ensures forall j | n <= j < |Found(l, t)| && j > 0 :: l.cursorLt(l.key(Found(l, t)[j - 1]), l.key(Found(l, t)[j]))
    decreases |tables|
  {
    hide Found, ListPage;
    var found := Found(l, t);
    if n < |found| {
      assert tables[0] == t;
      FirstOfPage(l, t, CursorAt(l, found, n));
      var page := ListPage(l, t, CursorAt(l, found, n), 1);
      assert found[n..][0] == found[n] == page.items[0];
      if n + 1 < |found| {
        assert found[n..][1..] == found[n + 1..];
        assert page.next == CursorAt(l, found, n + 1);
        var later := Traverse(l, tables[1..], page.next, 1);
        assert (page.items + later)[1..] == later;
        OneByOne(l, t, tables[1..], n + 1);
      }
    }
  }

  lemma {:induction false} AdjacentAscend<R, K(!new)>(s: seq<R>, key: R -> K, lt: (K, K) -> bool, i: nat, j: nat)
    requires Strict(lt) && i < j < |s| && forall m | 0 < m < |s| :: lt(key(s[m - 1]), key(s[m]))
    ensures lt(key(s[i]), key(s[j]))
    decreases j - i
  {
    assert lt(key(s[j - 1]), key(s[j]));
    if i < j - 1 { AdjacentAscend(s, key, lt, i, j - 1); }
  }

  /** Two total orders that ascend along the same rows agree on them, and the other way round. */
  lemma AgreeIffAscending<R, K(!new)>(l: Listing<R, K>, s: seq<R>)
    requires Strict(l.sortLt) && Strict(l.cursorLt) && Ascending(s, l.key, l.sortLt)
    ensures Agree(l, s) <==> Ascending(s, l.key, l.cursorLt)
  {
    AscendingPairs(s, l.key, l.sortLt);
    AscendingPairs(s, l.key, l.cursorLt);
    if Ascending(s, l.key, l.cursorLt) {
      forall a, b | a in s && b in s ensures l.sortLt(l.key(a), l.key(b)) <==> l.cursorLt(l.key(a), l.key(b)) {
        var i :| 0 <= i < |s| && s[i] == a;
        var j :| 0 <= j < |s| && s[j] == b;
      }
    }
  }

  lemma AgreeMeansComplete<R, K(!new)>(l: Listing<R, K>, t: seq<R>, tables: seq<seq<R>>, limit: nat)
    requires Strict(l.sortLt) && Strict(l.cursorLt) && Sortable(t, l.key, l.sortLt)
    requires limit >= 1 && Agree(l, Found(l, t))
    requires |tables| > |Found(l, t)| && forall i | 0 <= i < |tables| :: tables[i] == t
    ensures Traverse(l, tables, None, limit) == Found(l, t) && Finishes(l, tables, None, limit)
  {
    hide Found, Traverse, Finishes, Agree;
    var found := Found(l, t);
    FoundIsSorted(l, t);
    AgreeIffAscending(l, found);
    StaticFrom(l, t, tables, limit, 0);
    assert found[0..] == found;
  }

  lemma CompleteMeansAgree<R, K(!new)>(l: Listing<R, K>, t: seq<R>, tables: seq<seq<R>>)
    requires Strict(l.sortLt) && Strict(l.cursorLt) && Sortable(t, l.key, l.sortLt)
    requires forall i | 0 <= i < |tables| :: tables[i] == t
    requires Traverse(l, tables, None, 1) == Found(l, t)
    ensures Agree(l, Found(l, t))
  {
    hide Found, Traverse, Agree;
    var found := Found(l, t);
    FoundIsSorted(l, t);
    assert found[0..] == found;
    OneByOne(l, t, tables, 0);
    forall i, j | 0 <= i < j < |found| ensures l.cursorLt(l.key(found[i]), l.key(found[j])) {
      AdjacentAscend(found, l.key, l.cursorLt, i, j);
    }
    AscendingPairs(found, l.key, l.cursorLt);
    AgreeIffAscending(l, found);
  }

  /** The traversal ends, and its pages one after the other are the matching rows in order. */
  ghost predicate Exact<R, K>(l: Listing<R, K>, t: seq<R>, tables: seq<seq<R>>, limit: nat) {
    Traverse(l, tables, None, limit) == Found(l, t) && Finishes(l, tables, None, limit)
  }

  /**
   * On a table that does not change: every page size hands out exactly the sorted rows if and only if
   * the cursor order agrees with the sort order on those rows.
   */
  lemma ExactIffOrdersAgree<R, K(!new)>(l: Listing<R, K>, t: seq<R>, tables: seq<seq<R>>)
    requires Strict(l.sortLt) && Strict(l.cursorLt) && Sortable(t, l.key, l.sortLt)
    requires |tables| > |Found(l, t)| && forall i | 0 <= i < |tables| :: tables[i] == t
    ensures Agree(l, Found(l, t)) <==> forall limit: nat | limit >= 1 :: Exact(l, t, tables, limit)
  {
    hide Found, Traverse, Finishes, Agree;
    if Agree(l, Found(l, t)) {
      forall limit: nat | limit >= 1 ensures Exact(l, t, tables, limit) { AgreeMeansComplete(l, t, tables, limit); }
    } else if Exact(l, t, tables, 1) {
      CompleteMeansAgree(l, t, tables);
    }
  }

  // ---- the SQL query ----

  lemma SelectCons<R>(row: R, s: seq<R>, keep: R -> bool)
    ensures Select([row] + s, keep) == if keep(row) then [row] + Select(s, keep) else Select(s, keep)
  {
    assert ([row] + s)[1..] == s;
  }

  lemma InsertCons<R, K>(row: R, head: R, rest: seq<R>, key: R -> K, lt: (K, K) -> bool)
    ensures Insert(row, [head] + rest, key, lt)
         == if lt(key(head), key(row)) then [head] + Insert(row, rest, key, lt) else [row] + ([head] + rest)
  {
    assert ([head] + rest)[1..] == rest;
  }

  lemma InsertFirst<R, K>(row: R, s: seq<R>, key: R -> K, lt: (K, K) -> bool)
    requires forall r | r in s :: !lt(key(r), key(row))
    ensures Insert(row, s, key, lt) == [row] + s
  {
    assert s != [] ==> s[0] in s;
  }

  lemma {:induction false} SelectInsert<R, K(!new)>(row: R, s: seq<R>, keep: R -> bool, key: R -> K, lt: (K, K) -> bool)
    requires Strict(lt) && Ascending(s, key, lt)
    ensures Select(Insert(row, s, key, lt), keep)
         == if keep(row) then Insert(row, Select(s, keep), key, lt) else Select(s, keep)
  {
    hide Select, Insert;
    if s == [] || !lt(key(s[0]), key(row)) {
      assert s != [] ==> s == [s[0]] + s[1..];
      InsertFirst(row, s, key, lt);
      SelectCons(row, s, keep);
      SelectKeeps(s, keep);
      InsertFirst(row, Select(s, keep), key, lt);
    } else {
      assert s == [s[0]] + s[1..];
      SelectInsert(row, s[1..], keep, key, lt);
      InsertCons(row, s[0], s[1..], key, lt);
      SelectCons(s[0], s[1..], keep);
      SelectCons(s[0], Insert(row, s[1..], key, lt), keep);
      InsertCons(row, s[0], Select(s[1..], keep), key, lt);
    }
  }

  lemma {:induction false} SelectSort<R, K(!new)>(rows: seq<R>, keep: R -> bool, key: R -> K, lt: (K, K) -> bool)
    requires Strict(lt) && Sortable(rows, key, lt)
    ensures Select(Sort(rows, key, lt), keep) == Sort(Select(rows, keep), key, lt)
  {
    hide Insert;
    if rows != [] {
      var rest := Select(rows[1..], keep);
      SelectSort(rows[1..], keep, key, lt);
      SortSorts(rows[1..], key, lt);
      SelectInsert(rows[0], Sort(rows[1..], key, lt), keep, key, lt);
      if keep(rows[0]) {
        assert Select(rows, keep) == [rows[0]] + rest && ([rows[0]] + rest)[1..] == rest;
      } else {
        assert Select(rows, keep) == rest;
      }
    }
  }

  lemma {:induction false} SelectBoth<R>(rows: seq<R>, p: R -> bool, q: R -> bool)
    ensures Select(rows, Both(p, q)) == Select(Select(rows, p), q)
  {
    if rows != [] {
      SelectBoth(rows[1..], p, q);
      SelectCons(rows[0], Select(rows[1..], p), q);
      assert Both(p, q)(rows[0]) == (p(rows[0]) && q(rows[0]));
      assert p(rows[0]) ==> Select(rows, p) == [rows[0]] + Select(rows[1..], p);
      assert !p(rows[0]) ==> Select(rows, p) == Select(rows[1..], p);
    }
  }

  /** The SQL store and the in-memory store answer alike when they work with the same orders. */
  lemma QueryPageIsListPage<R, K(!new)>(l: Listing<R, K>, rows: seq<R>, cursor: Option<K>, limit: nat)
    requires Strict(l.sortLt) && Sortable(rows, l.key, l.sortLt)
    ensures QueryPage(l, rows, cursor, limit) == ListPage(l, rows, cursor, limit)
  {
    hide Sort, Select;
    SelectBoth(rows, l.matches, After(l, cursor));
    SelectSortable(rows, l.matches, l.key, l.sortLt);
    SelectSort(Select(rows, l.matches), After(l, cursor), l.key, l.sortLt);
    var rest := Sort(Select(Select(rows, l.matches), After(l, cursor)), l.key, l.sortLt);
    assert QueryPage(l, rows, cursor, limit) == Cut(l, Take(rest, limit + 1), limit);
    assert ListPage(l, rows, cursor, limit) == Cut(l, rest, limit);
    if |rest| > limit + 1 { assert rest[..limit + 1][..limit] == rest[..limit]; }
  }

  // ---- the listings of the repository ----

  const ASSET_LIST_DEFAULT_LIMIT := 20
  const ASSET_LIST_MIN_LIMIT := 1
  const ASSET_LIST_MAX_LIMIT := 100

  function Apart(a: int, b: int): nat { if a < b then b - a else a - b }

  /** The page size of the SQL listing is always in range, the nearest to what is asked for. */
  function BoundAssetListLimit(limit: Option<int>): (n: nat)
    ensures 1 <= n <= ASSET_LIST_MAX_LIMIT
    ensures limit.Some? && 1 <= limit.value <= ASSET_LIST_MAX_LIMIT ==> n == limit.value
    ensures limit.Some? ==> forall m | 1 <= m <= ASSET_LIST_MAX_LIMIT :: Apart(limit.value, n) <= Apart(limit.value, m)
    ensures limit.None? ==> n == 20
  {
    if limit.None? then ASSET_LIST_DEFAULT_LIMIT
    else if limit.value < ASSET_LIST_MIN_LIMIT then ASSET_LIST_MIN_LIMIT
    else if limit.value > ASSET_LIST_MAX_LIMIT then ASSET_LIST_MAX_LIMIT
    else limit.value
  }

  /** The listing as the in-memory store runs it, rebinding one list of rows. */
  method ListAssets<R, K(!new)>(l: Listing<R, K>, rows: seq<R>, cursor: Option<K>, limit: Option<nat>)
    returns (page: Page<R, K>)
    ensures page == ListPage(l, rows, cursor, if limit.None? then ASSET_LIST_DEFAULT_LIMIT else limit.value)
  {
    hide Sort, Select;
    var items := Select(rows, l.matches);
    items := Sort(items, l.key, l.sortLt);
    if cursor.Some? {
      items := Select(items, After(l, cursor));
    } else {
      SelectSuffix(items, 0, After(l, cursor));
    }
    var size := if limit.None? then ASSET_LIST_DEFAULT_LIMIT else limit.value;
    var pageItems := Take(items, size);
    var next := None;
    if |items| > size && |pageItems| > 0 {
      next := Some(l.key(pageItems[|pageItems| - 1]));
    }
    page := Page(pageItems, next);
  }

  /** Comparison of strings by UTF-16 code unit, as the relational operators of the language do it. */
  predicate CodeUnitLt(a: string, b: string) { UnitsLt(Utf16(a), Utf16(b)) }

  predicate UnitsLt(a: seq<int>, b: seq<int>) {
    b != [] && (a == [] || a[0] < b[0] || (a[0] == b[0] && UnitsLt(a[1..], b[1..])))
  }

  lemma {:induction false} UnitsTransitive(a: seq<int>, b: seq<int>, c: seq<int>)
    requires UnitsLt(a, b) && UnitsLt(b, c)
    ensures UnitsLt(a, c)
  {
    if a != [] && a[0] == b[0] == c[0] { UnitsTransitive(a[1..], b[1..], c[1..]); }
  }

  lemma {:induction false} UnitsCompare(a: seq<int>, b: seq<int>)
    ensures a == b ==> !UnitsLt(a, b)
    ensures UnitsLt(a, b) || UnitsLt(b, a) || a == b
  {
    if a != [] && b != [] {
      UnitsCompare(a[1..], b[1..]);
      assert a == [a[0]] + a[1..] && b == [b[0]] + b[1..];
    }
  }

  /** Comparing by code unit is total: different strings have different code units. */
  lemma CodeUnitTotal()
    ensures Total(CodeUnitLt)
  {
    hide UnitsLt, Utf16;
    forall a, b, c | CodeUnitLt(a, b) && CodeUnitLt(b, c) ensures CodeUnitLt(a, c) {
      UnitsTransitive(Utf16(a), Utf16(b), Utf16(c));
    }
    forall a ensures !CodeUnitLt(a, a) { UnitsCompare(Utf16(a), Utf16(a)); }
    forall a, b ensures CodeUnitLt(a, b) || CodeUnitLt(b, a) || a == b {
      UnitsCompare(Utf16(a), Utf16(b));
      if Utf16(a) == Utf16(b) { Utf16IsInjective(a, b); }
    }
  }

  /** Compare the first parts, and the second parts when the first are equal. */
  function Lexicographic<A(==), B>(firstLt: (A, A) -> bool, secondLt: (B, B) -> bool): ((A, B), (A, B)) -> bool {
    (x: (A, B), y: (A, B)) => firstLt(x.0, y.0) || (x.0 == y.0 && secondLt(x.1, y.1))
  }

  /** Assets order by lowercased name then id, SBOMs by receipt time then id: both are total. */
  lemma LexicographicTotal<A(!new), B(!new)>(firstLt: (A, A) -> bool, secondLt: (B, B) -> bool)
    requires Total(firstLt) && Total(secondLt)
    ensures Total(Lexicographic(firstLt, secondLt))
  {
    var lt := Lexicographic(firstLt, secondLt);
    forall x ensures !lt(x, x) { assert !firstLt(x.0, x.0) && !secondLt(x.1, x.1); }
    forall x, y, z | lt(x, y) && lt(y, z) ensures lt(x, z) {
      assert firstLt(x.0, y.0) && firstLt(y.0, z.0) ==> firstLt(x.0, z.0);
      assert secondLt(x.1, y.1) && secondLt(y.1, z.1) ==> secondLt(x.1, z.1);
    }
    forall x, y ensures lt(x, y) || lt(y, x) || x == y {
      assert x == (x.0, x.1) && y == (y.0, y.1);
    }
  }

  function Reversed<K>(lt: (K, K) -> bool): (K, K) -> bool { (a, b) => lt(b, a) }

  /** SBOM listings run newest first: the reverse of a total order. */
  lemma ReversedTotal<K(!new)>(lt: (K, K) -> bool)
    requires Total(lt)
    ensures Total(Reversed(lt))
  {
    var reversed := Reversed(lt);
    forall a, b, c | reversed(a, b) && reversed(b, c) ensures reversed(a, c) { assert lt(c, b) && lt(b, a); }
    forall a ensures !reversed(a, a) { assert !lt(a, a); }
    forall a, b ensures reversed(a, b) || reversed(b, a) || a == b { assert lt(a, b) || lt(b, a) || a == b; }
  }

  /** An order that may call different values equal, as locale-aware comparison does. */
  ghost predicate Weak<K(!new)>(lt: (K, K) -> bool) {
    Strict(lt) && forall a, b, c :: lt(a, c) ==> lt(a, b) || lt(b, c)
  }

  /** The in-memory store's order: by name, and by identifier among names that compare equal. */
  function NameThenId<A, B>(nameLt: (A, A) -> bool, idLt: (B, B) -> bool): ((A, B), (A, B)) -> bool {
    (x: (A, B), y: (A, B)) => nameLt(x.0, y.0) || (!nameLt(y.0, x.0) && idLt(x.1, y.1))
  }

  function IdOf<A, B>(row: (A, B)): B { row.1 }

  function Itself<R>(row: R): R { row }

  /** It sorts every table whose identifiers it tells apart, whatever names it calls equal. */
  lemma {:induction false} NameThenIdSorts<A(!new), B(!new)>(nameLt: (A, A) -> bool, idLt: (B, B) -> bool,
                                                             rows: seq<(A, B)>)
    requires Weak(nameLt) && Strict(idLt) && Sortable(rows, IdOf<A, B>, idLt)
    ensures Strict(NameThenId(nameLt, idLt)) && Sortable(rows, Itself<(A, B)>, NameThenId(nameLt, idLt))
    decreases |rows|
  {
    var lt := NameThenId(nameLt, idLt);
    forall x ensures !lt(x, x) { assert !nameLt(x.0, x.0) && !idLt(x.1, x.1); }
    forall x, y, z | lt(x, y) && lt(y, z) ensures lt(x, z) {
      assert nameLt(x.0, y.0) ==> nameLt(x.0, z.0) || nameLt(z.0, y.0);
      assert nameLt(y.0, z.0) ==> nameLt(y.0, x.0) || nameLt(x.0, z.0);
      assert nameLt(z.0, x.0) ==> nameLt(z.0, y.0) || nameLt(y.0, x.0);
      assert idLt(x.1, y.1) && idLt(y.1, z.1) ==> idLt(x.1, z.1);
    }
    if rows != [] { NameThenIdSorts(nameLt, idLt, rows[1..]); }
  }

  /**
   * Whenever the sort puts x before y and the cursor does not, paging a table of the two one row at a
   * time hands out x and never reaches y.
   */
  lemma DisagreementHidesRow<R, K(!new)>(l: Listing<R, K>, x: R, y: R, tables: seq<seq<R>>)
    requires l.matches(x) && l.matches(y) && l.sortLt(l.key(x), l.key(y))
    requires !l.cursorLt(l.key(x), l.key(x)) && !l.cursorLt(l.key(x), l.key(y))
    requires |tables| >= 2 && forall i | 0 <= i < |tables| :: tables[i] == [y, x]
    ensures Traverse(l, tables, None, 1) == [x] && Finishes(l, tables, None, 1)
  {
    var t := [y, x];
    assert t[1..] == [x];
    SelectSuffix(t, 0, l.matches);
    assert Sort([x], l.key, l.sortLt) == [x];
    InsertCons(y, x, [], l.key, l.sortLt);
    var found := Found(l, t);
    assert found == [x, y];
    SelectSuffix(found, 0, After(l, None));
    SelectSuffix(found, 2, After(l, Some(l.key(x))));
    CutsFound(l, t, None, 1);
    CutsFound(l, t, Some(l.key(x)), 1);
    assert tables[0] == t && tables[1..][0] == t;
    TraverseStep(l, tables, None, 1);
    TraverseStep(l, tables[1..], Some(l.key(x)), 1);
  }

  /** The in-memory asset listing: rows by lowercased name and identifier, cursors by code unit. */
  function AssetListing(localeLt: (string, string) -> bool, idLt: (string, string) -> bool)
    : Listing<(string, string), (string, string)>
  {
    Listing(r => true, Itself<(string, string)>, NameThenId(localeLt, idLt), Lexicographic(CodeUnitLt, CodeUnitLt))
  }

  /**
   * Its pages of every size are exact if and only if, on the matching rows, the locale's order of names
   * and identifiers is that of their code units.
   */
  lemma AssetPagesExactIff(localeLt: (string, string) -> bool, idLt: (string, string) -> bool,
                           t: seq<(string, string)>, tables: seq<seq<(string, string)>>)
    requires Weak(localeLt) && Strict(idLt) && Sortable(t, IdOf<string, string>, idLt)
    requires |tables| > |Found(AssetListing(localeLt, idLt), t)| && forall i | 0 <= i < |tables| :: tables[i] == t
    ensures var l := AssetListing(localeLt, idLt);
      Agree(l, Found(l, t)) <==> forall limit: nat | limit >= 1 :: Exact(l, t, tables, limit)
  {
    hide Agree, Exact, Found;
    var l := AssetListing(localeLt, idLt);
    NameThenIdSorts(localeLt, idLt, t);
    CodeUnitTotal();
    LexicographicTotal(CodeUnitLt, CodeUnitLt);
    ExactIffOrdersAgree(l, t, tables);
  }

  const E_ACUTE := "\U{E9}"
  const A_ACUTE := "\U{E1}"
  const A_AND_ACUTE := "a\U{301}"

  /** A locale puts e-acute before z; by code unit it comes after, and z is never reached. */
  lemma AccentedNameHidesRow(localeLt: (string, string) -> bool, idLt: (string, string) -> bool, id: string,
                             other: string, tables: seq<seq<(string, string)>>)
    requires localeLt(E_ACUTE, "z")
    requires |tables| >= 2 && forall i | 0 <= i < |tables| :: tables[i] == [("z", other), (E_ACUTE, id)]
    ensures Traverse(AssetListing(localeLt, idLt), tables, None, 1) == [(E_ACUTE, id)]
  {
    assert Utf16(E_ACUTE) == [0xE9] && Utf16("z") == [0x7A];
    CodeUnitTotal();
    DisagreementHidesRow(AssetListing(localeLt, idLt), (E_ACUTE, id), ("z", other), tables);
  }

  /**
   * The two spellings of a-acute, precomposed and with a combining accent, are equal in every locale, so
   * identifiers order them; by code unit the second comes first, and it is never reached when its
   * identifier is the later one.
   */
  lemma EqualNamesHideRow(localeLt: (string, string) -> bool, idLt: (string, string) -> bool, id: string,
                          later: string, tables: seq<seq<(string, string)>>)
    requires !localeLt(A_ACUTE, A_AND_ACUTE) && !localeLt(A_AND_ACUTE, A_ACUTE) && idLt(id, later)
    requires |tables| >= 2 && forall i | 0 <= i < |tables| :: tables[i] == [(A_AND_ACUTE, later), (A_ACUTE, id)]
    ensures Traverse(AssetListing(localeLt, idLt), tables, None, 1) == [(A_ACUTE, id)]
  {
    assert A_AND_ACUTE[1..] == "\U{301}";
    assert Utf16(A_ACUTE) == [0xE1] && Utf16(A_AND_ACUTE)[0] == 0x61;
    CodeUnitTotal();
    DisagreementHidesRow(AssetListing(localeLt, idLt), (A_ACUTE, id), (A_AND_ACUTE, later), tables);
  }
}
