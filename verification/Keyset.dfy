/**
  * Keyset pagination on (created_at, id) descending: fetch one row more than the limit, cut, and continue
  * below the last row shown.  Walking the pages is compared with listing the whole table at once.
  */
module Keyset {
  import opened Prelude

  /** created_at as an instant, and the id that breaks ties. */
  datatype Key = Key(at: int, id: nat)

  /** The row comparison of the cursor condition: `a` comes after `b` in a listing. */
  predicate Older(a: Key, b: Key) {
    a.at < b.at || (a.at == b.at && a.id < b.id)
  }

  ghost predicate StrictlyDescending(s: seq<Key>) {
    forall i, j :: 0 <= i < j < |s| ==> Older(s[j], s[i])
  }

  // ---- ORDER BY created_at DESC, id DESC ----

  predicate IsNewest(k: Key, keys: set<Key>) {
    k in keys && forall j | j in keys :: j == k || Older(j, k)
  }

  lemma {:induction false} NewestExists(keys: set<Key>)
    requires keys != {}
    ensures exists k :: IsNewest(k, keys)
  {
    var x :| x in keys;
    var rest := keys - {x};
    assert keys == rest + {x};
    if rest == {} {
      assert IsNewest(x, keys);
    } else {
      NewestExists(rest);
      var k :| IsNewest(k, rest);
      assert IsNewest(if Older(k, x) then x else k, keys);
    }
  }

  function Newest(keys: set<Key>): (k: Key)
    requires keys != {}
    ensures IsNewest(k, keys)
  {
    NewestExists(keys);
    var k :| k in keys && IsNewest(k, keys); k
  }

  ghost predicate IsDescendingListing(s: seq<Key>, keys: set<Key>) {
    StrictlyDescending(s) && |s| == |keys| && forall k :: k in s <==> k in keys
  }

  /** The sort itself. */
  function SortDescending(keys: set<Key>): (s: seq<Key>)
    ensures IsDescendingListing(s, keys)
  {
    if keys == {} then [] else
      var k := Newest(keys);
      [k] + SortDescending(keys - {k})
  }

  lemma {:induction false} SortExists(keys: set<Key>)
    ensures exists s :: IsDescendingListing(s, keys)
  {
    assert IsDescendingListing(SortDescending(keys), keys);
  }

  /** The rows in listing order. */
  ghost function Descending(keys: set<Key>): (s: seq<Key>)
    ensures IsDescendingListing(s, keys)
  {
    SortExists(keys);
    var s :| IsDescendingListing(s, keys); s
  }

  /** A listing in descending order is determined by its members. */
  lemma {:induction false} DescendingIsUnique(a: seq<Key>, b: seq<Key>)
    requires StrictlyDescending(a) && StrictlyDescending(b)
    requires forall k :: k in a <==> k in b
    ensures a == b
  {
    assert a != [] ==> a[0] in b;
    assert b != [] ==> b[0] in a;
    if a != [] && b != [] {
      assert a[0] == b[0];
      forall k ensures k in a[1..] <==> k in b[1..] {
        assert k in a <==> k == a[0] || k in a[1..];
        assert k in b <==> k == b[0] || k in b[1..];
        assert a[0] !in a[1..] && b[0] !in b[1..];
      }
      DescendingIsUnique(a[1..], b[1..]);
      assert a == [a[0]] + a[1..] && b == [b[0]] + b[1..];
    }
  }

  lemma {:induction false} SortIsDescending(keys: set<Key>)
    ensures SortDescending(keys) == Descending(keys)
  {
    DescendingIsUnique(SortDescending(keys), Descending(keys));
  }

  // ---- One page ----

  predicate Below(k: Key, after: Option<Key>) {
    after.None? || Older(k, after.value)
  }

  function Remaining(keys: set<Key>, after: Option<Key>): set<Key> {
    set k | k in keys && Below(k, after)
  }

  /** The rows the query returns: below the cursor, newest first, at most `limit + 1`. */
  ghost function Fetch(keys: set<Key>, after: Option<Key>, limit: Option<nat>): (rows: seq<Key>)
  {
    var all := Descending(Remaining(keys, after));
    if limit.Some? && |all| > limit.value + 1 then all[..limit.value + 1] else all
  }

  /** The query as it runs: filter, sort, cut. */
  method Query(keys: set<Key>, after: Option<Key>, limit: Option<nat>) returns (rows: seq<Key>)
    ensures rows == Fetch(keys, after, limit)
  {
    var below := Remaining(keys, after);
    rows := SortDescending(below);
    SortIsDescending(below);
    if limit.Some? && |rows| > limit.value + 1 {
      rows := rows[..limit.value + 1];
    }
  }

  /** The newest `n` rows. */
  method QueryNewest(keys: set<Key>, n: nat) returns (rows: seq<Key>)
    ensures var all := Descending(keys); rows == if |all| > n then all[..n] else all
    ensures forall i :: 0 <= i < |rows| ==> rows[i] in keys
  {
    rows := SortDescending(keys);
    SortIsDescending(keys);
    assert forall i :: 0 <= i < |rows| ==> rows[i] in rows;
    if |rows| > n {
      rows := rows[..n];
    }
  }

  datatype Page<T> = Page(rows: seq<T>, hasMore: bool)

  /** The row beyond the limit is dropped; it only shows that there are more. */
  function Cut<T>(rows: seq<T>, limit: Option<nat>): Page<T> {
    if limit.Some? && |rows| > limit.value then Page(rows[..limit.value], true) else Page(rows, false)
  }

  ghost function PageAfter(keys: set<Key>, after: Option<Key>, limit: Option<nat>): Page<Key> {
    Cut(Fetch(keys, after, limit), limit)
  }

  /** Over-fetching by one row finds the page and whether anything follows it. */
  lemma {:induction false} PageIsPrefix(keys: set<Key>, after: Option<Key>, limit: nat)
    ensures var all := Descending(Remaining(keys, after));
            PageAfter(keys, after, Some(limit)) ==
            (if |all| > limit then Page(all[..limit], true) else Page(all, false))
  {
    var all := Descending(Remaining(keys, after));
    if |all| > limit + 1 {
      assert all[..limit + 1][..limit] == all[..limit];
    } else {
      assert |all| == limit + 1 ==> all[..limit + 1] == all;
    }
  }

  // ---- Walking the pages while rows are inserted ----

  datatype Walk = Walk(listed: seq<Key>, pages: nat, finished: bool)

  /** Page by page, the i-th page on the i-th state of the table, until a page says there is no more. */
  ghost function WalkFrom(tables: seq<set<Key>>, after: Option<Key>, limit: nat): Walk
    requires limit >= 1
    decreases |tables|
  {
    if tables == [] then Walk([], 0, false)
    else
      var page := PageAfter(tables[0], after, Some(limit));
      if !page.hasMore then Walk(page.rows, 1, true)
      else
        PageIsPrefix(tables[0], after, limit);
        var rest := WalkFrom(tables[1..], Some(page.rows[limit - 1]), limit);
        Walk(page.rows + rest.listed, 1 + rest.pages, rest.finished)
  }

  ghost predicate Growing(tables: seq<set<Key>>) {
    forall i, j :: 0 <= i <= j < |tables| ==> tables[i] <= tables[j]
  }

  lemma {:induction false} RemainingListing(keys: set<Key>, after: Option<Key>)
    ensures forall k :: k in Descending(Remaining(keys, after)) <==> k in keys && Below(k, after)
  {
  }

  ghost predicate Sound(listed: seq<Key>, after: Option<Key>, table: set<Key>) {
    && StrictlyDescending(listed)
    && forall k | k in listed :: Below(k, after) && k in table
  }

  /** What a walk lists is strictly descending, below its cursor, and was in the table at the end. */
  lemma {:induction false} WalkIsSound(tables: seq<set<Key>>, after: Option<Key>, limit: nat)
    requires limit >= 1 && Growing(tables) && tables != []
    ensures Sound(WalkFrom(tables, after, limit).listed, after, tables[|tables| - 1])
    decreases |tables|
  {
    var table := tables[|tables| - 1];
    var all := Descending(Remaining(tables[0], after));
    RemainingListing(tables[0], after);
    PageIsPrefix(tables[0], after, limit);
    assert tables[0] <= table;
    if |all| > limit {
      var page := all[..limit];
      var rest := WalkFrom(tables[1..], Some(page[limit - 1]), limit).listed;
      assert forall k | k in page :: k in all;
      if |tables| > 1 {
        WalkIsSound(tables[1..], Some(page[limit - 1]), limit);
      } else {
        assert rest == [];
      }
      SoundJoin(page, rest, after, table);
    }
  }

  lemma {:induction false} SoundJoin(page: seq<Key>, rest: seq<Key>, after: Option<Key>, table: set<Key>)
    requires page != [] && Sound(page, after, table) && Sound(rest, Some(page[|page| - 1]), table)
    ensures Sound(page + rest, after, table)
  {
    DescendingJoin(page, rest);
    assert page[|page| - 1] in page;
  }

  lemma {:induction false} DescendingJoin(a: seq<Key>, b: seq<Key>)
    requires a != [] && StrictlyDescending(a) && StrictlyDescending(b)
    requires forall k | k in b :: Older(k, a[|a| - 1])
    ensures StrictlyDescending(a + b)
  {
    forall i, j | 0 <= i < j < |a + b| ensures Older((a + b)[j], (a + b)[i]) {
      if i < |a| <= j {
        assert b[j - |a|] in b;
      }
    }
  }

  /** Whatever else is inserted or removed, a finished walk lists a row that is in the table all the while. */
  lemma {:induction false} WalkShowsStanding(tables: seq<set<Key>>, after: Option<Key>, limit: nat, k: Key)
    requires limit >= 1 && WalkFrom(tables, after, limit).finished
    requires Below(k, after) && forall i :: 0 <= i < |tables| ==> k in tables[i]
    ensures k in WalkFrom(tables, after, limit).listed
    decreases |tables|
  {
    var all := Descending(Remaining(tables[0], after));
    RemainingListing(tables[0], after);
    PageIsPrefix(tables[0], after, limit);
    if |all| > limit {
      var last := all[limit - 1];
      var i :| 0 <= i < |all| && all[i] == k;
      if i < limit {
        assert all[..limit][i] == k;
      } else {
        WalkShowsStanding(tables[1..], Some(last), limit, k);
      }
    }
  }

  /** A finished walk of a growing table lists every row that was there when it started. */
  lemma {:induction false} WalkIsComplete(tables: seq<set<Key>>, after: Option<Key>, limit: nat)
    requires limit >= 1 && Growing(tables) && tables != []
    requires WalkFrom(tables, after, limit).finished
    ensures forall k | k in tables[0] && Below(k, after) :: k in WalkFrom(tables, after, limit).listed
  {
    forall k | k in tables[0] && Below(k, after) ensures k in WalkFrom(tables, after, limit).listed {
      assert forall i | 0 <= i < |tables| :: tables[0] <= tables[i];
      WalkShowsStanding(tables, after, limit, k);
    }
  }

  // ---- Walking a table that does not change ----

  ghost predicate Constant(tables: seq<set<Key>>, keys: set<Key>) {
    forall i :: 0 <= i < |tables| ==> tables[i] == keys
  }

  /** The number of pages that show `n` rows. */
  function PageCount(n: nat, limit: nat): (p: nat)
    requires limit >= 1
    ensures p >= 1
    decreases n
  {
    if n <= limit then 1 else 1 + PageCount(n - limit, limit)
  }

  lemma {:induction false} PageCountIsCeiling(n: nat, limit: nat)
    requires limit >= 1
    ensures n == 0 ==> PageCount(n, limit) == 1
    ensures n > 0 ==> (PageCount(n, limit) - 1) * limit < n <= PageCount(n, limit) * limit
    decreases n
  {
    if n > limit {
      PageCountIsCeiling(n - limit, limit);
    }
  }

  lemma {:induction false} DescendingTail(all: seq<Key>, n: nat)
    requires StrictlyDescending(all) && 1 <= n <= |all|
    ensures forall k :: k in all[n..] <==> k in all && Older(k, all[n - 1])
  {
    forall k | k in all && Older(k, all[n - 1]) ensures k in all[n..] {
      var j :| 0 <= j < |all| && all[j] == k;
      assert j >= n;
      assert all[n..][j - n] == k;
    }
  }

  /** What remains below the n-th row is the listing without its first n rows. */
  lemma {:induction false} RemainingBelow(keys: set<Key>, after: Option<Key>, all: seq<Key>, n: nat)
    requires all == Descending(Remaining(keys, after)) && 1 <= n <= |all|
    ensures Descending(Remaining(keys, Some(all[n - 1]))) == all[n..]
  {
    RemainingListing(keys, after);
    RemainingListing(keys, Some(all[n - 1]));
    DescendingTail(all, n);
    assert all[n - 1] in all;
    DescendingIsUnique(Descending(Remaining(keys, Some(all[n - 1]))), all[n..]);
  }

  lemma {:induction false} WalkStep(tables: seq<set<Key>>, after: Option<Key>, limit: nat)
    requires limit >= 1 && tables != []
    ensures var all := Descending(Remaining(tables[0], after));
            WalkFrom(tables, after, limit) ==
            if |all| <= limit then Walk(all, 1, true)
            else var rest := WalkFrom(tables[1..], Some(all[limit - 1]), limit);
              Walk(all[..limit] + rest.listed, 1 + rest.pages, rest.finished)
  {
    PageIsPrefix(tables[0], after, limit);
  }

  /** On a fixed table the pages are the whole listing, cut, in exactly the number of pages needed. */
  lemma {:induction false} WalkOfFixedTable(tables: seq<set<Key>>, keys: set<Key>, after: Option<Key>, limit: nat)
    requires limit >= 1 && Constant(tables, keys)
    requires |tables| >= PageCount(|Descending(Remaining(keys, after))|, limit)
    ensures var all := Descending(Remaining(keys, after));
            WalkFrom(tables, after, limit) == Walk(all, PageCount(|all|, limit), true)
    decreases |tables|
  {
    var all := Descending(Remaining(keys, after));
    WalkStep(tables, after, limit);
    assert tables[0] == keys;
    if |all| > limit {
      RemainingBelow(keys, after, all, limit);
      JoinedPages(all, all[limit..], limit);
      WalkOfFixedTable(tables[1..], keys, Some(all[limit - 1]), limit);
    }
  }

  /** A finished walk does not look at further tables. */
  lemma {:induction false} FinishedWalkStays(tables: seq<set<Key>>, more: seq<set<Key>>, after: Option<Key>, limit: nat)
    requires limit >= 1 && WalkFrom(tables, after, limit).finished
    ensures WalkFrom(tables + more, after, limit) == WalkFrom(tables, after, limit)
    decreases |tables|
  {
    var all := Descending(Remaining(tables[0], after));
    WalkStep(tables, after, limit);
    WalkStep(tables + more, after, limit);
    assert (tables + more)[0] == tables[0] && (tables + more)[1..] == tables[1..] + more;
    if |all| > limit {
      FinishedWalkStays(tables[1..], more, Some(all[limit - 1]), limit);
    }
  }

  /** A walk of a fixed table, long enough or not. */
  lemma {:induction false} FixedWalk(tables: seq<set<Key>>, keys: set<Key>, limit: nat)
    requires limit >= 1 && Constant(tables, keys)
    ensures var n, w := PageCount(|keys|, limit), WalkFrom(tables, None, limit);
            && (w.finished ==> w.listed == Descending(keys) && w.pages == n)
            && (!w.finished ==> |tables| < n)
  {
    var n, w := PageCount(|keys|, limit), WalkFrom(tables, None, limit);
    assert Remaining(keys, None) == keys;
    if w.finished {
      var more := tables + seq(n, i => keys);
      FinishedWalkStays(tables, seq(n, i => keys), None, limit);
      WalkOfFixedTable(more, keys, None, limit);
    } else if |tables| >= n {
      WalkOfFixedTable(tables, keys, None, limit);
    }
  }

  lemma {:induction false} JoinedPages(all: seq<Key>, below: seq<Key>, limit: nat)
    requires 1 <= limit < |all| && below == all[limit..]
    ensures all[..limit] + below == all
    ensures PageCount(|all|, limit) == 1 + PageCount(|below|, limit)
  {
    assert |below| == |all| - limit;
  }
}
