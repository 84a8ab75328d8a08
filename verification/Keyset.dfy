/**
 Keyset paging: `WHERE key > cursor ORDER BY key LIMIT n + 1`.

 The live catalog, the stored containers and the stored columns are all read
 this way.  The extra row only tells whether another page follows; the cursor is
 the key of the last row shown.
 */
module Keyset {
  import opened Wrappers
  import opened Ordering

  datatype Page<T, K> = Page(rows: seq<T>, next: Option<K>)

  function Beyond<T, K>(key: T -> K, lt: (K, K) -> bool, rows: seq<T>, after: K): (r: seq<T>)
    ensures |r| <= |rows|
    ensures forall x :: x in r ==> x in rows && lt(after, key(x))
    ensures forall x :: x in rows && lt(after, key(x)) ==> x in r
  {
    if rows == [] then []
    else if lt(after, key(rows[0])) then [rows[0]] + Beyond(key, lt, rows[1..], after)
    else Beyond(key, lt, rows[1..], after)
  }

  function From<T, K>(key: T -> K, lt: (K, K) -> bool, rows: seq<T>, cursor: Option<K>): seq<T> {
    match cursor
    case None => rows
    case Some(after) => Beyond(key, lt, rows, after)
  }

  /** One request: the page after `cursor`, at most `limit` rows. */
  function ReadPage<T, K>(key: T -> K, lt: (K, K) -> bool, rows: seq<T>, cursor: Option<K>, limit: nat): Page<T, K>
    requires limit >= 1
  {
    var live := From(key, lt, rows, cursor);
    if |live| <= limit then Page(live, None)
    else Page(live[..limit], Some(key(live[limit - 1])))
  }

  /** ORDER BY the key: never descending, ties allowed. */
  ghost predicate Ordered<T, K>(key: T -> K, lt: (K, K) -> bool, rows: seq<T>) {
    forall i, j :: 0 <= i < j < |rows| ==> !lt(key(rows[j]), key(rows[i]))
  }

  /** Strictly ascending keys: the rows of a catalog listed by distinct names. */
  ghost predicate Ascending<T, K>(key: T -> K, lt: (K, K) -> bool, rows: seq<T>) {
    forall i, j :: 0 <= i < j < |rows| ==> lt(key(rows[i]), key(rows[j]))
  }

  lemma {:induction false} BeyondBeyond<T, K(!new)>(key: T -> K, lt: (K, K) -> bool, rows: seq<T>, a: K, b: K)
    requires StrictTotal(lt) && lt(a, b)
    ensures Beyond(key, lt, Beyond(key, lt, rows, a), b) == Beyond(key, lt, rows, b)
  {
    if rows != [] {
      BeyondBeyond(key, lt, rows[1..], a, b);
    }
  }

  lemma {:induction false} BeyondShrinks<T, K(!new)>(key: T -> K, lt: (K, K) -> bool, rows: seq<T>, i: nat)
    requires StrictTotal(lt) && i < |rows|
    ensures |Beyond(key, lt, rows, key(rows[i]))| < |rows|
  {
    if i > 0 {
      BeyondShrinks(key, lt, rows[1..], i - 1);
      assert rows[1..][i - 1] == rows[i];
    }
  }

  /** Following `next` from page to page until there is none. */
  function Walk<T, K(!new)>(key: T -> K, lt: (K, K) -> bool, rows: seq<T>, cursor: Option<K>, limit: nat): seq<T>
    requires StrictTotal(lt) && limit >= 1
    decreases |From(key, lt, rows, cursor)|
  {
    var page := ReadPage(key, lt, rows, cursor, limit);
    if page.next.None? then page.rows
    else
      NextShrinks(key, lt, rows, cursor, limit);
      page.rows + Walk(key, lt, rows, page.next, limit)
  }

  /** Each page leaves strictly less to read, so a walk of fixed rows ends. */
  lemma NextShrinks<T, K(!new)>(key: T -> K, lt: (K, K) -> bool, rows: seq<T>, cursor: Option<K>, limit: nat)
    requires StrictTotal(lt) && limit >= 1
    requires ReadPage(key, lt, rows, cursor, limit).next.Some?
    ensures
      var live := From(key, lt, rows, cursor);
      var next := ReadPage(key, lt, rows, cursor, limit).next.value;
      && From(key, lt, rows, Some(next)) == Beyond(key, lt, live, next)
      && |From(key, lt, rows, Some(next))| < |live|
  {
    hide Beyond;
    var live := From(key, lt, rows, cursor);
    BeyondShrinks(key, lt, live, limit - 1);
    if cursor.Some? {
      assert live[limit - 1] in live;
      BeyondBeyond(key, lt, rows, cursor.value, key(live[limit - 1]));
    }
  }

  /** One request of a walk. */
  lemma WalkStep<T, K(!new)>(key: T -> K, lt: (K, K) -> bool, rows: seq<T>, cursor: Option<K>, limit: nat)
    requires StrictTotal(lt) && limit >= 1
    ensures
      var page := ReadPage(key, lt, rows, cursor, limit);
      if page.next.None? then Walk(key, lt, rows, cursor, limit) == page.rows
      else
        && Walk(key, lt, rows, cursor, limit) == page.rows + Walk(key, lt, rows, page.next, limit)
        && |From(key, lt, rows, page.next)| < |From(key, lt, rows, cursor)|
  {
    if ReadPage(key, lt, rows, cursor, limit).next.Some? { NextShrinks(key, lt, rows, cursor, limit); }
  }

  lemma {:induction false} OrderedTail<T, K(!new)>(key: T -> K, lt: (K, K) -> bool, rows: seq<T>, n: nat)
    requires Ordered(key, lt, rows) && n <= |rows|
    ensures Ordered(key, lt, rows[n..])
  {
    forall i, j | 0 <= i < j < |rows[n..]| ensures !lt(key(rows[n..][j]), key(rows[n..][i])) {
      assert rows[n..][i] == rows[n + i] && rows[n..][j] == rows[n + j];
    }
  }

  /** In ordered rows, the rows beyond a key are a suffix: none at or before it, all after. */
  lemma {:induction false} BeyondIsSuffix<T, K(!new)>(key: T -> K, lt: (K, K) -> bool, rows: seq<T>, after: K)
    returns (n: nat)
    requires StrictTotal(lt) && Ordered(key, lt, rows)
    ensures n <= |rows| && Beyond(key, lt, rows, after) == rows[n..]
    ensures forall i :: 0 <= i < n ==> !lt(after, key(rows[i]))
    ensures forall i :: n <= i < |rows| ==> lt(after, key(rows[i]))
  {
    if rows == [] {
      n := 0;
    } else if lt(after, key(rows[0])) {
      n := 0;
      forall i | 0 <= i < |rows| ensures lt(after, key(rows[i])) {
        if i > 0 { assert !lt(key(rows[i]), key(rows[0])); }
      }
      BeyondAll(key, lt, rows, after);
    } else {
      OrderedTail(key, lt, rows, 1);
      var m := BeyondIsSuffix(key, lt, rows[1..], after);
      n := m + 1;
      assert rows[1..][m..] == rows[n..];
      forall i | 0 <= i < |rows|
        ensures i < n ==> !lt(after, key(rows[i]))
        ensures n <= i ==> lt(after, key(rows[i]))
      {
        if i > 0 { assert rows[1..][i - 1] == rows[i]; }
      }
    }
  }

  lemma {:induction false} BeyondAll<T, K>(key: T -> K, lt: (K, K) -> bool, rows: seq<T>, after: K)
    requires forall i :: 0 <= i < |rows| ==> lt(after, key(rows[i]))
    ensures Beyond(key, lt, rows, after) == rows
  {
    if rows != [] {
      assert lt(after, key(rows[0]));
      forall i | 0 <= i < |rows[1..]| ensures lt(after, key(rows[1..][i])) {
        assert rows[1..][i] == rows[i + 1];
      }
      BeyondAll(key, lt, rows[1..], after);
    }
  }

  /** m is a positive multiple of limit: that many rows fill whole pages. */
  predicate FullPages(m: nat, limit: nat)
    requires limit >= 1
  {
    m >= limit && (m == limit || FullPages(m - limit, limit))
  }

  /** No two rows with the same key sit on either side of a page boundary. */
  ghost predicate Unsplit<T, K>(key: T -> K, lt: (K, K) -> bool, rows: seq<T>, limit: nat)
    requires limit >= 1
  {
    forall m :: 0 < m < |rows| && FullPages(m, limit) ==> lt(key(rows[m - 1]), key(rows[m]))
  }

  lemma {:induction false} UnsplitTail<T, K(!new)>(key: T -> K, lt: (K, K) -> bool, rows: seq<T>, limit: nat)
    requires 1 <= limit < |rows|
    ensures Unsplit(key, lt, rows, limit)
       <==> lt(key(rows[limit - 1]), key(rows[limit])) && Unsplit(key, lt, rows[limit..], limit)
  {
    var rest := rows[limit..];
    if Unsplit(key, lt, rows, limit) {
      assert FullPages(limit, limit);
      forall m | 0 < m < |rest| && FullPages(m, limit) ensures lt(key(rest[m - 1]), key(rest[m])) {
        assert FullPages(m + limit, limit);
        assert rest[m - 1] == rows[m + limit - 1] && rest[m] == rows[m + limit];
      }
    }
    if lt(key(rows[limit - 1]), key(rows[limit])) && Unsplit(key, lt, rest, limit) {
      forall m | 0 < m < |rows| && FullPages(m, limit) ensures lt(key(rows[m - 1]), key(rows[m])) {
        if m > limit {
          assert FullPages(m - limit, limit);
          assert rest[m - limit - 1] == rows[m - 1] && rest[m - limit] == rows[m];
        }
      }
    }
  }

  /**
   Walking ordered rows page by page returns every row, in order, exactly when no
   page boundary falls between two rows with the same key.  Otherwise it returns
   fewer rows: the ones behind the boundary are lost.
   */
  lemma {:induction false} WalkCompleteIffUnsplit<T, K(!new)>(
      key: T -> K, lt: (K, K) -> bool, rows: seq<T>, cursor: Option<K>, limit: nat)
    requires StrictTotal(lt) && limit >= 1 && Ordered(key, lt, rows)
    ensures
      var live := From(key, lt, rows, cursor);
      && (Walk(key, lt, rows, cursor, limit) == live <==> Unsplit(key, lt, live, limit))
      && (!Unsplit(key, lt, live, limit) ==> |Walk(key, lt, rows, cursor, limit)| < |live|)
    decreases |From(key, lt, rows, cursor)|
  {
    var live := From(key, lt, rows, cursor);
    if cursor.Some? {
      var n := BeyondIsSuffix(key, lt, rows, cursor.value);
      OrderedTail(key, lt, rows, n);
    }
    var page := ReadPage(key, lt, rows, cursor, limit);
    if page.next.Some? {
      NextShrinks(key, lt, rows, cursor, limit);
      WalkCompleteIffUnsplit(key, lt, rows, page.next, limit);
      OnePage(key, lt, live, limit, Walk(key, lt, rows, page.next, limit));
    }
  }

  /** The next page starts right behind this one, unless the boundary splits equal keys. */
  lemma NextPageStart<T, K(!new)>(key: T -> K, lt: (K, K) -> bool, live: seq<T>, limit: nat)
    returns (m: nat)
    requires StrictTotal(lt) && 1 <= limit < |live| && Ordered(key, lt, live)
    ensures limit <= m <= |live| && Beyond(key, lt, live, key(live[limit - 1])) == live[m..]
    ensures m == limit <==> lt(key(live[limit - 1]), key(live[limit]))
  {
    m := BeyondIsSuffix(key, lt, live, key(live[limit - 1]));
    assert !lt(key(live[limit - 1]), key(live[limit - 1]));
  }

  /** The step of the proof above: one full page, then whatever the rest of the walk returned. */
  lemma OnePage<T, K(!new)>(key: T -> K, lt: (K, K) -> bool, live: seq<T>, limit: nat, rest: seq<T>)
    requires StrictTotal(lt) && 1 <= limit < |live| && Ordered(key, lt, live)
    requires
      var tail := Beyond(key, lt, live, key(live[limit - 1]));
      && (rest == tail <==> Unsplit(key, lt, tail, limit))
      && (!Unsplit(key, lt, tail, limit) ==> |rest| < |tail|)
    ensures live[..limit] + rest == live <==> Unsplit(key, lt, live, limit)
    ensures !Unsplit(key, lt, live, limit) ==> |live[..limit] + rest| < |live|
  {
    hide *;
    var m := NextPageStart(key, lt, live, limit);
    UnsplitTail(key, lt, live, limit);
    assert |rest| <= |live[m..]|;
    if m == limit {
      assert live == live[..limit] + live[limit..];
      if live[..limit] + rest == live {
        assert rest == (live[..limit] + rest)[limit..] == live[limit..];
      }
    }
  }

  lemma AscendingIsOrdered<T, K(!new)>(key: T -> K, lt: (K, K) -> bool, rows: seq<T>)
    requires StrictTotal(lt) && Ascending(key, lt, rows)
    ensures Ordered(key, lt, rows)
  {
    forall i, j | 0 <= i < j < |rows| ensures !lt(key(rows[j]), key(rows[i])) {
      assert lt(key(rows[i]), key(rows[j]));
    }
  }

  lemma AscendingLive<T, K(!new)>(key: T -> K, lt: (K, K) -> bool, rows: seq<T>, cursor: Option<K>)
    requires StrictTotal(lt) && Ascending(key, lt, rows)
    ensures Ascending(key, lt, From(key, lt, rows, cursor))
  {
    if cursor.Some? {
      AscendingIsOrdered(key, lt, rows);
      var n := BeyondIsSuffix(key, lt, rows, cursor.value);
      hide *;
      var live := From(key, lt, rows, cursor);
      AscendingTail(key, lt, rows, n);
      assert live == rows[n..] by { FromIsBeyond(key, lt, rows, cursor); }
    }
  }

  lemma AscendingTail<T, K(!new)>(key: T -> K, lt: (K, K) -> bool, rows: seq<T>, n: nat)
    requires n <= |rows| && Ascending(key, lt, rows)
    ensures Ascending(key, lt, rows[n..])
  {
    forall i, j | 0 <= i < j < |rows[n..]| ensures lt(key(rows[n..][i]), key(rows[n..][j])) {
      assert lt(key(rows[n + i]), key(rows[n + j]));
    }
  }

  lemma FromIsBeyond<T, K(!new)>(key: T -> K, lt: (K, K) -> bool, rows: seq<T>, cursor: Option<K>)
    requires cursor.Some?
    ensures From(key, lt, rows, cursor) == Beyond(key, lt, rows, cursor.value)
  {
  }

  /** With distinct keys the next page starts right behind this one. */
  lemma AscendingNextPage<T, K(!new)>(key: T -> K, lt: (K, K) -> bool, rows: seq<T>, cursor: Option<K>, limit: nat)
    requires StrictTotal(lt) && limit >= 1 && Ascending(key, lt, rows)
    requires ReadPage(key, lt, rows, cursor, limit).next.Some?
    ensures
      From(key, lt, rows, ReadPage(key, lt, rows, cursor, limit).next) == From(key, lt, rows, cursor)[limit..]
  {
    var live := From(key, lt, rows, cursor);
    AscendingLive(key, lt, rows, cursor);
    AscendingIsOrdered(key, lt, live);
    NextShrinks(key, lt, rows, cursor, limit);
    var m := NextPageStart(key, lt, live, limit);
  }

  /** Distinct keys cannot be split, so a catalog listed by name is walked whole. */
  lemma AscendingWalkComplete<T, K(!new)>(
      key: T -> K, lt: (K, K) -> bool, rows: seq<T>, cursor: Option<K>, limit: nat)
    requires StrictTotal(lt) && limit >= 1 && Ascending(key, lt, rows)
    ensures Walk(key, lt, rows, cursor, limit) == From(key, lt, rows, cursor)
  {
    AscendingIsOrdered(key, lt, rows);
    AscendingLive(key, lt, rows, cursor);
    WalkCompleteIffUnsplit(key, lt, rows, cursor, limit);
  }
}
