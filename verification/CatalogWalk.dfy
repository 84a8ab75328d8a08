/**
 Walking the live catalog while it changes.

 `list_containers` of the data lake answers one page of the names that exist at
 that moment; `_walk_containers` follows the cursor.  Request number t sees
 `catalogs(t)`, and nothing relates one catalog to the next.
 */
module CatalogWalk {
  import opened Wrappers
  import opened Ordering
  import opened Keyset

  const DEFAULT_PAGE_SIZE: nat := 100
  const MAX_PAGE_SIZE: nat := 1000

  /** A page holds between 1 and `MAX_PAGE_SIZE` names, whatever is asked for. */
  function CapPageSize(limit: Option<int>): (size: nat)
    ensures size >= 1
  {
    match limit
    case None => DEFAULT_PAGE_SIZE
    case Some(n) => if n > MAX_PAGE_SIZE then MAX_PAGE_SIZE else if n < 1 then 1 else n
  }

  const Name: string -> string := name => name

  function ListContainers(catalog: set<string>, limit: Option<int>, cursor: Option<string>): (page: Page<string, string>) {
    StringsOrdered();
    ReadPage(Name, Before, SortSet(Before, catalog), cursor, CapPageSize(limit))
  }

  predicate Past(cursor: Option<string>, name: string) {
    cursor.None? || Before(cursor.value, name)
  }

  lemma LiveNames(sorted: seq<string>, cursor: Option<string>)
    requires Increasing(Before, sorted)
    ensures
      var live := From(Name, Before, sorted, cursor);
      && Increasing(Before, live)
      && forall name :: name in live <==> name in sorted && Past(cursor, name)
  {
    if cursor.Some? {
      assert Ordered(Name, Before, sorted) by {
        forall i, j | 0 <= i < j < |sorted| ensures !Before(Name(sorted[j]), Name(sorted[i])) {
          BeforeOneWay(sorted[i], sorted[j]);
        }
      }
      StringsOrdered();
      var n := BeyondIsSuffix(Name, Before, sorted, cursor.value);
    }
  }

  lemma SortedNames(catalog: set<string>, limit: Option<int>, cursor: Option<string>) returns (sorted: seq<string>)
    ensures Increasing(Before, sorted) && forall name :: name in sorted <==> name in catalog
    ensures ListContainers(catalog, limit, cursor) == ReadPage(Name, Before, sorted, cursor, CapPageSize(limit))
  {
    StringsOrdered();
    sorted := SortSet(Before, catalog);
  }

  lemma PrefixEndsAt(live: seq<string>, size: nat)
    requires Increasing(Before, live) && 1 <= size <= |live|
    ensures Increasing(Before, live[..size]) && live[size - 1] in live[..size]
    ensures forall name :: name in live ==> (name in live[..size] <==> !Before(live[size - 1], name))
  {
    assert live[..size][size - 1] == live[size - 1];
    forall i | 0 <= i < |live| ensures live[i] in live[..size] <==> !Before(live[size - 1], live[i]) {
      if i < size {
        assert live[..size][i] == live[i];
        if i == size - 1 { BeforeTotal(live[i], live[i]); } else { BeforeOneWay(live[i], live[size - 1]); }
      } else {
        forall j | 0 <= j < size ensures live[j] != live[i] { BeforeOneWay(live[j], live[i]); }
      }
    }
  }

  /** What one request shows: names past the cursor, in order, all up to the next cursor. */
  lemma PageShows(catalog: set<string>, limit: Option<int>, cursor: Option<string>)
    ensures
      var page := ListContainers(catalog, limit, cursor);
      && Increasing(Before, page.rows)
      && (forall name :: name in page.rows ==> name in catalog && Past(cursor, name))
      && (forall name :: name in catalog && Past(cursor, name) && (page.next.Some? ==> !Before(page.next.value, name))
            ==> name in page.rows)
      && (page.next.Some? ==> page.next.value in page.rows)
      && (page.next.Some? ==> forall name :: name in page.rows ==> !Before(page.next.value, name))
  {
    hide Before, SortSet, StrictTotal;
    var sorted := SortedNames(catalog, limit, cursor);
    LiveNames(sorted, cursor);
    var live := From(Name, Before, sorted, cursor);
    if |live| > CapPageSize(limit) {
      PrefixEndsAt(live, CapPageSize(limit));
    }
  }

  /** The names of the universe still past the cursor: what is left to walk. */
  function Ahead(universe: set<string>, cursor: Option<string>): set<string> {
    set name | name in universe && Past(cursor, name)
  }

  /** A page is as large as asked for, between 1 and 1000, and 100 where nothing is asked; only the last is shorter. */
  lemma PageIsFilled(catalog: set<string>, limit: Option<int>, cursor: Option<string>)
    ensures
      var page, left := ListContainers(catalog, limit, cursor), |Ahead(catalog, cursor)|;
      var size := match limit case None => 100 case Some(n) => if n < 1 then 1 else if n <= 1000 then n else 1000;
      if left <= size then |page.rows| == left && page.next.None?
      else |page.rows| == size && page.next == Some(page.rows[size - 1])
  {
    hide Before, SortSet, StrictTotal, Ahead;
    var sorted := SortedNames(catalog, limit, cursor);
    LiveNames(sorted, cursor);
    LiveIsAhead(catalog, cursor, From(Name, Before, sorted, cursor));
  }

  lemma LiveIsAhead(catalog: set<string>, cursor: Option<string>, live: seq<string>)
    requires Increasing(Before, live) && forall name :: name in live <==> name in catalog && Past(cursor, name)
    ensures |Ahead(catalog, cursor)| == |live|
  {
    forall i, j | 0 <= i < j < |live| ensures live[i] != live[j] { BeforeOneWay(live[i], live[j]); }
    hide Before;
    Counted(live);
    assert Ahead(catalog, cursor) == set name | name in live;
  }

  lemma {:induction false} Counted(names: seq<string>)
    requires forall i, j :: 0 <= i < j < |names| ==> names[i] != names[j]
    ensures |set name | name in names| == |names|
  {
    if names == [] {
      assert (set name | name in names) == {};
    } else {
      var n := |names| - 1;
      Counted(names[..n]);
      assert names == names[..n] + [names[n]];
      assert (set name | name in names) == (set name | name in names[..n]) + {names[n]};
    }
  }

  lemma AheadShrinks(universe: set<string>, catalog: set<string>, limit: Option<int>, cursor: Option<string>)
    requires catalog <= universe
    requires ListContainers(catalog, limit, cursor).next.Some?
    ensures
      var next := ListContainers(catalog, limit, cursor).next;
      Ahead(universe, next) < Ahead(universe, cursor) && Past(cursor, next.value)
  {
    PageShows(catalog, limit, cursor);
    var next := ListContainers(catalog, limit, cursor).next;
    BeforeTotal(next.value, next.value);
    assert next.value in Ahead(universe, cursor) && next.value !in Ahead(universe, next);
    forall name | name in Ahead(universe, next) ensures name in Ahead(universe, cursor) {
      if cursor.Some? { BeforeTransitive(cursor.value, next.value, name); }
    }
  }

  /** Every (name, request) the walk returns from request t on. */
  function Walked(catalogs: nat -> set<string>, universe: set<string>, limit: Option<int>, t: nat, cursor: Option<string>)
    : seq<(string, nat)>
    requires forall i: nat :: catalogs(i) <= universe
    decreases Ahead(universe, cursor)
  {
    var page := ListContainers(catalogs(t), limit, cursor);
    if page.next.None? then Tagged(page.rows, t)
    else
      AheadShrinks(universe, catalogs(t), limit, cursor);
      Tagged(page.rows, t) + Walked(catalogs, universe, limit, t + 1, page.next)
  }

  /** The one request whose answer decides whether a name is returned. */
  function Decider(catalogs: nat -> set<string>, universe: set<string>, limit: Option<int>, t: nat, cursor: Option<string>,
                   name: string): (d: nat)
    requires forall i: nat :: catalogs(i) <= universe
    ensures d >= t
    decreases Ahead(universe, cursor)
  {
    var page := ListContainers(catalogs(t), limit, cursor);
    if page.next.None? || !Before(page.next.value, name) then t
    else
      AheadShrinks(universe, catalogs(t), limit, cursor);
      Decider(catalogs, universe, limit, t + 1, page.next, name)
  }

  predicate InOrder(walked: seq<(string, nat)>) {
    forall i, j :: 0 <= i < j < |walked| ==> Before(walked[i].0, walked[j].0)
  }

  function Tagged(names: seq<string>, t: nat): (shown: seq<(string, nat)>)
    ensures |shown| == |names| && forall i :: 0 <= i < |names| ==> shown[i] == (names[i], t)
    ensures forall name :: (name, t) in shown <==> name in names
  {
    var shown := seq(|names|, i requires 0 <= i < |names| => (names[i], t));
    assert forall name :: name in names ==> (name, t) in shown by {
      forall name | name in names ensures (name, t) in shown {
        var i :| 0 <= i < |names| && names[i] == name;
        assert shown[i] == (name, t);
      }
    }
    shown
  }

  /** What a walk answers about the names past its cursor. */
  ghost predicate Faithful(catalogs: nat -> set<string>, universe: set<string>, limit: Option<int>, t: nat,
                           cursor: Option<string>, walked: seq<(string, nat)>)
    requires forall i: nat :: catalogs(i) <= universe
  {
    && InOrder(walked)
    && (forall w :: w in walked ==> w.1 >= t && w.0 in catalogs(w.1) && Past(cursor, w.0))
    && (forall name :: Past(cursor, name) ==>
          var d := Decider(catalogs, universe, limit, t, cursor, name);
          (name in catalogs(d) <==> (name, d) in walked))
  }

  /**
   However the catalog changes between requests: names come out strictly
   increasing (none twice), each existed when its page was read, and a name past
   the cursor is returned exactly when it existed at the one request that decides it.
   */
  lemma {:induction false} WalkUnderMutation(
      catalogs: nat -> set<string>, universe: set<string>, limit: Option<int>, t: nat, cursor: Option<string>)
    requires forall i: nat :: catalogs(i) <= universe
    ensures Faithful(catalogs, universe, limit, t, cursor, Walked(catalogs, universe, limit, t, cursor))
    decreases Ahead(universe, cursor)
  {
    hide Before, ListContainers;
    PageShows(catalogs(t), limit, cursor);
    var page := ListContainers(catalogs(t), limit, cursor);
    if page.next.Some? {
      AheadShrinks(universe, catalogs(t), limit, cursor);
      WalkUnderMutation(catalogs, universe, limit, t + 1, page.next);
      var rest := Walked(catalogs, universe, limit, t + 1, page.next);
      assert Walked(catalogs, universe, limit, t, cursor) == Tagged(page.rows, t) + rest;
      hide Faithful, Walked, Tagged;
      MorePagesAreFaithful(catalogs, universe, limit, t, cursor, rest);
    } else {
      LastPageIsFaithful(catalogs, universe, limit, t, cursor);
    }
  }

  lemma MorePagesAreFaithful(catalogs: nat -> set<string>, universe: set<string>, limit: Option<int>, t: nat,
                             cursor: Option<string>, rest: seq<(string, nat)>)
    requires forall i: nat :: catalogs(i) <= universe
    requires ListContainers(catalogs(t), limit, cursor).next.Some?
    requires Faithful(catalogs, universe, limit, t + 1, ListContainers(catalogs(t), limit, cursor).next, rest)
    ensures Faithful(catalogs, universe, limit, t, cursor, Tagged(ListContainers(catalogs(t), limit, cursor).rows, t) + rest)
  {
    hide Before, ListContainers, Decider;
    PageShows(catalogs(t), limit, cursor);
    var page := ListContainers(catalogs(t), limit, cursor);
    var shown := Tagged(page.rows, t);
    forall w | w in rest ensures Past(cursor, w.0) {
      if cursor.Some? { BeforeTransitive(cursor.value, page.next.value, w.0); }
    }
    PageThenRest(page.rows, t, page.next.value, rest);
    forall w | w in shown ensures w.1 == t && w.0 in page.rows {
      var i :| 0 <= i < |page.rows| && w == shown[i];
    }
    forall name | Past(cursor, name)
      ensures var d := Decider(catalogs, universe, limit, t, cursor, name); name in catalogs(d) <==> (name, d) in shown + rest
    {
      DeciderStep(catalogs, universe, limit, t, cursor, name);
    }
  }

  lemma DeciderStep(catalogs: nat -> set<string>, universe: set<string>, limit: Option<int>, t: nat, cursor: Option<string>, name: string)
    requires forall i: nat :: catalogs(i) <= universe
    ensures
      var next := ListContainers(catalogs(t), limit, cursor).next;
      Decider(catalogs, universe, limit, t, cursor, name)
      == if next.None? || !Before(next.value, name) then t else Decider(catalogs, universe, limit, t + 1, next, name)
  {
    hide Before, ListContainers;
  }

  lemma LastPageIsFaithful(catalogs: nat -> set<string>, universe: set<string>, limit: Option<int>, t: nat, cursor: Option<string>)
    requires forall i: nat :: catalogs(i) <= universe
    requires ListContainers(catalogs(t), limit, cursor).next.None?
    ensures Faithful(catalogs, universe, limit, t, cursor, Walked(catalogs, universe, limit, t, cursor))
  {
    hide Before, ListContainers;
    PageShows(catalogs(t), limit, cursor);
    var page, walked := ListContainers(catalogs(t), limit, cursor), Walked(catalogs, universe, limit, t, cursor);
    assert walked == Tagged(page.rows, t);
    assert InOrder(walked);
    forall w | w in walked ensures w.1 >= t && w.0 in catalogs(w.1) && Past(cursor, w.0) {
      var i :| 0 <= i < |page.rows| && w == walked[i];
      assert w.0 in page.rows;
    }
  }

  lemma PageThenRest(names: seq<string>, t: nat, next: string, rest: seq<(string, nat)>)
    requires Increasing(Before, names) && InOrder(rest)
    requires forall name :: name in names ==> !Before(next, name)
    requires forall w :: w in rest ==> Before(next, w.0)
    ensures InOrder(Tagged(names, t) + rest)
  {
    var walked := Tagged(names, t) + rest;
    forall i, j | 0 <= i < j < |walked| ensures Before(walked[i].0, walked[j].0) {
      if i < |names| <= j {
        assert rest[j - |names|] in rest && names[i] in names;
        BeforeTotal(names[i], next);
        if names[i] != next { BeforeTransitive(names[i], next, walked[j].0); }
      } else if i >= |names| {
        assert Before(rest[i - |names|].0, rest[j - |names|].0);
      }
    }
  }

  /** A name that is there at every request is returned, and only once. */
  lemma PresentThroughoutIsReturnedOnce(
      catalogs: nat -> set<string>, universe: set<string>, limit: Option<int>, name: string)
    requires forall i: nat :: catalogs(i) <= universe
    requires forall i: nat :: name in catalogs(i)
    ensures
      var walked := Walked(catalogs, universe, limit, 0, None);
      exists i :: 0 <= i < |walked| && walked[i].0 == name && forall j :: 0 <= j < |walked| && walked[j].0 == name ==> j == i
  {
    hide Before, Walked, Decider;
    WalkUnderMutation(catalogs, universe, limit, 0, None);
    var walked := Walked(catalogs, universe, limit, 0, None);
    var d := Decider(catalogs, universe, limit, 0, None, name);
    assert (name, d) in walked;
    var i :| 0 <= i < |walked| && walked[i] == (name, d);
    forall j | 0 <= j < |walked| && walked[j].0 == name ensures j == i {
      BeforeTotal(name, name);
    }
  }

  function NamesOf(walked: seq<(string, nat)>): set<string> {
    set w | w in walked :: w.0
  }

  lemma WholeAhead(universe: set<string>)
    ensures Ahead(universe, None) == universe
  {
  }

  /** One request of the walk: the names it shows, and how much less is left. */
  lemma OneRequest(catalogs: nat -> set<string>, universe: set<string>, limit: Option<int>, t: nat, cursor: Option<string>)
    requires forall i: nat :: catalogs(i) <= universe
    ensures
      var page := ListContainers(catalogs(t), limit, cursor);
      var shown := set name | name in page.rows;
      if page.next.None? then NamesOf(Walked(catalogs, universe, limit, t, cursor)) == shown
      else
        && Ahead(universe, page.next) < Ahead(universe, cursor)
        && NamesOf(Walked(catalogs, universe, limit, t, cursor))
           == shown + NamesOf(Walked(catalogs, universe, limit, t + 1, page.next))
  {
    hide Before, ListContainers;
    var page := ListContainers(catalogs(t), limit, cursor);
    assert NamesOf(Tagged(page.rows, t)) == set name | name in page.rows;
    if page.next.Some? {
      AheadShrinks(universe, catalogs(t), limit, cursor);
      var tail := Walked(catalogs, universe, limit, t + 1, page.next);
      assert NamesOf(Tagged(page.rows, t) + tail) == NamesOf(Tagged(page.rows, t)) + NamesOf(tail);
    }
  }

  /**
   The walk itself.  It ends over any finite universe of names, and the second
   stopping test (a cursor that did not move) is never what ends it.
   */
  method WalkContainers(catalogs: nat -> set<string>, ghost universe: set<string>) returns (names: set<string>, requests: nat)
    requires forall i: nat :: catalogs(i) <= universe
    ensures names == NamesOf(Walked(catalogs, universe, Some(MAX_PAGE_SIZE), 0, None))
    ensures 1 <= requests <= |universe| + 1
  {
    hide Before, ListContainers, Walked, NamesOf, Ahead, Tagged;
    WholeAhead(universe);
    names := {};
    requests := 0;
    var cursor: Option<string> := None;
    ghost var rest := Walked(catalogs, universe, Some(MAX_PAGE_SIZE), 0, None);
    while true
      invariant rest == Walked(catalogs, universe, Some(MAX_PAGE_SIZE), requests, cursor)
      invariant names + NamesOf(rest) == NamesOf(Walked(catalogs, universe, Some(MAX_PAGE_SIZE), 0, None))
      invariant requests + |Ahead(universe, cursor)| <= |universe|
      decreases Ahead(universe, cursor)
    {
      var page := ListContainers(catalogs(requests), Some(MAX_PAGE_SIZE), cursor);
      OneRequest(catalogs, universe, Some(MAX_PAGE_SIZE), requests, cursor);
      names := names + set name | name in page.rows;
      if page.next.None? || page.next == cursor {
        requests := requests + 1;
        return;
      }
      Smaller(Ahead(universe, page.next), Ahead(universe, cursor));
      rest := Walked(catalogs, universe, Some(MAX_PAGE_SIZE), requests + 1, page.next);
      requests := requests + 1;
      cursor := page.next;
    }
  }

  lemma {:induction false} Smaller<T>(a: set<T>, b: set<T>)
    requires a < b
    ensures |a| < |b|
  {
    var x :| x in b && x !in a;
    assert |b| == |b - {x}| + 1;
    if a != b - {x} {
      assert a <= b - {x};
      assert a < b - {x};
      Smaller(a, b - {x});
    }
  }
}
