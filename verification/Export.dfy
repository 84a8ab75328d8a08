/**
 Writing the inventory out: two nested page walks, and totals that match the file.

 A chunk of the file is modelled by the container it is about and the columns it
 lists; the text around them, the target path and the bytes are outside the model.
 */
module Export {
  import opened Wrappers
  import opened Ordering
  import opened Keyset
  import opened Tables

  datatype Format = Markdown | Csv | DbtYaml

  /** One container as the walk hands it out: its columns by ordinal and name. */
  datatype Exported = Exported(key: Key, columns: seq<(int, string)>)

  predicate Permitted(permits: Option<string -> bool>, key: Key) {
    permits.None? || permits.value(key.container)
  }

  // ---- the walks, as sequences ----

  /** The keys of the containers a page walk passes. */
  function WalkedKeys(s: Store, database: Option<string>, limit: nat): seq<Key>
    requires limit >= 1
  {
    StringsOrdered();
    Walk(ContainerName, Before, SortedContainers(s, database), None, limit)
  }

  function WalkedColumns(s: Store, key: Key, limit: nat): seq<(int, string)>
    requires limit >= 1
  {
    Walk(Ordinal, IntBefore, SortedColumns(Columns(s, key)), None, limit)
  }

  /** The permitted ones among these keys, each with its columns as walked. */
  function WithColumns(s: Store, permits: Option<string -> bool>, keys: seq<Key>, limit: nat): seq<Exported>
    requires limit >= 1
  {
    if keys == [] then []
    else
      (if Permitted(permits, keys[0]) then [Exported(keys[0], WalkedColumns(s, keys[0], limit))] else [])
      + WithColumns(s, permits, keys[1..], limit)
  }

  /**
   The cursor after the first page is the empty name, which the next request takes
   for no cursor: the walk would read the first page again, for ever.
   */
  predicate StuckOnEmptyName(s: Store, database: Option<string>, limit: nat)
    requires limit >= 1
  {
    var rows := SortedContainers(s, database);
    |rows| > limit && rows[limit - 1].container == ""
  }

  lemma StuckPageRepeats(s: Store, database: Option<string>, limit: nat)
    requires limit >= 1
    ensures
      var page := ContainersPage(s, database, limit, None);
      StuckOnEmptyName(s, database, limit) <==> page.next.Some? && ContainersPage(s, database, limit, page.next) == page
  {
    hide SortedContainers, Beyond;
    var page := ContainersPage(s, database, limit, None);
    if page.next.Some? && page.next != Some("") { NextPageDiffers(s, database, limit, page.next.value); }
  }

  lemma NextPageDiffers(s: Store, database: Option<string>, limit: nat, name: string)
    requires limit >= 1 && name != "" && ContainersPage(s, database, limit, None).next == Some(name)
    ensures ContainersPage(s, database, limit, Some(name)) != ContainersPage(s, database, limit, None)
  {
    hide SortedContainers, Before;
    var page, next := ContainersPage(s, database, limit, None), ContainersPage(s, database, limit, Some(name));
    assert page.rows != [] && page.rows[limit - 1].container == name;
    BeforeTotal(name, name);
    if |next.rows| == limit {
      assert next.rows[limit - 1] in Beyond(ContainerName, Before, SortedContainers(s, database), name);
    }
  }

  /** Two containers, one of them without a name, and pages of one: the walk never gets past the first. */
  lemma NamelessIsStuck(s: Store, a: Key, b: Key)
    requires s.containers.Keys == {a, b} && a.container == "" && b.container != ""
    ensures StuckOnEmptyName(s, None, 1)
    ensures
      var page := ContainersPage(s, None, 1, None);
      page.rows == [a] && page.next == Some("") && ContainersPage(s, None, 1, page.next) == page
  {
    hide SortedContainers, Beyond;
    NamelessFirst(s, a, b);
    StuckPageRepeats(s, None, 1);
  }

  lemma NamelessFirst(s: Store, a: Key, b: Key)
    requires s.containers.Keys == {a, b} && a.container == "" && b.container != ""
    ensures SortedContainers(s, None) == [a, b]
  {
    hide Before3;
    KeysOrdered();
    var rows := SortedContainers(s, None);
    assert ContainerKeys(s, None) == {a, b};
    assert rows[0] in {a, b} && rows[1] in {a, b};
    NamelessBefore(a, b);
  }

  lemma NamelessBefore(a: Key, b: Key)
    requires a.container == "" && b.container != ""
    ensures NameBefore(a, b)
  {
  }

  // ---- the walks, as the program runs them ----

  /** One request for columns, and one for containers, as steps of the walks. */
  lemma ColumnsStep(s: Store, key: Key, limit: nat, cursor: Option<int>)
    requires limit >= 1
    ensures
      var rows, page := SortedColumns(Columns(s, key)), ColumnsPage(s, key, limit, cursor);
      && (page.next.None? ==> Walk(Ordinal, IntBefore, rows, cursor, limit) == page.rows)
      && (page.next.Some? ==>
            && Walk(Ordinal, IntBefore, rows, cursor, limit) == page.rows + Walk(Ordinal, IntBefore, rows, page.next, limit)
            && |From(Ordinal, IntBefore, rows, page.next)| < |From(Ordinal, IntBefore, rows, cursor)|)
  {
    WalkStep(Ordinal, IntBefore, SortedColumns(Columns(s, key)), cursor, limit);
    hide Walk, From, SortedColumns, Columns;
  }

  lemma ContainersStep(s: Store, database: Option<string>, limit: nat, cursor: Option<string>)
    requires limit >= 1 && cursor != Some("")
    ensures StrictTotal(Before)
    ensures
      var rows, page := SortedContainers(s, database), ContainersPage(s, database, limit, cursor);
      && (page.next.None? ==> Walk(ContainerName, Before, rows, cursor, limit) == page.rows)
      && (page.next.Some? ==>
            && Walk(ContainerName, Before, rows, cursor, limit)
               == page.rows + Walk(ContainerName, Before, rows, page.next, limit)
            && |From(ContainerName, Before, rows, page.next)| < |From(ContainerName, Before, rows, cursor)|)
  {
    StringsOrdered();
    WalkStep(ContainerName, Before, SortedContainers(s, database), cursor, limit);
    hide Walk, From, SortedContainers, Before;
  }

  method AllColumns(s: Store, key: Key, limit: nat) returns (columns: seq<(int, string)>)
    requires limit >= 1
    ensures columns == WalkedColumns(s, key, limit)
  {
    hide Walk, From, SortedColumns, Columns, ColumnsPage;
    columns := [];
    var cursor: Option<int> := None;
    ghost var rows := SortedColumns(Columns(s, key));
    while true
      invariant columns + Walk(Ordinal, IntBefore, rows, cursor, limit) == WalkedColumns(s, key, limit)
      decreases |From(Ordinal, IntBefore, rows, cursor)|
    {
      var page := ColumnsPage(s, key, limit, cursor);
      ColumnsStep(s, key, limit, cursor);
      columns := columns + page.rows;
      if page.next.None? {
        return;
      }
      cursor := page.next;
    }
  }

  /** The permitted containers of one page. */
  method WalkPage(s: Store, permits: Option<string -> bool>, keys: seq<Key>, limit: nat) returns (exported: seq<Exported>)
    requires limit >= 1
    ensures exported == WithColumns(s, permits, keys, limit)
  {
    hide WithColumns, WalkedColumns;
    exported := [];
    NoKeys(s, permits, limit);
    for i := 0 to |keys|
      invariant exported == WithColumns(s, permits, keys[..i], limit)
    {
      assert keys[..i + 1] == keys[..i] + [keys[i]];
      OneMoreKey(s, permits, keys[..i], keys[i], limit);
      if Permitted(permits, keys[i]) {
        var columns := AllColumns(s, keys[i], limit);
        exported := exported + [Exported(keys[i], columns)];
      }
    }
    assert keys[..|keys|] == keys;
  }

  method WalkInventory(s: Store, database: Option<string>, permits: Option<string -> bool>, limit: nat)
    returns (exported: seq<Exported>)
    requires limit >= 1 && !StuckOnEmptyName(s, database, limit)
    ensures exported == WithColumns(s, permits, WalkedKeys(s, database, limit), limit)
  {
    hide Walk, From, SortedContainers, ContainersPage, WithColumns, Before, StuckOnEmptyName;
    exported := [];
    var cursor: Option<string> := None;
    ghost var rows, passed := SortedContainers(s, database), [];
    StringsOrdered();
    NoKeys(s, permits, limit);
    while true
      invariant cursor != Some("")
      invariant passed + Walk(ContainerName, Before, rows, cursor, limit) == WalkedKeys(s, database, limit)
      invariant exported == WithColumns(s, permits, passed, limit)
      decreases |From(ContainerName, Before, rows, cursor)|
    {
      var page := ContainersPage(s, database, limit, cursor);
      ContainersStep(s, database, limit, cursor);
      NextIsNamed(s, database, cursor, limit);
      var shown := WalkPage(s, permits, page.rows, limit);
      KeysJoin(s, permits, passed, page.rows, limit);
      exported := exported + shown;
      passed := passed + page.rows;
      if page.next.None? {
        return;
      }
      cursor := page.next;
    }
  }

  lemma NoKeys(s: Store, permits: Option<string -> bool>, limit: nat)
    requires limit >= 1
    ensures WithColumns(s, permits, [], limit) == []
  {
  }

  lemma {:induction false} KeysJoin(s: Store, permits: Option<string -> bool>, a: seq<Key>, b: seq<Key>, limit: nat)
    requires limit >= 1
    ensures WithColumns(s, permits, a + b, limit) == WithColumns(s, permits, a, limit) + WithColumns(s, permits, b, limit)
  {
    if a == [] {
      assert a + b == b;
    } else {
      assert (a + b)[1..] == a[1..] + b;
      KeysJoin(s, permits, a[1..], b, limit);
    }
  }

  lemma OneMoreKey(s: Store, permits: Option<string -> bool>, keys: seq<Key>, key: Key, limit: nat)
    requires limit >= 1
    ensures WithColumns(s, permits, keys + [key], limit)
         == WithColumns(s, permits, keys, limit)
            + if Permitted(permits, key) then [Exported(key, WalkedColumns(s, key, limit))] else []
  {
    hide WalkedColumns;
    KeysJoin(s, permits, keys, [key], limit);
    assert [key][1..] == [];
  }

  /** Past the first page no name is empty. */
  lemma NextIsNamed(s: Store, database: Option<string>, cursor: Option<string>, limit: nat)
    requires limit >= 1 && !StuckOnEmptyName(s, database, limit) && cursor != Some("")
    ensures ContainersPage(s, database, limit, cursor).next != Some("")
  {
    var rows := SortedContainers(s, database);
    var live := From(ContainerName, Before, rows, cursor);
    if cursor.Some? && |live| > limit {
      assert live[limit - 1] in live;
    }
  }

  // ---- paged and unpaged ----

  lemma ContainersInNameOrder(s: Store, database: Option<string>)
    ensures StrictTotal(Before) && Keyset.Ordered(ContainerName, Before, SortedContainers(s, database))
  {
    StringsOrdered();
    KeysOrdered();
    var rows := SortedContainers(s, database);
    hide Before;
    forall i, j | 0 <= i < j < |rows| ensures !Before(ContainerName(rows[j]), ContainerName(rows[i])) {
      assert NameBefore(rows[i], rows[j]);
    }
  }

  lemma ColumnsInOrdinalOrder(rows: map<string, ColumnRow>)
    ensures StrictTotal(IntBefore) && Keyset.Ordered(Ordinal, IntBefore, SortedColumns(rows))
  {
    PlacesOrdered();
    var sorted := SortedColumns(rows);
    hide Before;
    forall i, j | 0 <= i < j < |sorted| ensures !IntBefore(Ordinal(sorted[j]), Ordinal(sorted[i])) {
      assert PlaceBefore(sorted[i], sorted[j]);
    }
  }

  /** The page walk passes every container, exactly when no page ends between two of the same name. */
  lemma KeysWalkedIff(s: Store, database: Option<string>, limit: nat)
    requires limit >= 1
    ensures WalkedKeys(s, database, limit) == SortedContainers(s, database)
       <==> Unsplit(ContainerName, Before, SortedContainers(s, database), limit)
  {
    ContainersInNameOrder(s, database);
    WalkCompleteIffUnsplit(ContainerName, Before, SortedContainers(s, database), None, limit);
  }

  /** And every column, exactly when no page ends between two of the same ordinal. */
  lemma ColumnsWalkedIff(s: Store, key: Key, limit: nat)
    requires limit >= 1
    ensures WalkedColumns(s, key, limit) == SortedColumns(Columns(s, key))
       <==> Unsplit(Ordinal, IntBefore, SortedColumns(Columns(s, key)), limit)
  {
    ColumnsInOrdinalOrder(Columns(s, key));
    WalkCompleteIffUnsplit(Ordinal, IntBefore, SortedColumns(Columns(s, key)), None, limit);
  }

  predicate DistinctNames(s: Store, database: Option<string>) {
    forall a, b :: a in ContainerKeys(s, database) && b in ContainerKeys(s, database) && a.container == b.container ==> a == b
  }

  predicate DistinctOrdinals(rows: map<string, ColumnRow>) {
    forall a, b :: a in rows && b in rows && rows[a].info.ordinal == rows[b].info.ordinal ==> a == b
  }

  lemma DistinctNamesWalked(s: Store, database: Option<string>, limit: nat)
    requires limit >= 1 && DistinctNames(s, database)
    ensures WalkedKeys(s, database, limit) == SortedContainers(s, database)
  {
    var rows := SortedContainers(s, database);
    KeysWalkedIff(s, database, limit);
    ContainersInNameOrder(s, database);
    KeysOrdered();
    assert forall k :: k in rows ==> k in ContainerKeys(s, database);
    forall m | 0 < m < |rows| && FullPages(m, limit) ensures Before(ContainerName(rows[m - 1]), ContainerName(rows[m])) {
      assert NameBefore(rows[m - 1], rows[m]);
      assert rows[m - 1] != rows[m];
      BeforeTotal(rows[m - 1].container, rows[m].container);
    }
  }

  lemma DistinctOrdinalsWalked(s: Store, key: Key, limit: nat)
    requires limit >= 1 && DistinctOrdinals(Columns(s, key))
    ensures WalkedColumns(s, key, limit) == SortedColumns(Columns(s, key))
  {
    var rows := SortedColumns(Columns(s, key));
    ColumnsWalkedIff(s, key, limit);
    ColumnsInOrdinalOrder(Columns(s, key));
    PlacesOrdered();
    forall m | 0 < m < |rows| && FullPages(m, limit) ensures IntBefore(Ordinal(rows[m - 1]), Ordinal(rows[m])) {
      assert PlaceBefore(rows[m - 1], rows[m]) && rows[m - 1] != rows[m];
      assert rows[m - 1] in rows && rows[m] in rows;
    }
  }

  /** The unpaged export: the permitted containers in order of name, each with all its columns in ordinal order. */
  function Everything(s: Store, permits: Option<string -> bool>, keys: seq<Key>): seq<Exported> {
    if keys == [] then []
    else
      (if Permitted(permits, keys[0]) then [Exported(keys[0], SortedColumns(Columns(s, keys[0])))] else [])
      + Everything(s, permits, keys[1..])
  }

  lemma {:induction false} EverythingWalked(s: Store, permits: Option<string -> bool>, keys: seq<Key>, limit: nat)
    requires limit >= 1 && forall k :: k in keys ==> DistinctOrdinals(Columns(s, k))
    ensures WithColumns(s, permits, keys, limit) == Everything(s, permits, keys)
  {
    hide WalkedColumns, SortedColumns, DistinctOrdinals;
    if keys != [] {
      DistinctOrdinalsWalked(s, keys[0], limit);
      EverythingWalked(s, permits, keys[1..], limit);
    }
  }

  /** With distinct names in scope and distinct ordinals in each container, every page size gives the unpaged export. */
  lemma PagedEqualsUnpaged(s: Store, database: Option<string>, permits: Option<string -> bool>, limit: nat)
    requires limit >= 1 && DistinctNames(s, database)
    requires forall k :: k in ContainerKeys(s, database) ==> DistinctOrdinals(Columns(s, k))
    ensures WithColumns(s, permits, WalkedKeys(s, database, limit), limit)
         == Everything(s, permits, SortedContainers(s, database))
  {
    DistinctNamesWalked(s, database, limit);
    KeysOrdered();
    assert forall k :: k in SortedContainers(s, database) ==> k in ContainerKeys(s, database);
    hide SortedContainers, WalkedKeys, ContainerKeys, DistinctOrdinals;
    EverythingWalked(s, permits, SortedContainers(s, database), limit);
  }

  function KeysOf(exported: seq<Exported>): seq<Key> {
    seq(|exported|, i requires 0 <= i < |exported| => exported[i].key)
  }

  lemma KeysCons(e: Exported, rest: seq<Exported>, k: Key)
    ensures multiset(KeysOf([e] + rest))[k] == (if e.key == k then 1 else 0) + multiset(KeysOf(rest))[k]
  {
    assert KeysOf([e] + rest) == [e.key] + KeysOf(rest);
  }

  lemma {:induction false} KeysKept(s: Store, permits: Option<string -> bool>, keys: seq<Key>, k: Key)
    ensures multiset(KeysOf(Everything(s, permits, keys)))[k] == if Permitted(permits, k) then multiset(keys)[k] else 0
  {
    hide SortedColumns, Columns, KeysOf, Permitted;
    if keys == [] {
      NoneExported();
    } else {
      var rest := Everything(s, permits, keys[1..]);
      KeysKept(s, permits, keys[1..], k);
      assert keys == [keys[0]] + keys[1..];
      assert multiset(keys)[k] == (if keys[0] == k then 1 else 0) + multiset(keys[1..])[k];
      if Permitted(permits, keys[0]) {
        KeysCons(Exported(keys[0], SortedColumns(Columns(s, keys[0]))), rest, k);
      } else {
        assert [] + rest == rest;
      }
    }
  }

  lemma NoneExported()
    ensures KeysOf([]) == []
  {
  }

  lemma {:induction false} WholeColumns(s: Store, permits: Option<string -> bool>, keys: seq<Key>)
    ensures forall e :: e in Everything(s, permits, keys) ==> e.columns == SortedColumns(Columns(s, e.key))
  {
    hide SortedColumns, Columns, Permitted;
    if keys != [] { WholeColumns(s, permits, keys[1..]); }
  }

  lemma {:induction false} DistinctOnce<T>(s: seq<T>, x: T)
    requires forall i, j :: 0 <= i < j < |s| ==> s[i] != s[j]
    ensures multiset(s)[x] == if x in s then 1 else 0
  {
    if s != [] {
      assert s == [s[0]] + s[1..];
      DistinctOnce(s[1..], x);
    }
  }

  /** Each container in scope that is permitted is in the unpaged export once, the others not at all, with all its columns. */
  lemma EachPermittedOnce(s: Store, database: Option<string>, permits: Option<string -> bool>, k: Key)
    ensures
      var whole := Everything(s, permits, SortedContainers(s, database));
      && multiset(KeysOf(whole))[k] == (if k in ContainerKeys(s, database) && Permitted(permits, k) then 1 else 0)
      && forall e :: e in whole ==> e.columns == SortedColumns(Columns(s, e.key))
  {
    var keys := SortedContainers(s, database);
    KeysOrdered();
    assert k in keys <==> k in ContainerKeys(s, database);
    forall i, j | 0 <= i < j < |keys| ensures keys[i] != keys[j] { assert NameBefore(keys[i], keys[j]); }
    hide SortedContainers, ContainerKeys, NameBefore;
    DistinctOnce(keys, k);
    KeysKept(s, permits, keys, k);
    WholeColumns(s, permits, keys);
  }

  // ---- the formats ----

  /** A piece of the file: the container it is about and the columns it lists. */
  datatype Chunk = Chunk(key: Key, columns: seq<(int, string)>)

  /** A container the last scan could not read; an empty error counts as none. */
  predicate HasError(s: Store, key: Key) {
    key in s.containers && s.containers[key].error.Some? && s.containers[key].error.value != ""
  }

  /** What a format makes of one container, if anything. */
  function ChunkOf(s: Store, format: Format, e: Exported): seq<Chunk> {
    match format
    case Markdown => [Chunk(e.key, if HasError(s, e.key) then [] else e.columns)]
    case Csv => [Chunk(e.key, e.columns)]
    case DbtYaml => if e.columns == [] then [] else [Chunk(e.key, e.columns)]
  }

  function Chunks(s: Store, format: Format, exported: seq<Exported>): seq<Chunk> {
    if exported == [] then []
    else Chunks(s, format, exported[..|exported| - 1]) + ChunkOf(s, format, exported[|exported| - 1])
  }

  function ColumnTotal(chunks: seq<Chunk>): nat {
    if chunks == [] then 0 else ColumnTotal(chunks[..|chunks| - 1]) + |chunks[|chunks| - 1].columns|
  }

  datatype Outcome = Outcome(file: seq<Chunk>, containers: nat, columns: nat)

  // ---- what a file holds ----

  /** This container has a place in the file; dbt has none for one without columns. */
  predicate Listed(s: Store, database: Option<string>, permits: Option<string -> bool>, format: Format, k: Key) {
    && k in s.containers && (database.None? || database.value == "" || k.database == database.value)
    && (permits.None? || permits.value(k.container))
    && (format.DbtYaml? ==> Columns(s, k) != map[])
  }

  lemma ListedIff(s: Store, database: Option<string>, permits: Option<string -> bool>, format: Format, k: Key)
    ensures Listed(s, database, permits, format, k)
       <==> k in ContainerKeys(s, database) && Permitted(permits, k) && (format.DbtYaml? ==> Columns(s, k) != map[])
  {
  }

  /** Its columns are not shown: a dictionary for people only says why it could not be read. */
  predicate Bare(s: Store, format: Format, k: Key) {
    format.Markdown? && k in s.containers && s.containers[k].error.Some? && s.containers[k].error.value != ""
  }

  /** All stored columns and nothing else, by ordinal and then by name. */
  ghost predicate InOrdinalOrder(rows: map<string, ColumnRow>, columns: seq<(int, string)>) {
    && (forall place :: place in columns <==> place.1 in rows && place.0 == rows[place.1].info.ordinal)
    && Increasing(PlaceBefore, columns)
  }

  ghost predicate ShowsColumns(s: Store, format: Format, chunk: Chunk) {
    if Bare(s, format, chunk.key) then chunk.columns == [] else InOrdinalOrder(Columns(s, chunk.key), chunk.columns)
  }

  function ListedKeys(s: Store, database: Option<string>, permits: Option<string -> bool>, format: Format): set<Key> {
    set k | k in s.containers && Listed(s, database, permits, format, k)
  }

  /** The columns the file is to show, each with its container. */
  function ShownColumns(s: Store, database: Option<string>, permits: Option<string -> bool>, format: Format): set<(Key, string)> {
    set k, c | k in ListedKeys(s, database, permits, format) && !Bare(s, format, k) && c in Columns(s, k) :: (k, c)
  }

  /**
   One chunk for each container that has a place, in order of name, none for any other;
   each shows all its columns unless it is bare; and the totals are those of the whole file.
   */
  ghost predicate WholeFile(s: Store, database: Option<string>, permits: Option<string -> bool>, format: Format, r: Outcome) {
    && ChunksAscend(r.file)
    && (forall k :: Listed(s, database, permits, format, k) <==> InFile(r.file, k))
    && (forall i :: 0 <= i < |r.file| ==> ShowsColumns(s, format, r.file[i]))
    && r.containers == |ListedKeys(s, database, permits, format)|
    && r.columns == |ShownColumns(s, database, permits, format)|
  }

  /** What a format makes of one container with all its columns. */
  ghost predicate ChunkTells(s: Store, format: Format, e: Exported, chunk: seq<Chunk>) {
    && (chunk == [] <==> format.DbtYaml? && e.columns == [])
    && (chunk != [] ==> |chunk| == 1 && chunk[0].key == e.key
                        && chunk[0].columns == if Bare(s, format, e.key) then [] else e.columns)
  }

  lemma ChunkOfTells(s: Store, format: Format, e: Exported)
    ensures ChunkTells(s, format, e, ChunkOf(s, format, e))
  {
  }

  ghost predicate KeysAscend(exported: seq<Exported>) {
    forall i, j :: 0 <= i < j < |exported| ==> NameBefore(exported[i].key, exported[j].key)
  }

  ghost predicate ChunksAscend(file: seq<Chunk>) {
    forall i, j :: 0 <= i < j < |file| ==> NameBefore(file[i].key, file[j].key)
  }

  ghost predicate EachFromOne(s: Store, format: Format, exported: seq<Exported>, file: seq<Chunk>) {
    forall i :: 0 <= i < |file| ==> FromOne(s, format, exported, file[i])
  }

  ghost predicate FromOne(s: Store, format: Format, exported: seq<Exported>, chunk: Chunk) {
    exists i :: 0 <= i < |exported| && ChunkTells(s, format, exported[i], [chunk])
  }

  ghost predicate EachInFile(format: Format, exported: seq<Exported>, file: seq<Chunk>) {
    forall i :: 0 <= i < |exported| && !(format.DbtYaml? && exported[i].columns == []) ==> InFile(file, exported[i].key)
  }

  ghost predicate InFile(file: seq<Chunk>, k: Key) {
    exists i :: 0 <= i < |file| && file[i].key == k
  }

  lemma MoreFromOne(s: Store, format: Format, earlier: seq<Exported>, e: Exported, file: seq<Chunk>, more: seq<Chunk>)
    requires EachFromOne(s, format, earlier, file) && ChunkTells(s, format, e, more)
    ensures EachFromOne(s, format, earlier + [e], file + more)
  {
    WhatChunkTells(s, format, e, more);
    hide ChunkTells;
    forall i | 0 <= i < |file + more| ensures FromOne(s, format, earlier + [e], (file + more)[i]) {
      if i < |file| {
        var j :| 0 <= j < |earlier| && ChunkTells(s, format, earlier[j], [file[i]]);
        assert (earlier + [e])[j] == earlier[j];
      } else {
        assert (earlier + [e])[|earlier|] == e && more == [(file + more)[i]];
      }
    }
  }

  lemma MoreInFile(s: Store, format: Format, earlier: seq<Exported>, e: Exported, file: seq<Chunk>, more: seq<Chunk>)
    requires EachInFile(format, earlier, file) && ChunkTells(s, format, e, more)
    ensures EachInFile(format, earlier + [e], file + more)
  {
    WhatChunkTells(s, format, e, more);
    hide ChunkTells;
    var exported := earlier + [e];
    forall i | 0 <= i < |exported| && !(format.DbtYaml? && exported[i].columns == []) ensures InFile(file + more, exported[i].key) {
      if i < |earlier| {
        assert InFile(file, earlier[i].key);
        var j :| 0 <= j < |file| && file[j].key == earlier[i].key;
        assert (file + more)[j] == file[j];
      } else {
        assert (file + more)[|file|] == more[0];
      }
    }
  }

  lemma MoreAscend(s: Store, format: Format, earlier: seq<Exported>, e: Exported, file: seq<Chunk>, more: seq<Chunk>)
    requires ChunksAscend(file) && EachFromOne(s, format, earlier, file) && ChunkTells(s, format, e, more) && KeysAscend(earlier + [e])
    ensures ChunksAscend(file + more)
  {
    WhatChunkTells(s, format, e, more);
    hide ChunkTells, NameBefore;
    forall i | 0 <= i < |file| && more != [] ensures NameBefore(file[i].key, more[0].key) {
      assert FromOne(s, format, earlier, file[i]);
      var j :| 0 <= j < |earlier| && ChunkTells(s, format, earlier[j], [file[i]]);
      WhatChunkTells(s, format, earlier[j], [file[i]]);
      assert (earlier + [e])[j] == earlier[j] && (earlier + [e])[|earlier|] == e;
    }
  }

  /** The chunks of a list of containers: in their order, and each the chunk of one of them. */
  lemma {:induction false} ChunksTell(s: Store, format: Format, exported: seq<Exported>)
    requires KeysAscend(exported)
    ensures
      var file := Chunks(s, format, exported);
      ChunksAscend(file) && EachFromOne(s, format, exported, file) && EachInFile(format, exported, file)
  {
    hide ChunkTells, ChunkOf, ChunksAscend, EachFromOne, EachInFile;
    if exported == [] {
      NoChunks(s, format);
    } else {
      var n := |exported| - 1;
      var earlier, e := exported[..n], exported[n];
      var file, more := Chunks(s, format, earlier), ChunkOf(s, format, e);
      ChunksTell(s, format, earlier);
      ChunkOfTells(s, format, e);
      assert exported == earlier + [e];
      MoreFromOne(s, format, earlier, e, file, more);
      MoreInFile(s, format, earlier, e, file, more);
      MoreAscend(s, format, earlier, e, file, more);
    }
  }

  lemma NoChunks(s: Store, format: Format)
    ensures ChunksAscend([]) && EachFromOne(s, format, [], []) && EachInFile(format, [], [])
  {
  }

  lemma WhatChunkTells(s: Store, format: Format, e: Exported, chunk: seq<Chunk>)
    requires ChunkTells(s, format, e, chunk)
    ensures |chunk| <= 1 && (chunk == [] <==> format.DbtYaml? && e.columns == [])
    ensures chunk != [] ==> chunk == [chunk[0]] && chunk[0].key == e.key
                            && chunk[0].columns == if Bare(s, format, e.key) then [] else e.columns
  {
  }

  /** The places of a chunk's columns, as a set. */
  function PairsOf(chunk: Chunk): set<(Key, string)> {
    set place | place in chunk.columns :: (chunk.key, place.1)
  }

  function Pairs(file: seq<Chunk>): set<(Key, string)> {
    set chunk, place | chunk in file && place in chunk.columns :: (chunk.key, place.1)
  }

  ghost predicate NamesOnce(columns: seq<(int, string)>) {
    forall i, j :: 0 <= i < j < |columns| ==> columns[i].1 != columns[j].1
  }

  lemma {:induction false} PairsOfCount(key: Key, columns: seq<(int, string)>)
    requires NamesOnce(columns)
    ensures |PairsOf(Chunk(key, columns))| == |columns|
  {
    if columns == [] {
      assert PairsOf(Chunk(key, columns)) == {};
    } else {
      var n := |columns| - 1;
      var front := PairsOf(Chunk(key, columns[..n]));
      PairsOfCount(key, columns[..n]);
      assert columns == columns[..n] + [columns[n]];
      assert PairsOf(Chunk(key, columns)) == front + {(key, columns[n].1)};
      assert (key, columns[n].1) !in front;
    }
  }

  ghost predicate KeysDiffer(file: seq<Chunk>) {
    forall i, j :: 0 <= i < j < |file| ==> file[i].key != file[j].key
  }

  lemma FrontDiffers(file: seq<Chunk>)
    requires file != [] && KeysDiffer(file) && forall i :: 0 <= i < |file| ==> NamesOnce(file[i].columns)
    ensures
      var n := |file| - 1;
      && KeysDiffer(file[..n]) && (forall i :: 0 <= i < n ==> NamesOnce(file[..n][i].columns))
      && (forall i :: 0 <= i < n ==> file[..n][i].key != file[n].key)
      && file == file[..n] + [file[n]]
  {
    hide NamesOnce;
  }

  lemma {:induction false} TotalIsPairs(file: seq<Chunk>)
    requires KeysDiffer(file)
    requires forall i :: 0 <= i < |file| ==> NamesOnce(file[i].columns)
    ensures ColumnTotal(file) == |Pairs(file)|
  {
    if file == [] {
      assert Pairs(file) == {};
    } else {
      var n := |file| - 1;
      var last := file[n];
      hide NamesOnce, KeysDiffer, Pairs, PairsOf;
      FrontDiffers(file);
      TotalIsPairs(file[..n]);
      PairsOfCount(last.key, last.columns);
      MorePairs(file[..n], last);
    }
  }

  lemma MorePairs(file: seq<Chunk>, chunk: Chunk)
    requires forall i :: 0 <= i < |file| ==> file[i].key != chunk.key
    ensures Pairs(file + [chunk]) == Pairs(file) + PairsOf(chunk)
    ensures Pairs(file) !! PairsOf(chunk)
  {
    assert forall c :: c in file + [chunk] <==> c in file || c == chunk;
    assert forall c :: c in file ==> c.key != chunk.key;
  }

  lemma AscendingDiffer(file: seq<Chunk>)
    requires ChunksAscend(file)
    ensures KeysDiffer(file)
  {
    KeysOrdered();
    forall i, j | 0 <= i < j < |file| ensures file[i].key != file[j].key {
      assert NameBefore(file[i].key, file[j].key);
    }
  }

  lemma PlacesNamedOnce(rows: map<string, ColumnRow>, columns: seq<(int, string)>)
    requires InOrdinalOrder(rows, columns)
    ensures NamesOnce(columns)
  {
    PlacesOrdered();
    forall i, j | 0 <= i < j < |columns| ensures columns[i].1 != columns[j].1 {
      assert PlaceBefore(columns[i], columns[j]);
      assert columns[i] in columns && columns[j] in columns;
    }
  }

  lemma SortedInOrdinalOrder(rows: map<string, ColumnRow>)
    ensures InOrdinalOrder(rows, SortedColumns(rows))
    ensures SortedColumns(rows) == [] <==> rows == map[]
  {
    PlacesOrdered();
    hide PlaceBefore;
    if rows != map[] {
      var c :| c in rows;
      assert (rows[c].info.ordinal, c) in SortedColumns(rows);
    }
  }

  /** A whole list of containers: the permitted ones in scope, in order, with all their columns. */
  ghost predicate WholeList(s: Store, database: Option<string>, permits: Option<string -> bool>, exported: seq<Exported>) {
    && KeysAscend(exported)
    && (forall i :: 0 <= i < |exported| ==>
          && exported[i].key in ContainerKeys(s, database) && Permitted(permits, exported[i].key)
          && exported[i].columns == SortedColumns(Columns(s, exported[i].key)))
    && forall k :: k in ContainerKeys(s, database) && Permitted(permits, k) ==> Has(exported, k)
  }

  ghost predicate Has(exported: seq<Exported>, k: Key) {
    exists i :: 0 <= i < |exported| && exported[i].key == k
  }

  /** The permitted ones among these keys, in their order, each with all its columns. */
  ghost predicate IsListing(s: Store, permits: Option<string -> bool>, keys: seq<Key>, exported: seq<Exported>) {
    && KeysAscend(exported)
    && (forall i :: 0 <= i < |exported| ==> exported[i].key in keys && Permitted(permits, exported[i].key)
                                            && exported[i].columns == SortedColumns(Columns(s, exported[i].key)))
    && forall k :: k in keys && Permitted(permits, k) ==> Has(exported, k)
  }

  lemma KeyInFront(s: Store, permits: Option<string -> bool>, key: Key, keys: seq<Key>, rest: seq<Exported>)
    requires IsListing(s, permits, keys, rest) && forall k :: k in keys ==> NameBefore(key, k)
    ensures
      var first := if Permitted(permits, key) then [Exported(key, SortedColumns(Columns(s, key)))] else [];
      IsListing(s, permits, [key] + keys, first + rest)
  {
    hide SortedColumns, Columns, NameBefore, Permitted;
    var first := if Permitted(permits, key) then [Exported(key, SortedColumns(Columns(s, key)))] else [];
    var exported := first + rest;
    forall k | k in [key] + keys && Permitted(permits, k) ensures Has(exported, k) {
      if k in keys {
        assert Has(rest, k);
        var i :| 0 <= i < |rest| && rest[i].key == k;
        assert exported[|first| + i] == rest[i];
      } else {
        assert exported[0].key == k;
      }
    }
  }

  lemma {:induction false} EverythingIsListing(s: Store, permits: Option<string -> bool>, keys: seq<Key>)
    requires forall i, j :: 0 <= i < j < |keys| ==> NameBefore(keys[i], keys[j])
    ensures IsListing(s, permits, keys, Everything(s, permits, keys))
  {
    hide SortedColumns, Columns, NameBefore, Permitted;
    if keys != [] {
      EverythingIsListing(s, permits, keys[1..]);
      assert keys == [keys[0]] + keys[1..];
      hide IsListing;
      KeyInFront(s, permits, keys[0], keys[1..], Everything(s, permits, keys[1..]));
    }
  }

  lemma EverythingIsWhole(s: Store, database: Option<string>, permits: Option<string -> bool>)
    ensures WholeList(s, database, permits, Everything(s, permits, SortedContainers(s, database)))
  {
    KeysOrdered();
    var keys := SortedContainers(s, database);
    assert forall k :: k in keys <==> k in ContainerKeys(s, database);
    hide SortedContainers, NameBefore, ContainerKeys, SortedColumns;
    EverythingIsListing(s, permits, keys);
  }

  lemma ChunkShows(s: Store, format: Format, e: Exported, chunk: Chunk)
    requires ChunkTells(s, format, e, [chunk]) && e.columns == SortedColumns(Columns(s, e.key))
    ensures chunk.key == e.key && (format.DbtYaml? ==> Columns(s, e.key) != map[])
    ensures ShowsColumns(s, format, chunk) && NamesOnce(chunk.columns)
  {
    SortedInOrdinalOrder(Columns(s, e.key));
    PlacesNamedOnce(Columns(s, e.key), e.columns);
    WhatChunkTells(s, format, e, [chunk]);
    hide SortedColumns, InOrdinalOrder, ChunkTells, Columns;
  }

  lemma FileKeys(s: Store, database: Option<string>, permits: Option<string -> bool>, format: Format, exported: seq<Exported>, file: seq<Chunk>)
    requires WholeList(s, database, permits, exported)
    requires EachFromOne(s, format, exported, file) && EachInFile(format, exported, file)
    ensures forall i :: 0 <= i < |file| ==> ShowsColumns(s, format, file[i]) && NamesOnce(file[i].columns)
    ensures forall k :: Listed(s, database, permits, format, k) <==> InFile(file, k)
  {
    hide ChunkTells, SortedColumns, ShowsColumns, NamesOnce, ContainerKeys, Permitted, Columns, WholeList, Listed;
    forall i | 0 <= i < |file| ensures ShowsColumns(s, format, file[i]) && NamesOnce(file[i].columns)
      && Listed(s, database, permits, format, file[i].key)
    {
      ChunkIsListed(s, database, permits, format, exported, file[i]);
    }
    forall k | Listed(s, database, permits, format, k) ensures InFile(file, k) {
      ListedIsExported(s, database, permits, format, exported, k);
    }
  }

  lemma ChunkIsListed(s: Store, database: Option<string>, permits: Option<string -> bool>, format: Format, exported: seq<Exported>, chunk: Chunk)
    requires WholeList(s, database, permits, exported) && FromOne(s, format, exported, chunk)
    ensures ShowsColumns(s, format, chunk) && NamesOnce(chunk.columns) && Listed(s, database, permits, format, chunk.key)
  {
    hide ChunkTells, SortedColumns, ShowsColumns, NamesOnce, ContainerKeys, Permitted, Columns, KeysAscend;
    var j :| 0 <= j < |exported| && ChunkTells(s, format, exported[j], [chunk]);
    ChunkShows(s, format, exported[j], chunk);
    ListedIff(s, database, permits, format, chunk.key);
  }

  lemma ListedIsExported(s: Store, database: Option<string>, permits: Option<string -> bool>, format: Format, exported: seq<Exported>, k: Key)
    requires WholeList(s, database, permits, exported) && Listed(s, database, permits, format, k)
    ensures exists i :: 0 <= i < |exported| && exported[i].key == k && !(format.DbtYaml? && exported[i].columns == [])
  {
    hide SortedColumns, ContainerKeys, Permitted, Columns, KeysAscend;
    ListedIff(s, database, permits, format, k);
    assert Has(exported, k);
    var i :| 0 <= i < |exported| && exported[i].key == k;
    SortedInOrdinalOrder(Columns(s, k));
  }

  lemma FileTotals(s: Store, database: Option<string>, permits: Option<string -> bool>, format: Format, file: seq<Chunk>)
    requires ChunksAscend(file) && forall k :: Listed(s, database, permits, format, k) <==> InFile(file, k)
    requires forall i :: 0 <= i < |file| ==> ShowsColumns(s, format, file[i]) && NamesOnce(file[i].columns)
    ensures |file| == |ListedKeys(s, database, permits, format)|
    ensures ColumnTotal(file) == |ShownColumns(s, database, permits, format)|
  {
    AscendingDiffer(file);
    hide NamesOnce, ChunksAscend;
    KeysCount(file);
    TotalIsPairs(file);
    hide ColumnTotal;
    FileIsListed(s, database, permits, format, file);
    PairsAreShown(s, database, permits, format, file);
  }

  lemma FileIsListed(s: Store, database: Option<string>, permits: Option<string -> bool>, format: Format, file: seq<Chunk>)
    requires forall k :: Listed(s, database, permits, format, k) <==> InFile(file, k)
    ensures (set chunk | chunk in file :: chunk.key) == ListedKeys(s, database, permits, format)
  {
    var keys := set chunk | chunk in file :: chunk.key;
    assert forall k :: Listed(s, database, permits, format, k) ==> k in s.containers;
    hide Listed;
    forall k ensures k in keys <==> InFile(file, k) {
      if InFile(file, k) {
        var i :| 0 <= i < |file| && file[i].key == k;
        assert file[i] in file;
      }
    }
  }

  lemma PairsAreShown(s: Store, database: Option<string>, permits: Option<string -> bool>, format: Format, file: seq<Chunk>)
    requires forall k :: Listed(s, database, permits, format, k) <==> InFile(file, k)
    requires forall i :: 0 <= i < |file| ==> ShowsColumns(s, format, file[i])
    ensures Pairs(file) == ShownColumns(s, database, permits, format)
  {
    assert forall k :: k in ListedKeys(s, database, permits, format) <==> Listed(s, database, permits, format, k);
    hide ListedKeys, Listed, Columns, Bare;
    forall pair | pair in Pairs(file) ensures pair in ShownColumns(s, database, permits, format) {
      var chunk, place :| chunk in file && place in chunk.columns && pair == (chunk.key, place.1);
      var i :| 0 <= i < |file| && file[i] == chunk;
      assert ShowsColumns(s, format, file[i]) && InFile(file, chunk.key);
    }
    forall pair | pair in ShownColumns(s, database, permits, format) ensures pair in Pairs(file) {
      var k, c := pair.0, pair.1;
      assert InFile(file, k);
      var i :| 0 <= i < |file| && file[i].key == k;
      assert ShowsColumns(s, format, file[i]);
      assert (Columns(s, k)[c].info.ordinal, c) in file[i].columns && file[i] in file;
    }
  }

  /** Over distinct names and ordinals, the chunks of the walked inventory are the whole file, in every format. */
  lemma ExportIsWhole(s: Store, database: Option<string>, permits: Option<string -> bool>, format: Format, limit: nat, r: Outcome)
    requires limit >= 1 && DistinctNames(s, database)
    requires forall k :: k in ContainerKeys(s, database) ==> DistinctOrdinals(Columns(s, k))
    requires r.file == Chunks(s, format, WithColumns(s, permits, WalkedKeys(s, database, limit), limit))
    requires r.containers == |r.file| && r.columns == ColumnTotal(r.file)
    ensures WholeFile(s, database, permits, format, r)
  {
    PagedEqualsUnpaged(s, database, permits, limit);
    EverythingIsWhole(s, database, permits);
    var exported := Everything(s, permits, SortedContainers(s, database));
    hide Everything, WithColumns, WalkedKeys, SortedContainers, Chunks, ColumnTotal, DistinctNames, DistinctOrdinals, ContainerKeys,
      EachFromOne, EachInFile, ShowsColumns, NamesOnce, Listed, InFile, ChunksAscend, ListedKeys, ShownColumns;
    assert KeysAscend(exported);
    hide WholeList;
    ChunksTell(s, format, exported);
    FileKeys(s, database, permits, format, exported, r.file);
    FileTotals(s, database, permits, format, r.file);
  }

  lemma {:induction false} KeysCount(file: seq<Chunk>)
    requires KeysDiffer(file)
    ensures |set chunk | chunk in file :: chunk.key| == |file|
  {
    var keys := set chunk | chunk in file :: chunk.key;
    if file == [] {
      assert keys == {};
    } else {
      var n := |file| - 1;
      KeysCount(file[..n]);
      assert file == file[..n] + [file[n]];
      var front := set chunk | chunk in file[..n] :: chunk.key;
      assert keys == front + {file[n].key} && file[n].key !in front;
    }
  }

  /** The chunk and the two counts each generator yields with it. */
  method Generate(s: Store, format: Format, e: Exported) returns (chunk: seq<Chunk>, containers: nat, columns: nat)
    ensures chunk == ChunkOf(s, format, e) && containers == |chunk| && columns == ColumnTotal(chunk)
    ensures ChunkTells(s, format, e, chunk)
  {
    match format {
      case Markdown =>
        if HasError(s, e.key) {
          chunk, containers, columns := [Chunk(e.key, [])], 1, 0;
        } else {
          chunk, containers, columns := [Chunk(e.key, e.columns)], 1, |e.columns|;
        }
      case Csv =>
        chunk, containers, columns := [Chunk(e.key, e.columns)], 1, |e.columns|;
      case DbtYaml =>
        if e.columns == [] {
          chunk, containers, columns := [], 0, 0;
        } else {
          chunk, containers, columns := [Chunk(e.key, e.columns)], 1, |e.columns|;
        }
    }
    assert |chunk| == 1 ==> chunk[..0] == [];
  }

  /** The file and the reported totals, which are the sums over what was written. */
  method ExportInventory(s: Store, database: Option<string>, permits: Option<string -> bool>, format: Format, limit: nat)
    returns (r: Outcome)
    requires limit >= 1 && !StuckOnEmptyName(s, database, limit)
    ensures r.file == Chunks(s, format, WithColumns(s, permits, WalkedKeys(s, database, limit), limit))
    ensures r.containers == |r.file| && r.columns == ColumnTotal(r.file)
    ensures DistinctNames(s, database) && (forall k :: k in ContainerKeys(s, database) ==> DistinctOrdinals(Columns(s, k))) ==>
      WholeFile(s, database, permits, format, r)
  {
    hide WithColumns, WalkedKeys, ChunkOf, WholeFile, DistinctNames, DistinctOrdinals;
    var exported := WalkInventory(s, database, permits, limit);
    var file: seq<Chunk>, containers: nat, columns: nat := [], 0, 0;
    for i := 0 to |exported|
      invariant file == Chunks(s, format, exported[..i])
      invariant containers == |file| && columns == ColumnTotal(file)
    {
      assert exported[..i + 1][..i] == exported[..i];
      var chunk, moreContainers, moreColumns := Generate(s, format, exported[i]);
      TotalsAdd(file, chunk);
      file := file + chunk;
      containers := containers + moreContainers;
      columns := columns + moreColumns;
    }
    assert exported[..|exported|] == exported;
    r := Outcome(file, containers, columns);
    if DistinctNames(s, database) && forall k :: k in ContainerKeys(s, database) ==> DistinctOrdinals(Columns(s, k)) {
      ExportIsWhole(s, database, permits, format, limit, r);
    }
  }

  lemma {:induction false} TotalsAdd(a: seq<Chunk>, b: seq<Chunk>)
    ensures ColumnTotal(a + b) == ColumnTotal(a) + ColumnTotal(b)
  {
    if b == [] {
      assert a + b == a;
    } else {
      assert (a + b)[..|a + b| - 1] == a + b[..|b| - 1];
      TotalsAdd(a, b[..|b| - 1]);
    }
  }

  /** Two containers of one name and nothing else: pages of one lose one of them, and its columns, from the file. */
  lemma SameNameIsLost(s: Store, a: Key, b: Key)
    requires s.containers.Keys == {a, b} && a != b && a.container == b.container
    ensures |WalkedKeys(s, None, 1)| < |SortedContainers(s, None)| == 2
  {
    hide Walk, Before, NameBefore;
    KeysOrdered();
    var rows := SortedContainers(s, None);
    assert ContainerKeys(s, None) == {a, b};
    assert rows[0] in {a, b} && rows[1] in {a, b};
    ContainersInNameOrder(s, None);
    WalkCompleteIffUnsplit(ContainerName, Before, rows, None, 1);
    BeforeTotal(a.container, a.container);
    assert FullPages(1, 1);
    assert !Before(ContainerName(rows[0]), ContainerName(rows[1]));
  }
}
