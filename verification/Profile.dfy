/**
 Column statistics taken batch by batch, against the statistics of the whole column.

 A cell is a value or null; how values compare and print are parameters.
 */
module Profile {
  import opened Wrappers
  import opened Ordering
  import opened Contracts

  type Cell<V> = Option<V>

  const MAX_PROFILE_ROWS: nat := 5_000_000
  const DEFAULT_TOP_N: nat := 20

  const UNKNOWN := ProfileResult(None, None, None, None, None, false)

  /** The whole column. */
  function Flat<V>(batches: seq<seq<V>>): seq<V> {
    if batches == [] then [] else Flat(batches[..|batches| - 1]) + batches[|batches| - 1]
  }

  lemma FlatGrows<V>(batches: seq<seq<V>>, i: nat)
    requires i < |batches|
    ensures Flat(batches[..i + 1]) == Flat(batches[..i]) + batches[i]
  {
    assert batches[..i + 1][..i] == batches[..i];
  }

  // ---- nulls ----

  function Nulls<V>(column: seq<Cell<V>>): nat {
    if column == [] then 0
    else Nulls(column[..|column| - 1]) + if column[|column| - 1].None? then 1 else 0
  }

  lemma {:induction false} NullsAdd<V>(a: seq<Cell<V>>, b: seq<Cell<V>>)
    ensures Nulls(a + b) == Nulls(a) + Nulls(b)
  {
    if b == [] {
      assert a + b == a;
    } else {
      assert (a + b)[..|a + b| - 1] == a + b[..|b| - 1];
      NullsAdd(a, b[..|b| - 1]);
    }
  }

  /** The share of nulls in the whole column; of no rows, no ratio. */
  function NullRatio<V>(column: seq<Cell<V>>): Option<real> {
    if column == [] then None else Some(Nulls(column) as real / |column| as real)
  }

  lemma {:induction false} NullsAreCounted<V>(column: seq<Cell<V>>)
    ensures Nulls(column) == multiset(column)[None]
  {
    if column != [] {
      var n := |column| - 1;
      NullsAreCounted(column[..n]);
      assert column == column[..n] + [column[n]];
    }
  }

  method ProfileNullRatio<V(==)>(batches: seq<seq<Cell<V>>>) returns (r: ProfileResult)
    ensures r == UNKNOWN.(nullRatio := NullRatio(Flat(batches)))
    ensures
      var column := Flat(batches);
      r.nullRatio == if column == [] then None else Some(multiset(column)[None] as real / |column| as real)
  {
    NullsAreCounted(Flat(batches));
    var total, nulls := 0, 0;
    for i := 0 to |batches|
      invariant total == |Flat(batches[..i])| && nulls == Nulls(Flat(batches[..i]))
    {
      FlatGrows(batches, i);
      NullsAdd(Flat(batches[..i]), batches[i]);
      total := total + |batches[i]|;
      nulls := nulls + Nulls(batches[i]);
    }
    assert batches[..|batches|] == batches;
    r := UNKNOWN.(nullRatio := if total != 0 then Some(nulls as real / total as real) else None);
  }

  // ---- bounds ----

  /** m is a value of the column with none before it, or there is no value. */
  ghost predicate IsBound<V(!new)>(before: (V, V) -> bool, column: seq<Cell<V>>, m: Option<V>) {
    match m
    case None => forall v :: Some(v) !in column
    case Some(b) => Some(b) in column && forall v :: Some(v) in column ==> v == b || before(b, v)
  }

  function Flip<V>(lt: (V, V) -> bool): (V, V) -> bool {
    (a, b) => lt(b, a)
  }

  /** One batch's bound, as the engine gives it. */
  function BatchBound<V(==)>(before: (V, V) -> bool, batch: seq<Cell<V>>): Option<V> {
    if batch == [] then None else Nearer(before, BatchBound(before, batch[..|batch| - 1]), batch[|batch| - 1])
  }

  function Nearer<V(==)>(before: (V, V) -> bool, bound: Option<V>, next: Option<V>): Option<V> {
    if next.Some? && (bound.None? || before(next.value, bound.value)) then next else bound
  }

  lemma NearerBounds<V(!new)>(before: (V, V) -> bool, a: seq<Cell<V>>, b: seq<Cell<V>>, ma: Option<V>, mb: Option<V>)
    requires StrictTotal(before) && IsBound(before, a, ma) && IsBound(before, b, mb)
    ensures IsBound(before, a + b, Nearer(before, ma, mb))
  {
  }

  lemma {:induction false} BatchBounds<V(!new)>(before: (V, V) -> bool, batch: seq<Cell<V>>)
    requires StrictTotal(before)
    ensures IsBound(before, batch, BatchBound(before, batch))
  {
    if batch != [] {
      var n := |batch| - 1;
      BatchBounds(before, batch[..n]);
      assert batch == batch[..n] + [batch[n]];
      NearerBounds(before, batch[..n], [batch[n]], BatchBound(before, batch[..n]), batch[n]);
    }
  }

  ghost predicate IsMinMax<V(!new)>(lt: (V, V) -> bool, text: V -> string, column: seq<Cell<V>>, r: ProfileResult) {
    exists lo, hi ::
      && IsBound(lt, column, lo) && IsBound(Flip(lt), column, hi)
      && r == UNKNOWN.(minValue := r.minValue, maxValue := r.maxValue)
      && (if lo.None? then r.minValue.None? else r.minValue == Some(text(lo.value)))
      && (if hi.None? then r.maxValue.None? else r.maxValue == Some(text(hi.value)))
  }

  /** The least and the greatest value of the whole column, in text. */
  method ProfileMinMax<V(==, !new)>(batches: seq<seq<Cell<V>>>, lt: (V, V) -> bool, text: V -> string)
    returns (r: ProfileResult)
    requires StrictTotal(lt)
    ensures IsMinMax(lt, text, Flat(batches), r)
  {
    var lo: Option<V>, hi: Option<V> := None, None;
    for i := 0 to |batches|
      invariant IsBound(lt, Flat(batches[..i]), lo) && IsBound(Flip(lt), Flat(batches[..i]), hi)
    {
      FlatGrows(batches, i);
      var batchLo, batchHi := BatchBound(lt, batches[i]), BatchBound(Flip(lt), batches[i]);
      BatchBounds(lt, batches[i]);
      BatchBounds(Flip(lt), batches[i]);
      NearerBounds(lt, Flat(batches[..i]), batches[i], lo, batchLo);
      NearerBounds(Flip(lt), Flat(batches[..i]), batches[i], hi, batchHi);
      if batchLo.Some? && (lo.None? || lt(batchLo.value, lo.value)) {
        lo := batchLo;
      }
      if batchHi.Some? && (hi.None? || lt(hi.value, batchHi.value)) {
        hi := batchHi;
      }
    }
    assert batches[..|batches|] == batches;
    r := UNKNOWN.(minValue := if lo.None? then None else Some(text(lo.value)),
                  maxValue := if hi.None? then None else Some(text(hi.value)));
  }

  // ---- counts ----

  /** The cells as they are met, each once, behind those already known. */
  function Extended<V(==)>(known: seq<Cell<V>>, cells: seq<Cell<V>>): seq<Cell<V>> {
    if cells == [] then known
    else
      var n := |cells| - 1;
      var earlier := Extended(known, cells[..n]);
      if cells[n] in earlier then earlier else earlier + [cells[n]]
  }

  /** The different cells, in the order they first appear. */
  function Different<V(==)>(cells: seq<Cell<V>>): seq<Cell<V>> {
    Extended([], cells)
  }

  lemma {:induction false} ExtendedHas<V(!new)>(known: seq<Cell<V>>, cells: seq<Cell<V>>)
    ensures known <= Extended(known, cells)
    ensures forall c :: c in Extended(known, cells) <==> c in known || c in cells
  {
    if cells != [] {
      var n := |cells| - 1;
      ExtendedHas(known, cells[..n]);
      assert cells == cells[..n] + [cells[n]];
    }
  }

  lemma {:induction false} ExtendedOnce<V(!new)>(known: seq<Cell<V>>, cells: seq<Cell<V>>)
    requires forall i, j :: 0 <= i < j < |known| ==> known[i] != known[j]
    ensures forall i, j :: 0 <= i < j < |Extended(known, cells)| ==> Extended(known, cells)[i] != Extended(known, cells)[j]
  {
    if cells != [] { ExtendedOnce(known, cells[..|cells| - 1]); }
  }

  lemma {:induction false} ExtendedJoins<V>(known: seq<Cell<V>>, a: seq<Cell<V>>, b: seq<Cell<V>>)
    ensures Extended(known, a + b) == Extended(Extended(known, a), b)
  {
    if b == [] {
      assert a + b == a;
    } else {
      var n := |b| - 1;
      assert (a + b)[..|a + b| - 1] == a + b[..n];
      ExtendedJoins(known, a, b[..n]);
    }
  }

  /** Meeting a batch's different cells is meeting the batch. */
  lemma {:induction false} ExtendedByDifferent<V(!new)>(known: seq<Cell<V>>, batch: seq<Cell<V>>)
    ensures Extended(known, Different(batch)) == Extended(known, batch)
  {
    if batch != [] {
      var n := |batch| - 1;
      var earlier := Different(batch[..n]);
      ExtendedByDifferent(known, batch[..n]);
      ExtendedHas([], batch[..n]);
      ExtendedHas(known, batch[..n]);
      if batch[n] !in earlier {
        assert (earlier + [batch[n]])[..|earlier|] == earlier;
      }
    }
  }

  /** Where a cell first is; the length of the column if it is not there. */
  function FirstAt<V(==)>(column: seq<Cell<V>>, c: Cell<V>): (i: nat)
    ensures i <= |column| && (i < |column| ==> column[i] == c) && c !in column[..i]
    ensures c in column ==> i < |column|
  {
    if column == [] || column[0] == c then 0 else 1 + FirstAt(column[1..], c)
  }

  lemma {:induction false} FirstStays<V>(column: seq<Cell<V>>, more: seq<Cell<V>>, c: Cell<V>)
    ensures c in column ==> FirstAt(column + more, c) == FirstAt(column, c)
    ensures c !in column ==> FirstAt(column + more, c) >= |column|
  {
    if column == [] {
      assert column + more == more;
    } else {
      assert (column + more)[1..] == column[1..] + more && (column + more)[0] == column[0];
      FirstStays(column[1..], more, c);
    }
  }

  /** So the different cells stand in the order of their first places. */
  lemma {:induction false} DifferentInOrder<V(!new)>(column: seq<Cell<V>>, i: nat, j: nat)
    requires i < j < |Different(column)|
    ensures FirstAt(column, Different(column)[i]) < FirstAt(column, Different(column)[j]) < |column|
  {
    var n := |column| - 1;
    var earlier := Different(column[..n]);
    assert column == column[..n] + [column[n]];
    ExtendedHas([], column[..n]);
    assert earlier[i] in column[..n];
    FirstStays(column[..n], [column[n]], earlier[i]);
    if j < |earlier| {
      DifferentInOrder(column[..n], i, j);
      FirstStays(column[..n], [column[n]], earlier[j]);
    } else {
      FirstStays(column[..n], [column[n]], column[n]);
    }
  }

  /** A Counter: a number for each key, and the keys in the order they were first put in. */
  datatype Counter<!V(==)> = Counter(keys: seq<Cell<V>>, counts: map<Cell<V>, nat>)

  /** The counter is that of this column. */
  ghost predicate Tallies<V(!new)>(counter: Counter<V>, column: seq<Cell<V>>) {
    && counter.keys == Different(column)
    && forall c :: (c in counter.counts <==> c in column) && (c in counter.counts ==> counter.counts[c] == multiset(column)[c])
  }

  /** How many batches are read: the fewest that reach the bound, or all. */
  function Enough<V>(batches: seq<seq<V>>, bound: nat, done: nat): (n: nat)
    requires done <= |batches|
    ensures done <= n <= |batches|
    ensures n < |batches| ==> |Flat(batches[..n])| >= bound
    ensures forall j :: done <= j < n ==> |Flat(batches[..j])| < bound
    decreases |batches| - done
  {
    if done == |batches| || |Flat(batches[..done])| >= bound then done else Enough(batches, bound, done + 1)
  }

  /** The part of the column that is counted. */
  function Read<V>(batches: seq<seq<V>>): seq<V> {
    Flat(batches[..Enough(batches, MAX_PROFILE_ROWS, 0)])
  }

  lemma {:induction false} FlatNotShorter<V>(batches: seq<seq<V>>, i: nat)
    requires i <= |batches|
    ensures |Flat(batches[..i])| <= |Flat(batches)|
  {
    if i < |batches| {
      FlatNotShorter(batches[..|batches| - 1], i);
      assert batches[..|batches| - 1][..i] == batches[..i];
    } else {
      assert batches[..i] == batches;
    }
  }

  /** Short of the bound, everything is read; a longer column is cut at the first batch that reaches it. */
  lemma ReadsAllOrReachesBound<V>(batches: seq<seq<V>>)
    ensures |Flat(batches)| < MAX_PROFILE_ROWS ==> Read(batches) == Flat(batches)
    ensures |Flat(batches)| >= MAX_PROFILE_ROWS ==> |Read(batches)| >= MAX_PROFILE_ROWS
  {
    var n := Enough(batches, MAX_PROFILE_ROWS, 0);
    FlatNotShorter(batches, n);
    if n == |batches| { assert batches[..n] == batches; }
  }

  method CountValues<V(==, !new)>(batches: seq<seq<Cell<V>>>) returns (counter: Counter<V>, approximate: bool)
    ensures Tallies(counter, Read(batches))
    ensures approximate <==> |Flat(batches)| >= MAX_PROFILE_ROWS
  {
    counter := Counter([], map[]);
    approximate := false;
    var scanned := 0;
    var i := 0;
    assert batches[..0] == [];
    while i < |batches|
      invariant i <= |batches| && scanned == |Flat(batches[..i])| && !approximate
      invariant scanned < MAX_PROFILE_ROWS
      invariant Tallies(counter, Flat(batches[..i]))
      invariant Enough(batches, MAX_PROFILE_ROWS, 0) == Enough(batches, MAX_PROFILE_ROWS, i)
    {
      FlatGrows(batches, i);
      counter := AddBatch(counter, batches[i], Flat(batches[..i]));
      scanned := scanned + |batches[i]|;
      i := i + 1;
      if scanned >= MAX_PROFILE_ROWS {
        approximate := true;
        break;
      }
    }
    FlatNotShorter(batches, i);
    if !approximate { assert batches[..i] == batches; }
  }

  /** One batch's counts, added to the running ones. */
  method AddBatch<V(==, !new)>(before: Counter<V>, batch: seq<Cell<V>>, ghost column: seq<Cell<V>>)
    returns (counter: Counter<V>)
    requires Tallies(before, column)
    ensures Tallies(counter, column + batch)
  {
    hide Extended, Different;
    DifferentHas(column);
    counter := before;
    var values := Different(batch);
    DifferentHas(batch);
    KeysNone(before.keys, values);
    var met := multiset(batch);
    ghost var known := before.counts;
    for j := 0 to |values|
      invariant counter.keys == Extended(before.keys, values[..j])
      invariant forall c :: c in counter.counts <==> c in known || c in values[..j]
      invariant forall c :: c in counter.counts ==>
        counter.counts[c] == (if c in known then known[c] else 0) + if c in values[..j] then met[c] else 0
    {
      var value := values[j];
      KeysStep(before.keys, values, j);
      if value in counter.counts {
        counter := counter.(counts := counter.counts[value := counter.counts[value] + met[value]]);
      } else {
        counter := Counter(counter.keys + [value], counter.counts[value := met[value]]);
      }
    }
    assert values[..|values|] == values;
    KeysJoin(column, batch);
  }

  lemma DifferentHas<V(!new)>(cells: seq<Cell<V>>)
    ensures forall c :: c in Different(cells) <==> c in cells
    ensures forall i, j :: 0 <= i < j < |Different(cells)| ==> Different(cells)[i] != Different(cells)[j]
  {
    ExtendedHas([], cells);
    ExtendedOnce([], cells);
  }

  lemma KeysNone<V>(known: seq<Cell<V>>, values: seq<Cell<V>>)
    ensures Extended(known, values[..0]) == known
  {
  }

  lemma KeysStep<V(!new)>(known: seq<Cell<V>>, values: seq<Cell<V>>, j: nat)
    requires j < |values|
    ensures
      var earlier := Extended(known, values[..j]);
      && (values[j] in earlier <==> values[j] in known || values[j] in values[..j])
      && Extended(known, values[..j + 1]) == if values[j] in earlier then earlier else earlier + [values[j]]
  {
    ExtendedHas(known, values[..j]);
    assert values[..j + 1][..j] == values[..j];
  }

  lemma KeysJoin<V(!new)>(column: seq<Cell<V>>, batch: seq<Cell<V>>)
    ensures Extended(Different(column), Different(batch)) == Different(column + batch)
  {
    ExtendedByDifferent(Different(column), batch);
    ExtendedJoins([], column, batch);
  }

  // ---- what the counts say ----

  function DistinctCount<V(==)>(column: seq<Cell<V>>): nat {
    |set c | c in column && c.Some?|
  }

  /** A cell's standing: its count, its text, and its place among the different cells. */
  datatype Rank = Rank(count: nat, text: string, place: nat)

  /** Most frequent first, then by text; cells that print alike stay in the order they first appeared. */
  predicate RankBefore(a: Rank, b: Rank) {
    || a.count > b.count
    || (a.count == b.count && (Before(a.text, b.text) || (a.text == b.text && a.place < b.place)))
  }

  lemma RanksOrdered()
    ensures StrictTotal(RankBefore)
  {
    forall a: Rank, b: Rank ensures !RankBefore(a, a) && (a == b || RankBefore(a, b) || RankBefore(b, a)) {
      BeforeTotal(a.text, b.text);
      BeforeTotal(a.text, a.text);
    }
    forall a: Rank, b: Rank, c: Rank | RankBefore(a, b) && RankBefore(b, c) ensures RankBefore(a, c) {
      hide Before;
      if Before(a.text, b.text) && Before(b.text, c.text) { BeforeTransitive(a.text, b.text, c.text); }
    }
  }

  function RankAt<V(==)>(text: Cell<V> -> string, column: seq<Cell<V>>, place: nat): Rank
    requires place < |Different(column)|
  {
    var c := Different(column)[place];
    Rank(multiset(column)[c], text(c), place)
  }

  /** The different cells of the column, best first. */
  function Ranked<V(==)>(text: Cell<V> -> string, column: seq<Cell<V>>): (ranked: seq<Rank>)
    ensures forall r :: r in ranked <==> r.place < |Different(column)| && r == RankAt(text, column, r.place)
    ensures Increasing(RankBefore, ranked)
  {
    RanksOrdered();
    SortSet(RankBefore, set place | 0 <= place < |Different(column)| :: RankAt(text, column, place))
  }

  function Top<T>(ranked: seq<T>): (top: seq<T>)
    ensures top <= ranked
  {
    if |ranked| <= DEFAULT_TOP_N then ranked else ranked[..DEFAULT_TOP_N]
  }

  /** A null is counted like a value, and shown as the empty text. */
  function ShownTop<V>(cells: seq<Cell<V>>, top: seq<Rank>): seq<TopValue>
    requires forall r :: r in top ==> r.place < |cells|
  {
    seq(|top|, i requires 0 <= i < |top| => TopValue(if cells[top[i].place].None? then "" else top[i].text, top[i].count))
  }

  function TopValues<V(==)>(text: Cell<V> -> string, column: seq<Cell<V>>): seq<TopValue> {
    var ranked := Ranked(text, column);
    assert forall r :: r in Top(ranked) ==> r in ranked;
    ShownTop(Different(column), Top(ranked))
  }

  /** The statistic of one column, read as a whole. */
  function CountProfile<V(==)>(text: Cell<V> -> string, column: seq<Cell<V>>, mode: ProfileMode, approximate: bool): ProfileResult {
    if mode.DistinctCount? then UNKNOWN.(distinctCount := Some(DistinctCount(column)), approximate := approximate)
    else UNKNOWN.(topValues := Some(TopValues(text, column)), approximate := approximate)
  }

  /** More frequent, or as frequent and earlier by text, or printed alike and met first. */
  predicate Outranks<V(==)>(text: Cell<V> -> string, column: seq<Cell<V>>, a: Cell<V>, b: Cell<V>) {
    var m, n := multiset(column)[a], multiset(column)[b];
    m > n || (m == n && (Before(text(a), text(b)) || (text(a) == text(b) && FirstAt(column, a) < FirstAt(column, b))))
  }

  /** These cells, best first, with their texts and counts; a null is shown as the empty text. */
  ghost predicate Shows<V(!new)>(text: Cell<V> -> string, column: seq<Cell<V>>, cells: seq<Cell<V>>, shown: seq<TopValue>) {
    && |shown| == |cells| <= DEFAULT_TOP_N
    && (forall i :: 0 <= i < |cells| ==>
          cells[i] in column && shown[i] == TopValue(if cells[i].None? then "" else text(cells[i]), multiset(column)[cells[i]]))
    && (forall i, j :: 0 <= i < j < |cells| ==> Outranks(text, column, cells[i], cells[j]))
    && forall c :: c in column && c !in cells ==> |cells| == DEFAULT_TOP_N && forall i :: 0 <= i < |cells| ==> Outranks(text, column, cells[i], c)
  }

  /** The top of a column: its best cells, no more than fit, and all that fit. */
  ghost predicate IsTop<V(!new)>(text: Cell<V> -> string, column: seq<Cell<V>>, shown: seq<TopValue>) {
    exists cells :: Shows(text, column, cells, shown)
  }

  lemma RankBeforeOutranks<V(!new)>(text: Cell<V> -> string, column: seq<Cell<V>>, i: nat, j: nat)
    requires i < |Different(column)| && j < |Different(column)| && RankBefore(RankAt(text, column, i), RankAt(text, column, j))
    ensures Outranks(text, column, Different(column)[i], Different(column)[j])
  {
    if i < j { DifferentInOrder(column, i, j); }
    hide FirstAt, Different, Before;
  }

  lemma TopValuesAreTop<V(!new)>(text: Cell<V> -> string, column: seq<Cell<V>>)
    ensures IsTop(text, column, TopValues(text, column))
  {
    hide RankBefore, Outranks, Different, Ranked;
    var ranked, different := Ranked(text, column), Different(column);
    var top := Top(ranked);
    TopIsOfColumn(text, column);
    DifferentHas(column);
    assert forall t :: t in top ==> t in ranked;
    var cells := seq(|top|, i requires 0 <= i < |top| => different[top[i].place]);
    forall i | 0 <= i < |cells| ensures top[i] in top && top[i] == RankAt(text, column, top[i].place) && cells[i] in column {
      assert top[i] in ranked;
    }
    forall i, j | 0 <= i < j < |cells| ensures Outranks(text, column, cells[i], cells[j]) {
      assert ranked[i] == top[i] && ranked[j] == top[j];
      RankBeforeOutranks(text, column, top[i].place, top[j].place);
    }
    forall c | c in column && c !in cells
      ensures |cells| == DEFAULT_TOP_N && forall i :: 0 <= i < |cells| ==> Outranks(text, column, cells[i], c)
    {
      var place :| 0 <= place < |different| && different[place] == c;
      TopIsTop(text, column, place);
      var rank := RankAt(text, column, place);
      forall i | 0 <= i < |top| ensures top[i] != rank {
        assert cells[i] in cells;
      }
      forall i | 0 <= i < |cells| ensures Outranks(text, column, cells[i], c) {
        assert top[i] in top;
        RankBeforeOutranks(text, column, top[i].place, place);
      }
    }
    assert Shows(text, column, cells, TopValues(text, column));
  }

  lemma TalliesDistinct<V(!new)>(counter: Counter<V>, column: seq<Cell<V>>)
    requires Tallies(counter, column)
    ensures |counter.counts| - (if None in counter.counts then 1 else 0) == DistinctCount(column)
  {
    var values := set c | c in column && c.Some?;
    if None in counter.counts {
      assert counter.counts.Keys == values + {None};
    } else {
      assert counter.counts.Keys == values;
    }
  }

  lemma RankedOnce<V>(text: Cell<V> -> string, column: seq<Cell<V>>, ranked: seq<Rank>)
    requires Increasing(RankBefore, ranked)
    requires forall r :: r in ranked <==> r.place < |Different(column)| && r == RankAt(text, column, r.place)
    ensures ranked == Ranked(text, column)
  {
    hide RankBefore, Different;
    RanksOrdered();
    SortedOnce(RankBefore, ranked, Ranked(text, column));
  }

  /** The items of the counter, as `sorted` with a stable key orders them. */
  method SortItems<V(==, !new)>(counter: Counter<V>, text: Cell<V> -> string, ghost column: seq<Cell<V>>) returns (ranked: seq<Rank>)
    requires Tallies(counter, column)
    ensures ranked == Ranked(text, column)
  {
    hide Different, RankBefore;
    RanksOrdered();
    DifferentHas(column);
    var keys, counts := counter.keys, counter.counts;
    assert forall i :: 0 <= i < |keys| ==> keys[i] in counts;
    var items := set i | 0 <= i < |keys| :: Rank(counts[keys[i]], text(keys[i]), i);
    ranked := SortSet(RankBefore, items);
    assert forall i :: 0 <= i < |keys| ==> Rank(counts[keys[i]], text(keys[i]), i) == RankAt(text, column, i);
    forall r ensures r in items <==> r.place < |keys| && r == RankAt(text, column, r.place) {
      if r.place < |keys| { assert Rank(counts[keys[r.place]], text(keys[r.place]), r.place) in items; }
    }
    assert forall r :: r in ranked <==> r in items;
    RankedOnce(text, column, ranked);
  }

  /**
   Both counting modes, over any batches: the statistic of everything read, which
   is the whole column exactly when the answer is not marked approximate.
   */
  method ProfileCounts<V(==, !new)>(batches: seq<seq<Cell<V>>>, mode: ProfileMode, text: Cell<V> -> string)
    returns (r: ProfileResult)
    requires mode.DistinctCount? || mode.TopValues?
    ensures r == CountProfile(text, Read(batches), mode, |Flat(batches)| >= MAX_PROFILE_ROWS)
    ensures !r.approximate ==> r == CountProfile(text, Flat(batches), mode, false)
    ensures r.approximate <==> |Flat(batches)| >= MAX_PROFILE_ROWS
    ensures mode.DistinctCount? ==>
      r == UNKNOWN.(distinctCount := Some(|set c | c in Read(batches) && c.Some?|), approximate := r.approximate)
    ensures mode.TopValues? ==>
      r == UNKNOWN.(topValues := r.topValues, approximate := r.approximate)
      && r.topValues.Some? && IsTop(text, Read(batches), r.topValues.value)
  {
    TopValuesAreTop(text, Read(batches));
    hide IsTop, Ranked, Tallies, Different, Read, Flat, ShownTop;
    var counter, approximate := CountValues(batches);
    ReadsAllOrReachesBound(batches);
    if mode.DistinctCount? {
      TalliesDistinct(counter, Read(batches));
      return UNKNOWN.(distinctCount := Some(|counter.counts| - if None in counter.counts then 1 else 0), approximate := approximate);
    }
    var ranked := SortItems(counter, text, Read(batches));
    assert forall r :: r in Top(ranked) ==> r in ranked;
    r := UNKNOWN.(topValues := Some(ShownTop(counter.keys, Top(ranked))), approximate := approximate);
  }

  /**
   Every different cell of the column is among the top, with its count, or ranks
   after all of a full top: those are more frequent, or as frequent and earlier by
   text, or print alike and appeared first.
   */
  lemma TopIsTop<V(!new)>(text: Cell<V> -> string, column: seq<Cell<V>>, place: nat)
    requires place < |Different(column)|
    ensures
      var top, rank := Top(Ranked(text, column)), RankAt(text, column, place);
      || rank in top
      || (|top| == DEFAULT_TOP_N && forall t :: t in top ==> RankBefore(t, rank))
  {
    var ranked, rank := Ranked(text, column), RankAt(text, column, place);
    assert rank in ranked;
    var i :| 0 <= i < |ranked| && ranked[i] == rank;
    if i >= DEFAULT_TOP_N {
      forall t | t in Top(ranked) ensures RankBefore(t, rank) {
        var j :| 0 <= j < DEFAULT_TOP_N && Top(ranked)[j] == t;
        assert RankBefore(ranked[j], ranked[i]);
      }
    } else if |ranked| > DEFAULT_TOP_N {
      assert Top(ranked)[i] == rank;
    }
  }

  /** The top names cells of the column only, each once, with the number of times it occurs. */
  lemma TopIsOfColumn<V(!new)>(text: Cell<V> -> string, column: seq<Cell<V>>)
    ensures
      var top := Top(Ranked(text, column));
      && (forall t :: t in top ==> t.place < |Different(column)|)
      && (forall t :: t in top ==> t.count == multiset(column)[Different(column)[t.place]] > 0)
      && forall i, j :: 0 <= i < j < |top| ==> Different(column)[top[i].place] != Different(column)[top[j].place]
  {
    var ranked := Ranked(text, column);
    var top := Top(ranked);
    hide Different, RankBefore;
    RanksOrdered();
    DifferentHas(column);
    forall t | t in top ensures t.place < |Different(column)| && t.count == multiset(column)[Different(column)[t.place]] > 0 {
      assert t in ranked && Different(column)[t.place] in column;
    }
    forall i, j | 0 <= i < j < |top| ensures top[i].place != top[j].place {
      assert RankBefore(ranked[i], ranked[j]);
      assert top[i] in ranked && top[j] in ranked;
    }
  }
}
