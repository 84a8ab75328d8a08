/**
 What an annotation leaves behind and what it answers, said of the texts, levels and
 positions it was given rather than of the functions that write them.
 */
module Annotating {
  import opened Wrappers
  import opened Contracts
  import opened Tables
  import opened Text

  /** The text stored for a description: its core, or none where it is nothing but white space. */
  ghost predicate Cleans(given: string, stored: Option<string>) {
    if AllSpace(given) then stored.None? else stored.Some? && IsCore(given, stored.value)
  }

  lemma BlankToNoneCleans(given: string)
    ensures Cleans(given, BlankToNone(given))
  {
    StripLeavesCore(given);
    hide Strip;
  }

  /** This description, by this writer at this time. */
  ghost predicate Says(written: Option<Writing>, given: string, source: Source, now: Time) {
    written.Some? && Cleans(given, written.value.text) && written.value.source == source && written.value.at == now
  }

  predicate Describes(a: Annotation, c: string) { a.column == c && a.description.Some? }

  predicate Levels(a: Annotation, c: string) { a.column == c && a.sensitivity.Some? }

  /** The i-th annotation is the last to describe this column. */
  predicate LastToDescribe(annotations: seq<Annotation>, i: nat, c: string) {
    i < |annotations| && Describes(annotations[i], c) && forall j :: i < j < |annotations| ==> !Describes(annotations[j], c)
  }

  predicate LastToLevel(annotations: seq<Annotation>, i: nat, c: string) {
    i < |annotations| && Levels(annotations[i], c) && forall j :: i < j < |annotations| ==> !Levels(annotations[j], c)
  }

  /** A column's row: the last description and the last level given for it, and nothing else. */
  ghost predicate ColumnNoted(row: ColumnRow, after: ColumnRow, c: string, annotations: seq<Annotation>, source: Source, now: Time) {
    && after == row.(written := after.written, sensitivity := after.sensitivity)
    && (forall i: nat :: LastToDescribe(annotations, i, c) ==> Says(after.written, annotations[i].description.value, source, now))
    && ((forall i :: 0 <= i < |annotations| ==> !Describes(annotations[i], c)) ==> after.written == row.written)
    && (forall i: nat :: LastToLevel(annotations, i, c) ==> after.sensitivity == Some(Level(annotations[i].sensitivity.value, source)))
    && ((forall i :: 0 <= i < |annotations| ==> !Levels(annotations[i], c)) ==> after.sensitivity == row.sensitivity)
  }

  ghost predicate RowsNoted(rows: map<string, ColumnRow>, after: map<string, ColumnRow>, annotations: seq<Annotation>,
                            source: Source, now: Time)
  {
    after.Keys == rows.Keys && forall c :: c in rows ==> ColumnNoted(rows[c], after[c], c, annotations, source, now)
  }

  /** The container's own row: the description given for it, if any, and nothing else. */
  ghost predicate ContainerNoted(row: ContainerRow, after: ContainerRow, description: Option<string>, source: Source, now: Time) {
    && after == row.(written := after.written)
    && (description.None? ==> after == row)
    && (description.Some? ==> Says(after.written, description.value, source, now))
  }

  /** An unknown container is left alone; of a known one only its own rows change, as told. */
  ghost predicate Noted(s: Store, t: Store, k: Key, description: Option<string>, annotations: seq<Annotation>, source: Source, now: Time) {
    && t.scans == s.scans && t.changes == s.changes && t.containers.Keys == s.containers.Keys
    && (forall other :: other != k ==> SameRows(s, t, other))
    && (k !in s.containers ==> t == s)
    && (k in s.containers ==>
          && ContainerNoted(s.containers[k], t.containers[k], description, source, now)
          && RowsNoted(Columns(s, k), Columns(t, k), annotations, source, now))
  }

  lemma {:induction false} DescriptionForIsLast(annotations: seq<Annotation>, c: string)
    ensures forall i: nat :: LastToDescribe(annotations, i, c) ==> DescriptionFor(annotations, c) == annotations[i].description
    ensures DescriptionFor(annotations, c).None? <==> forall i :: 0 <= i < |annotations| ==> !Describes(annotations[i], c)
  {
    if annotations != [] {
      var n := |annotations| - 1;
      DescriptionForIsLast(annotations[..n], c);
      assert forall i: nat :: LastToDescribe(annotations, i, c) && i < n ==> LastToDescribe(annotations[..n], i, c);
      assert forall i :: 0 <= i < n ==> annotations[..n][i] == annotations[i];
    }
  }

  lemma {:induction false} SensitivityForIsLast(annotations: seq<Annotation>, c: string)
    ensures forall i: nat :: LastToLevel(annotations, i, c) ==> SensitivityFor(annotations, c) == annotations[i].sensitivity
    ensures SensitivityFor(annotations, c).None? <==> forall i :: 0 <= i < |annotations| ==> !Levels(annotations[i], c)
  {
    if annotations != [] {
      var n := |annotations| - 1;
      SensitivityForIsLast(annotations[..n], c);
      assert forall i: nat :: LastToLevel(annotations, i, c) && i < n ==> LastToLevel(annotations[..n], i, c);
      assert forall i :: 0 <= i < n ==> annotations[..n][i] == annotations[i];
    }
  }

  lemma RowIsNoted(row: ColumnRow, c: string, annotations: seq<Annotation>, source: Source, now: Time)
    ensures ColumnNoted(row, Annotated(c, row, annotations, source, now), c, annotations, source, now)
  {
    hide DescriptionFor, SensitivityFor, BlankToNone, Cleans;
    DescriptionForIsLast(annotations, c);
    SensitivityForIsLast(annotations, c);
    if DescriptionFor(annotations, c).Some? { BlankToNoneCleans(DescriptionFor(annotations, c).value); }
  }

  lemma RowsAreNoted(rows: map<string, ColumnRow>, annotations: seq<Annotation>, source: Source, now: Time)
    ensures RowsNoted(rows, AnnotateColumns(rows, annotations, source, now), annotations, source, now)
  {
    hide Annotated, ColumnNoted;
    forall c | c in rows ensures ColumnNoted(rows[c], Annotated(c, rows[c], annotations, source, now), c, annotations, source, now) {
      RowIsNoted(rows[c], c, annotations, source, now);
    }
  }

  lemma ContainerIsNoted(row: ContainerRow, description: Option<string>, source: Source, now: Time)
    ensures ContainerNoted(row, AnnotateContainer(row, description, source, now), description, source, now)
  {
    hide BlankToNone, Cleans;
    if description.Some? { BlankToNoneCleans(description.value); }
  }

  /** What is given is what is stored: cleaned, signed, dated, the last one given where several are. */
  lemma AnnotateNotes(s: Store, k: Key, description: Option<string>, annotations: seq<Annotation>, source: Source, now: Time)
    ensures Noted(s, Annotate(s, k, description, annotations, source, now), k, description, annotations, source, now)
  {
    hide AnnotateContainer, AnnotateColumns, ContainerNoted, RowsNoted;
    if k in s.containers {
      ContainerIsNoted(s.containers[k], description, source, now);
      RowsAreNoted(Columns(s, k), annotations, source, now);
      NoRows(annotations, source, now);
    }
  }

  lemma NoRows(annotations: seq<Annotation>, source: Source, now: Time)
    ensures AnnotateColumns(map[], annotations, source, now) == map[]
  {
  }

  // ---- the answer ----

  predicate Updates(known: set<string>, a: Annotation) {
    a.column in known && (a.description.Some? || a.sensitivity.Some?)
  }

  /** The annotations, by position, that write to a known column. */
  function Updating(known: set<string>, annotations: seq<Annotation>): set<nat> {
    set i: nat | i < |annotations| && Updates(known, annotations[i])
  }

  lemma OneMoreUpdating(known: set<string>, annotations: seq<Annotation>, n: nat)
    requires |annotations| == n + 1
    ensures n !in Updating(known, annotations[..n])
    ensures Updating(known, annotations) == Updating(known, annotations[..n]) + if Updates(known, annotations[n]) then {n} else {}
  {
    hide Updates;
  }

  /** The reported number of columns is the number of annotations that write to a known one. */
  lemma {:induction false} UpdatesAreCounted(known: set<string>, annotations: seq<Annotation>)
    ensures CountUpdates(known, annotations) == |Updating(known, annotations)|
  {
    if annotations == [] {
      assert Updating(known, annotations) == {};
    } else {
      var n := |annotations| - 1;
      UpdatesAreCounted(known, annotations[..n]);
      OneMoreUpdating(known, annotations, n);
      hide Updating;
    }
  }

  /** These positions, in order, are those of the annotations that name an unknown column. */
  ghost predicate AreUnknown(at: seq<nat>, known: set<string>, annotations: seq<Annotation>, unknown: seq<string>) {
    && |at| == |unknown|
    && (forall i, j :: 0 <= i < j < |at| ==> at[i] < at[j])
    && (forall i :: 0 <= i < |at| ==> at[i] < |annotations| && annotations[at[i]].column == unknown[i] && unknown[i] !in known)
    && (forall p: nat :: p < |annotations| && annotations[p].column !in known ==> p in at)
  }

  lemma OneMoreAnnotation(at: seq<nat>, known: set<string>, earlier: seq<Annotation>, unknown: seq<string>, last: Annotation)
    requires AreUnknown(at, known, earlier, unknown)
    ensures if last.column in known then AreUnknown(at, known, earlier + [last], unknown)
            else AreUnknown(at + [|earlier|], known, earlier + [last], unknown + [last.column])
  {
    if last.column !in known {
      var more := at + [|earlier|];
      assert forall p: nat :: p in at ==> p in more;
      assert more[|at|] == |earlier|;
    }
  }

  /** The reported unknown columns are those the annotations name that are not there, in the order they are named. */
  lemma {:induction false} UnknownAreListed(known: set<string>, annotations: seq<Annotation>) returns (at: seq<nat>)
    ensures AreUnknown(at, known, annotations, UnknownColumns(known, annotations))
  {
    at := [];
    if annotations != [] {
      var n := |annotations| - 1;
      at := UnknownAreListed(known, annotations[..n]);
      hide AreUnknown;
      OneMoreAnnotation(at, known, annotations[..n], UnknownColumns(known, annotations[..n]), annotations[n]);
      assert annotations[..n] + [annotations[n]] == annotations;
      if annotations[n].column !in known {
        at := at + [n];
      } else {
        assert UnknownColumns(known, annotations[..n]) + [] == UnknownColumns(known, annotations[..n]);
      }
    }
  }
}
