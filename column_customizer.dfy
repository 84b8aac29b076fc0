/** components/column-customizer.tsx: showing and hiding a column, and
    renaming a column's label. A hidden column comes back at its place in
    the order of the label object's keys.
 */
module ColumnCustomizer {
  import opened Scan
  import opened Objects

  function Other(column: string): string -> bool {
    c => c != column
  }

  function VisibleOr(visible: seq<string>, column: string): string -> bool {
    c => c in visible || c == column
  }

  /** `handleColumnToggle(column)`: the new list of visible columns. */
  function Toggle(visible: seq<string>, headers: Obj<string>, column: string): seq<string> {
    if column in visible then Filter(visible, Other(column))
    else Filter(Keys(headers), VisibleOr(visible, column))
  }

  /** `handleHeaderChange(column, newHeader)`: the new label object. */
  function Rename(headers: Obj<string>, column: string, newHeader: string): Obj<string> {
    Put(headers, column, newHeader)
  }

  /** Hiding a visible column removes every occurrence of it and keeps every
      other column as often as it was there, in the order they were in. */
  lemma HideSpec(visible: seq<string>, headers: Obj<string>, column: string)
    requires column in visible
    ensures var r := Toggle(visible, headers, column);
      column !in r
      && (forall c :: c != column ==> multiset(r)[c] == multiset(visible)[c])
      && Subsequence(r, visible)
      && |r| == |visible| - multiset(visible)[column]
  {
    var r := Toggle(visible, headers, column);
    FilterSpec(visible, Other(column));
    FilterCount(visible, column);
  }

  /** Hiding a column that is shown once closes the gap it leaves: the
      columns before it and after it stay as they were. */
  lemma HideOne(before: seq<string>, column: string, after: seq<string>, headers: Obj<string>)
    requires column !in before && column !in after
    ensures Toggle(before + [column] + after, headers, column) == before + after
  {
    assert column in before + [column] + after;
    FilterOut(before, column, after, Other(column));
  }

  /** A filter that drops one value shortens the list by its count. */
  lemma {:induction false} FilterCount(s: seq<string>, column: string)
    ensures |Filter(s, Other(column))| == |s| - multiset(s)[column]
    decreases |s|
  {
    if |s| > 0 {
      FilterCount(s[1..], column);
      assert s == [s[0]] + s[1..];
      assert multiset(s) == multiset{s[0]} + multiset(s[1..]);
    }
  }

  /** Showing a hidden column gives the label object's keys, in their
      order, that were visible or are that column: the column comes back
      only when it has a label entry, and a visible column without one is
      dropped. */
  lemma ShowSpec(visible: seq<string>, headers: Obj<string>, column: string)
    requires column !in visible
    ensures var r := Toggle(visible, headers, column);
      (forall c :: c in r <==> c in Keys(headers) && (c in visible || c == column))
      && (column in r <==> column in Keys(headers))
      && Subsequence(r, Keys(headers))
      && |r| <= |Keys(headers)|
  {
    FilterSpec(Keys(headers), VisibleOr(visible, column));
  }

  /** When the visible columns are in the order of the label keys, hiding a
      column and showing it again gives the same list back. */
  lemma HideThenShow(visible: seq<string>, headers: Obj<string>, column: string)
    requires column in visible
    requires visible == Filter(Keys(headers), c => c in visible)
    ensures Toggle(Toggle(visible, headers, column), headers, column) == visible
  {
    var hidden := Toggle(visible, headers, column);
    FilterSpec(visible, Other(column));
    assert column !in hidden;
    FilterAgrees(Keys(headers), VisibleOr(hidden, column), c => c in visible);
  }

  /** A rename sets that column's label and leaves every other label, and
      the order of the labels, as they were; a column without a label gets
      one at the end. */
  lemma RenameSpec(headers: Obj<string>, column: string, newHeader: string)
    ensures var r := Rename(headers, column, newHeader);
      Lookup(r, column) == Some(newHeader)
      && (forall k :: k != column ==> Lookup(r, k) == Lookup(headers, k))
      && Keys(r) == if column in Keys(headers) then Keys(headers) else Keys(headers) + [column]
  {
    PutSpec(headers, column, newHeader);
  }
}
