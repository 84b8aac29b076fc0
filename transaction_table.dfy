/** components/transaction-table.tsx: the sort state a column header click
    moves through, and the rows the table displays: a copy of the
    transactions, sorted in place by the comparator when a sort is set.

    The comparator compares the two rows' values with `<` and `>`. Two
    strings compare by their characters in order, a prefix first; two
    numbers by value. `Sorted` is the functional specification of sorting
    the copy; the method is an insertion sort on an array, proved to
    compute it.
 */
module TransactionTable {
  import opened Scan
  import opened Objects
  import Numbers

  datatype Direction = Asc | Desc

  /** A set `sortConfig`. */
  datatype SortKey = SortKey(key: string, direction: Direction)

  /** `handleSort(key)`: the next sort state. */
  function NextSort(current: Option<SortKey>, key: string): Option<SortKey> {
    if current.Some? && current.value.key == key then
      (if current.value.direction == Asc then Some(SortKey(key, Desc)) else None)
    else Some(SortKey(key, Asc))
  }

  /** A click on a new column sorts it ascending; clicks on the same column
      go ascending, descending, unsorted, and back, so three clicks on it
      restore any state that sorts by it or not at all. */
  lemma NextSortCycle(current: Option<SortKey>, key: string)
    ensures current.None? || current.value.key != key ==> NextSort(current, key) == Some(SortKey(key, Asc))
    ensures current == Some(SortKey(key, Asc)) ==> NextSort(current, key) == Some(SortKey(key, Desc))
    ensures current == Some(SortKey(key, Desc)) ==> NextSort(current, key) == None
    ensures current.None? || current.value.key == key ==>
      NextSort(NextSort(NextSort(current, key), key), key) == current
  {
  }

  /** `a < b` for two strings: by characters in order, a proper prefix first. */
  predicate StrLess(a: string, b: string)
    decreases |a|
  {
    if |b| == 0 then false
    else if |a| == 0 then true
    else if a[0] != b[0] then a[0] < b[0]
    else StrLess(a[1..], b[1..])
  }

  lemma {:induction false} StrLessAsym(a: string, b: string)
    ensures StrLess(a, b) ==> !StrLess(b, a)
    decreases |a|
  {
    if |a| > 0 && |b| > 0 && a[0] == b[0] {
      StrLessAsym(a[1..], b[1..]);
    }
  }

  lemma {:induction false} StrLessTrans(a: string, b: string, c: string)
    ensures StrLess(a, b) && StrLess(b, c) ==> StrLess(a, c)
    decreases |a|
  {
    if |a| > 0 && |b| > 0 && |c| > 0 && a[0] == b[0] && b[0] == c[0] {
      StrLessTrans(a[1..], b[1..], c[1..]);
    }
  }

  lemma {:induction false} StrLessTotal(a: string, b: string)
    ensures a == b || StrLess(a, b) || StrLess(b, a)
    decreases |a|
  {
    if |a| > 0 && |b| > 0 && a[0] == b[0] {
      StrLessTotal(a[1..], b[1..]);
      if a[1..] == b[1..] {
        assert a == [a[0]] + a[1..] && b == [b[0]] + b[1..];
      }
    }
  }

  /** `a < b` for two cells. Between a string and a number, or with
      `undefined` or `null`, neither is taken to be smaller. */
  predicate Less(a: Cell, b: Cell) {
    match (a, b)
    case (Str(x), Str(y)) => StrLess(x, y)
    case (Num(x), Num(y)) => Numbers.Value(x) < Numbers.Value(y)
    case _ => false
  }

  /** The kind of a cell, for the rows a column can be sorted on. */
  function Kind(c: Cell): nat {
    match c
    case Str(_) => 0
    case Num(_) => 1
    case _ => 2
  }

  /** The comparator passed to `sort`. */
  function Compare(k: SortKey, a: Row, b: Row): int {
    var x, y := Get(a, k.key), Get(b, k.key);
    if Less(x, y) then (if k.direction == Asc then -1 else 1)
    else if Less(y, x) then (if k.direction == Asc then 1 else -1)
    else 0
  }

  /** Every row holds the same kind of value in the sorted column. */
  predicate Comparable(key: string, s: seq<Row>) {
    forall a, b :: a in s && b in s ==> Kind(Get(a, key)) == Kind(Get(b, key))
  }

  /** No row is placed after one it should precede. */
  predicate Ordered(k: SortKey, s: seq<Row>) {
    forall i, j :: 0 <= i < j < |s| ==> Compare(k, s[i], s[j]) <= 0
  }

  lemma LessAsym(x: Cell, y: Cell)
    ensures Less(x, y) ==> !Less(y, x)
  {
    if x.Str? && y.Str? {
      StrLessAsym(x.s, y.s);
    }
  }

  /** On values of one kind, "not smaller" is transitive. */
  lemma NotLessTrans(x: Cell, y: Cell, z: Cell)
    requires Kind(x) == Kind(y) == Kind(z)
    ensures !Less(y, x) && !Less(z, y) ==> !Less(z, x)
  {
    if x.Str? {
      StrLessTotal(x.s, y.s);
      StrLessTotal(y.s, z.s);
      StrLessTrans(z.s, x.s, y.s);
      StrLessTrans(y.s, z.s, x.s);
    }
  }

  /** On rows of one kind the comparator is a total preorder. */
  lemma CompareOrder(k: SortKey, a: Row, b: Row, c: Row)
    requires Kind(Get(a, k.key)) == Kind(Get(b, k.key)) == Kind(Get(c, k.key))
    ensures Compare(k, a, b) > 0 ==> Compare(k, b, a) <= 0
    ensures Compare(k, a, b) <= 0 && Compare(k, b, c) <= 0 ==> Compare(k, a, c) <= 0
  {
    var x, y, z := Get(a, k.key), Get(b, k.key), Get(c, k.key);
    LessAsym(x, y);
    LessAsym(y, z);
    LessAsym(x, z);
    if k.direction == Asc {
      NotLessTrans(x, y, z);
    } else {
      NotLessTrans(z, y, x);
    }
  }

  /** `x` placed into `s` after every row it does not precede. */
  function Insert(k: SortKey, s: seq<Row>, x: Row): seq<Row>
    decreases |s|
  {
    if |s| == 0 || Compare(k, s[|s| - 1], x) <= 0 then s + [x]
    else Insert(k, s[..|s| - 1], x) + [s[|s| - 1]]
  }

  /** The rows of `s` sorted by `k`, the earlier of two equal rows first. */
  function Sorted(k: SortKey, s: seq<Row>): seq<Row>
    decreases |s|
  {
    if |s| == 0 then [] else Insert(k, Sorted(k, s[..|s| - 1]), s[|s| - 1])
  }

  /** `sortedTransactions`. */
  function Displayed(config: Option<SortKey>, transactions: seq<Row>): seq<Row> {
    if config.None? then transactions else Sorted(config.value, transactions)
  }

  lemma {:induction false} InsertPerm(k: SortKey, s: seq<Row>, x: Row)
    ensures multiset(Insert(k, s, x)) == multiset(s) + multiset{x}
    decreases |s|
  {
    if |s| > 0 && Compare(k, s[|s| - 1], x) > 0 {
      var n := |s| - 1;
      InsertPerm(k, s[..n], x);
      assert s == s[..n] + [s[n]];
    }
  }

  /** Every row of `s` may precede `y`. */
  predicate AllBefore(k: SortKey, s: seq<Row>, y: Row) {
    forall a :: a in s ==> Compare(k, a, y) <= 0
  }

  lemma AppendOrdered(k: SortKey, s: seq<Row>, y: Row)
    requires Ordered(k, s) && AllBefore(k, s, y)
    ensures Ordered(k, s + [y])
  {
    var r := s + [y];
    forall i, j | 0 <= i < j < |r| ensures Compare(k, r[i], r[j]) <= 0 {
      if j == |s| {
        assert r[i] == s[i] && s[i] in s;
      } else {
        assert r[i] == s[i] && r[j] == s[j];
      }
    }
  }

  lemma ComparableSub(key: string, s: seq<Row>, t: seq<Row>)
    requires Comparable(key, t)
    requires forall a :: a in s ==> a in t
    ensures Comparable(key, s)
  {
  }

  lemma {:induction false} InsertOrdered(k: SortKey, s: seq<Row>, x: Row)
    requires Ordered(k, s) && Comparable(k.key, s + [x])
    ensures Ordered(k, Insert(k, s, x))
    decreases |s|
  {
    if |s| == 0 {
    } else {
      var n := |s| - 1;
      var init, last := s[..n], s[n];
      assert s == init + [last];
      assert last in s + [x] && x in s + [x];
      if Compare(k, last, x) <= 0 {
        forall a | a in s ensures Compare(k, a, x) <= 0 {
          if a != last {
            var i :| 0 <= i < |s| && s[i] == a;
            assert a in s + [x];
            CompareOrder(k, a, last, x);
          }
        }
        AppendOrdered(k, s, x);
      } else {
        ComparableSub(k.key, init + [x], s + [x]);
        assert Ordered(k, init);
        InsertOrdered(k, init, x);
        InsertPerm(k, init, x);
        var ins := Insert(k, init, x);
        CompareOrder(k, last, x, x);
        forall a | a in ins ensures Compare(k, a, last) <= 0 {
          assert a in multiset(ins);
          if a != x {
            assert a in multiset(init);
            var i :| 0 <= i < n && init[i] == a;
            assert s[i] == a;
          }
        }
        AppendOrdered(k, ins, last);
      }
    }
  }

  /** Sorting the copy rearranges the rows without adding, dropping or
      repeating any; when the column holds one kind of value throughout,
      the rows come out in non-decreasing order of it for "asc" and
      non-increasing order for "desc". */
  lemma {:induction false} SortedSpec(k: SortKey, s: seq<Row>)
    ensures multiset(Sorted(k, s)) == multiset(s) && |Sorted(k, s)| == |s|
    ensures Comparable(k.key, s) ==> Ordered(k, Sorted(k, s))
    decreases |s|
  {
    if |s| > 0 {
      var n := |s| - 1;
      var t := Sorted(k, s[..n]);
      assert multiset(t) == multiset(s[..n]) && |t| == n && (Comparable(k.key, s[..n]) ==> Ordered(k, t)) by {
        SortedSpec(k, s[..n]);
      }
      assert multiset(Sorted(k, s)) == multiset(s) && |Sorted(k, s)| == |s| by {
        InsertPerm(k, t, s[n]);
        assert s == s[..n] + [s[n]];
      }
      if Comparable(k.key, s) {
        assert Comparable(k.key, s[..n]) by {
          ComparableSub(k.key, s[..n], s);
        }
        assert Comparable(k.key, t + [s[n]]) by {
          ComparableLast(k.key, s, t);
        }
        InsertOrdered(k, t, s[n]);
      }
    }
  }

  /** A rearrangement of all but the last row, followed by the last row,
      holds rows of the same kinds as the whole. */
  lemma ComparableLast(key: string, s: seq<Row>, t: seq<Row>)
    requires |s| > 0 && Comparable(key, s) && multiset(t) == multiset(s[..|s| - 1])
    ensures Comparable(key, t + [s[|s| - 1]])
  {
    var n := |s| - 1;
    forall a | a in t + [s[n]] ensures a in s {
      if a != s[n] {
        assert a in multiset(t);
        assert a in multiset(s[..n]);
        var i :| 0 <= i < n && s[..n][i] == a;
        assert s[i] == a;
      }
    }
    ComparableSub(key, t + [s[n]], s);
  }

  /** What the table shows: with no sort set, the transactions in their
      own order; with one, a permutation of them that, for a column of one
      kind, is non-decreasing ("asc") or non-increasing ("desc") in it. */
  lemma DisplayedSpec(config: Option<SortKey>, transactions: seq<Row>)
    ensures config.None? ==> Displayed(config, transactions) == transactions
    ensures multiset(Displayed(config, transactions)) == multiset(transactions)
    ensures config.Some? && Comparable(config.value.key, transactions) ==>
      var r, key := Displayed(config, transactions), config.value.key;
      (config.value.direction == Asc ==> forall i, j :: 0 <= i < j < |r| ==> !Less(Get(r[j], key), Get(r[i], key)))
      && (config.value.direction == Desc ==> forall i, j :: 0 <= i < j < |r| ==> !Less(Get(r[i], key), Get(r[j], key)))
  {
    if config.Some? {
      var k := config.value;
      SortedSpec(k, transactions);
      if Comparable(k.key, transactions) {
        var r := Sorted(k, transactions);
        forall i, j | 0 <= i < j < |r| ensures
          (k.direction == Asc ==> !Less(Get(r[j], k.key), Get(r[i], k.key)))
          && (k.direction == Desc ==> !Less(Get(r[i], k.key), Get(r[j], k.key)))
        {
          assert Compare(k, r[i], r[j]) <= 0;
          LessAsym(Get(r[i], k.key), Get(r[j], k.key));
        }
      }
    }
  }

  /** `x` goes in at `j` when the row before `j` does not follow it and every
      row from `j` on does. */
  lemma {:induction false} InsertAtGap(k: SortKey, s: seq<Row>, x: Row, j: nat)
    requires j <= |s|
    requires j == 0 || Compare(k, s[j - 1], x) <= 0
    requires forall m :: j <= m < |s| ==> Compare(k, s[m], x) > 0
    ensures Insert(k, s, x) == s[..j] + [x] + s[j..]
    decreases |s| - j
  {
    if j < |s| {
      var init := s[..|s| - 1];
      assert Compare(k, s[|s| - 1], x) > 0;
      assert init[..j] == s[..j];
      assert forall m :: j <= m < |init| ==> init[m] == s[m];
      InsertAtGap(k, init, x, j);
      assert s[j..] == init[j..] + [s[|s| - 1]];
    }
  }

  /** Moves `a[i]` into the sorted prefix `a[..i]`. */
  method InsertAt(a: array<Row>, i: nat, k: SortKey)
    requires i < a.Length
    modifies a
    ensures a[..i + 1] == Insert(k, old(a[..i]), old(a[i]))
    ensures a[i + 1..] == old(a[i + 1..])
  {
    ghost var s := a[..i];
    ghost var rest := a[i + 1..];
    var x := a[i];
    var j := i;
    while j > 0 && Compare(k, a[j - 1], x) > 0
      invariant 0 <= j <= i
      invariant a[..j] == s[..j]
      invariant a[j + 1..i + 1] == s[j..]
      invariant a[i + 1..] == rest
      invariant forall m :: j <= m < i ==> Compare(k, s[m], x) > 0
      decreases j
    {
      assert a[j - 1] == s[j - 1] by { assert a[..j][j - 1] == s[..j][j - 1]; }
      a[j] := a[j - 1];
      assert a[..j - 1] == s[..j - 1];
      assert a[j..i + 1] == [s[j - 1]] + s[j..];
      assert s[j - 1..] == [s[j - 1]] + s[j..];
      j := j - 1;
    }
    assert j > 0 ==> a[j - 1] == s[j - 1] by {
      if j > 0 { assert a[..j][j - 1] == s[..j][j - 1]; }
    }
    InsertAtGap(k, s, x, j);
    a[j] := x;
    assert a[..i + 1] == a[..j] + [x] + a[j + 1..i + 1];
  }

  /** Sorting one more row inserts it into the sorted prefix. */
  lemma SortedStep(k: SortKey, s: seq<Row>, i: nat)
    requires i < |s|
    ensures Sorted(k, s[..i + 1]) == Insert(k, Sorted(k, s[..i]), s[i])
  {
    assert s[..i + 1][..i] == s[..i];
  }

  /** `sorted.sort(comparator)` on the copy. */
  method SortInPlace(a: array<Row>, k: SortKey)
    modifies a
    ensures a[..] == Sorted(k, old(a[..]))
  {
    ghost var input := a[..];
    var i := 0;
    while i < a.Length
      invariant 0 <= i <= a.Length
      invariant a[..i] == Sorted(k, input[..i])
      invariant a[i..] == input[i..]
    {
      assert a[i] == input[i] by {
        assert a[i..][0] == input[i..][0];
      }
      SortedStep(k, input, i);
      InsertAt(a, i, k);
      i := i + 1;
    }
    assert a[..] == a[..i] && input == input[..i];
  }

  /** `sortedTransactions`: a fresh copy of the transactions, sorted when a
      sort is set; the transactions themselves are left as they were. */
  method SortedTransactions(transactions: array<Row>, config: Option<SortKey>) returns (sorted: array<Row>)
    ensures fresh(sorted)
    ensures sorted[..] == Displayed(config, transactions[..])
  {
    sorted := new Row[transactions.Length](i requires 0 <= i < transactions.Length reads transactions => transactions[i]);
    assert sorted[..] == transactions[..];
    if config.Some? {
      SortInPlace(sorted, config.value);
    }
  }
}
