/** Plain JavaScript objects and arrays as the front-end components use them.

    An object is its list of properties in insertion order, which is the
    order `Object.keys` reports for the non-numeric keys the components use.
    Assigning to a property that exists keeps its place; assigning to a new
    one appends it. A transaction row is such an object whose values are
    strings or numbers.
 */
module Objects {
  import opened Scan
  import Numbers

  /** An object: its properties in insertion order. */
  type Obj<V> = seq<(string, V)>

  /** `Object.keys(o)`. */
  function Keys<V>(o: Obj<V>): (r: seq<string>)
    ensures |r| == |o|
    ensures forall i :: 0 <= i < |o| ==> r[i] == o[i].0
  {
    seq(|o|, i requires 0 <= i < |o| => o[i].0)
  }

  predicate Distinct(ks: seq<string>) {
    forall i, j :: 0 <= i < j < |ks| ==> ks[i] != ks[j]
  }

  /** `o[k]`, or None when `o` has no property `k`. */
  function Lookup<V>(o: Obj<V>, k: string): Option<V>
    decreases |o|
  {
    if |o| == 0 then None
    else if o[0].0 == k then Some(o[0].1)
    else Lookup(o[1..], k)
  }

  /** `o[k] = v` on a copy of `o`. */
  function Put<V>(o: Obj<V>, k: string, v: V): Obj<V>
    decreases |o|
  {
    if |o| == 0 then [(k, v)]
    else if o[0].0 == k then [(k, v)] + o[1..]
    else [o[0]] + Put(o[1..], k, v)
  }

  lemma {:induction false} LookupPresent<V>(o: Obj<V>, k: string)
    ensures Lookup(o, k).Some? <==> k in Keys(o)
    decreases |o|
  {
    if |o| > 0 {
      LookupPresent(o[1..], k);
      assert Keys(o) == [o[0].0] + Keys(o[1..]);
    }
  }

  lemma {:induction false} PutOther<V>(o: Obj<V>, k: string, v: V, k': string)
    requires k' != k
    ensures Lookup(Put(o, k, v), k') == Lookup(o, k')
    decreases |o|
  {
    if |o| > 0 && o[0].0 != k {
      PutOther(o[1..], k, v, k');
    }
  }

  lemma KeysCons<V>(o: Obj<V>)
    requires |o| > 0
    ensures Keys(o) == [o[0].0] + Keys(o[1..])
  {
    assert forall i :: 0 < i < |o| ==> Keys(o)[i] == Keys(o[1..])[i - 1];
  }

  lemma {:induction false} PutKeys<V>(o: Obj<V>, k: string, v: V)
    ensures Keys(Put(o, k, v)) == if k in Keys(o) then Keys(o) else Keys(o) + [k]
    decreases |o|
  {
    if |o| > 0 {
      var p := Put(o, k, v);
      KeysCons(o);
      KeysCons(p);
      if o[0].0 == k {
        assert p[1..] == o[1..];
        assert k in Keys(o);
      } else {
        PutKeys(o[1..], k, v);
        assert p[1..] == Put(o[1..], k, v);
        assert k in Keys(o) <==> k in Keys(o[1..]);
      }
    }
  }

  /** An assignment sets its own property, leaves every other property as it
      was, and adds a key only when the key is new, at the end. */
  lemma PutSpec<V>(o: Obj<V>, k: string, v: V)
    ensures Lookup(Put(o, k, v), k) == Some(v)
    ensures forall k' :: k' != k ==> Lookup(Put(o, k, v), k') == Lookup(o, k')
    ensures Keys(Put(o, k, v)) == if k in Keys(o) then Keys(o) else Keys(o) + [k]
  {
    PutKeys(o, k, v);
    forall k' | k' != k ensures Lookup(Put(o, k, v), k') == Lookup(o, k') {
      PutOther(o, k, v, k');
    }
  }

  /** The names the columns `cols` get under `name`, in order. */
  function Renamed(cols: seq<string>, name: string -> string): (r: seq<string>)
    ensures |r| == |cols|
  {
    seq(|cols|, i requires 0 <= i < |cols| => name(cols[i]))
  }

  /** `cols.reduce((acc, col) => { acc[name(col)] = value(col); return acc }, {})`. */
  function Gather<V>(cols: seq<string>, name: string -> string, value: string -> V): Obj<V>
    decreases |cols|
  {
    if |cols| == 0 then []
    else
      var last := cols[|cols| - 1];
      Put(Gather(cols[..|cols| - 1], name, value), name(last), value(last))
  }

  lemma {:induction false} GatherKeys<V>(cols: seq<string>, name: string -> string, value: string -> V)
    ensures Distinct(Keys(Gather(cols, name, value)))
    ensures forall k :: k in Keys(Gather(cols, name, value)) <==> k in Renamed(cols, name)
    decreases |cols|
  {
    if |cols| > 0 {
      var n := |cols| - 1;
      var init, last := cols[..n], cols[n];
      var g := Gather(init, name, value);
      var ks, r := Keys(g), Renamed(init, name);
      GatherKeys(init, name, value);
      var all := Keys(Gather(cols, name, value));
      assert all == if name(last) in ks then ks else ks + [name(last)] by {
        PutKeys(g, name(last), value(last));
      }
      assert Distinct(all);
      assert Renamed(cols, name) == r + [name(last)];
      assert forall k :: k in all <==> k in ks || k == name(last);
    }
  }

  lemma {:induction false} GatherLast<V>(cols: seq<string>, name: string -> string, value: string -> V, i: nat)
    requires i < |cols|
    requires forall j :: i < j < |cols| ==> name(cols[j]) != name(cols[i])
    ensures Lookup(Gather(cols, name, value), name(cols[i])) == Some(value(cols[i]))
    decreases |cols|
  {
    var n := |cols| - 1;
    var init, last := cols[..n], cols[n];
    var prev := Gather(init, name, value);
    if i == n {
      PutSpec(prev, name(last), value(last));
    } else {
      assert cols[i] == init[i];
      assert forall j :: i < j < n ==> name(init[j]) != name(init[i]) by {
        forall j | i < j < n ensures name(init[j]) != name(init[i]) {
          assert init[j] == cols[j];
        }
      }
      GatherLast(init, name, value, i);
      PutOther(prev, name(last), value(last), name(cols[i]));
    }
  }

  lemma {:induction false} GatherOrder<V>(cols: seq<string>, name: string -> string, value: string -> V)
    requires Distinct(Renamed(cols, name))
    ensures Keys(Gather(cols, name, value)) == Renamed(cols, name)
    decreases |cols|
  {
    if |cols| > 0 {
      var n := |cols| - 1;
      var init, last := cols[..n], cols[n];
      var ri, rc := Renamed(init, name), Renamed(cols, name);
      assert rc == ri + [name(last)];
      assert Distinct(ri) by {
        forall a, b | 0 <= a < b < n ensures ri[a] != ri[b] {
          assert ri[a] == rc[a] && ri[b] == rc[b];
        }
      }
      assert name(last) !in ri by {
        forall a | 0 <= a < n ensures ri[a] != name(last) {
          assert ri[a] == rc[a] && rc[n] == name(last);
        }
      }
      GatherOrder(init, name, value);
      PutKeys(Gather(init, name, value), name(last), value(last));
    }
  }

  /** The gathered object has one key per distinct name, in the order the
      names first occur; a key holds the value of the last column that has
      that name. When the names are distinct the keys are the names in
      column order. */
  lemma GatherSpec<V>(cols: seq<string>, name: string -> string, value: string -> V)
    ensures var r := Gather(cols, name, value);
      Distinct(Keys(r))
      && (forall k :: k in Keys(r) <==> k in Renamed(cols, name))
      && (forall i :: 0 <= i < |cols| && (forall j :: i < j < |cols| ==> name(cols[j]) != name(cols[i])) ==>
            Lookup(r, name(cols[i])) == Some(value(cols[i])))
      && (Distinct(Renamed(cols, name)) ==> Keys(r) == Renamed(cols, name))
  {
    GatherKeys(cols, name, value);
    forall i | 0 <= i < |cols| && (forall j :: i < j < |cols| ==> name(cols[j]) != name(cols[i]))
      ensures Lookup(Gather(cols, name, value), name(cols[i])) == Some(value(cols[i]))
    {
      GatherLast(cols, name, value, i);
    }
    if Distinct(Renamed(cols, name)) {
      GatherOrder(cols, name, value);
    }
  }

  /** `s.filter(keep)`. */
  function Filter<T>(s: seq<T>, keep: T -> bool): seq<T>
    decreases |s|
  {
    if |s| == 0 then []
    else (if keep(s[0]) then [s[0]] else []) + Filter(s[1..], keep)
  }

  lemma {:induction false} FilterMultiset<T>(s: seq<T>, keep: T -> bool)
    ensures forall x :: multiset(Filter(s, keep))[x] == if keep(x) then multiset(s)[x] else 0
    decreases |s|
  {
    if |s| > 0 {
      FilterMultiset(s[1..], keep);
      assert s == [s[0]] + s[1..];
      assert multiset(s) == multiset{s[0]} + multiset(s[1..]);
    }
  }

  lemma {:induction false} FilterLength<T>(s: seq<T>, keep: T -> bool)
    ensures |Filter(s, keep)| <= |s|
    ensures |Filter(s, keep)| == |s| <==> forall i :: 0 <= i < |s| ==> keep(s[i])
    decreases |s|
  {
    if |s| > 0 {
      FilterLength(s[1..], keep);
      if forall i :: 0 <= i < |s| ==> keep(s[i]) {
        assert keep(s[0]);
        forall i | 0 <= i < |s[1..]| ensures keep(s[1..][i]) {
          assert s[1..][i] == s[i + 1];
        }
      } else if keep(s[0]) {
        var i :| 0 <= i < |s| && !keep(s[i]);
        assert s[1..][i - 1] == s[i];
      }
    }
  }

  /** `r` is made of elements of `s` taken in the order they stand there. */
  predicate Subsequence<T(==)>(r: seq<T>, s: seq<T>)
    decreases |s|
  {
    |r| == 0 || (|s| > 0 && ((r[0] == s[0] && Subsequence(r[1..], s[1..])) || Subsequence(r, s[1..])))
  }

  lemma {:induction false} FilterSubsequence<T>(s: seq<T>, keep: T -> bool)
    ensures Subsequence(Filter(s, keep), s)
    decreases |s|
  {
    if |s| > 0 {
      FilterSubsequence(s[1..], keep);
      var r := Filter(s, keep);
      if keep(s[0]) {
        assert r[0] == s[0] && r[1..] == Filter(s[1..], keep);
      } else {
        assert r == Filter(s[1..], keep);
      }
    }
  }

  /** A filter keeps every element that passes, as often as it occurs, and
      nothing else, in the order of the array; it never lengthens the array,
      and it keeps the whole array exactly when every element passes. The
      counts and the order together leave only one possible result. */
  lemma FilterSpec<T>(s: seq<T>, keep: T -> bool)
    ensures var r := Filter(s, keep);
      (forall x :: multiset(r)[x] == if keep(x) then multiset(s)[x] else 0)
      && (forall x :: x in r <==> x in s && keep(x))
      && Subsequence(r, s)
      && |r| <= |s|
      && (|r| == |s| <==> forall i :: 0 <= i < |s| ==> keep(s[i]))
  {
    FilterMultiset(s, keep);
    FilterLength(s, keep);
    FilterSubsequence(s, keep);
  }

  /** A filter that every element passes keeps the array as it is. */
  lemma {:induction false} FilterKeepsAll<T>(s: seq<T>, keep: T -> bool)
    requires forall x :: x in s ==> keep(x)
    ensures Filter(s, keep) == s
    decreases |s|
  {
    if |s| > 0 {
      assert s[0] in s;
      assert forall x :: x in s[1..] ==> x in s;
      FilterKeepsAll(s[1..], keep);
    }
  }

  /** Filtering out an element that stands once between `a` and `b`, where
      everything else passes, leaves `a + b`. */
  lemma FilterOut<T>(a: seq<T>, x: T, b: seq<T>, keep: T -> bool)
    requires !keep(x) && (forall y :: y in a ==> keep(y)) && (forall y :: y in b ==> keep(y))
    ensures Filter(a + [x] + b, keep) == a + b
  {
    assert Filter(a + [x], keep) == a by {
      FilterAppend(a, [x], keep);
      assert Filter([x], keep) == [] by {
        assert [x][1..] == [];
      }
      FilterKeepsAll(a, keep);
    }
    assert Filter(b, keep) == b by {
      FilterKeepsAll(b, keep);
    }
    FilterAppend(a + [x], b, keep);
  }

  /** Filtering a concatenation filters each part: the kept elements stay in order. */
  lemma {:induction false} FilterAppend<T>(s: seq<T>, t: seq<T>, keep: T -> bool)
    ensures Filter(s + t, keep) == Filter(s, keep) + Filter(t, keep)
    decreases |s|
  {
    if |s| > 0 {
      assert (s + t)[0] == s[0];
      assert (s + t)[1..] == s[1..] + t;
      FilterAppend(s[1..], t, keep);
    } else {
      assert s + t == t;
    }
  }

  /** Two tests that agree on the elements of `s` keep the same elements. */
  lemma {:induction false} FilterAgrees<T>(s: seq<T>, p: T -> bool, q: T -> bool)
    requires forall x :: x in s ==> p(x) == q(x)
    ensures Filter(s, p) == Filter(s, q)
    decreases |s|
  {
    if |s| > 0 {
      assert s[0] in s;
      assert forall x :: x in s[1..] ==> x in s;
      FilterAgrees(s[1..], p, q);
    }
  }

  /** A cell of a transaction row: a string, a number, or `undefined` for a
      property the row lacks. `null` is what `JSON.stringify` makes of a NaN
      amount on its way from the extraction API. */
  datatype Cell = Missing | Null | Str(s: string) | Num(d: Numbers.Decimal)

  /** A transaction row as the components receive it. */
  type Row = Obj<Cell>

  /** `tx[key]`. */
  function Get(row: Row, key: string): Cell {
    Lookup(row, key).GetOr(Missing)
  }
}
