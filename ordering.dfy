/** Ordering and de-duplication of the non-document rows: Python's stable
    `list.sort(key=get_sort_key)` and the `seen_weights` loop that keeps the first row
    of every normalised weight. */
module Ordering {
  import opened Rates

  /** `get_sort_key(item)` */
  function Key(r: Row): real
  {
    SortKey(r.weight)
  }

  /** Ordered by `key`. */
  predicate SortedBy<T>(s: seq<T>, key: T -> real)
  {
    forall i, j :: 0 <= i < j < |s| ==> key(s[i]) <= key(s[j])
  }

  /** The elements of `s` whose key is `k`, in their order in `s`. */
  function WithKey<T>(s: seq<T>, k: real, key: T -> real): (r: seq<T>)
    ensures |r| <= |s|
  {
    if s == [] then [] else (if key(s[0]) == k then [s[0]] else []) + WithKey(s[1..], k, key)
  }

  /** `WithKey` keeps exactly the elements whose key is `k`: each of them as often as it
      occurs in `s`, and nothing else. */
  lemma {:induction false} WithKeyFilter<T>(s: seq<T>, k: real, key: T -> real)
    ensures forall i :: 0 <= i < |WithKey(s, k, key)| ==> key(WithKey(s, k, key)[i]) == k
    ensures forall x :: multiset(WithKey(s, k, key))[x] == if key(x) == k then multiset(s)[x] else 0
  {
    if s != [] {
      WithKeyFilter(s[1..], k, key);
      assert s == [s[0]] + s[1..];
      var head: seq<T> := if key(s[0]) == k then [s[0]] else [];
      assert WithKey(s, k, key) == head + WithKey(s[1..], k, key);
      assert multiset(s) == multiset{s[0]} + multiset(s[1..]);
    }
  }

  /** A stable sort of `s`: ordered by key, and for every key the elements carrying it
      come in the same order as in `s`. */
  ghost predicate IsStableSortOf<T>(t: seq<T>, s: seq<T>, key: T -> real)
  {
    SortedBy(t, key) && forall k :: WithKey(t, k, key) == WithKey(s, k, key)
  }

  /** Puts `x` after every element whose key is not greater than its own. */
  function Insert<T>(s: seq<T>, x: T, key: T -> real): (r: seq<T>)
    ensures |r| == |s| + 1
  {
    if s == [] then [x]
    else if key(x) < key(s[0]) then [x] + s
    else [s[0]] + Insert(s[1..], x, key)
  }

  /** Insertion sort, inserting the elements of `s` from left to right. */
  function InsertionSort<T>(s: seq<T>, key: T -> real): (r: seq<T>)
    ensures |r| == |s|
  {
    if s == [] then []
    else Insert(InsertionSort(s[..|s| - 1], key), s[|s| - 1], key)
  }

  lemma {:induction false} InsertMultiset<T>(s: seq<T>, x: T, key: T -> real)
    ensures multiset(Insert(s, x, key)) == multiset(s) + multiset{x}
  {
    if s != [] && key(x) >= key(s[0]) {
      InsertMultiset(s[1..], x, key);
      assert s == [s[0]] + s[1..];
    }
  }

  /** Insertion sort rearranges its input. */
  lemma {:induction false} InsertionSortPermutes<T>(s: seq<T>, key: T -> real)
    ensures multiset(InsertionSort(s, key)) == multiset(s)
  {
    if s != [] {
      InsertionSortPermutes(s[..|s| - 1], key);
      InsertMultiset(InsertionSort(s[..|s| - 1], key), s[|s| - 1], key);
      assert s == s[..|s| - 1] + [s[|s| - 1]];
    }
  }

  lemma {:induction false} WithKeyAppend<T>(a: seq<T>, b: seq<T>, k: real, key: T -> real)
    ensures WithKey(a + b, k, key) == WithKey(a, k, key) + WithKey(b, k, key)
  {
    if a == [] {
      assert a + b == b;
    } else {
      var ab := a + b;
      assert ab[0] == a[0] && ab[1..] == a[1..] + b;
      WithKeyAppend(a[1..], b, k, key);
      var tail, rest := WithKey(a[1..], k, key), WithKey(b, k, key);
      if key(a[0]) == k {
        assert WithKey(ab, k, key) == [a[0]] + (tail + rest);
        assert WithKey(a, k, key) == [a[0]] + tail;
      } else {
        assert WithKey(ab, k, key) == [] + (tail + rest);
        assert WithKey(a, k, key) == [] + tail;
      }
    }
  }

  lemma {:induction false} WithKeyAbsent<T>(s: seq<T>, k: real, key: T -> real)
    requires forall i :: 0 <= i < |s| ==> key(s[i]) != k
    ensures WithKey(s, k, key) == []
  {
    if s != [] {
      WithKeyAbsent(s[1..], k, key);
    }
  }

  /** Every element of `Insert(s, x)` is `x` or an element of `s`. */
  lemma {:induction false} InsertElements<T>(s: seq<T>, x: T, key: T -> real, i: nat)
    requires i < |s| + 1
    ensures Insert(s, x, key)[i] == x || exists j :: 0 <= j < |s| && Insert(s, x, key)[i] == s[j]
  {
    if s != [] && key(x) >= key(s[0]) && i > 0 {
      InsertElements(s[1..], x, key, i - 1);
    }
  }

  lemma {:induction false} InsertSorted<T>(s: seq<T>, x: T, key: T -> real)
    requires SortedBy(s, key)
    ensures SortedBy(Insert(s, x, key), key)
  {
    if s != [] && key(x) >= key(s[0]) {
      InsertSorted(s[1..], x, key);
      var r := Insert(s[1..], x, key);
      forall i | 0 <= i < |r| ensures key(s[0]) <= key(r[i]) {
        InsertElements(s[1..], x, key, i);
      }
    }
  }

  lemma {:induction false} InsertStable<T>(s: seq<T>, x: T, k: real, key: T -> real)
    requires SortedBy(s, key)
    ensures WithKey(Insert(s, x, key), k, key) == WithKey(s, k, key) + (if key(x) == k then [x] else [])
  {
    if s == [] {
    } else if key(x) < key(s[0]) {
      if key(x) == k {
        forall i | 0 <= i < |s| ensures key(s[i]) != k {
          assert i == 0 || key(s[0]) <= key(s[i]);
        }
        WithKeyAbsent(s, k, key);
        WithKeyAppend([x], s, k, key);
      }
    } else {
      var rest := Insert(s[1..], x, key);
      assert SortedBy(s[1..], key) by {
        forall i, j | 0 <= i < j < |s| - 1 ensures key(s[1..][i]) <= key(s[1..][j]) {
          assert s[1..][i] == s[i + 1] && s[1..][j] == s[j + 1];
        }
      }
      InsertStable(s[1..], x, k, key);
      var t := [s[0]] + rest;
      assert t[0] == s[0] && t[1..] == rest;
      assert WithKey(t, k, key) == (if key(s[0]) == k then [s[0]] else []) + WithKey(rest, k, key);
    }
  }

  /** Insertion sort is a stable sort. */
  lemma {:induction false} InsertionSortIsStable<T>(s: seq<T>, key: T -> real)
    ensures IsStableSortOf(InsertionSort(s, key), s, key)
  {
    if s != [] {
      var init, last := s[..|s| - 1], s[|s| - 1];
      InsertionSortIsStable(init, key);
      InsertSorted(InsertionSort(init, key), last, key);
      forall k ensures WithKey(InsertionSort(s, key), k, key) == WithKey(s, k, key) {
        InsertStable(InsertionSort(init, key), last, k, key);
        assert s == init + [last];
        WithKeyAppend(init, [last], k, key);
      }
    }
  }

  lemma WithKeyHead<T>(s: seq<T>, key: T -> real)
    requires s != []
    ensures WithKey(s, key(s[0]), key) != [] && WithKey(s, key(s[0]), key)[0] == s[0]
  {
  }

  /** Two sequences ordered by key that agree on the elements of every key are equal. */
  lemma {:induction false} SortedAgreeingEqual<T>(t: seq<T>, u: seq<T>, key: T -> real)
    requires SortedBy(t, key) && SortedBy(u, key)
    requires forall k :: WithKey(t, k, key) == WithKey(u, k, key)
    ensures t == u
    decreases |t|
  {
    if t == [] || u == [] {
      if t != [] {
        WithKeyHead(t, key);
        assert false;
      } else if u != [] {
        WithKeyHead(u, key);
        assert false;
      }
    } else {
      var a, b := key(t[0]), key(u[0]);
      WithKeyHead(t, key);
      WithKeyHead(u, key);
      if a < b {
        WithKeyAbsent(u, a, key);
        assert false;
      } else if b < a {
        WithKeyAbsent(t, b, key);
        assert false;
      }
      assert t[0] == u[0];
      forall k ensures WithKey(t[1..], k, key) == WithKey(u[1..], k, key) {
        var h: seq<T> := if key(t[0]) == k then [t[0]] else [];
        assert WithKey(t, k, key) == h + WithKey(t[1..], k, key);
        assert WithKey(u, k, key) == h + WithKey(u[1..], k, key);
        assert WithKey(t[1..], k, key) == WithKey(t, k, key)[|h|..];
        assert WithKey(u[1..], k, key) == WithKey(u, k, key)[|h|..];
      }
      SortedAgreeingEqual(t[1..], u[1..], key);
      assert t == [t[0]] + t[1..] && u == [u[0]] + u[1..];
    }
  }

  /** A stable sort is unique, so any stable sort (Python's Timsort included) yields
      exactly what insertion sort yields. */
  lemma StableSortUnique<T>(t: seq<T>, s: seq<T>, key: T -> real)
    requires IsStableSortOf(t, s, key)
    ensures t == InsertionSort(s, key)
  {
    InsertionSortIsStable(s, key);
    SortedAgreeingEqual(t, InsertionSort(s, key), key);
  }

  /** Inserting before the first greater key is what `Insert` does. */
  lemma {:induction false} InsertAt<T>(s: seq<T>, x: T, j: nat, key: T -> real)
    requires j <= |s|
    requires forall m :: 0 <= m < j ==> key(s[m]) <= key(x)
    requires j == |s| || key(x) < key(s[j])
    ensures Insert(s, x, key) == s[..j] + [x] + s[j..]
  {
    if j > 0 {
      InsertAt(s[1..], x, j - 1, key);
      assert s[..j] == [s[0]] + s[1..][..j - 1];
      assert s[j..] == s[1..][j - 1..];
    }
  }

  /** `list.sort(key=key)`, as a stable insertion sort. */
  method SortBy<T>(rows: seq<T>, key: T -> real) returns (sorted: seq<T>)
    ensures sorted == InsertionSort(rows, key)
  {
    sorted := [];
    var i := 0;
    while i < |rows|
      invariant 0 <= i <= |rows|
      invariant sorted == InsertionSort(rows[..i], key)
    {
      var x := rows[i];
      var j := 0;
      while j < |sorted| && key(sorted[j]) <= key(x)
        invariant 0 <= j <= |sorted|
        invariant forall m :: 0 <= m < j ==> key(sorted[m]) <= key(x)
      {
        j := j + 1;
      }
      InsertAt(sorted, x, j, key);
      assert rows[..i + 1][..i] == rows[..i];
      sorted := sorted[..j] + [x] + sorted[j..];
      i := i + 1;
    }
    assert rows[..i] == rows;
  }

  /** The rows of `rows` whose normalised weight is not yet in `seen`, first occurrence
      kept, each with its weight replaced by the normalised one. */
  function DedupFrom(rows: seq<Row>, seen: set<string>): seq<Row>
  {
    if rows == [] then []
    else if DedupKey(rows[0]) in seen then DedupFrom(rows[1..], seen)
    else [NormalizeRow(rows[0])] + DedupFrom(rows[1..], seen + {DedupKey(rows[0])})
  }

  function Dedup(rows: seq<Row>): seq<Row>
  {
    DedupFrom(rows, {})
  }

  /** The `seen_weights` / `deduplicated_non_docs` loop. */
  method DedupRows(rows: seq<Row>) returns (out: seq<Row>)
    ensures out == Dedup(rows)
  {
    var seen: set<string> := {};
    out := [];
    for i := 0 to |rows|
      invariant out + DedupFrom(rows[i..], seen) == Dedup(rows)
    {
      var normalized := DedupKey(rows[i]);
      assert rows[i..][1..] == rows[i + 1..];
      if normalized !in seen {
        seen := seen + {normalized};
        out := out + [NormalizeRow(rows[i])];
      }
    }
  }

  /** Whether `rows[i]` is the first row with its normalised weight. */
  predicate FirstOfItsWeight(rows: seq<Row>, i: nat)
    requires i < |rows|
  {
    forall j :: 0 <= j < i ==> DedupKey(rows[j]) != DedupKey(rows[i])
  }

  lemma {:induction false} DedupFromKeys(rows: seq<Row>, seen: set<string>)
    ensures forall r <- DedupFrom(rows, seen) :: Render(r.weight) !in seen
    ensures forall a, b :: 0 <= a < b < |DedupFrom(rows, seen)| ==>
              Render(DedupFrom(rows, seen)[a].weight) != Render(DedupFrom(rows, seen)[b].weight)
  {
    if rows != [] {
      if DedupKey(rows[0]) in seen {
        DedupFromKeys(rows[1..], seen);
      } else {
        DedupFromKeys(rows[1..], seen + {DedupKey(rows[0])});
      }
    }
  }

  /** After de-duplication the printed weights are pairwise distinct. */
  lemma DedupDistinct(rows: seq<Row>)
    ensures forall a, b :: 0 <= a < b < |Dedup(rows)| ==>
              Render(Dedup(rows)[a].weight) != Render(Dedup(rows)[b].weight)
  {
    DedupFromKeys(rows, {});
  }

  /** A row of `rows` that comes after the first one and whose key differs from the
      first row's is the first of its weight in `rows` when it is so in `rows[1..]`. */
  lemma FirstOfItsWeightTail(rows: seq<Row>, i: nat)
    requires 0 < i < |rows| && FirstOfItsWeight(rows[1..], i - 1)
    requires DedupKey(rows[0]) != DedupKey(rows[i])
    ensures FirstOfItsWeight(rows, i)
  {
    forall j | 0 < j < i ensures DedupKey(rows[j]) != DedupKey(rows[i]) {
      assert rows[j] == rows[1..][j - 1] && rows[i] == rows[1..][i - 1];
    }
  }

  /** `i` is the row that `r` came from. */
  lemma {:induction false} DedupFromOrigin(rows: seq<Row>, seen: set<string>, r: Row) returns (i: nat)
    requires r in DedupFrom(rows, seen)
    ensures i < |rows| && r == NormalizeRow(rows[i])
    ensures DedupKey(rows[i]) !in seen && FirstOfItsWeight(rows, i)
  {
    assert rows != [];
    var key := DedupKey(rows[0]);
    var seen' := if key in seen then seen else seen + {key};
    var rest := DedupFrom(rows[1..], seen');
    if key !in seen && r == NormalizeRow(rows[0]) {
      i := 0;
    } else {
      assert DedupFrom(rows, seen) == (if key in seen then [] else [NormalizeRow(rows[0])]) + rest;
      assert r in rest;
      var j := DedupFromOrigin(rows[1..], seen', r);
      i := j + 1;
      assert rows[1..][j] == rows[i];
      assert key != DedupKey(rows[i]);
      FirstOfItsWeightTail(rows, i);
    }
  }

  /** Every row that survives is the normalised first row of its weight. */
  lemma DedupOnlyFirsts(rows: seq<Row>, r: Row)
    requires r in Dedup(rows)
    ensures exists i :: 0 <= i < |rows| && r == NormalizeRow(rows[i]) && FirstOfItsWeight(rows, i)
  {
    var i := DedupFromOrigin(rows, {}, r);
  }

  lemma {:induction false} DedupFromKeepsFirst(rows: seq<Row>, seen: set<string>, i: nat)
    requires i < |rows| && FirstOfItsWeight(rows, i) && DedupKey(rows[i]) !in seen
    ensures NormalizeRow(rows[i]) in DedupFrom(rows, seen)
  {
    if i > 0 {
      var seen' := if DedupKey(rows[0]) in seen then seen else seen + {DedupKey(rows[0])};
      assert DedupKey(rows[1..][i - 1]) !in seen';
      assert FirstOfItsWeight(rows[1..], i - 1);
      DedupFromKeepsFirst(rows[1..], seen', i - 1);
    }
  }

  /** The first row of every normalised weight survives, normalised. */
  lemma DedupKeepsFirst(rows: seq<Row>, i: nat)
    requires i < |rows| && FirstOfItsWeight(rows, i)
    ensures NormalizeRow(rows[i]) in Dedup(rows)
  {
    DedupFromKeepsFirst(rows, {}, i);
  }

  /** Every surviving weight is in normalised form. */
  lemma DedupNormalized(rows: seq<Row>)
    ensures forall r <- Dedup(rows) :: NormalizeLabel(r.weight) == r.weight
  {
    forall r <- Dedup(rows) ensures NormalizeLabel(r.weight) == r.weight {
      DedupOnlyFirsts(rows, r);
      var i :| 0 <= i < |rows| && r == NormalizeRow(rows[i]) && FirstOfItsWeight(rows, i);
      NormalizeIdempotent(rows[i].weight);
    }
  }

  /** For a row after the first, being the first of its weight in `rows` is being so in
      `rows[1..]` with a weight other than the first row's. */
  lemma FirstOfItsWeightShift(rows: seq<Row>, i: nat)
    requires 0 < i < |rows|
    ensures FirstOfItsWeight(rows, i) <==>
              FirstOfItsWeight(rows[1..], i - 1) && DedupKey(rows[0]) != DedupKey(rows[i])
  {
    if FirstOfItsWeight(rows[1..], i - 1) && DedupKey(rows[0]) != DedupKey(rows[i]) {
      FirstOfItsWeightTail(rows, i);
    }
    if FirstOfItsWeight(rows, i) {
      forall j | 0 <= j < i - 1 ensures DedupKey(rows[1..][j]) != DedupKey(rows[1..][i - 1]) {
        assert rows[1..][j] == rows[j + 1];
      }
    }
  }

  /** Every position moved one to the right. */
  function Shift(ks: seq<nat>): (r: seq<nat>)
    ensures |r| == |ks| && forall a :: 0 <= a < |ks| ==> r[a] == ks[a] + 1
  {
    seq(|ks|, a requires 0 <= a < |ks| => ks[a] + 1)
  }

  /** The positions in `rows` of the rows `DedupFrom(rows, seen)` keeps, in the order
      they are met. */
  function KeptFrom(rows: seq<Row>, seen: set<string>): (ks: seq<nat>)
    ensures forall a :: 0 <= a < |ks| ==> ks[a] < |rows|
    ensures forall a, b :: 0 <= a < b < |ks| ==> ks[a] < ks[b]
  {
    if rows == [] then []
    else
      var key := DedupKey(rows[0]);
      if key in seen then Shift(KeptFrom(rows[1..], seen))
      else [0] + Shift(KeptFrom(rows[1..], seen + {key}))
  }

  lemma ShiftMembers(ks: seq<nat>, i: nat)
    ensures i in Shift(ks) <==> i > 0 && i - 1 in ks
  {
    if i in Shift(ks) {
      var a :| 0 <= a < |ks| && Shift(ks)[a] == i;
    }
    if i > 0 && i - 1 in ks {
      var a :| 0 <= a < |ks| && ks[a] == i - 1;
      assert Shift(ks)[a] == i;
    }
  }

  /** One step of `DedupFromAtKept`, for any map `f` of the rows: putting the first row,
      when kept, in front of the rows kept from the rest. */
  lemma AtKeptStep(rows: seq<Row>, f: Row -> Row, pre: seq<Row>, preKs: seq<nat>, tailRows: seq<Row>, tail: seq<nat>)
    requires rows != [] && |pre| == |preKs| <= 1
    requires |pre| == 1 ==> pre[0] == f(rows[0]) && preKs[0] == 0
    requires forall b :: 0 <= b < |tail| ==> tail[b] < |rows| - 1
    requires |tailRows| == |tail| && forall b :: 0 <= b < |tail| ==> tailRows[b] == f(rows[1..][tail[b]])
    ensures |preKs + Shift(tail)| == |pre + tailRows|
    ensures forall a :: 0 <= a < |pre + tailRows| ==>
              (preKs + Shift(tail))[a] < |rows| &&
              (pre + tailRows)[a] == f(rows[(preKs + Shift(tail))[a]])
  {
    forall a | |pre| <= a < |pre + tailRows|
      ensures (preKs + Shift(tail))[a] < |rows|
      ensures (pre + tailRows)[a] == f(rows[(preKs + Shift(tail))[a]])
    {
      var b := a - |pre|;
      assert (pre + tailRows)[a] == tailRows[b];
      assert (preKs + Shift(tail))[a] == tail[b] + 1;
      assert rows[1..][tail[b]] == rows[tail[b] + 1];
    }
  }

  /** `DedupFrom` and `KeptFrom` taken one row at a time: `pre` and `preKs` are the first
      row, normalised, and its position, when it is kept, and empty otherwise. */
  lemma DedupFromUnfold(rows: seq<Row>, seen: set<string>) returns (pre: seq<Row>, preKs: seq<nat>)
    requires rows != []
    ensures |pre| == |preKs| <= 1
    ensures |pre| == 1 ==> pre[0] == NormalizeRow(rows[0]) && preKs[0] == 0
    ensures var seen' := if DedupKey(rows[0]) in seen then seen else seen + {DedupKey(rows[0])};
            && DedupFrom(rows, seen) == pre + DedupFrom(rows[1..], seen')
            && KeptFrom(rows, seen) == preKs + Shift(KeptFrom(rows[1..], seen'))
  {
    if DedupKey(rows[0]) in seen {
      pre, preKs := [], [];
      assert DedupFrom(rows, seen) == pre + DedupFrom(rows[1..], seen);
      assert KeptFrom(rows, seen) == preKs + Shift(KeptFrom(rows[1..], seen));
    } else {
      pre, preKs := [NormalizeRow(rows[0])], [0];
    }
  }

  /** The rows kept are the normalised rows at the kept positions. */
  lemma {:induction false} DedupFromAtKept(rows: seq<Row>, seen: set<string>)
    ensures var ks := KeptFrom(rows, seen);
            && |ks| == |DedupFrom(rows, seen)|
            && forall a :: 0 <= a < |ks| ==> DedupFrom(rows, seen)[a] == NormalizeRow(rows[ks[a]])
  {
    if rows != [] {
      var key := DedupKey(rows[0]);
      var seen' := if key in seen then seen else seen + {key};
      DedupFromAtKept(rows[1..], seen');
      var pre, preKs := DedupFromUnfold(rows, seen);
      AtKeptStep(rows, NormalizeRow, pre, preKs, DedupFrom(rows[1..], seen'), KeptFrom(rows[1..], seen'));
    }
  }

  /** The kept positions are exactly the first rows of their weight whose weight is not
      in `seen`. */
  lemma {:induction false} KeptFromMembers(rows: seq<Row>, seen: set<string>, i: nat)
    requires i < |rows|
    ensures i in KeptFrom(rows, seen) <==> FirstOfItsWeight(rows, i) && DedupKey(rows[i]) !in seen
  {
    var key := DedupKey(rows[0]);
    var seen' := if key in seen then seen else seen + {key};
    var tail := KeptFrom(rows[1..], seen');
    var pre: seq<nat> := if key in seen then [] else [0];
    assert KeptFrom(rows, seen) == pre + Shift(tail);
    ShiftMembers(tail, i);
    if i > 0 {
      KeptFromMembers(rows[1..], seen', i - 1);
      assert rows[1..][i - 1] == rows[i];
      FirstOfItsWeightShift(rows, i);
    }
  }

  /** De-duplication keeps the input order: the result is the normalised first rows of
      their weights, taken at increasing positions `ks`, and `ks` holds every first
      row. */
  lemma DedupKeepsOrder(rows: seq<Row>) returns (ks: seq<nat>)
    ensures |ks| == |Dedup(rows)|
    ensures forall a :: 0 <= a < |ks| ==> ks[a] < |rows| && Dedup(rows)[a] == NormalizeRow(rows[ks[a]])
    ensures forall a, b :: 0 <= a < b < |ks| ==> ks[a] < ks[b]
    ensures forall i :: 0 <= i < |rows| ==> (i in ks <==> FirstOfItsWeight(rows, i))
  {
    ks := KeptFrom(rows, {});
    DedupFromAtKept(rows, {});
    forall i | 0 <= i < |rows| ensures i in ks <==> FirstOfItsWeight(rows, i) {
      KeptFromMembers(rows, {}, i);
    }
  }

  lemma {:induction false} DedupFromSorted(rows: seq<Row>, seen: set<string>)
    requires SortedBy(rows, Key)
    ensures SortedBy(DedupFrom(rows, seen), Key)
  {
    if rows != [] {
      var seen' := if DedupKey(rows[0]) in seen then seen else seen + {DedupKey(rows[0])};
      DedupFromSorted(rows[1..], seen');
      forall r <- DedupFrom(rows[1..], seen') ensures Key(rows[0]) <= Key(r) {
        var i := DedupFromOrigin(rows[1..], seen', r);
        NormalizeKeepsSortKey(rows[1..][i].weight);
      }
      NormalizeKeepsSortKey(rows[0].weight);
    }
  }

  /** De-duplication keeps a sorted sequence sorted. */
  lemma DedupSorted(rows: seq<Row>)
    requires SortedBy(rows, Key)
    ensures SortedBy(Dedup(rows), Key)
  {
    DedupFromSorted(rows, {});
  }
}
