/** `groupby(key)["Sales"].sum()`: one row per distinct key with the sales of
    that key's rows, the keys in ascending order. */
module GroupBy {
  import opened Records
  import opened Ordering
  import opened Kpis

  /** One row of a grouped table: a key and the sales summed for it. */
  datatype Entry<K> = Entry(key: K, sum: real)

  /** The keys of the table strictly ascend under `lt`. */
  ghost predicate KeysAscending<K>(t: seq<Entry<K>>, lt: (K, K) -> bool) {
    forall i, j :: 0 <= i < j < |t| ==> lt(t[i].key, t[j].key)
  }

  /** No key occurs in two rows of the table. */
  ghost predicate UniqueKeys<K>(t: seq<Entry<K>>) {
    forall i, j :: 0 <= i < j < |t| ==> t[i].key != t[j].key
  }

  /** The keys listed in the table. */
  ghost function KeySet<K>(t: seq<Entry<K>>): set<K> {
    set e | e in t :: e.key
  }

  /** The distinct keys of the rows. */
  ghost function RowKeys<K>(rows: seq<Record>, key: Record -> K): set<K> {
    set r | r in rows :: key(r)
  }

  /** The sum of the table's sums column. */
  function Total<K>(t: seq<Entry<K>>): real {
    if t == [] then 0.0 else t[0].sum + Total(t[1..])
  }

  /** The sum listed for `k` in the table, or 0 when `k` is not listed. */
  function Lookup<K(==)>(t: seq<Entry<K>>, k: K): real {
    if t == [] then 0.0
    else if t[0].key == k then t[0].sum
    else Lookup(t[1..], k)
  }

  /** The reference meaning of a group: the sales of the rows whose key is `k`. */
  function KeySum<K(==)>(rows: seq<Record>, key: Record -> K, k: K): real {
    if rows == [] then 0.0
    else (if key(rows[0]) == k then rows[0].sales else 0.0) + KeySum(rows[1..], key, k)
  }

  lemma KeySetCons<K>(e: Entry<K>, t: seq<Entry<K>>)
    ensures KeySet([e] + t) == {e.key} + KeySet(t)
  {
  }

  lemma RowKeysCons<K>(r: Record, rows: seq<Record>, key: Record -> K)
    ensures RowKeys([r] + rows, key) == {key(r)} + RowKeys(rows, key)
  {
  }

  /** A key not in the table is looked up as 0. */
  lemma {:induction false} LookupAbsent<K>(t: seq<Entry<K>>, k: K)
    requires k !in KeySet(t)
    ensures Lookup(t, k) == 0.0
  {
    if t != [] {
      assert t[0] in t;
      KeySetCons(t[0], t[1..]);
      assert t == [t[0]] + t[1..];
      LookupAbsent(t[1..], k);
    }
  }

  /** In a table with unique keys, looking up a row's key finds that row's sum. */
  lemma {:induction false} LookupFindsEntry<K>(t: seq<Entry<K>>, i: nat)
    requires UniqueKeys(t) && i < |t|
    ensures Lookup(t, t[i].key) == t[i].sum
  {
    if i > 0 {
      LookupFindsEntry(t[1..], i - 1);
    }
  }

  /** A table with unique keys has as many rows as keys. */
  lemma {:induction false} UniqueKeysCount<K>(t: seq<Entry<K>>)
    requires UniqueKeys(t)
    ensures |KeySet(t)| == |t|
  {
    if t != [] {
      UniqueKeysCount(t[1..]);
      KeySetCons(t[0], t[1..]);
      assert t == [t[0]] + t[1..];
      assert t[0].key !in KeySet(t[1..]);
    }
  }

  /** A table has no more keys than rows, and as many only when its keys are unique. */
  lemma {:induction false} KeyCount<K>(t: seq<Entry<K>>)
    ensures |KeySet(t)| <= |t|
    ensures |KeySet(t)| == |t| ==> UniqueKeys(t)
  {
    if t != [] {
      var rest := t[1..];
      KeyCount(rest);
      KeySetCons(t[0], rest);
      assert t == [t[0]] + rest;
      if t[0].key !in KeySet(rest) && |KeySet(rest)| == |rest| {
        forall i, j | 0 <= i < j < |t| ensures t[i].key != t[j].key {
          if i == 0 {
            assert t[j] in rest;
          } else {
            assert t[i] == rest[i - 1] && t[j] == rest[j - 1];
          }
        }
      }
    }
  }

  /** Adds `v` to the sum of key `k`, inserting a row for `k` at its place in
      key order when there is none yet. */
  function AddTo<K(==)>(t: seq<Entry<K>>, k: K, v: real, lt: (K, K) -> bool): (r: seq<Entry<K>>)
    ensures |r| <= |t| + 1
  {
    if t == [] then [Entry(k, v)]
    else if t[0].key == k then [Entry(k, t[0].sum + v)] + t[1..]
    else if lt(k, t[0].key) then [Entry(k, v)] + t
    else [t[0]] + AddTo(t[1..], k, v, lt)
  }

  /** A key below the first key of an ascending table is below all its keys,
      so it is not in the table. */
  lemma BelowFirstKey<K(!new)>(t: seq<Entry<K>>, k: K, lt: (K, K) -> bool)
    requires StrictTotalOrder(lt) && KeysAscending(t, lt)
    requires t != [] && lt(k, t[0].key)
    ensures k !in KeySet(t)
  {
    forall e | e in t ensures lt(k, e.key) {
      var j :| 0 <= j < |t| && t[j] == e;
      if j > 0 {
        assert lt(t[0].key, t[j].key);
      }
    }
  }

  /** Adding to a table adds `k` to its keys. */
  lemma {:induction false} AddToKeys<K>(t: seq<Entry<K>>, k: K, v: real, lt: (K, K) -> bool)
    ensures KeySet(AddTo(t, k, v, lt)) == KeySet(t) + {k}
  {
    if t == [] {
      KeySetCons(Entry(k, v), []);
    } else {
      KeySetCons(t[0], t[1..]);
      assert t == [t[0]] + t[1..];
      if t[0].key == k {
        KeySetCons(Entry(k, t[0].sum + v), t[1..]);
      } else if lt(k, t[0].key) {
        KeySetCons(Entry(k, v), t);
      } else {
        AddToKeys(t[1..], k, v, lt);
        KeySetCons(t[0], AddTo(t[1..], k, v, lt));
      }
    }
  }

  /** Adding `v` to a table adds `v` to its total. */
  lemma {:induction false} AddToTotal<K>(t: seq<Entry<K>>, k: K, v: real, lt: (K, K) -> bool)
    ensures Total(AddTo(t, k, v, lt)) == Total(t) + v
  {
    if t != [] && t[0].key != k && !lt(k, t[0].key) {
      AddToTotal(t[1..], k, v, lt);
    }
  }

  /** Adding to a key-ordered table adds `v` to the sum of `k` and to no other. */
  lemma {:induction false} AddToLookup<K(!new)>(t: seq<Entry<K>>, k: K, v: real, lt: (K, K) -> bool, k': K)
    requires StrictTotalOrder(lt) && KeysAscending(t, lt)
    ensures Lookup(AddTo(t, k, v, lt), k') == Lookup(t, k') + (if k' == k then v else 0.0)
  {
    if t != [] && t[0].key != k {
      if lt(k, t[0].key) {
        BelowFirstKey(t, k, lt);
        LookupAbsent(t, k);
      } else {
        AddToLookup(t[1..], k, v, lt, k');
      }
    }
  }

  /** Adding to a key-ordered table keeps it key-ordered. */
  lemma {:induction false} AddToAscending<K(!new)>(t: seq<Entry<K>>, k: K, v: real, lt: (K, K) -> bool)
    requires StrictTotalOrder(lt) && KeysAscending(t, lt)
    ensures KeysAscending(AddTo(t, k, v, lt), lt)
  {
    var r := AddTo(t, k, v, lt);
    if t != [] && t[0].key != k && !lt(k, t[0].key) {
      var tail := AddTo(t[1..], k, v, lt);
      AddToAscending(t[1..], k, v, lt);
      AddToKeys(t[1..], k, v, lt);
      assert r == [t[0]] + tail;
      assert lt(t[0].key, k);
      forall e | e in tail ensures lt(t[0].key, e.key) {
        assert e.key in KeySet(tail);
        if e.key != k {
          var d :| d in t[1..] && d.key == e.key;
          var j :| 0 <= j < |t[1..]| && t[1..][j] == d;
          assert t[j + 1] == d;
        }
      }
      forall i, j | 0 <= i < j < |r| ensures lt(r[i].key, r[j].key) {
        if i > 0 {
          assert r[i] == tail[i - 1] && r[j] == tail[j - 1];
        } else {
          assert r[j] in tail;
        }
      }
    }
  }

  /** The grouped sales table: one row per distinct key, keys ascending under
      `lt`, each row holding the sales of the rows with its key; the rows of
      the table add up to the total sales. */
  function GroupSums<K(==,!new)>(rows: seq<Record>, key: Record -> K, lt: (K, K) -> bool): (groups: seq<Entry<K>>)
    requires StrictTotalOrder(lt)
    ensures KeysAscending(groups, lt)
    ensures KeySet(groups) == RowKeys(rows, key)
    ensures forall k :: Lookup(groups, k) == KeySum(rows, key, k)
    ensures Total(groups) == TotalSales(rows)
  {
    if rows == [] then []
    else
      var rest := GroupSums(rows[1..], key, lt);
      RowKeysCons(rows[0], rows[1..], key);
      assert rows == [rows[0]] + rows[1..];
      AddToKeys(rest, key(rows[0]), rows[0].sales, lt);
      AddToTotal(rest, key(rows[0]), rows[0].sales, lt);
      AddToAscending(rest, key(rows[0]), rows[0].sales, lt);
      forall k ensures Lookup(AddTo(rest, key(rows[0]), rows[0].sales, lt), k) == KeySum(rows, key, k) {
        AddToLookup(rest, key(rows[0]), rows[0].sales, lt, k);
      }
      AddTo(rest, key(rows[0]), rows[0].sales, lt)
  }

  /** Keys that ascend under a strict order are unique. */
  lemma AscendingIsUnique<K(!new)>(t: seq<Entry<K>>, lt: (K, K) -> bool)
    requires StrictTotalOrder(lt) && KeysAscending(t, lt)
    ensures UniqueKeys(t)
  {
    forall i, j | 0 <= i < j < |t| ensures t[i].key != t[j].key {
      assert lt(t[i].key, t[j].key);
    }
  }

  /** The grouped table lists each distinct key exactly once, with that key's
      sales sum. */
  lemma GroupSumsEntries<K(!new)>(rows: seq<Record>, key: Record -> K, lt: (K, K) -> bool)
    requires StrictTotalOrder(lt)
    ensures UniqueKeys(GroupSums(rows, key, lt))
    ensures |GroupSums(rows, key, lt)| == |RowKeys(rows, key)|
    ensures forall e :: e in GroupSums(rows, key, lt) ==> e.sum == KeySum(rows, key, e.key)
  {
    var groups := GroupSums(rows, key, lt);
    AscendingIsUnique(groups, lt);
    UniqueKeysCount(groups);
    forall e | e in groups ensures e.sum == KeySum(rows, key, e.key) {
      var i :| 0 <= i < |groups| && groups[i] == e;
      LookupFindsEntry(groups, i);
    }
  }
}
