/** `sort_values(ascending=False).head(n)` over a grouped table. */
module Ranking {
  import opened GroupBy

  /** Sums never increase along the table. */
  ghost predicate SumsDescending<K>(t: seq<Entry<K>>) {
    forall i, j :: 0 <= i < j < |t| ==> t[i].sum >= t[j].sum
  }

  /** Puts `e` in the descending table before the first row whose sum does not exceed its own. */
  function InsertBySum<K>(e: Entry<K>, t: seq<Entry<K>>): (r: seq<Entry<K>>)
    requires SumsDescending(t)
    ensures SumsDescending(r)
    ensures multiset(r) == multiset(t) + multiset{e}
  {
    if t == [] then [e]
    else if e.sum >= t[0].sum then [e] + t
    else
      var tail := InsertBySum(e, t[1..]);
      assert t == [t[0]] + t[1..];
      InsertBySumStep(t[0], e, t[1..], tail);
      [t[0]] + tail
  }

  /** Putting `h` in front of a descending table keeps it descending when `h`
      is at least every row of it. */
  lemma InsertBySumStep<K>(h: Entry<K>, e: Entry<K>, t: seq<Entry<K>>, tail: seq<Entry<K>>)
    requires SumsDescending(tail)
    requires multiset(tail) == multiset(t) + multiset{e}
    requires h.sum > e.sum && forall d :: d in t ==> h.sum >= d.sum
    ensures SumsDescending([h] + tail)
  {
    forall d | d in tail ensures h.sum >= d.sum {
      assert d in multiset(tail);
    }
    var r := [h] + tail;
    forall i, j | 0 <= i < j < |r| ensures r[i].sum >= r[j].sum {
      if i == 0 {
        assert r[j] in tail;
      } else {
        assert r[i] == tail[i - 1] && r[j] == tail[j - 1];
      }
    }
  }

  /** The table sorted by sum, largest first: a permutation of its rows.
      Equal sums keep their table order (the model's choice of tie order). */
  function SortBySumDescending<K>(t: seq<Entry<K>>): (r: seq<Entry<K>>)
    ensures SumsDescending(r)
    ensures multiset(r) == multiset(t)
  {
    if t == [] then []
    else
      assert t == [t[0]] + t[1..];
      InsertBySum(t[0], SortBySumDescending(t[1..]))
  }

  /** Sorting rows with unique keys keeps the keys unique: it only reorders rows. */
  lemma SortKeepsUniqueKeys<K>(t: seq<Entry<K>>)
    ensures UniqueKeys(t) ==> UniqueKeys(SortBySumDescending(t))
  {
    if UniqueKeys(t) {
      var sorted := SortBySumDescending(t);
      assert |sorted| == |multiset(sorted)| == |t|;
      assert KeySet(sorted) == KeySet(t) by {
        forall e ensures e in sorted <==> e in t {
          assert e in sorted <==> e in multiset(sorted);
        }
      }
      UniqueKeysCount(t);
      KeyCount(sorted);
    }
  }

  /** A prefix of a descending permutation of `t` is drawn from `t`, and no
      row of `t` outside the prefix has a larger sum than one inside it. */
  lemma DescendingPrefix<K>(sorted: seq<Entry<K>>, t: seq<Entry<K>>, m: nat)
    requires SumsDescending(sorted) && multiset(sorted) == multiset(t) && m <= |sorted|
    ensures SumsDescending(sorted[..m])
    ensures UniqueKeys(sorted) ==> UniqueKeys(sorted[..m])
    ensures forall e :: e in sorted[..m] ==> e in t
    ensures forall e, d :: e in sorted[..m] && d in t && d !in sorted[..m] ==> d.sum <= e.sum
  {
    forall e | e in sorted[..m] ensures e in t {
      assert e in multiset(sorted);
    }
    forall e, d | e in sorted[..m] && d in t && d !in sorted[..m] ensures d.sum <= e.sum {
      assert d in multiset(t);
      var i :| 0 <= i < m && sorted[..m][i] == e;
      var j :| 0 <= j < |sorted| && sorted[j] == d;
      assert j >= m;
    }
  }

  /** The first `n` rows of the table sorted by sum, largest first. */
  function Top<K>(t: seq<Entry<K>>, n: nat): (r: seq<Entry<K>>)
    ensures |r| == if n < |t| then n else |t|
    ensures SumsDescending(r)
    ensures forall e :: e in r ==> e in t
    ensures forall e, d :: e in r && d in t && d !in r ==> d.sum <= e.sum
    ensures UniqueKeys(t) ==> UniqueKeys(r)
  {
    var sorted := SortBySumDescending(t);
    var m := if n < |sorted| then n else |sorted|;
    assert |sorted| == |multiset(sorted)| == |t|;
    DescendingPrefix(sorted, t, m);
    SortKeepsUniqueKeys(t);
    sorted[..m]
  }
}
