/** Fetched records and the reference definition of "the rows that belong to
    a key": the rows whose grouping attribute holds that key, in fetch order. */
module Rows {
  import opened Wrappers

  /** Name of an attribute (column) of a fetched record. */
  type Attr = string

  /** A fetched record: attribute name to value. The same value domain K
      holds the keys a loader is asked for, so a key and an attribute value
      can be compared directly. */
  type Row<K> = map<Attr, K>

  /** The value `row` holds for `attr`, or None when it lacks the attribute. */
  function GroupValue<K>(row: Row<K>, attr: Attr): Option<K>
  {
    if attr in row then Some(row[attr]) else None
  }

  /** `row` is grouped under `k` when its `attr` attribute holds `k`. */
  predicate Has<K(==)>(row: Row<K>, attr: Attr, k: K)
  {
    GroupValue(row, attr) == Some(k)
  }

  /** The rows grouped under `k`, in fetch order. */
  function Matching<K(==)>(rows: seq<Row<K>>, attr: Attr, k: K): (m: seq<Row<K>>)
    ensures |m| <= |rows|
    ensures forall row :: row in m ==> row in rows && Has(row, attr, k)
    ensures forall row :: row in rows && Has(row, attr, k) ==> row in m
  {
    if |rows| == 0 then []
    else (if Has(rows[0], attr, k) then [rows[0]] else []) + Matching(rows[1..], attr, k)
  }

  lemma {:induction false} MatchingConcat<K>(a: seq<Row<K>>, b: seq<Row<K>>, attr: Attr, k: K)
    ensures Matching(a + b, attr, k) == Matching(a, attr, k) + Matching(b, attr, k)
    decreases |a|
  {
    if |a| == 0 {
      assert a + b == b;
    } else {
      assert (a + b)[1..] == a[1..] + b;
      MatchingConcat(a[1..], b, attr, k);
    }
  }

  /** A key no row holds has an empty group. */
  lemma {:induction false} NoneMatching<K>(rows: seq<Row<K>>, attr: Attr, k: K)
    requires forall l :: 0 <= l < |rows| ==> !Has(rows[l], attr, k)
    ensures Matching(rows, attr, k) == []
    decreases |rows|
  {
    if |rows| > 0 {
      NoneMatching(rows[1..], attr, k);
    }
  }

  /** Appending one row extends exactly the group of that row's value. */
  lemma MatchingSnoc<K>(rows: seq<Row<K>>, row: Row<K>, attr: Attr, k: K)
    ensures Matching(rows + [row], attr, k)
         == Matching(rows, attr, k) + (if Has(row, attr, k) then [row] else [])
  {
    MatchingConcat(rows, [row], attr, k);
  }

  /** The rows whose grouping value is one of `keys`, in fetch order. */
  function Requested<K(==)>(rows: seq<Row<K>>, attr: Attr, keys: seq<K>): (m: seq<Row<K>>)
    ensures |m| <= |rows|
    ensures forall row :: row in m ==> row in rows && attr in row && row[attr] in keys
    ensures forall row :: row in rows && attr in row && row[attr] in keys ==> row in m
    ensures |keys| == 0 ==> m == []
  {
    if |rows| == 0 then []
    else
      (if attr in rows[0] && rows[0][attr] in keys then [rows[0]] else [])
      + Requested(rows[1..], attr, keys)
  }

  predicate Distinct<K(==)>(keys: seq<K>)
  {
    forall i, j :: 0 <= i < j < |keys| ==> keys[i] != keys[j]
  }

  /** Sum over `keys` of the size of each key's group. */
  function SumMatching<K(==)>(rows: seq<Row<K>>, attr: Attr, keys: seq<K>): nat
  {
    if |keys| == 0 then 0
    else |Matching(rows, attr, keys[0])| + SumMatching(rows, attr, keys[1..])
  }

  /** Adding one more key to a key list adds exactly that key's group. */
  lemma {:induction false} RequestedCons<K>(rows: seq<Row<K>>, attr: Attr, k: K, keys: seq<K>)
    requires k !in keys
    ensures |Requested(rows, attr, [k] + keys)|
         == |Matching(rows, attr, k)| + |Requested(rows, attr, keys)|
    decreases |rows|
  {
    if |rows| > 0 {
      RequestedCons(rows[1..], attr, k, keys);
    }
  }

  /** How the first row splits between k's group and the rows requested
      under the other keys (helper of RequestedConsMultiset). */
  lemma FirstRowSplit<K>(rows: seq<Row<K>>, attr: Attr, k: K, keys: seq<K>)
    requires |rows| > 0 && k !in keys
    ensures
      var head := rows[0];
      var tail := rows[1..];
      && (Has(head, attr, k) ==>
            && Requested(rows, attr, [k] + keys) == [head] + Requested(tail, attr, [k] + keys)
            && Matching(rows, attr, k) == [head] + Matching(tail, attr, k)
            && Requested(rows, attr, keys) == Requested(tail, attr, keys))
      && (!Has(head, attr, k) && attr in head && head[attr] in keys ==>
            && Requested(rows, attr, [k] + keys) == [head] + Requested(tail, attr, [k] + keys)
            && Matching(rows, attr, k) == Matching(tail, attr, k)
            && Requested(rows, attr, keys) == [head] + Requested(tail, attr, keys))
      && (!Has(head, attr, k) && !(attr in head && head[attr] in keys) ==>
            && Requested(rows, attr, [k] + keys) == Requested(tail, attr, [k] + keys)
            && Matching(rows, attr, k) == Matching(tail, attr, k)
            && Requested(rows, attr, keys) == Requested(tail, attr, keys))
  {
  }

  /** The same, row by row: the rows requested under `[k] + keys` are the
      rows of k's group together with the rows requested under `keys`. */
  lemma {:induction false} RequestedConsMultiset<K>(rows: seq<Row<K>>, attr: Attr, k: K, keys: seq<K>)
    requires k !in keys
    ensures multiset(Requested(rows, attr, [k] + keys))
         == multiset(Matching(rows, attr, k)) + multiset(Requested(rows, attr, keys))
    decreases |rows|
  {
    if |rows| > 0 {
      RequestedConsMultiset(rows[1..], attr, k, keys);
      FirstRowSplit(rows, attr, k, keys);
    }
  }

  /** For distinct keys the groups are disjoint: every requested row is
      counted in exactly one group, so the groups together hold exactly the
      requested rows and never more rows than were fetched. */
  lemma {:induction false} GroupsPartitionRequested<K>(rows: seq<Row<K>>, attr: Attr, keys: seq<K>)
    requires Distinct(keys)
    ensures SumMatching(rows, attr, keys) == |Requested(rows, attr, keys)|
    ensures SumMatching(rows, attr, keys) <= |rows|
    decreases |keys|
  {
    if |keys| == 0 {
    } else {
      assert keys == [keys[0]] + keys[1..];
      GroupsPartitionRequested(rows, attr, keys[1..]);
      RequestedCons(rows, attr, keys[0], keys[1..]);
    }
  }
}
