/** The batch callbacks handed to the loaders in src/loaders/index.js: from
    the requested keys and the rows one query fetched for them, build an
    index from grouping value to row(s) in one pass, then emit one result per
    requested key, in key order, with a default for keys nothing matched. */
module Batch {
  import opened Wrappers
  import opened Rows

  /** Single: belongsTo and hasOne (one row or null per key).
      Collection: hasMany and belongsToMany (a possibly empty list per key). */
  datatype Mode = Single | Collection

  /** What one key resolves to. */
  datatype Resolved<R> = Null | One(row: R) | Many(rows: seq<R>)

  /** The rows a result carries. */
  function RowsOf<R>(r: Resolved<R>): seq<R>
  {
    match r
    case Null => []
    case One(row) => [row]
    case Many(rows) => rows
  }

  /** The cardinality a mode allows: to-one results are a row or null, never
      a list; collection results are always a list, never null. */
  predicate Fits<R>(mode: Mode, r: Resolved<R>)
  {
    match mode
    case Single => !r.Many?
    case Collection => r.Many?
  }

  /** The result for a key that no fetched row matched. */
  function Default<R>(mode: Mode): (r: Resolved<R>)
    ensures Fits(mode, r)
    ensures RowsOf(r) == []
  {
    match mode
    case Single => Null
    case Collection => Many([])
  }

  /** Reference meaning of the result for key `k`, stated through the group
      of rows holding `k`: the whole group in collection mode, the last row
      of the group (or null when it is empty) in single mode. */
  function Lookup<K(==)>(rows: seq<Row<K>>, attr: Attr, mode: Mode, k: K): Resolved<Row<K>>
  {
    var group := Matching(rows, attr, k);
    match mode
    case Collection => Many(group)
    case Single => if |group| == 0 then Null else One(group[|group| - 1])
  }

  /** `index` files exactly the grouping values present in `rows`, each
      under its reference result. */
  ghost predicate IndexOf<K(!new)>(index: map<K, Resolved<Row<K>>>, rows: seq<Row<K>>, attr: Attr, mode: Mode)
  {
    && (forall k :: k in index <==> |Matching(rows, attr, k)| > 0)
    && (forall k :: k in index ==> index[k] == Lookup(rows, attr, mode, k))
  }

  /** One step of the pass: file `row` under its grouping value. In single
      mode it overwrites what was there; in collection mode it is appended to
      the list already filed (or to a fresh empty list). */
  function File<K(==,!new)>(index: map<K, Resolved<Row<K>>>, row: Row<K>, attr: Attr, mode: Mode): (filed: map<K, Resolved<Row<K>>>)
    ensures forall k :: k in filed <==> k in index || Has(row, attr, k)
    ensures forall k :: k in index && !Has(row, attr, k) ==> filed[k] == index[k]
    ensures attr in row && mode == Single ==> row[attr] in filed && filed[row[attr]] == One(row)
    ensures attr in row && mode == Collection ==>
      row[attr] in filed && filed[row[attr]] == Many((if row[attr] in index then RowsOf(index[row[attr]]) else []) + [row])
  {
    if attr !in row then index
    else
      var k := row[attr];
      match mode
      case Single => index[k := One(row)]
      case Collection => index[k := Many((if k in index then RowsOf(index[k]) else []) + [row])]
  }

  lemma FilePreservesIndex<K(!new)>(index: map<K, Resolved<Row<K>>>, before: seq<Row<K>>, row: Row<K>, attr: Attr, mode: Mode)
    requires IndexOf(index, before, attr, mode)
    ensures IndexOf(File(index, row, attr, mode), before + [row], attr, mode)
  {
    var rows := before + [row];
    var filed := File(index, row, attr, mode);
    forall k
      ensures k in filed <==> |Matching(rows, attr, k)| > 0
      ensures k in filed ==> filed[k] == Lookup(rows, attr, mode, k)
    {
      MatchingSnoc(before, row, attr, k);
      var group := Matching(before, attr, k);
      if Has(row, attr, k) {
        assert Matching(rows, attr, k) == group + [row];
        if mode == Collection && k in index {
          assert index[k] == Many(group);
        }
      } else {
        assert Matching(rows, attr, k) == group;
        assert k in filed <==> k in index;
      }
    }
  }

  /** The one-pass index of the fetched rows (the `forEach` building
      `byTargetId` / `byForeignKey`). A row that lacks the grouping attribute
      is filed nowhere. */
  function GroupBy<K(==,!new)>(rows: seq<Row<K>>, attr: Attr, mode: Mode): (index: map<K, Resolved<Row<K>>>)
    ensures forall k :: k in index <==> |Matching(rows, attr, k)| > 0
    ensures forall k :: k in index ==> index[k] == Lookup(rows, attr, mode, k)
    decreases |rows|
  {
    if |rows| == 0 then map[]
    else
      var before := rows[..|rows| - 1];
      var row := rows[|rows| - 1];
      var index := GroupBy(before, attr, mode);
      FilePreservesIndex(index, before, row, attr, mode);
      assert before + [row] == rows;
      File(index, row, attr, mode)
  }

  /** One result per requested key, in key order (the `keys.map`). */
  function Remap<K(==), R>(index: map<K, Resolved<R>>, mode: Mode, keys: seq<K>): (results: seq<Resolved<R>>)
    ensures |results| == |keys|
    ensures forall i :: 0 <= i < |keys| && keys[i] in index ==> results[i] == index[keys[i]]
    ensures forall i :: 0 <= i < |keys| && keys[i] !in index ==> results[i] == Default(mode)
  {
    seq(|keys|, i requires 0 <= i < |keys| => if keys[i] in index then index[keys[i]] else Default(mode))
  }

  /** The batch function: index the fetched rows, then remap the keys.
      Position i is the reference result for keys[i]. */
  function BatchLoad<K(==,!new)>(rows: seq<Row<K>>, attr: Attr, mode: Mode, keys: seq<K>): (results: seq<Resolved<Row<K>>>)
    ensures |results| == |keys|
    ensures forall i :: 0 <= i < |keys| ==> results[i] == Lookup(rows, attr, mode, keys[i])
  {
    Remap(GroupBy(rows, attr, mode), mode, keys)
  }

  /** What the caller of a batch can rely on: the cardinality follows the
      mode, never the data; a key no row matched gets the default; equal keys
      get equal results; every row delivered for a key holds that key, so a
      row whose grouping value was not requested is delivered nowhere. */
  lemma BatchLoadShape<K(!new)>(rows: seq<Row<K>>, attr: Attr, mode: Mode, keys: seq<K>)
    ensures forall i :: 0 <= i < |keys| ==> Fits(mode, BatchLoad(rows, attr, mode, keys)[i])
    ensures forall i :: 0 <= i < |keys| && |Matching(rows, attr, keys[i])| == 0 ==>
      BatchLoad(rows, attr, mode, keys)[i] == Default(mode)
    ensures forall i, j :: 0 <= i < |keys| && 0 <= j < |keys| && keys[i] == keys[j] ==>
      BatchLoad(rows, attr, mode, keys)[i] == BatchLoad(rows, attr, mode, keys)[j]
    ensures forall i, row :: 0 <= i < |keys| && row in RowsOf(BatchLoad(rows, attr, mode, keys)[i]) ==>
      row in rows && Has(row, attr, keys[i])
    ensures forall i, row :: 0 <= i < |keys| && row in rows && !(attr in row && row[attr] in keys) ==>
      row !in RowsOf(BatchLoad(rows, attr, mode, keys)[i])
  {
  }

  /** A group with no member after position j ends with rows[j]. */
  lemma LastOfGroup<K>(rows: seq<Row<K>>, attr: Attr, k: K, j: nat)
    requires j < |rows| && Has(rows[j], attr, k)
    requires forall l :: j < l < |rows| ==> !Has(rows[l], attr, k)
    ensures Matching(rows, attr, k) == Matching(rows[..j], attr, k) + [rows[j]]
  {
    var after := rows[j + 1..];
    assert rows == rows[..j] + [rows[j]] + after;
    MatchingConcat(rows[..j] + [rows[j]], after, attr, k);
    MatchingSnoc(rows[..j], rows[j], attr, k);
    NoneMatching(after, attr, k);
  }

  /** Single mode, last row wins: when several fetched rows share the
      grouping value of a requested key, that key resolves to the last of
      them in fetch order. */
  lemma LastWins<K(!new)>(rows: seq<Row<K>>, attr: Attr, keys: seq<K>, i: nat, j: nat)
    requires i < |keys| && j < |rows|
    requires Has(rows[j], attr, keys[i])
    requires forall l :: j < l < |rows| ==> !Has(rows[l], attr, keys[i])
    ensures BatchLoad(rows, attr, Single, keys)[i] == One(rows[j])
  {
    LastOfGroup(rows, attr, keys[i], j);
  }

  /** Total number of rows carried by a list of results. */
  function TotalRows<R>(results: seq<Resolved<R>>): nat
  {
    if |results| == 0 then 0 else |RowsOf(results[0])| + TotalRows(results[1..])
  }

  lemma {:induction false} TotalRowsIsSumMatching<K>(rows: seq<Row<K>>, attr: Attr, keys: seq<K>, results: seq<Resolved<Row<K>>>)
    requires |results| == |keys|
    requires forall i :: 0 <= i < |keys| ==> results[i] == Many(Matching(rows, attr, keys[i]))
    ensures TotalRows(results) == SumMatching(rows, attr, keys)
    decreases |keys|
  {
    if |keys| > 0 {
      TotalRowsIsSumMatching(rows, attr, keys[1..], results[1..]);
    }
  }

  /** All rows carried by a list of results, result after result. */
  function Flatten<R>(results: seq<Resolved<R>>): (all: seq<R>)
    ensures |all| == TotalRows(results)
  {
    if |results| == 0 then [] else RowsOf(results[0]) + Flatten(results[1..])
  }

  lemma {:induction false} FlattenOfGroups<K>(rows: seq<Row<K>>, attr: Attr, keys: seq<K>, results: seq<Resolved<Row<K>>>)
    requires Distinct(keys)
    requires |results| == |keys|
    requires forall i :: 0 <= i < |keys| ==> results[i] == Many(Matching(rows, attr, keys[i]))
    ensures multiset(Flatten(results)) == multiset(Requested(rows, attr, keys))
    decreases |keys|
  {
    if |keys| > 0 {
      FlattenOfGroups(rows, attr, keys[1..], results[1..]);
      assert keys == [keys[0]] + keys[1..];
      RequestedConsMultiset(rows, attr, keys[0], keys[1..]);
    }
  }

  /** Collection mode over distinct keys: the lists together hold exactly the
      fetched rows whose grouping value was requested, each as often as it
      was fetched, so their total length never exceeds the number of fetched
      rows. */
  lemma CollectionDeliversEachRowOnce<K(!new)>(rows: seq<Row<K>>, attr: Attr, keys: seq<K>)
    requires Distinct(keys)
    ensures multiset(Flatten(BatchLoad(rows, attr, Collection, keys))) == multiset(Requested(rows, attr, keys))
    ensures TotalRows(BatchLoad(rows, attr, Collection, keys)) == |Requested(rows, attr, keys)|
    ensures TotalRows(BatchLoad(rows, attr, Collection, keys)) <= |rows|
  {
    var results := BatchLoad(rows, attr, Collection, keys);
    // The two count clauses also follow from the multiset clause; they are
    // proved here a second time, by counting each key's group.
    TotalRowsIsSumMatching(rows, attr, keys, results);
    GroupsPartitionRequested(rows, attr, keys);
    FlattenOfGroups(rows, attr, keys, results);
  }
}
