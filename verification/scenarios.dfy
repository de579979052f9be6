/** Concrete batches worked through the model, with integer keys. */
module Scenarios {
  import opened Wrappers
  import opened Rows
  import opened Batch
  import opened Loaders

  /** Rows r1, r2, r3 fetched in that order whose "fk" values are 5, 5, 7. */
  predicate FkFiveFiveSeven(r1: Row<int>, r2: Row<int>, r3: Row<int>)
  {
    && "fk" in r1 && r1["fk"] == 5
    && "fk" in r2 && r2["fk"] == 5
    && "fk" in r3 && r3["fk"] == 7
  }

  lemma GroupsOfFiveFiveSeven(r1: Row<int>, r2: Row<int>, r3: Row<int>)
    requires FkFiveFiveSeven(r1, r2, r3)
    ensures Matching([r1, r2, r3], "fk", 5) == [r1, r2]
    ensures Matching([r1, r2, r3], "fk", 7) == [r3]
    ensures Matching([r1, r2, r3], "fk", 9) == []
  {
    assert GroupValue(r1, "fk") == Some(5) && GroupValue(r2, "fk") == Some(5) && GroupValue(r3, "fk") == Some(7);
    var rows := [r1, r2, r3];
    assert rows[1..] == [r2, r3];
    assert rows[1..][1..] == [r3];
    assert |rows[1..][1..][1..]| == 0;
    assert Matching([r3], "fk", 5) == [];
    assert Matching([r3], "fk", 7) == [r3];
    assert Matching([r3], "fk", 9) == [];
  }

  /** hasMany over rows {id 1, fk 5}, {id 2, fk 5}, {id 3, fk 7} (or any
      rows with those fk values) and keys 5, 7, 9: the first two rows, the
      third row, and an empty list, in key order. */
  lemma HasManyExample(r1: Row<int>, r2: Row<int>, r3: Row<int>, keys: seq<int>)
    requires FkFiveFiveSeven(r1, r2, r3) && keys == [5, 7, 9]
    ensures ModelLoaderBatch("fk", "hasMany", keys, [r1, r2, r3]) == [Many([r1, r2]), Many([r3]), Many([])]
  {
    var results := ModelLoaderBatch("fk", "hasMany", keys, [r1, r2, r3]);
    GroupsToResults(r1, r2, r3, keys, results);
  }

  /** Proof step of HasManyExample, kept apart so that its proof sees only
      the loader's contract and stays cheap; it states no further property. */
  lemma GroupsToResults(r1: Row<int>, r2: Row<int>, r3: Row<int>, keys: seq<int>, results: seq<Resolved<Row<int>>>)
    requires FkFiveFiveSeven(r1, r2, r3) && keys == [5, 7, 9]
    requires |results| == |keys|
    requires forall i :: 0 <= i < |keys| ==> results[i] == Many(Matching([r1, r2, r3], "fk", keys[i]))
    ensures results == [Many([r1, r2]), Many([r3]), Many([])]
  {
    GroupsOfFiveFiveSeven(r1, r2, r3);
    assert results[0] == Many([r1, r2]);
    assert results[1] == Many([r3]);
    assert results[2] == Many([]);
  }

  /** The same rows through hasOne: the last row holding 5 wins, and 9 gets
      null. */
  lemma HasOneExample(r1: Row<int>, r2: Row<int>, r3: Row<int>, keys: seq<int>)
    requires FkFiveFiveSeven(r1, r2, r3) && keys == [5, 9]
    ensures ModelLoaderBatch("fk", "hasOne", keys, [r1, r2, r3]) == [One(r2), Null]
  {
    assert "hasOne" != "hasMany";
    var results := ModelLoaderBatch("fk", "hasOne", keys, [r1, r2, r3]);
    LastOfGroupsToResults(r1, r2, r3, keys, results);
  }

  /** Proof step of HasOneExample, kept apart so that its proof sees only
      the loader's contract and stays cheap; it states no further property. */
  lemma LastOfGroupsToResults(r1: Row<int>, r2: Row<int>, r3: Row<int>, keys: seq<int>, results: seq<Resolved<Row<int>>>)
    requires FkFiveFiveSeven(r1, r2, r3) && keys == [5, 9]
    requires |results| == |keys|
    requires forall i :: 0 <= i < |keys| ==> results[i] == Lookup([r1, r2, r3], "fk", Single, keys[i])
    ensures results == [One(r2), Null]
  {
    GroupsOfFiveFiveSeven(r1, r2, r3);
    assert results[0] == One(r2);
    assert results[1] == Null;
  }

  lemma GroupsOfOneJoined(joined: Row<int>)
    requires "fk" in joined && joined["fk"] == 1
    ensures Matching([joined], "fk", 1) == [joined]
    ensures Matching([joined], "fk", 2) == []
  {
  }

  /** belongsToMany over one joined row whose join-table "fk" column is 1
      (such as {target_id 10, fk 1, ok 10}) and keys 1, 2: the row for 1, an
      empty list for 2. */
  lemma BelongsToManyExample(joined: Row<int>, keys: seq<int>)
    requires "fk" in joined && joined["fk"] == 1 && keys == [1, 2]
    ensures BelongsToManyBatch("fk", keys, [joined]) == [Many([joined]), Many([])]
  {
    var results := BelongsToManyBatch("fk", keys, [joined]);
    GroupsOfOneJoined(joined);
    assert results[0] == Many([joined]);
    assert results[1] == Many([]);
  }
}
