/** The loader installation of src/loaders/index.js: the two batch
    callbacks (`modelLoader`, `belongsToManyLoader`), the four per-relation
    `fetch` replacements and the exported dispatch on the relation type.

    A relation is a record; replacing its `fetch` is modelled by the `fetch`
    field turning from `Original` into `Batched(kind)`, the kind chosen at
    installation. The database is a parameter `run` from a query and a key
    batch to the fetched rows; JavaScript `null` is the parameter `nullKey`. */
module Loaders {
  import opened Wrappers
  import opened Rows
  import opened Batch
  import opened JoinTable

  // ---------------------------------------------------------------------
  // Batch callbacks

  /** The batch callback of `modelLoader`: rows are grouped by
      `targetIdAttribute`; only the relation type "hasMany" makes it a
      collection loader (each key's whole group), every other type gives
      the last row of the key's group, or null. */
  function ModelLoaderBatch<K(==,!new)>(targetIdAttribute: Attr, relationType: string, keys: seq<K>, rows: seq<Row<K>>)
    : (results: seq<Resolved<Row<K>>>)
    ensures |results| == |keys|
    ensures relationType == "hasMany" ==>
      forall i :: 0 <= i < |keys| ==> results[i] == Many(Matching(rows, targetIdAttribute, keys[i]))
    ensures relationType != "hasMany" ==>
      forall i :: 0 <= i < |keys| ==> results[i] == Lookup(rows, targetIdAttribute, Single, keys[i])
  {
    if relationType == "hasMany" then BatchLoad(rows, targetIdAttribute, Collection, keys)
    else BatchLoad(rows, targetIdAttribute, Single, keys)
  }

  /** The batch callback of `belongsToManyLoader`: the joined rows are
      grouped by the join table's `foreignKey` column (not by the target's
      id attribute), one possibly empty list per key. */
  function BelongsToManyBatch<K(==,!new)>(foreignKey: Attr, keys: seq<K>, rows: seq<Row<K>>)
    : (results: seq<Resolved<Row<K>>>)
    ensures |results| == |keys|
    ensures forall i :: 0 <= i < |keys| ==> results[i] == Many(Matching(rows, foreignKey, keys[i]))
  {
    BatchLoad(rows, foreignKey, Collection, keys)
  }

  // ---------------------------------------------------------------------
  // Relations and their fetch

  /** The four relation types the module intercepts. */
  datatype Kind = BelongsTo | HasOne | HasMany | BelongsToMany

  /** The `relatedData.type` string of each kind. */
  function TypeName(kind: Kind): string
  {
    match kind
    case BelongsTo => "belongsTo"
    case HasOne => "hasOne"
    case HasMany => "hasMany"
    case BelongsToMany => "belongsToMany"
  }

  /** The exported function's `switch`: the kind a type string selects, or
      None for any other string (the `default: break`). */
  function KindOf(relationType: string): (kind: Option<Kind>)
    ensures kind.Some? <==> relationType in {"belongsTo", "hasOne", "hasMany", "belongsToMany"}
    ensures kind.Some? ==> TypeName(kind.value) == relationType
  {
    match relationType
    case "belongsTo" => Some(BelongsTo)
    case "belongsToMany" => Some(BelongsToMany)
    case "hasMany" => Some(HasMany)
    case "hasOne" => Some(HasOne)
    case _ => None
  }

  /** Every kind is selected by its own type string. */
  lemma KindOfTypeName(kind: Kind)
    ensures KindOf(TypeName(kind)) == Some(kind)
  {
  }

  /** The relation metadata (`relatedData`) the fetch replacements read. */
  datatype RelatedData<K> = RelatedData(
    relationType: string,
    target: string,               // the target model the query runs on
    targetIdAttribute: Attr,
    foreignKey: Attr,
    otherKey: Attr,
    parentFk: K,                  // the parent key this relation resolves
    joinTableName: Option<string>,
    parentTableName: string)

  /** Which `fetch` a relation carries: its own, or a loader-backed
      replacement installed for one kind. `Batched?` is the `__wrapped`
      marker. */
  datatype FetchImpl = Original | Batched(kind: Kind)

  datatype Relation<K> = Relation(relatedData: Option<RelatedData<K>>, tableName: string, fetch: FetchImpl)

  /** The query a replacement issues: rows of `model` whose `attr` is in
      the batch, or rows of `model` joined to `joinTable` on
      `model.targetIdAttribute = joinTable.otherKey` whose
      `joinTable.foreignKey` is in the batch. */
  datatype Query =
    | Where(model: string, attr: Attr)
    | JoinWhere(model: string, joinTable: string, foreignKey: Attr, otherKey: Attr, targetIdAttribute: Attr)

  /** One issued query with the key batch it was given. */
  datatype Call<K> = Call(query: Query, keys: seq<K>)

  /** What calling `fetch` on a relation does: either the relation's own
      fetch runs (not part of this model), or the replacement issues the
      recorded queries and yields a value. */
  datatype FetchOutcome<K> = NotIntercepted | Fetched(calls: seq<Call<K>>, value: Resolved<Row<K>>)

  /** The join table of a many-to-many relation: the configured name unless
      it is missing or empty (falsy), else the default built from the
      relation's table and the parent's table. */
  function JoinTableOf<K>(rel: Relation<K>, rd: RelatedData<K>): (name: string)
    ensures rd.joinTableName.Some? && rd.joinTableName.value != "" ==> name == rd.joinTableName.value
    ensures (rd.joinTableName.None? || rd.joinTableName.value == "") ==>
      name == DefaultJoinTable(rd.parentTableName, rel.tableName)
  {
    DefaultJoinTableSymmetric(rel.tableName, rd.parentTableName);
    match rd.joinTableName
    case Some(name) => if name != "" then name else DefaultJoinTable(rel.tableName, rd.parentTableName)
    case None => DefaultJoinTable(rel.tableName, rd.parentTableName)
  }

  /** Calling `fetch` on a relation. A replacement builds a fresh loader
      and loads the relation's parent key, so the batch it queries for is
      that one key. It reads the relation metadata at call time, which the
      source dereferences unconditionally. */
  function Fetch<K(==,!new)>(rel: Relation<K>, nullKey: K, run: (Query, seq<K>) -> seq<Row<K>>): (out: FetchOutcome<K>)
    requires rel.fetch.Batched? ==> rel.relatedData.Some?
    ensures out.NotIntercepted? <==> rel.fetch.Original?
    ensures out.Fetched? ==> (out.value.Many? <==> rel.fetch.kind in {HasMany, BelongsToMany})
    ensures out.Fetched? ==> (out.calls == [] <==> rel.fetch.kind == BelongsTo && rel.relatedData.value.parentFk == nullKey)
    ensures out.Fetched? && out.calls == [] ==> out.value == Null
    ensures out.Fetched? && out.calls != [] ==>
      |out.calls| == 1 && out.calls[0].keys == [rel.relatedData.value.parentFk]
    ensures rel.fetch == Batched(BelongsTo) && rel.relatedData.value.parentFk != nullKey ==>
      var rd := rel.relatedData.value;
      var q := Where(rd.target, rd.targetIdAttribute);
      out == Fetched([Call(q, [rd.parentFk])], Lookup(run(q, [rd.parentFk]), rd.targetIdAttribute, Single, rd.parentFk))
    ensures rel.fetch == Batched(HasOne) ==>
      var rd := rel.relatedData.value;
      var q := Where(rd.target, rd.foreignKey);
      out == Fetched([Call(q, [rd.parentFk])], Lookup(run(q, [rd.parentFk]), rd.foreignKey, Single, rd.parentFk))
    ensures rel.fetch == Batched(HasMany) ==>
      var rd := rel.relatedData.value;
      var q := Where(rd.target, rd.foreignKey);
      out == Fetched([Call(q, [rd.parentFk])], Lookup(run(q, [rd.parentFk]), rd.foreignKey, Collection, rd.parentFk))
    ensures rel.fetch == Batched(BelongsToMany) ==>
      var rd := rel.relatedData.value;
      var q := JoinWhere(rd.target, JoinTableOf(rel, rd), rd.foreignKey, rd.otherKey, rd.targetIdAttribute);
      out == Fetched([Call(q, [rd.parentFk])], Lookup(run(q, [rd.parentFk]), rd.foreignKey, Collection, rd.parentFk))
  {
    match rel.fetch
    case Original => NotIntercepted
    case Batched(kind) =>
      var rd := rel.relatedData.value;
      var parentFk := rd.parentFk;
      match kind
      case BelongsTo =>
        if parentFk != nullKey then
          var q := Where(rd.target, rd.targetIdAttribute);
          Fetched([Call(q, [parentFk])], ModelLoaderBatch(rd.targetIdAttribute, "belongsTo", [parentFk], run(q, [parentFk]))[0])
        else Fetched([], Null)
      case HasOne =>
        var q := Where(rd.target, rd.foreignKey);
        Fetched([Call(q, [parentFk])], ModelLoaderBatch(rd.foreignKey, "hasOne", [parentFk], run(q, [parentFk]))[0])
      case HasMany =>
        var q := Where(rd.target, rd.foreignKey);
        Fetched([Call(q, [parentFk])], ModelLoaderBatch(rd.foreignKey, "hasMany", [parentFk], run(q, [parentFk]))[0])
      case BelongsToMany =>
        var q := JoinWhere(rd.target, JoinTableOf(rel, rd), rd.foreignKey, rd.otherKey, rd.targetIdAttribute);
        Fetched([Call(q, [parentFk])], BelongsToManyBatch(rd.foreignKey, [parentFk], run(q, [parentFk]))[0])
  }

  // ---------------------------------------------------------------------
  // Installation

  /** The `__wrapped` marker: `fetch` is already a replacement. */
  predicate Installed<K>(rel: Relation<K>)
  {
    rel.fetch.Batched?
  }

  /** `belongsTo(target)`, `hasOne(target)`, `hasMany(target)`,
      `belongsToMany(target)`: replace `fetch` by the kind's replacement,
      unless it is already a replacement. */
  function Install<K>(rel: Relation<K>, kind: Kind): (installed: Relation<K>)
    ensures Installed(installed)
    ensures installed.relatedData == rel.relatedData && installed.tableName == rel.tableName
    ensures Installed(rel) ==> installed == rel
    ensures !Installed(rel) ==> installed.fetch == Batched(kind)
  {
    if Installed(rel) then rel else rel.(fetch := Batched(kind))
  }

  /** The exported function: install the replacement the relation type
      selects; a relation without metadata or of another type is left as
      it is. */
  function Loaders<K>(rel: Relation<K>): (result: Relation<K>)
    ensures result.relatedData == rel.relatedData && result.tableName == rel.tableName
    ensures result != rel <==>
      !Installed(rel) && rel.relatedData.Some? && KindOf(rel.relatedData.value.relationType).Some?
    ensures result != rel ==> result.fetch == Batched(KindOf(rel.relatedData.value.relationType).value)
    ensures rel.relatedData.Some? && rel.relatedData.value.relationType in {"belongsTo", "hasOne", "hasMany", "belongsToMany"} ==>
      Installed(result)
  {
    match rel.relatedData
    case None => rel
    case Some(rd) =>
      match KindOf(rd.relationType)
      case None => rel
      case Some(kind) => Install(rel, kind)
  }

  /** Installing twice is installing once. */
  lemma LoadersIdempotent<K>(rel: Relation<K>)
    ensures Loaders(Loaders(rel)) == Loaders(rel)
  {
  }

  /** After installation on a fresh relation, a fetch resolves to a list
      exactly for the collection types, and to a row or null otherwise. */
  lemma InstalledCardinality<K(!new)>(rel: Relation<K>, nullKey: K, run: (Query, seq<K>) -> seq<Row<K>>)
    requires !Installed(rel) && rel.relatedData.Some?
    requires KindOf(rel.relatedData.value.relationType).Some?
    ensures Fetch(Loaders(rel), nullKey, run).Fetched?
    ensures Fetch(Loaders(rel), nullKey, run).value.Many? <==>
      rel.relatedData.value.relationType in {"hasMany", "belongsToMany"}
  {
  }
}
