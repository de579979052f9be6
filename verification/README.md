# Batched relation loading — a Dafny model

This project models the loader layer of graphql-bookshelfjs
(`src/loaders/index.js`). The layer replaces the `fetch` of a Bookshelf
relation with a DataLoader-backed one. For each of the four relation types
(`belongsTo`, `hasOne`, `hasMany`, `belongsToMany`) it issues one query for a
batch of parent keys. It then maps the flat list of fetched rows back to one
result per requested key.

The heart of it is the batch callback, modelled as one generic function
`Batch.BatchLoad` over fetched rows (attribute maps) and requested keys. Two
things parameterise it:
- the grouping attribute: the target id attribute or foreign key for
  `modelLoader`, the join table's `foreignKey` for `belongsToManyLoader`;
- the mode: `Single` (belongsTo, hasOne: a row or null, last row wins) or
  `Collection` (hasMany, belongsToMany: a possibly empty list in fetch order).

Its meaning is given by an independent reference definition. `Rows.Matching`
is the filter of the rows holding a key, in fetch order. `Batch.Lookup` is the
whole group, or the group's last row, or the default. The one-pass index
(`Batch.GroupBy`) and the key remap (`Batch.Remap`) are proved to agree with
that reference for every input.

Around it, `Loaders` models the rest of the file:
- the type dispatch;
- the installation guard (the `__wrapped` marker becomes `FetchImpl.Batched`);
- the per-type `fetch` replacements, including the `null` short-circuit of
  `belongsTo` and the default join-table name of `belongsToMany`.

The database is a parameter `run` from a query description and a key batch
to rows. JavaScript `null` is a parameter `nullKey`.

Files: `wrappers.dfy` (Option), `rows.dfy` (rows, groups, counting),
`batch.dfy` (the batch callback), `jointable.dfy` (default join-table name),
`loaders.dfy` (callbacks per loader, fetch replacements, installation,
dispatch), `scenarios.dfy` (worked batches with integer keys).

## Model

| member | source | states |
|---|---|---|
| Batch.GroupBy | src/loaders/index.js:21-30 | the one-pass index files exactly the grouping values some fetched row holds, each under its whole group in fetch order (collection) or under the group's last row (single) |
| Batch.File | src/loaders/index.js:22-29 | one step of the pass files the row under its grouping value only: in single mode that entry becomes the row, in collection mode the row is appended to the entry's list (a fresh list if there was none); a row without the attribute changes nothing, and every other entry is kept |
| Batch.FilePreservesIndex | src/loaders/index.js:22-29 | filing one more row keeps the index equal to the reference grouping of the longer row list |
| Batch.Remap | src/loaders/index.js:31-39 | the `keys.map` stated pointwise: one result per key in key order, the index entry for a key that has one and the mode's default for any other |
| Batch.Default | src/loaders/index.js:35-38 | the miss value fits the mode (null for to-one, a list for collection) and carries no rows: null for belongsTo/hasOne, the empty list for hasMany and belongsToMany |
| Batch.BatchLoad | src/loaders/index.js:16-40 | exactly one result per requested key, in key order; position i is the reference lookup of keys[i]: its whole group in fetch order (collection) or the group's last row or null (single) |
| Batch.BatchLoadShape | src/loaders/index.js:31-39 | cardinality follows the mode, never the data; a key no row matched gets null (single) or the empty list (collection), never an omission; duplicate keys get equal results; every row delivered at i holds keys[i], so rows whose grouping value was not requested appear nowhere |
| Batch.LastWins | src/loaders/index.js:29 | in single mode, when several rows hold a requested key, that key resolves to the last of them in fetch order |
| Batch.CollectionDeliversEachRowOnce | src/loaders/index.js:22-28 | in collection mode over distinct keys, the lists taken together are, as a multiset, exactly the fetched rows whose grouping value was requested (each as often as it was fetched), so their total length equals the number of requested rows and is at most the number of fetched rows |
| Loaders.ModelLoaderBatch | src/loaders/index.js:14-40 | only relation type "hasMany" yields lists (each key's full group); every other type yields the last row of the key's group or null |
| Loaders.BelongsToManyBatch | src/loaders/index.js:72-87 | joined rows are grouped by the join table's foreignKey; each key gets its group in fetch order, an empty list when none |
| Loaders.KindOf | src/loaders/index.js:175-194 | exactly the four type strings select a strategy, and the strategy selected is the one named by the string |
| Loaders.KindOfTypeName | src/loaders/index.js:176-190 | each of the four kinds is selected by its own type string, so type string and strategy correspond one to one |
| Loaders.JoinTableOf | src/loaders/index.js:156-157 | a configured non-empty join-table name is used as is; a missing or empty one gives the default name, whichever way round the two table names are taken |
| JoinTable.Sort2 | src/loaders/index.js:157 | the two-element sort returns the same two names, in ascending JavaScript string order |
| JoinTable.DefaultJoinTable | src/loaders/index.js:157 | the default name is the two table names in ascending order joined by "_" |
| JoinTable.DefaultJoinTableSymmetric | src/loaders/index.js:157 | swapping the two table names gives the same default join-table name |
| Loaders.Fetch | src/loaders/index.js:98-167 | an unreplaced fetch is not intercepted; belongsTo with a null parent key yields null and issues no query; every other replaced fetch issues exactly one query, for the batch holding only the parent key, and yields the reference lookup for that key, grouped by the target id (belongsTo), the foreign key (hasOne, hasMany) or the join table's foreign key (belongsToMany); lists exactly for hasMany and belongsToMany |
| Loaders.Install | src/loaders/index.js:98-100 | after installation the fetch is a replacement; an already replaced fetch is left exactly as it was; relation metadata and table are never touched |
| Loaders.Loaders | src/loaders/index.js:173-196 | the relation changes only when it has metadata, a known type and no replacement yet, and then only its fetch, which becomes the replacement for that type |
| Loaders.LoadersIdempotent | src/loaders/index.js:99 | running the installation twice is the same as running it once |
| Loaders.InstalledCardinality | src/loaders/index.js:15 | after installation on a fresh relation of a known type, fetch resolves to a list exactly for "hasMany" and "belongsToMany" |

## Left out

- DataLoader itself is not modelled: its per-tick coalescing, its per-key cache and its checks on keys and result lengths. Every replaced `fetch` builds a fresh loader and loads one key (index.js:107, 125, 142, 163). So the model runs the batch callback on that one-key batch. There is no cache that outlives a call.
- A `null` or `undefined` key passed to `.load` is rejected by DataLoader, not by this file. The model passes such a key (`nullKey`) through to the batch callback for hasOne, hasMany and belongsToMany.
- The wrapping mechanics of `shimmer.wrap` are not modelled. The `__wrapped` marker is the `Batched?` state of `Relation.fetch`.
- Knex query construction is not modelled: the select/innerJoin/where text and the merged `queryBuilder` constraints. A query is a `Query` value, and its rows are whatever the `run` parameter returns. The model does not assume the database honours the `in` filter. For that reason the batch properties hold for arbitrary fetched rows.
- Promises are left out: the batch callback and fetch are synchronous functions.
- The JavaScript object used as the index coerces keys to strings. Keys are modelled as an abstract value type with equality. Values that are distinct but print the same (`5` and `"5"`) would share one index entry in the source but are different keys here.
- Inherited property names such as `"constructor"` are not special in the model, but they are in the source. In collection mode the truthiness test at index.js:25 finds the inherited `Object` function, and the `.push` at index.js:28 then throws. In single mode such a row is filed as an own property, except that `"__proto__"` replaces the index's prototype (that key then gets null) and `"hasOwnProperty"` makes the lookup at index.js:32 throw for every key.
- A row lacking the grouping attribute is filed under `"undefined"` in the source. In the model it is filed under no key. So the string key `"undefined"` (a valid key, such as a text foreign key holding that word) would receive those rows in the source; in the model no key does.
- Bookshelf relation objects are reduced to the fields the installation and the replacements read (`relatedData`, `tableName`, `fetch`), less `_knex`, which is left out with the query builder. A replaced fetch on a relation without `relatedData` would throw in the source, and the model's `Fetch` requires the metadata to be present.
- JavaScript compares strings by UTF-16 code units. The model compares characters by code point. The two orders agree on the Basic Multilingual Plane.
- Batch-level failures are not modelled: a failing query, and a result list of the wrong length. Both are DataLoader and driver behaviour.
- The `null` short-circuit in the source tests `parentFK !== null` only. An `undefined` parent key therefore reaches `.load`, which DataLoader rejects without querying. The model has no undefined value: every parent key other than `nullKey` issues its query.
