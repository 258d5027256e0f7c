# Product read path with snapshot fallback

This project models the product data-access layer of a small catalog service
(`products.js`). Reads go to a primary document store first. When the store
does not answer, they are served from a static snapshot of products read from
disk:

- `list(options)` sends the store a query filtered by tag, sorted by id, with
  `skip(offset)` and `limit(limit)`. If the store throws, it filters the snapshot
  by tag and returns `slice(offset, offset + limit)`.
- `get(id)` returns the store's document when there is one. If the store
  returns nothing or throws, it returns the first snapshot record with that
  id, or `null`.

The model consists of pure functions over immutable values:

- `optional.dfy`: `Option`, used for omitted options and for `null`.
- `array_ops.dfy`: the JavaScript array operations the code uses (`find`,
  `filter`, `slice` with non-negative bounds) over `seq`, plus the
  "subsequence in order" notion.
- `catalog.dfy`: the `Product` record, JavaScript truthiness of `tag`, the
  tag test, and the id scan.
- `products.dfy`: the store and snapshot outcomes, `List`, `Get`, and the
  lemmas about them.

The primary store is the value `Store(find, findById)`. It holds two functions
from a request to its outcome: `Listed(products)` / `ListFailed`, and
`Found(p)` / `Absent` / `LookupFailed`. `List` computes the `Find` request it
sends (filter document, id sort, skip, limit). What the store answers is
opaque, and it is returned unchanged. The snapshot is `Readable(records)`, or
`Unreadable` when reading or parsing the file fails. That failure is not
caught, so the caller receives it as `SnapshotUnavailable`.

Two behaviours of the code are easy to misread:

- The fallback `list` does not sort the snapshot by id. It keeps file order
  (`FallbackKeepsSnapshotOrder`, `FallbackDoesNotSort`). Only the primary
  query asks for an id sort.
- `get` also falls back when the store answers "no such document", not only
  when it fails. After `if (product) return product;` a `null` result falls
  through to the snapshot scan (`GetAbsentLikeFailed`,
  `GetSnapshotMasksAbsent`).

## Model

| member | source | states |
|---|---|---|
| ArrayOps.FirstIndex | products.js:77 | the position found passes the test and no earlier element does; none is found exactly when no element passes |
| ArrayOps.Filter | products.js:58 | every kept element is in the input and passes the test, every passing input element is kept, and nothing is dropped when all pass |
| ArrayOps.Positions | products.js:58 | the positions of passing elements, strictly increasing, each in range and passing, and every passing position is listed |
| ArrayOps.FilterAtPositions | products.js:58 | the filtered array is the input read at the passing positions, so filter preserves order |
| ArrayOps.Slice | products.js:59 | the slice has length min(end, n) - start when non-empty, is empty when start >= end or start >= n, and element k is input element start + k |
| ArrayOps.SliceKeepsOrder | products.js:59 | a window of an in-order subsequence is still an in-order subsequence of the same array |
| ArrayOps.SliceAdjacent | products.js:59 | slice(o, o+a) followed by slice(o+a, o+a+b) is slice(o, o+a+b) |
| Catalog.KeepsMeansTagged | products.js:58 | the fallback's tag scan keeps a product exactly when the tag is falsy or some tag entry has that title |
| Catalog.FindById | products.js:77 | the snapshot scan returns the record at the first position with that id, and null exactly when no record has it |
| Products.QueryFor | products.js:46 | the query has no filter exactly when the tag is absent or empty, and otherwise matches on that tag title |
| Products.FallbackWindow | products.js:57-59 | the fallback page has at most limit records and is empty once offset passes the matches; each record comes from the snapshot and carries the tag; with no tag it is snapshot[offset .. min(offset+limit, n)] |
| Products.List | products.js:42-61 | a store answer is returned unchanged; on store failure the result is the snapshot error exactly when the snapshot is unreadable, and otherwise at most limit tagged snapshot records |
| Products.Get | products.js:68-78 | a store document is returned as is; otherwise the snapshot error when it is unreadable, else the first snapshot record with that id, or null exactly when none has it |
| Products.ListDefaults | products.js:43 | omitted offset and limit behave as 0 and 25, both in the store request and in the result |
| Products.SameTagRuleOnBothPaths | products.js:46-58 | a product is selected by the store filter exactly when the fallback predicate keeps it |
| Products.ListPrimaryIgnoresSnapshot | products.js:45-52 | when the store answers, the result is an answer and does not depend on the snapshot, even an unreadable one |
| Products.ListFallbackIgnoresStore | products.js:53-60 | when the store fails, the result depends only on the snapshot and the options |
| Products.FallbackIsContiguous | products.js:57-59 | the fallback page is a contiguous run of the matching records starting at offset, or empty when offset is past them |
| Products.FallbackKeepsSnapshotOrder | products.js:47-59 | the fallback page occurs in the snapshot at strictly increasing positions: no reordering and no sort |
| Products.FallbackDoesNotSort | products.js:57-59 | with no tag, two snapshot records with different ids come back in file order, not sorted by id |
| Products.FallbackPaging | products.js:59 | pages (offset, limit) and (offset+limit, limit) concatenate to page (offset, 2*limit), so no record is skipped or repeated |
| Products.GetAbsentLikeFailed | products.js:69-77 | a store "no document" and a store failure give the same result |
| Products.GetSnapshotMasksAbsent | products.js:70-77 | when the store produces no document and the snapshot has a record with that id, get returns a record with that id |

## Left out

- `create`, `edit`, `destroy` (products.js:85-108): each is a single call into
  the document-store library. Validation, id generation and update semantics
  belong to that library, not to this code.
- The store's own query semantics (filtering, id sort, skip, and `limit(0)`
  meaning "no limit"): a `Find` is modelled as a request whose answer is
  opaque. The model does not claim the primary and fallback paths agree.
- Reading and parsing the snapshot file (products.js:56-57, 76): the parsed
  records are a parameter, and any failure is the single `Unreadable` value.
- `offset` and `limit` are `nat`. The `Number(...)` coercion of query-string
  values (NaN, negatives, fractions) happens in the HTTP layer and is not
  modelled.
- `tag` is an optional string. Non-string values (such as a repeated query
  parameter arriving as an array) are not modelled.
- Snapshot records whose `tags` is missing are not modelled: here every
  record has a tag sequence. On such a record the fallback filter throws only
  when a truthy tag is given; with no tag it is kept, and `get` never reads
  `tags`.
- Snapshot records with missing required fields (`likes`, `urls`, `links`,
  `user`) are not modelled: `Product` always has the full required layout
  and `likes` is an unbounded `int` standing in for a JavaScript number. The
  snapshot is returned unvalidated, and no logic on the read path reads
  `likes`, `urls`, `links` or `user`, so no read-path behaviour depends on
  them.
- Snapshot records whose `id` is missing or not a string are not modelled:
  `get`'s scan compares `id` with `===`, so such a record never matches a
  string id, while here every record has a string `id`.
- The `_id` default generated by `cuid` (products.js:12), the `_id`/`id`
  naming difference between stored documents and snapshot records, logging,
  and async/promise plumbing.
- The HTTP routing (api.js), server boot (app.js) and the order repository
  (orders.js): these are glue code with no logic of their own.
