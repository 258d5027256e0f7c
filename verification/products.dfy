/** The product read path: `list` and `get` consult the primary document
    store first and, when it does not answer, read the on-disk snapshot.
    The store is a pair of functions from a request to its outcome, so the
    model states exactly which request is sent and how each outcome is used;
    the snapshot is the parsed file, or `Unreadable` when reading or parsing
    it fails (that failure is not caught and reaches the caller). */
module Products {
  import opened Optional
  import opened ArrayOps
  import opened Catalog

  const DefaultOffset: nat := 0
  const DefaultLimit: nat := 25

  /** The options object of `list`; `None` is an omitted property. */
  datatype ListOptions = ListOptions(offset: Option<nat>, limit: Option<nat>, tag: Option<string>)

  /** The filter document of the primary query. */
  datatype Query =
    | MatchAll                    // `{}`
    | ElemMatchTitle(title: string) // `{ tags: { $elemMatch: { title } } }`

  /** A primary `find(filter).sort({ _id: 1 }).skip(skip).limit(limit)`:
      the request always sorts by `_id` ascending, so only the filter and
      the window vary. */
  datatype Find = Find(filter: Query, skip: nat, limit: nat)

  /** What the primary store does with a `Find`: answer, or throw. */
  datatype PrimaryList = Listed(products: seq<Product>) | ListFailed

  /** What the primary store does with `findById`: a document, `null`, or throw. */
  datatype PrimaryGet = Found(product: Product) | Absent | LookupFailed

  datatype Store = Store(find: Find -> PrimaryList, findById: string -> PrimaryGet)

  datatype Snapshot = Readable(records: seq<Product>) | Unreadable

  /** A read-path answer, or the snapshot's own failure propagated. */
  datatype Reply<+T> = Ok(value: T) | SnapshotUnavailable

  function OffsetOf(opts: ListOptions): nat {
    ValueOr(opts.offset, DefaultOffset)
  }

  function LimitOf(opts: ListOptions): nat {
    ValueOr(opts.limit, DefaultLimit)
  }

  /** Does a document satisfy a filter, as the store evaluates it:
      `$elemMatch` selects documents with some tag entry of that title. */
  ghost predicate Selects(q: Query, p: Product) {
    match q
    case MatchAll => true
    case ElemMatchTitle(title) => Tagged(p, title)
  }

  /** The filter built from the `tag` option, using its truthiness. */
  function QueryFor(tag: Option<string>): (q: Query)
    ensures q.MatchAll? <==> !Truthy(tag)
    ensures q.ElemMatchTitle? ==> Some(q.title) == tag
  {
    if Truthy(tag) then ElemMatchTitle(tag.value) else MatchAll
  }

  /** The primary request `list` sends for these options. */
  function FindFor(opts: ListOptions): Find {
    Find(QueryFor(opts.tag), OffsetOf(opts), LimitOf(opts))
  }

  /** The snapshot records the fallback filter keeps, in file order. */
  function Matching(records: seq<Product>, tag: Option<string>): seq<Product> {
    Filter(records, (p: Product) => Keeps(tag, p))
  }

  /** The fallback answer of `list`: filter the snapshot by tag, then take
      `slice(offset, offset + limit)`. No sort is applied. */
  function FallbackWindow(records: seq<Product>, tag: Option<string>, offset: nat, limit: nat): (r: seq<Product>)
    ensures |r| <= limit
    ensures offset >= |Matching(records, tag)| ==> r == []
    ensures forall k :: 0 <= k < |r| ==> r[k] in records && Keeps(tag, r[k])
    ensures Truthy(tag) ==> forall k :: 0 <= k < |r| ==> Tagged(r[k], tag.value)
    ensures !Truthy(tag) && offset <= |records| ==> r == records[offset..Min(offset + limit, |records|)]
    ensures !Truthy(tag) && offset > |records| ==> r == []
  {
    var m := Matching(records, tag);
    var r := Slice(m, offset, offset + limit);
    assert Truthy(tag) ==> forall k :: 0 <= k < |r| ==> Tagged(r[k], tag.value) by {
      forall k | 0 <= k < |r|
        ensures Keeps(tag, r[k]) <==> !Truthy(tag) || Tagged(r[k], tag.value)
      {
        KeepsMeansTagged(tag, r[k]);
      }
    }
    r
  }

  /** `list(options)`: the primary answer when the store answers, otherwise
      the snapshot window (or the snapshot's own failure). */
  function List(opts: ListOptions, store: Store, snapshot: Snapshot): (r: Reply<seq<Product>>)
    ensures store.find(FindFor(opts)).Listed? ==> r == Ok(store.find(FindFor(opts)).products)
    ensures store.find(FindFor(opts)).ListFailed? ==> (r.SnapshotUnavailable? <==> snapshot.Unreadable?)
    ensures store.find(FindFor(opts)).ListFailed? && r.Ok? ==>
      && |r.value| <= LimitOf(opts)
      && forall k :: 0 <= k < |r.value| ==> r.value[k] in snapshot.records && Keeps(opts.tag, r.value[k])
  {
    match store.find(FindFor(opts))
    case Listed(products) => Ok(products)
    case ListFailed =>
      match snapshot
      case Unreadable => SnapshotUnavailable
      case Readable(records) => Ok(FallbackWindow(records, opts.tag, OffsetOf(opts), LimitOf(opts)))
  }

  /** `get(id)`: a document from the primary store is returned as is; when
      the store finds nothing OR throws, the snapshot is scanned for the first
      record with this id. */
  function Get(id: string, store: Store, snapshot: Snapshot): (r: Reply<Option<Product>>)
    ensures store.findById(id).Found? ==> r == Ok(Some(store.findById(id).product))
    ensures !store.findById(id).Found? ==> (r.SnapshotUnavailable? <==> snapshot.Unreadable?)
    ensures !store.findById(id).Found? && r.Ok? && r.value.Some? ==>
      exists i :: FirstWithIdAt(snapshot.records, id, i) && snapshot.records[i] == r.value.value
    ensures !store.findById(id).Found? && r.Ok? ==>
      (r.value.None? <==> forall i :: 0 <= i < |snapshot.records| ==> snapshot.records[i].id != id)
  {
    match store.findById(id)
    case Found(product) => Ok(Some(product))
    case _ =>
      match snapshot
      case Unreadable => SnapshotUnavailable
      case Readable(records) => Ok(FindById(records, id))
  }

  // ---------------------------------------------------------------- list

  /** Omitted `offset` and `limit` mean 0 and 25. */
  lemma ListDefaults(tag: Option<string>, store: Store, snapshot: Snapshot)
    ensures FindFor(ListOptions(None, None, tag)) == Find(QueryFor(tag), 0, 25)
    ensures List(ListOptions(None, None, tag), store, snapshot)
         == List(ListOptions(Some(0), Some(25), tag), store, snapshot)
  {
  }

  /** The primary query and the fallback filter apply the same tag rule:
      a document is selected by the query exactly when the fallback keeps it. */
  lemma SameTagRuleOnBothPaths(tag: Option<string>, p: Product)
    ensures Selects(QueryFor(tag), p) <==> Keeps(tag, p)
  {
    KeepsMeansTagged(tag, p);
  }

  /** A primary answer is returned whatever the snapshot holds, even when the
      snapshot could not be read. */
  lemma ListPrimaryIgnoresSnapshot(opts: ListOptions, store: Store, s1: Snapshot, s2: Snapshot)
    requires store.find(FindFor(opts)).Listed?
    ensures List(opts, store, s1) == List(opts, store, s2)
    ensures List(opts, store, s1).Ok?
  {
  }

  /** On primary failure the answer depends only on the snapshot and the
      options, not on anything else about the store. */
  lemma ListFallbackIgnoresStore(opts: ListOptions, store1: Store, store2: Store, snapshot: Snapshot)
    requires store1.find(FindFor(opts)).ListFailed?
    requires store2.find(FindFor(opts)).ListFailed?
    ensures List(opts, store1, snapshot) == List(opts, store2, snapshot)
  {
  }

  /** The fallback window is a contiguous run of the matching records. */
  lemma FallbackIsContiguous(records: seq<Product>, tag: Option<string>, offset: nat, limit: nat)
    ensures var m := Matching(records, tag);
            var r := FallbackWindow(records, tag, offset, limit);
            (offset <= |m| && r == m[offset..Min(offset + limit, |m|)])
            || (offset > |m| && r == [])
  {
  }

  /** The fallback keeps snapshot order: its records occur in the snapshot at
      strictly increasing positions, so no sort is applied. */
  lemma {:induction false} FallbackKeepsSnapshotOrder(records: seq<Product>, tag: Option<string>, offset: nat, limit: nat)
    ensures InOrderOf(FallbackWindow(records, tag, offset, limit), records)
  {
    var keep := (p: Product) => Keeps(tag, p);
    var idx := Positions(records, keep);
    FilterAtPositions(records, keep);
    SliceKeepsOrder(Matching(records, tag), records, idx, offset, offset + limit);
    assert EmbeddedAt(FallbackWindow(records, tag, offset, limit), records, Slice(idx, offset, offset + limit));
  }

  /** The fallback returns snapshot records in file order whatever their ids:
      two records with different ids listed without a tag come back as they
      are in the file, so a snapshot not sorted by id yields a page not
      sorted by id. */
  lemma FallbackDoesNotSort(first: Product, second: Product)
    requires first.id != second.id
    ensures FallbackWindow([first, second], None, 0, DefaultLimit) == [first, second]
  {
  }

  /** Two consecutive pages `(offset, limit)` and `(offset + limit, limit)`
      together are the page `(offset, 2 * limit)`. */
  lemma FallbackPaging(records: seq<Product>, tag: Option<string>, offset: nat, limit: nat)
    ensures FallbackWindow(records, tag, offset, limit) + FallbackWindow(records, tag, offset + limit, limit)
         == FallbackWindow(records, tag, offset, 2 * limit)
  {
    SliceAdjacent(Matching(records, tag), offset, limit, limit);
  }

  // ----------------------------------------------------------------- get

  /** "Not found" and "store failed" lead to the same snapshot scan: the
      store's `null` does not stop the fallback. */
  lemma GetAbsentLikeFailed(id: string, store1: Store, store2: Store, snapshot: Snapshot)
    requires store1.findById(id) == Absent
    requires store2.findById(id) == LookupFailed
    ensures Get(id, store1, snapshot) == Get(id, store2, snapshot)
  {
  }

  /** A snapshot record with the id is returned whenever the primary store
      does not produce the document, including when it reports no document. */
  lemma GetSnapshotMasksAbsent(id: string, store: Store, records: seq<Product>, i: nat)
    requires !store.findById(id).Found?
    requires i < |records| && records[i].id == id
    ensures Get(id, store, Readable(records)).Ok?
    ensures Get(id, store, Readable(records)).value.Some?
    ensures Get(id, store, Readable(records)).value.value.id == id
  {
  }
}
