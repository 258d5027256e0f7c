/** The product record and the two record tests the read path performs on it:
    "carries a tag entry with this title" and "has this id". */
module Catalog {
  import opened Optional
  import opened ArrayOps

  datatype Tag = Tag(title: string)

  datatype Urls = Urls(regular: string, small: string, thumb: string)

  datatype Links = Links(self: string, html: string)

  datatype User = User(
    id: string,
    firstName: string,
    lastName: Option<string>,
    portfolioUrl: Option<string>,
    username: string)

  /** A catalog item. Required fields are plain, optional ones are `Option`s,
      so every value of this type has the required-field layout the product
      schema demands. `id` is the identity field snapshot records carry. */
  datatype Product = Product(
    id: string,
    description: Option<string>,
    altDescription: Option<string>,
    likes: int,
    urls: Urls,
    links: Links,
    user: User,
    tags: seq<Tag>)

  /** JavaScript truthiness of the optional `tag` option: an omitted tag and
      the empty string are both falsy. */
  predicate Truthy(tag: Option<string>) {
    tag.Some? && tag.value != ""
  }

  /** Some entry of `p.tags` has title `title`: the reference meaning of the
      tag test, independent of how it is scanned. */
  ghost predicate Tagged(p: Product, title: string) {
    exists k :: 0 <= k < |p.tags| && p.tags[k].title == title
  }

  /** The fallback filter's test, `!tag || product.tags.find(...)`: no truthy
      tag keeps everything, otherwise the scan of `tags` must find a title. */
  predicate Keeps(tag: Option<string>, p: Product) {
    !Truthy(tag) || FirstIndex(p.tags, (t: Tag) => t.title == tag.value).Some?
  }

  /** The scanning test keeps exactly the products the reference meaning
      selects. */
  lemma KeepsMeansTagged(tag: Option<string>, p: Product)
    ensures Keeps(tag, p) <==> !Truthy(tag) || Tagged(p, tag.value)
  {
  }

  /** `s[i]` is the first record with this id: the record `find` returns. */
  ghost predicate FirstWithIdAt(s: seq<Product>, id: string, i: int) {
    && 0 <= i < |s|
    && s[i].id == id
    && forall j :: 0 <= j < i ==> s[j].id != id
  }

  /** `records.find(product => product.id === id) || null`. */
  function FindById(records: seq<Product>, id: string): (r: Option<Product>)
    ensures r.Some? ==> exists i :: FirstWithIdAt(records, id, i) && records[i] == r.value
    ensures r.None? <==> forall i :: 0 <= i < |records| ==> records[i].id != id
  {
    var test := (p: Product) => p.id == id;
    match FirstIndex(records, test)
    case None =>
      assert forall i :: 0 <= i < |records| ==> !test(records[i]);
      None
    case Some(i) =>
      assert FirstWithIdAt(records, id, i) by {
        assert forall j :: 0 <= j < i ==> !test(records[j]);
      }
      Some(records[i])
  }
}
