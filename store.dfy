/** The server's database context (`ProductWebsiteContext`) as keyed tables:
    products, images, categories and SEO records, each row stored under its
    primary key, and the identity counters from which the database draws the
    keys of new products and images. Saving is immediate; the one failure
    modelled is a `SaveChangesAsync` that throws on creation. */
module Store {
  import opened Common
  import opened Models

  /** The contents of the tables at one moment. */
  datatype Tables = Tables(
    products: map<int, Product>,
    images: map<int, ImageProduct>,
    categories: map<int, Categorie>,
    seos: map<int, Seo>,
    nextProductId: int,
    nextImageId: int)

  /** The tables as the mapping keeps them: each row under its own key, keys
      below the identity counter and from 1 up, and no navigation object
      stored with a product (the mapping ignores all six) or with an image. */
  predicate Valid(t: Tables)
  {
    && 1 <= t.nextProductId && 1 <= t.nextImageId
    && (forall k | k in t.products :: 1 <= k < t.nextProductId && t.products[k].id == k && t.products[k].HasNoNavigation())
    && (forall k | k in t.images :: 1 <= k < t.nextImageId && t.images[k].id == k && t.images[k].product.None?)
    && (forall k | k in t.categories :: t.categories[k].id == k)
    && (forall k | k in t.seos :: t.seos[k].id == k)
  }

  const EmptyTables: Tables := Tables(map[], map[], map[], map[], 1, 1)

  lemma EmptyTablesValid()
    ensures Valid(EmptyTables)
    ensures EmptyTables.products == map[] && EmptyTables.images == map[]
  {
  }

  /** The HTTP answers of the two controllers. */
  datatype ActionResult<+T> =
    | OkObject(value: T)
    | Created(value: T)
    | NoContent
    | NotFound(message: Option<string>)
    | BadRequest

  /** What an action leaves in the tables and what it answers. */
  datatype Step<+T> = Step(tables: Tables, result: ActionResult<T>)

  /** A row of `m` under key `k`, when the key is present. */
  function Lookup<V>(m: map<int, V>, k: int): (r: Option<V>)
    ensures r.Some? <==> k in m
    ensures r.Some? ==> r.value == m[k]
  {
    if k in m then Some(m[k]) else None
  }

  /** Adding a row under a key not yet present grows the table by one. */
  lemma InsertGrows<V>(m: map<int, V>, k: int, v: V)
    requires k !in m
    ensures |m[k := v]| == |m| + 1
    ensures forall j | j in m :: j in m[k := v] && m[k := v][j] == m[j]
  {
    assert m[k := v].Keys == m.Keys + {k};
  }

  /** Removing a present key shrinks the table by one. */
  lemma RemoveShrinks<V>(m: map<int, V>, k: int)
    requires k in m
    ensures |m - {k}| == |m| - 1
  {
    assert (m - {k}).Keys == m.Keys - {k};
  }

  /** The context object: one field per table, updated in place by the
      controllers' actions. */
  class ProductWebsiteContext {
    var products: map<int, Product>
    var images: map<int, ImageProduct>
    var categories: map<int, Categorie>
    var seos: map<int, Seo>
    var nextProductId: int
    var nextImageId: int

    function Snapshot(): Tables
      reads this
    {
      Tables(products, images, categories, seos, nextProductId, nextImageId)
    }

    constructor (t: Tables)
      ensures Snapshot() == t
    {
      products, images, categories, seos := t.products, t.images, t.categories, t.seos;
      nextProductId, nextImageId := t.nextProductId, t.nextImageId;
    }
  }
}
