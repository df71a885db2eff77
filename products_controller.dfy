/** The server's product endpoints (`ProductsController`) over the product
    table: lookups by id, with and without the related image, category and
    SEO record, creation, update of the editable fields, deletion and the
    publication switch. Each action is specified by a function from the
    tables before to the tables after and the answer; the controller's
    methods update the context in place and are proved to follow them. */
module ProductsApi {
  import opened Common
  import opened Models
  import opened Store

  // ---------------------------------------------------------------------
  // Lookups

  /** `GetById`: the row with that id, or 404. */
  function GetById(t: Tables, id: Int32): (r: ActionResult<Product>)
    ensures r.OkObject? || r == NotFound(None)
    ensures r.OkObject? <==> id as int in t.products
    ensures r.OkObject? ==> r.value == t.products[id as int]
  {
    if id as int in t.products then OkObject(t.products[id as int]) else NotFound(None)
  }

  /** In valid tables the row found is the one whose `Id` is the one asked
      for, and a row with that `Id` is always found. */
  lemma GetByIdMatchesId(t: Tables, id: Int32)
    requires Valid(t)
    ensures GetById(t, id).OkObject? ==> GetById(t, id).value.id == id as int && GetById(t, id).value.HasNoNavigation()
    ensures (exists k | k in t.products :: t.products[k].id == id as int) ==> GetById(t, id).OkObject?
  {
  }

  /** The anonymous object `GetByIdWithDetails` answers with. */
  datatype ProductDetails = ProductDetails(
    product: Product,
    image: Option<ImageProduct>,
    categorie: Option<Categorie>,
    seo: Option<Seo>)

  /** A related row: looked up only when the foreign key has a value; an
      absent key and a key without a row both give none. */
  function Related<V>(m: map<int, V>, key: Option<int>): (r: Option<V>)
    ensures key.None? ==> r.None?
    ensures r.Some? <==> key.Some? && key.value in m
    ensures r.Some? ==> r.value == m[key.value]
  {
    if key.Some? then Lookup(m, key.value) else None
  }

  /** `GetByIdWithDetails`: 404 without the product; otherwise the product
      with its image, category and SEO record, each resolved from its key. */
  function GetByIdWithDetails(t: Tables, id: Int32): (r: ActionResult<ProductDetails>)
    ensures r.OkObject? || r == NotFound(None)
    ensures r.OkObject? <==> id as int in t.products
    ensures r.OkObject? ==> r.value.product == t.products[id as int]
    ensures r.OkObject? ==>
              && r.value.image == Related(t.images, r.value.product.imageId)
              && r.value.categorie == Related(t.categories, r.value.product.categorieId)
              && r.value.seo == Related(t.seos, r.value.product.seoId)
  {
    if id as int !in t.products then NotFound(None)
    else
      var p := t.products[id as int];
      OkObject(ProductDetails(p, Related(t.images, p.imageId), Related(t.categories, p.categorieId), Related(t.seos, p.seoId)))
  }

  /** A part whose key is absent is none whatever the related table holds:
      that table is not consulted. */
  lemma DetailsIgnoreUnkeyedTables(t: Tables, id: Int32, images: map<int, ImageProduct>,
                                   categories: map<int, Categorie>, seos: map<int, Seo>)
    requires id as int in t.products
    ensures var p := t.products[id as int];
      var d := GetByIdWithDetails(t, id).value;
      var d' := GetByIdWithDetails(t.(images := images, categories := categories, seos := seos), id).value;
      && (p.imageId.None? ==> d.image.None? && d'.image.None?)
      && (p.categorieId.None? ==> d.categorie.None? && d'.categorie.None?)
      && (p.seoId.None? ==> d.seo.None? && d'.seo.None?)
      && d.product == d'.product
  {
  }

  /** In valid tables, every related row found is the one whose `Id` is the
      product's key. */
  lemma DetailsMatchKeys(t: Tables, id: Int32)
    requires Valid(t) && id as int in t.products
    ensures var d := GetByIdWithDetails(t, id).value;
      && (d.image.Some? ==> d.product.imageId == Some(d.image.value.id))
      && (d.categorie.Some? ==> d.product.categorieId == Some(d.categorie.value.id))
      && (d.seo.Some? ==> d.product.seoId == Some(d.seo.value.id))
  {
  }

  // ---------------------------------------------------------------------
  // Creation

  /** The row `Create` stores: the posted product with its creation time set
      to now, its navigation objects cleared and the key the identity
      counter gives it (the posted `Id` is reset to 0 and then replaced). */
  function NewRow(product: Product, now: Timestamp, newId: int): (r: Product)
    ensures r.id == newId && r.createdAt == now && r.HasNoNavigation()
    ensures r.EditableFields() == product.EditableFields() && r.workspaceId == product.workspaceId
  {
    product.(createdAt := now, id := 0).WithoutNavigation().(id := newId)
  }

  /** `Create`: a save that throws answers 400 and stores nothing; otherwise
      the new row is stored under the next identity and returned with 201. */
  function CreateSpec(t: Tables, product: Product, now: Timestamp, saveFails: bool): (s: Step<Product>)
    ensures saveFails ==> s == Step(t, BadRequest)
    ensures !saveFails ==>
              && s.result == Created(NewRow(product, now, t.nextProductId))
              && s.tables == t.(products := t.products[t.nextProductId := s.result.value],
                                nextProductId := t.nextProductId + 1)
  {
    if saveFails then Step(t, BadRequest)
    else
      var row := NewRow(product, now, t.nextProductId);
      Step(t.(products := t.products[row.id := row], nextProductId := t.nextProductId + 1), Created(row))
  }

  /** A successful creation keeps the tables valid, adds exactly one row,
      leaves every other row as it was and retrieves the new row by its id. */
  lemma CreateAddsOneRow(t: Tables, product: Product, now: Timestamp)
    requires Valid(t)
    ensures var s := CreateSpec(t, product, now, false);
      && Valid(s.tables)
      && |s.tables.products| == |t.products| + 1
      && t.nextProductId !in t.products
      && (forall k | k in t.products :: k in s.tables.products && s.tables.products[k] == t.products[k])
      && s.tables.images == t.images
      && (t.nextProductId <= MaxInt32 ==> GetById(s.tables, t.nextProductId as Int32) == OkObject(s.result.value))
  {
    var s := CreateSpec(t, product, now, false);
    InsertGrows(t.products, t.nextProductId, s.result.value);
  }

  /** The posted `Id`, creation time and navigation objects have no effect. */
  lemma CreateIgnoresClientFields(t: Tables, p1: Product, p2: Product, now: Timestamp)
    requires p1.EditableFields() == p2.EditableFields() && p1.workspaceId == p2.workspaceId
    ensures CreateSpec(t, p1, now, false) == CreateSpec(t, p2, now, false)
  {
  }

  // ---------------------------------------------------------------------
  // Update

  /** `Update`: 400 when the route id differs from the posted product's,
      before the table is consulted; 404 without the row; otherwise the ten
      editable fields are copied onto the stored row and 204 is answered. */
  function UpdateSpec(t: Tables, id: Int32, product: Product): (s: Step<Product>)
    ensures id as int != product.id ==> s == Step(t, BadRequest)
    ensures id as int == product.id && id as int !in t.products ==> s == Step(t, NotFound(None))
    ensures id as int == product.id && id as int in t.products ==>
              s == Step(t.(products := t.products[id as int := t.products[id as int].WithEditableFields(product.EditableFields())]),
                        NoContent)
  {
    if id as int != product.id then Step(t, BadRequest)
    else if id as int !in t.products then Step(t, NotFound(None))
    else
      var existing := t.products[id as int];
      Step(t.(products := t.products[id as int := existing.WithEditableFields(product.EditableFields())]), NoContent)
  }

  /** The id check comes first: a mismatched id is refused whatever the
      table holds, even when the row is missing. */
  lemma UpdateChecksIdFirst(t1: Tables, t2: Tables, id: Int32, product: Product)
    requires id as int != product.id
    ensures UpdateSpec(t1, id, product).result == BadRequest
    ensures UpdateSpec(t2, id, product).result == UpdateSpec(t1, id, product).result
    ensures UpdateSpec(t1, id, product).tables == t1
  {
  }

  /** A successful update changes one row and in it exactly the ten editable
      fields: the stored `Id`, `WorkspaceId`, `CreatedAt` and every other
      row stay as they were, and the tables stay valid. */
  lemma UpdateTouchesOnlyEditableFields(t: Tables, id: Int32, product: Product)
    requires Valid(t)
    requires id as int == product.id && id as int in t.products
    ensures var s := UpdateSpec(t, id, product);
      var before := t.products[id as int];
      var after := s.tables.products[id as int];
      && s.result == NoContent
      && Valid(s.tables)
      && s.tables.products.Keys == t.products.Keys
      && (forall k | k in t.products && k != id as int :: s.tables.products[k] == t.products[k])
      && after.EditableFields() == product.EditableFields()
      && after.id == before.id && after.workspaceId == before.workspaceId && after.createdAt == before.createdAt
      && after.HasNoNavigation()
      && s.tables.(products := t.products) == t
  {
  }

  // ---------------------------------------------------------------------
  // Deletion and publication

  /** `Delete`: 404 without the row; otherwise that row is removed and 204
      is answered. */
  function DeleteSpec(t: Tables, id: Int32): (s: Step<Product>)
    ensures id as int !in t.products ==> s == Step(t, NotFound(None))
    ensures id as int in t.products ==> s == Step(t.(products := t.products - {id as int}), NoContent)
  {
    if id as int !in t.products then Step(t, NotFound(None))
    else Step(t.(products := t.products - {id as int}), NoContent)
  }

  /** A deletion removes exactly that row: one row fewer, every other row
      kept, and the tables stay valid. */
  lemma DeleteRemovesOnlyThatRow(t: Tables, id: Int32)
    requires Valid(t) && id as int in t.products
    ensures var s := DeleteSpec(t, id);
      && Valid(s.tables)
      && |s.tables.products| == |t.products| - 1
      && id as int !in s.tables.products
      && (forall k | k in t.products && k != id as int :: k in s.tables.products && s.tables.products[k] == t.products[k])
      && GetById(s.tables, id).NotFound?
  {
    RemoveShrinks(t.products, id as int);
  }

  /** `Publish` (`published` true) and `Unpublish` (false): 404 without the
      row; otherwise the row's `IsPublished` is set and 204 is answered. */
  function SetPublishedSpec(t: Tables, id: Int32, published: bool): (s: Step<Product>)
    ensures id as int !in t.products ==> s == Step(t, NotFound(None))
    ensures id as int in t.products ==>
              s == Step(t.(products := t.products[id as int := t.products[id as int].(isPublished := published)]), NoContent)
  {
    if id as int !in t.products then Step(t, NotFound(None))
    else Step(t.(products := t.products[id as int := t.products[id as int].(isPublished := published)]), NoContent)
  }

  /** Publishing changes only that row's flag, keeps the tables valid, and a
      second identical call changes nothing more and answers the same. */
  lemma SetPublishedIdempotent(t: Tables, id: Int32, published: bool)
    requires Valid(t)
    ensures var s := SetPublishedSpec(t, id, published);
      && Valid(s.tables)
      && SetPublishedSpec(s.tables, id, published) == s
      && s.tables.products.Keys == t.products.Keys
      && (forall k | k in t.products && k != id as int :: s.tables.products[k] == t.products[k])
      && (id as int in t.products ==>
            s.tables.products[id as int].isPublished == published
            && s.tables.products[id as int].(isPublished := t.products[id as int].isPublished) == t.products[id as int])
  {
  }

  // ---------------------------------------------------------------------
  // The controller

  /** `ProductsController`: its actions change the context's product table
      and identity counter as the functions above say. */
  class ProductsController {
    const context: ProductWebsiteContext

    constructor (context: ProductWebsiteContext)
      ensures this.context == context
    {
      this.context := context;
    }

    /** `Create`: the posted object is stamped, its id reset and its
        navigation objects cleared before it is added and saved. */
    method Create(product: Product, now: Timestamp, saveFails: bool) returns (r: ActionResult<Product>)
      modifies context
      ensures context.Snapshot() == CreateSpec(old(context.Snapshot()), product, now, saveFails).tables
      ensures r == CreateSpec(old(context.Snapshot()), product, now, saveFails).result
    {
      var row := product.(createdAt := now, id := 0).WithoutNavigation();
      if saveFails {
        return BadRequest;
      }
      row := row.(id := context.nextProductId);
      context.products := context.products[row.id := row];
      context.nextProductId := context.nextProductId + 1;
      return Created(row);
    }

    /** `Update`: the stored row's ten editable fields are overwritten one by
        one and saved. */
    method Update(id: Int32, product: Product) returns (r: ActionResult<Product>)
      modifies context
      ensures context.Snapshot() == UpdateSpec(old(context.Snapshot()), id, product).tables
      ensures r == UpdateSpec(old(context.Snapshot()), id, product).result
    {
      if id as int != product.id {
        return BadRequest;
      }
      if id as int !in context.products {
        return NotFound(None);
      }
      var existing := context.products[id as int];
      existing := existing.(nom := product.nom, description := product.description, prix := product.prix,
                            isPublished := product.isPublished);
      existing := existing.(imageId := product.imageId, categorieId := product.categorieId, seoId := product.seoId,
                            plastiqueId := product.plastiqueId, tagId := product.tagId, stockId := product.stockId);
      context.products := context.products[id as int := existing];
      return NoContent;
    }

    /** `Delete`. */
    method Delete(id: Int32) returns (r: ActionResult<Product>)
      modifies context
      ensures context.Snapshot() == DeleteSpec(old(context.Snapshot()), id).tables
      ensures r == DeleteSpec(old(context.Snapshot()), id).result
    {
      if id as int !in context.products {
        return NotFound(None);
      }
      context.products := context.products - {id as int};
      return NoContent;
    }

    /** `Publish`. */
    method Publish(id: Int32) returns (r: ActionResult<Product>)
      modifies context
      ensures context.Snapshot() == SetPublishedSpec(old(context.Snapshot()), id, true).tables
      ensures r == SetPublishedSpec(old(context.Snapshot()), id, true).result
    {
      r := SetPublished(id, true);
    }

    /** `Unpublish`. */
    method Unpublish(id: Int32) returns (r: ActionResult<Product>)
      modifies context
      ensures context.Snapshot() == SetPublishedSpec(old(context.Snapshot()), id, false).tables
      ensures r == SetPublishedSpec(old(context.Snapshot()), id, false).result
    {
      r := SetPublished(id, false);
    }

    /** The body both publication actions share. */
    method SetPublished(id: Int32, published: bool) returns (r: ActionResult<Product>)
      modifies context
      ensures context.Snapshot() == SetPublishedSpec(old(context.Snapshot()), id, published).tables
      ensures r == SetPublishedSpec(old(context.Snapshot()), id, published).result
    {
      if id as int !in context.products {
        return NotFound(None);
      }
      var product := context.products[id as int];
      context.products := context.products[id as int := product.(isPublished := published)];
      return NoContent;
    }
  }
}
