/** The server's image endpoints (`ImagesController`) over the image table:
    lookup by id, the images of one product in id order, creation, deletion,
    reassignment to a product and the image data with its URL flag. As for
    the products, each action is a function on the tables and the
    controller's methods are proved to follow them. */
module ImagesApi {
  import opened Common
  import opened Models
  import opened Store
  import ImageCodec
  import Base64

  /** `GetById`: the image with that id, or 404. */
  function GetById(t: Tables, id: Int32): (r: ActionResult<ImageProduct>)
    ensures r.OkObject? || r == NotFound(None)
    ensures r.OkObject? <==> id as int in t.images
    ensures r.OkObject? ==> r.value == t.images[id as int]
  {
    if id as int in t.images then OkObject(t.images[id as int]) else NotFound(None)
  }

  // ---------------------------------------------------------------------
  // The images of one product, in id order

  /** The images of `productId` among the keys `lo` to `hi - 1`, in key
      order. */
  function ImagesFrom(images: map<int, ImageProduct>, productId: Int32, lo: int, hi: int): (r: seq<ImageProduct>)
    ensures forall img | img in r :: exists k | lo <= k < hi :: k in images && images[k] == img
    ensures forall img | img in r :: img.productId == Some(productId as int)
    decreases hi - lo
  {
    if lo >= hi then []
    else
      var rest := ImagesFrom(images, productId, lo + 1, hi);
      if lo in images && images[lo].productId == Some(productId as int) then [images[lo]] + rest else rest
  }

  /** `GetByProductId`: the images whose `ProductId` is that product, ordered
      by `Id`. */
  function GetByProductId(t: Tables, productId: Int32): seq<ImageProduct>
  {
    ImagesFrom(t.images, productId, 1, t.nextImageId)
  }

  /** Ids strictly increasing along the list. */
  predicate IdsAscending(s: seq<ImageProduct>)
  {
    forall i, j | 0 <= i < j < |s| :: s[i].id < s[j].id
  }

  /** Keys are scanned upwards, so ids come out strictly increasing when each
      image is stored under its id. */
  lemma {:induction false} ImagesFromAscending(images: map<int, ImageProduct>, productId: Int32, lo: int, hi: int)
    requires forall k | k in images :: images[k].id == k
    ensures IdsAscending(ImagesFrom(images, productId, lo, hi))
    ensures forall img | img in ImagesFrom(images, productId, lo, hi) :: lo <= img.id < hi
    decreases hi - lo
  {
    if lo < hi {
      ImagesFromAscending(images, productId, lo + 1, hi);
      var rest := ImagesFrom(images, productId, lo + 1, hi);
      if lo in images && images[lo].productId == Some(productId as int) {
        var r := [images[lo]] + rest;
        forall i, j | 0 <= i < j < |r|
          ensures r[i].id < r[j].id
        {
          assert r[j] == rest[j - 1] && rest[j - 1] in rest;
          if i > 0 {
            assert r[i] == rest[i - 1];
          }
        }
      }
    }
  }

  /** Every image of the product whose key is in range is listed. */
  lemma {:induction false} ImagesFromComplete(images: map<int, ImageProduct>, productId: Int32, lo: int, hi: int, k: int)
    requires lo <= k < hi && k in images && images[k].productId == Some(productId as int)
    ensures images[k] in ImagesFrom(images, productId, lo, hi)
    decreases hi - lo
  {
    if k != lo {
      ImagesFromComplete(images, productId, lo + 1, hi, k);
    }
  }

  /** In valid tables the answer holds exactly the images of the product,
      each once, in strictly increasing id order. */
  lemma GetByProductIdExact(t: Tables, productId: Int32)
    requires Valid(t)
    ensures var r := GetByProductId(t, productId);
      && (forall img :: img in r <==> img in t.images.Values && img.productId == Some(productId as int))
      && IdsAscending(r)
  {
    var r := GetByProductId(t, productId);
    ImagesFromAscending(t.images, productId, 1, t.nextImageId);
    forall img | img in t.images.Values && img.productId == Some(productId as int)
      ensures img in r
    {
      var k :| k in t.images && t.images[k] == img;
      ImagesFromComplete(t.images, productId, 1, t.nextImageId, k);
    }
  }

  // ---------------------------------------------------------------------
  // Creation, deletion and reassignment

  /** The row `Create` stores: the posted image with its creation time set
      to now, its product object cleared and the key the identity counter
      gives it; the data and the product key are kept as they were posted. */
  function NewRow(image: ImageProduct, now: Timestamp, newId: int): (r: ImageProduct)
    ensures r.id == newId && r.createdAt == now && r.product.None?
    ensures r.imageBase64 == image.imageBase64 && r.productId == image.productId && r.workspaceId == image.workspaceId
  {
    image.(createdAt := now, id := 0, product := None).(id := newId)
  }

  /** `Create`: a save that throws answers 400 and stores nothing; otherwise
      the new row is stored under the next identity and returned with 201. */
  function CreateSpec(t: Tables, image: ImageProduct, now: Timestamp, saveFails: bool): (s: Step<ImageProduct>)
    ensures saveFails ==> s == Step(t, BadRequest)
    ensures !saveFails ==>
              && s.result == Created(NewRow(image, now, t.nextImageId))
              && s.tables == t.(images := t.images[t.nextImageId := s.result.value], nextImageId := t.nextImageId + 1)
  {
    if saveFails then Step(t, BadRequest)
    else
      var row := NewRow(image, now, t.nextImageId);
      Step(t.(images := t.images[row.id := row], nextImageId := t.nextImageId + 1), Created(row))
  }

  /** A successful creation keeps the tables valid, adds exactly one image,
      leaves the other images and the products as they were. */
  lemma CreateAddsOneImage(t: Tables, image: ImageProduct, now: Timestamp)
    requires Valid(t)
    ensures var s := CreateSpec(t, image, now, false);
      && Valid(s.tables)
      && t.nextImageId !in t.images
      && |s.tables.images| == |t.images| + 1
      && (forall k | k in t.images :: k in s.tables.images && s.tables.images[k] == t.images[k])
      && s.tables.products == t.products
  {
    var s := CreateSpec(t, image, now, false);
    InsertGrows(t.images, t.nextImageId, s.result.value);
  }

  /** `Delete`: 404 without the image; otherwise that image is removed. */
  function DeleteSpec(t: Tables, id: Int32): (s: Step<ImageProduct>)
    ensures id as int !in t.images ==> s == Step(t, NotFound(None))
    ensures id as int in t.images ==> s == Step(t.(images := t.images - {id as int}), NoContent)
  {
    if id as int !in t.images then Step(t, NotFound(None))
    else Step(t.(images := t.images - {id as int}), NoContent)
  }

  /** A deletion removes that image only. */
  lemma DeleteRemovesOnlyThatImage(t: Tables, id: Int32)
    requires Valid(t) && id as int in t.images
    ensures var s := DeleteSpec(t, id);
      && Valid(s.tables)
      && |s.tables.images| == |t.images| - 1
      && id as int !in s.tables.images
      && (forall k | k in t.images && k != id as int :: k in s.tables.images && s.tables.images[k] == t.images[k])
      && s.tables.products == t.products
  {
    RemoveShrinks(t.images, id as int);
  }

  const ImageNotFound: string := "Image not found"
  const ProductNotFound: string := "Product not found"

  /** `AssignToProduct`: the image is looked up first, then the product;
      on success only the image's product key changes. */
  function AssignSpec(t: Tables, imageId: Int32, productId: Int32): (s: Step<ImageProduct>)
    ensures imageId as int !in t.images ==> s == Step(t, NotFound(Some(ImageNotFound)))
    ensures imageId as int in t.images && productId as int !in t.products ==> s == Step(t, NotFound(Some(ProductNotFound)))
    ensures imageId as int in t.images && productId as int in t.products ==>
              s == Step(t.(images := t.images[imageId as int := t.images[imageId as int].(productId := Some(productId as int))]),
                        NoContent)
  {
    if imageId as int !in t.images then Step(t, NotFound(Some(ImageNotFound)))
    else if productId as int !in t.products then Step(t, NotFound(Some(ProductNotFound)))
    else
      var image := t.images[imageId as int];
      Step(t.(images := t.images[imageId as int := image.(productId := Some(productId as int))]), NoContent)
  }

  /** A missing image is reported as such whether or not the product exists,
      and no failure changes the tables. */
  lemma AssignChecksImageFirst(t: Tables, imageId: Int32, productId: Int32)
    requires imageId as int !in t.images
    ensures AssignSpec(t, imageId, productId).result == NotFound(Some(ImageNotFound))
    ensures AssignSpec(t.(products := map[]), imageId, productId) == Step(t.(products := map[]), NotFound(Some(ImageNotFound)))
    ensures AssignSpec(t, imageId, productId).tables == t
  {
  }

  /** A successful reassignment changes that image's product key and
      nothing else; the image then appears among that product's images. */
  lemma AssignChangesOnlyProductKey(t: Tables, imageId: Int32, productId: Int32)
    requires Valid(t) && imageId as int in t.images && productId as int in t.products
    ensures var s := AssignSpec(t, imageId, productId);
      var before := t.images[imageId as int];
      var after := s.tables.images[imageId as int];
      && s.result == NoContent
      && Valid(s.tables)
      && s.tables.images.Keys == t.images.Keys
      && (forall k | k in t.images && k != imageId as int :: s.tables.images[k] == t.images[k])
      && after == before.(productId := Some(productId as int))
      && s.tables.(images := t.images) == t
      && after in GetByProductId(s.tables, productId)
  {
    var s := AssignSpec(t, imageId, productId);
    ImagesFromComplete(s.tables.images, productId, 1, s.tables.nextImageId, imageId as int);
  }

  // ---------------------------------------------------------------------
  // Image data

  /** The looser URL test of `GetImageData`: non-null data starting with
      `http`. */
  predicate LooseIsUrl(data: Option<string>)
  {
    data.Some? && StartsWith(data.value, "http")
  }

  /** The anonymous object `GetImageData` answers with. */
  datatype ImageData = ImageData(
    id: int,
    imageData: Option<string>,
    isUrl: bool,
    isBase64: bool,
    productId: Option<int>,
    createdAt: Timestamp)

  /** `GetImageData`: 404 without the image; otherwise its fields with a URL
      flag from the loose test and a base64 flag that is its negation. */
  function GetImageData(t: Tables, id: Int32): (r: ActionResult<ImageData>)
    ensures r.OkObject? <==> id as int in t.images
    ensures !r.OkObject? ==> r == NotFound(None)
    ensures r.OkObject? ==>
              && r.value.isUrl == LooseIsUrl(t.images[id as int].imageBase64)
              && r.value.isBase64 == !r.value.isUrl
              && r.value.imageData == t.images[id as int].imageBase64
              && r.value.productId == t.images[id as int].productId
  {
    if id as int !in t.images then NotFound(None)
    else
      var image := t.images[id as int];
      var isUrl := LooseIsUrl(image.imageBase64);
      OkObject(ImageData(image.id, image.imageBase64, isUrl, !isUrl, image.productId, image.createdAt))
  }

  /** Everything the codec's test takes for a URL passes the loose test. */
  lemma StrictImpliesLoose(s: string)
    requires ImageCodec.IsUrl(s)
    ensures LooseIsUrl(Some(s))
  {
    if StartsWith(s, "http://") {
      StartsWithTransitive(s, "http://", "http");
    } else {
      StartsWithTransitive(s, "https://", "http");
    }
  }

  /** The converse fails: `httpx` passes the loose test only, and so does a
      genuine base64 payload, the encoding of the bytes 86 DB 69, which
      reads `http`. */
  lemma LooseIsLooser()
    ensures LooseIsUrl(Some("httpx")) && !ImageCodec.IsUrl("httpx")
    ensures Base64.Encode([0x86, 0xDB, 0x69]) == "http"
    ensures LooseIsUrl(Some(Base64.Encode([0x86, 0xDB, 0x69])))
    ensures !ImageCodec.IsUrl(Base64.Encode([0x86, 0xDB, 0x69]))
  {
    ImageCodec.EncodingIsNeverUrl([0x86, 0xDB, 0x69]);
  }

  // ---------------------------------------------------------------------
  // The controller

  /** `ImagesController`: its actions change the context's image table and
      identity counter as the functions above say. */
  class ImagesController {
    const context: ProductWebsiteContext

    constructor (context: ProductWebsiteContext)
      ensures this.context == context
    {
      this.context := context;
    }

    /** `Create`: the posted image is stamped, its id reset and its product
        object cleared before it is added and saved. */
    method Create(image: ImageProduct, now: Timestamp, saveFails: bool) returns (r: ActionResult<ImageProduct>)
      modifies context
      ensures context.Snapshot() == CreateSpec(old(context.Snapshot()), image, now, saveFails).tables
      ensures r == CreateSpec(old(context.Snapshot()), image, now, saveFails).result
    {
      var row := image.(createdAt := now, id := 0, product := None);
      if saveFails {
        return BadRequest;
      }
      row := row.(id := context.nextImageId);
      context.images := context.images[row.id := row];
      context.nextImageId := context.nextImageId + 1;
      return Created(row);
    }

    /** `Delete`. */
    method Delete(id: Int32) returns (r: ActionResult<ImageProduct>)
      modifies context
      ensures context.Snapshot() == DeleteSpec(old(context.Snapshot()), id).tables
      ensures r == DeleteSpec(old(context.Snapshot()), id).result
    {
      if id as int !in context.images {
        return NotFound(None);
      }
      context.images := context.images - {id as int};
      return NoContent;
    }

    /** `AssignToProduct`. */
    method AssignToProduct(imageId: Int32, productId: Int32) returns (r: ActionResult<ImageProduct>)
      modifies context
      ensures context.Snapshot() == AssignSpec(old(context.Snapshot()), imageId, productId).tables
      ensures r == AssignSpec(old(context.Snapshot()), imageId, productId).result
    {
      if imageId as int !in context.images {
        return NotFound(Some(ImageNotFound));
      }
      if productId as int !in context.products {
        return NotFound(Some(ProductNotFound));
      }
      var image := context.images[imageId as int];
      context.images := context.images[imageId as int := image.(productId := Some(productId as int))];
      return NoContent;
    }
  }
}
