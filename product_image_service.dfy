/** The front end's image client (`ProductImageService`): the client-side image
    holder, the image record it posts for one picture, the loop that posts one
    record per picture of a product, and the per-product filter over the
    fetched image list. The gateway's POST and GET are parameters; the clock is
    a function of the call's position, one reading per posted record. */
module ProductImages {
  import opened Common
  import opened Models
  import Gateway
  import ImageCodec

  /** `ClientProductImage`: empty strings, size 0 and not primary by default. */
  datatype ClientProductImage = ClientProductImage(
    dataUrl: string,
    base64Data: string,
    fileName: string,
    fileSize: int,
    isPrimary: bool)
  {
    /** The `IsUrl` property: the data starts with `http://` or `https://`. */
    predicate IsUrl()
    {
      StartsWith(base64Data, "http://") || StartsWith(base64Data, "https://")
    }
  }

  const DefaultClientImage: ClientProductImage := ClientProductImage("", "", "", 0, false)

  /** A default holder is not a URL, and on every holder the property agrees
      with the image codec's `IsUrl`, whatever the other fields hold. */
  lemma ClientIsUrlAgrees(img: ClientProductImage, other: ClientProductImage)
    ensures !DefaultClientImage.IsUrl()
    ensures img.IsUrl() == ImageCodec.IsUrl(img.base64Data)
    ensures other.base64Data == img.base64Data ==> other.IsUrl() == img.IsUrl()
  {
  }

  /** The record `CreateImageAsync` posts: the data exactly as given (base64
      or URL), the product as given, possibly none, the gateway's workspace
      and the current time; the id and the navigation object stay at their
      defaults. */
  function ImageDto(imageData: string, productId: Option<int>, currentWorkspace: int, now: Timestamp): (r: ImageProduct)
    ensures r.imageBase64 == Some(imageData) && r.productId == productId
    ensures r.workspaceId == Gateway.WorkspaceId(currentWorkspace) && r.workspaceId >= 1
    ensures r.createdAt == now && r.id == 0 && r.product.None?
  {
    ImageProduct(0, Gateway.WorkspaceId(currentWorkspace), productId, Some(imageData), now, None)
  }

  /** `CreateImageAsync`: what the POST of that record gives back; any failure
      of the call comes back as `None`. */
  function CreateImage(imageData: string, productId: Option<int>, currentWorkspace: int, now: Timestamp,
                       post: ImageProduct -> Option<ImageProduct>): (r: Option<ImageProduct>)
    ensures r.Some? ==> post(ImageDto(imageData, productId, currentWorkspace, now)) == r
    ensures r.None? <==> post(ImageDto(imageData, productId, currentWorkspace, now)).None?
  {
    post(ImageDto(imageData, productId, currentWorkspace, now))
  }

  /** The answers to the posted records that came back, in posting order. */
  function Successes(sent: seq<ImageProduct>, post: ImageProduct -> Option<ImageProduct>): (r: seq<ImageProduct>)
    ensures |r| <= |sent|
  {
    if sent == [] then []
    else
      var last := sent[|sent| - 1];
      Successes(sent[..|sent| - 1], post) + (if post(last).Some? then [post(last).value] else [])
  }

  /** The successes of two batches posted one after the other are those of
      the first followed by those of the second. */
  lemma {:induction false} SuccessesAppend(a: seq<ImageProduct>, b: seq<ImageProduct>,
                                           post: ImageProduct -> Option<ImageProduct>)
    ensures Successes(a + b, post) == Successes(a, post) + Successes(b, post)
  {
    if b == [] {
      assert a + b == a;
    } else {
      var b' := b[..|b| - 1];
      assert (a + b)[..|a + b| - 1] == a + b';
      assert (a + b)[|a + b| - 1] == b[|b| - 1];
      SuccessesAppend(a, b', post);
    }
  }

  /** A failed record between two batches is skipped without stopping the
      batch after it. */
  lemma FailureSkipped(a: seq<ImageProduct>, x: ImageProduct, b: seq<ImageProduct>,
                       post: ImageProduct -> Option<ImageProduct>)
    requires post(x).None?
    ensures Successes(a + [x] + b, post) == Successes(a, post) + Successes(b, post)
  {
    var ax := a + [x];
    SuccessesAppend(ax, b, post);
    assert ax[..|ax| - 1] == a;
    assert Successes(ax, post) == Successes(a, post);
  }

  /** Every answer kept is the answer to one of the posted records, and when
      every post succeeds there is one answer per record. */
  lemma {:induction false} SuccessesSound(sent: seq<ImageProduct>, post: ImageProduct -> Option<ImageProduct>)
    ensures forall c | c in Successes(sent, post) :: exists i | 0 <= i < |sent| :: post(sent[i]) == Some(c)
    ensures (forall i | 0 <= i < |sent| :: post(sent[i]).Some?) ==> |Successes(sent, post)| == |sent|
  {
    if sent != [] {
      var init := sent[..|sent| - 1];
      SuccessesSound(init, post);
      forall c | c in Successes(sent, post)
        ensures exists i | 0 <= i < |sent| :: post(sent[i]) == Some(c)
      {
        if c in Successes(init, post) {
          var i :| 0 <= i < |init| && post(init[i]) == Some(c);
          assert sent[i] == init[i];
        } else {
          assert post(sent[|sent| - 1]) == Some(c);
        }
      }
      if forall i | 0 <= i < |sent| :: post(sent[i]).Some? {
        assert forall i | 0 <= i < |init| :: init[i] == sent[i];
      }
    }
  }

  /** `CreateMultipleImagesAsync`: one `CreateImageAsync` per picture, in
      input order, each with that picture's data and the same product; the
      answers that came back are collected and the failures dropped. */
  method CreateMultipleImages(images: seq<ClientProductImage>, productId: Int32, currentWorkspace: int,
                              clock: nat -> Timestamp, post: ImageProduct -> Option<ImageProduct>)
    returns (created: seq<ImageProduct>, sent: seq<ImageProduct>)
    ensures |sent| == |images|
    ensures forall i | 0 <= i < |images| ::
              sent[i] == ImageDto(images[i].base64Data, Some(productId as int), currentWorkspace, clock(i))
    ensures created == Successes(sent, post)
  {
    created, sent := [], [];
    for i := 0 to |images|
      invariant |sent| == i
      invariant forall k | 0 <= k < i ::
                  sent[k] == ImageDto(images[k].base64Data, Some(productId as int), currentWorkspace, clock(k))
      invariant created == Successes(sent, post)
    {
      var record := ImageDto(images[i].base64Data, Some(productId as int), currentWorkspace, clock(i));
      var createdImage := CreateImage(images[i].base64Data, Some(productId as int), currentWorkspace, clock(i), post);
      assert (sent + [record])[..i] == sent;
      sent := sent + [record];
      if createdImage.Some? {
        created := created + [createdImage.value];
      }
    }
  }

  /** The images of one product: the comparison of a nullable product key
      with an `int` is false for an image attached to no product. */
  function OfProduct(productId: Int32): ImageProduct -> bool
  {
    (img: ImageProduct) => img.productId == Some(productId as int)
  }

  /** `GetProductImagesAsync`: the fetched images of that product, in fetched
      order, or none when the GET failed. */
  function GetProductImages(fetched: Option<seq<ImageProduct>>, productId: Int32): (r: seq<ImageProduct>)
    ensures fetched.None? ==> r == []
    ensures fetched.Some? ==> IsSubsequence(r, fetched.value)
    ensures fetched.Some? ==> forall img :: img in r <==> img in fetched.value && img.productId == Some(productId as int)
  {
    if fetched.None? then []
    else
      var all := fetched.value;
      FilterIsSubsequence(all, OfProduct(productId));
      forall img | img in all && img.productId == Some(productId as int)
        ensures img in Filter(all, OfProduct(productId))
      {
        FilterKeepsAll(all, OfProduct(productId), img);
      }
      Filter(all, OfProduct(productId))
  }
}
