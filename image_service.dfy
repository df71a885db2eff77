/** The image codec of the front end (`ImageService`): it turns an uploaded file
    or a remote image into a size-bounded base64 string, tells URLs from
    embedded payloads by their prefix, and builds the address an image is
    displayed from. The browser file stream, `Uri.TryCreate` and the HTTP GET
    are parameters: the model states what the codec does with what they return. */
module ImageCodec {
  import opened Common
  import opened Models
  import Base64

  /** The default size ceiling, 2 MiB. */
  const DefaultMaxSize: int := 2 * 1024 * 1024

  /** The prefix of every display address built for a base64 payload. */
  const DataUrlPrefix: string := "data:image/png;base64,"

  /** What reading a stream to its end produced. */
  datatype ReadResult = Read(bytes: seq<Byte>) | ReadFailed

  /** An uploaded browser file: its declared size and what its stream yields. */
  datatype BrowserFile = BrowserFile(size: int, contents: ReadResult)

  /** An absolute URI as `Uri.TryCreate` parses it; only the scheme matters here. */
  datatype Uri = Uri(scheme: string)

  /** What the HTTP GET returned: no response at all, or a status, the media
      type of the `Content-Type` header if any, and the body as read. */
  datatype HttpResponse =
    | TransportError
    | Response(isSuccessStatus: bool, mediaType: Option<string>, body: ReadResult)

  /** Why a download failed; every such failure is rethrown wrapped in one
      "download failed" error. */
  datatype DownloadCause = RequestFailed | NotAnImage | ImageTooLarge

  /** The exceptions the two converters throw. */
  datatype ImageError =
    | FileTooLarge
    | ConversionFailed
    | InvalidUrlFormat
    | DownloadFailed(cause: DownloadCause)

  /** `IsUrl`: the data is a non-empty string starting with `http://` or
      `https://`; anything else is taken for a base64 payload. */
  predicate IsUrl(imageData: string)
  {
    imageData != [] && (StartsWith(imageData, "http://") || StartsWith(imageData, "https://"))
  }

  /** `GetImageDataUrl`: the empty string for an empty payload, otherwise a
      `data:` URI in the form of section 3 of RFC 2397, always labelled PNG. */
  function GetImageDataUrl(base64String: string): (r: string)
    ensures base64String == [] ==> r == []
    ensures base64String != [] ==> StartsWith(r, DataUrlPrefix) && r[|DataUrlPrefix|..] == base64String
    ensures !IsUrl(r)
  {
    if base64String == [] then []
    else
      var r := DataUrlPrefix + base64String;
      assert r[0] == 'd';
      r
  }

  /** `GetDisplayUrl`: a URL is displayed as it is, any other non-empty data as
      its `data:` URI, and the empty string stays empty. */
  function GetDisplayUrl(imageData: string): (r: string)
    ensures imageData == [] ==> r == []
    ensures IsUrl(imageData) ==> r == imageData
    ensures imageData != [] && !IsUrl(imageData) ==>
              StartsWith(r, DataUrlPrefix) && r[|DataUrlPrefix|..] == imageData && !IsUrl(r)
    ensures IsUrl(r) <==> IsUrl(imageData)
  {
    if imageData == [] then []
    else if IsUrl(imageData) then imageData
    else GetImageDataUrl(imageData)
  }

  /** `ConvertFileToBase64Async`: no file gives the empty string; a file whose
      declared size exceeds `maxSize` is refused before its stream is opened;
      otherwise the bytes read are encoded, and a failed read is rethrown as a
      conversion failure. */
  function ConvertFileToBase64(file: Option<BrowserFile>, maxSize: Int32): (r: Result<string, ImageError>)
    ensures file.None? ==> r == Ok([])
    ensures file.Some? && file.value.size > maxSize ==> r == Err(FileTooLarge)
    ensures file.Some? && file.value.size <= maxSize && file.value.contents.ReadFailed? ==> r == Err(ConversionFailed)
    ensures r.Ok? && file.Some? ==>
              && file.value.size <= maxSize && file.value.contents.Read?
              && r.value == Base64.Encode(file.value.contents.bytes)
              && Base64.Decode(r.value) == Some(file.value.contents.bytes)
  {
    match file
    case None => Ok([])
    case Some(f) =>
      if f.size > maxSize then Err(FileTooLarge)
      else
        match f.contents
        case ReadFailed => Err(ConversionFailed)
        case Read(bytes) =>
          Base64.RoundTrip(bytes);
          Ok(Base64.Encode(bytes))
  }

  /** `DownloadImageAsBase64Async`: a blank address gives the empty string; an
      address that is not an absolute `http` or `https` URI is refused before
      any request; after the GET, a failed request, a missing or non-`image/`
      media type and a body longer than `maxSize` (checked once the whole body
      has been read) each fail the download; otherwise the body is encoded. */
  function DownloadImageAsBase64(url: string, maxSize: Int32, parse: string -> Option<Uri>,
                                 get: string -> HttpResponse): (r: Result<string, ImageError>)
    ensures IsBlank(url) ==> r == Ok([])
    ensures !IsBlank(url) ==> (r.Ok? <==> DownloadAccepted(url, maxSize, parse(url), get(url)))
    ensures r.Ok? && !IsBlank(url) ==>
              && r.value == Base64.Encode(get(url).body.bytes)
              && Base64.Decode(r.value) == Some(get(url).body.bytes)
  {
    if IsBlank(url) then Ok([])
    else if !ValidImageAddress(parse(url)) then Err(InvalidUrlFormat)
    else
      match get(url)
      case TransportError => Err(DownloadFailed(RequestFailed))
      case Response(isSuccess, mediaType, body) =>
        if !isSuccess then Err(DownloadFailed(RequestFailed))
        else if mediaType.None? || !StartsWith(mediaType.value, "image/") then Err(DownloadFailed(NotAnImage))
        else
          match body
          case ReadFailed => Err(DownloadFailed(RequestFailed))
          case Read(bytes) =>
            if |bytes| > maxSize then Err(DownloadFailed(ImageTooLarge))
            else
              Base64.RoundTrip(bytes);
              Ok(Base64.Encode(bytes))
  }

  /** Every check of the download passes: the address is an absolute `http`
      or `https` URI, the GET answered with a success status and an `image/`
      media type, and the body was read in full within the ceiling. */
  predicate DownloadAccepted(url: string, maxSize: int, uri: Option<Uri>, response: HttpResponse)
  {
    && ValidImageAddress(uri)
    && response.Response? && response.isSuccessStatus
    && response.mediaType.Some? && StartsWith(response.mediaType.value, "image/")
    && response.body.Read? && |response.body.bytes| <= maxSize
  }

  /** The address parsed as an absolute URI whose scheme is `http` or `https`. */
  predicate ValidImageAddress(uri: Option<Uri>)
  {
    uri.Some? && (uri.value.scheme == "http" || uri.value.scheme == "https")
  }

  /** The default ceiling is 2 MiB, 2097152 bytes, and a file of exactly that
      size is converted. */
  lemma DefaultCeilingAcceptsExactSize(bytes: seq<Byte>)
    ensures DefaultMaxSize == 2097152
    ensures ConvertFileToBase64(Some(BrowserFile(DefaultMaxSize, Read(bytes))), DefaultMaxSize as Int32)
            == Ok(Base64.Encode(bytes))
  {
  }

  /** An oversized file is refused whatever its stream would have yielded:
      the stream is never opened. */
  lemma OversizedFileNotRead(size: int, maxSize: Int32, c1: ReadResult, c2: ReadResult)
    requires size > maxSize
    ensures ConvertFileToBase64(Some(BrowserFile(size, c1)), maxSize) == Err(FileTooLarge)
    ensures ConvertFileToBase64(Some(BrowserFile(size, c1)), maxSize)
            == ConvertFileToBase64(Some(BrowserFile(size, c2)), maxSize)
  {
  }

  /** A blank or malformed address is answered without a request: the result
      is the same whatever the HTTP GET would have returned. */
  lemma NoRequestForBadAddress(url: string, maxSize: Int32, parse: string -> Option<Uri>,
                               get1: string -> HttpResponse, get2: string -> HttpResponse)
    requires IsBlank(url) || !ValidImageAddress(parse(url))
    ensures DownloadImageAsBase64(url, maxSize, parse, get1) == DownloadImageAsBase64(url, maxSize, parse, get2)
    ensures !IsBlank(url) ==> DownloadImageAsBase64(url, maxSize, parse, get1) == Err(InvalidUrlFormat)
  {
  }

  /** A GET that got no response, answered with a failure status, or whose
      body could not be read fails the download as a failed request. */
  lemma FailedRequestRefused(url: string, maxSize: Int32, parse: string -> Option<Uri>,
                             get: string -> HttpResponse)
    requires !IsBlank(url) && ValidImageAddress(parse(url))
    requires || get(url).TransportError?
             || (get(url).Response? && !get(url).isSuccessStatus)
             || (get(url).Response? && get(url).isSuccessStatus && get(url).mediaType.Some?
                 && StartsWith(get(url).mediaType.value, "image/") && get(url).body.ReadFailed?)
    ensures DownloadImageAsBase64(url, maxSize, parse, get) == Err(DownloadFailed(RequestFailed))
  {
  }

  /** A response that is not an image fails, whatever its size. */
  lemma NonImageRefused(url: string, maxSize: Int32, parse: string -> Option<Uri>,
                        get: string -> HttpResponse)
    requires !IsBlank(url) && ValidImageAddress(parse(url))
    requires get(url).Response? && get(url).isSuccessStatus
    requires get(url).mediaType.None? || !StartsWith(get(url).mediaType.value, "image/")
    ensures DownloadImageAsBase64(url, maxSize, parse, get) == Err(DownloadFailed(NotAnImage))
  {
  }

  /** An image body over the ceiling fails only after it has been read in full. */
  lemma OversizedBodyRefused(url: string, maxSize: Int32, parse: string -> Option<Uri>,
                             get: string -> HttpResponse)
    requires !IsBlank(url) && ValidImageAddress(parse(url))
    requires get(url).Response? && get(url).isSuccessStatus
    requires get(url).mediaType.Some? && StartsWith(get(url).mediaType.value, "image/")
    requires get(url).body.Read? && |get(url).body.bytes| > maxSize
    ensures DownloadImageAsBase64(url, maxSize, parse, get) == Err(DownloadFailed(ImageTooLarge))
  {
  }

  /** A base64 encoding is never mistaken for a URL: ':' is not in the base64
      alphabet. */
  lemma EncodingIsNeverUrl(bytes: seq<Byte>)
    ensures !IsUrl(Base64.Encode(bytes))
  {
    var r := Base64.Encode(bytes);
    if |r| >= 7 {
      assert r[..7][4] == r[4] != "http://"[4];
    }
    if |r| >= 8 {
      assert r[..8][5] == r[5] != "https://"[5];
    }
  }

  /** Displaying an uploaded file's encoding gives the `data:` URI of exactly
      that encoding. */
  lemma DisplayOfEncodedUpload(bytes: seq<Byte>)
    requires bytes != []
    ensures GetDisplayUrl(Base64.Encode(bytes)) == DataUrlPrefix + Base64.Encode(bytes)
  {
    EncodingIsNeverUrl(bytes);
  }

  /** The `data:` prefix is 22 characters long, so dropping 22 characters of a
      data URI gives the payload back. */
  lemma DataUrlPrefixLength(base64String: string)
    requires base64String != []
    ensures |DataUrlPrefix| == 22
    ensures GetImageDataUrl(base64String)[22..] == base64String
  {
  }

  /** A display address is not a fixed point: a `data:` URI given again is
      wrapped a second time. */
  lemma DisplayUrlWrapsTwice(base64String: string)
    requires base64String != [] && !IsUrl(base64String)
    ensures GetDisplayUrl(GetDisplayUrl(base64String)) == DataUrlPrefix + DataUrlPrefix + base64String
  {
  }

  /** `ProductImage.IsUrl` agrees with the codec's `IsUrl` on every string,
      and depends on nothing but the data. */
  lemma ProductImageIsUrlAgrees(img: ProductImage)
    ensures img.IsUrl() == IsUrl(img.base64Data)
  {
  }

  /** `ProductImage.IsUrl` is false for a default image. */
  lemma DefaultProductImageIsNotUrl()
    ensures !DefaultProductImage.IsUrl()
  {
  }
}
