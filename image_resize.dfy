/**
 * The size arithmetic of the two image uploads: the centred square crop and
 * fixed 256 × 256 output of resizeImage (internal/handlers/profile.go), the
 * proportional shrink of resizeCover (internal/handlers/blog.go), and the
 * decision chains of UploadAvatar and UploadPostImage that lead to them.
 * Decoding, content sniffing, interpolation and JPEG encoding are library code:
 * a decoded image appears here only as its width and height.
 */
module ImageResize {
  import opened Wrappers
  import opened ObjectIds
  import opened ImageGeometry

  /** image.Rectangle: the half-open box [minX, maxX) × [minY, maxY). */
  datatype Rect = Rect(minX: int, minY: int, maxX: int, maxY: int)

  function Min(a: int, b: int): int {
    if a <= b then a else b
  }

  /**
   * The crop rectangle of resizeImage for a w × h source: a square whose side
   * is the shorter dimension, inside the source, centred along the longer axis
   * with the odd pixel, if any, left over on the right or at the bottom.
   */
  function SquareCrop(w: nat, h: nat): (c: Rect)
    ensures c.maxX - c.minX == Min(w, h) && c.maxY - c.minY == Min(w, h)
    ensures 0 <= c.minX && c.maxX <= w && 0 <= c.minY && c.maxY <= h
    ensures c.minX <= w - c.maxX <= c.minX + 1
    ensures c.minY <= h - c.maxY <= c.minY + 1
  {
    if w > h then
      var offset := (w - h) / 2;
      Rect(offset, 0, offset + h, h)
    else
      var offset := (h - w) / 2;
      Rect(0, offset, w, offset + w)
  }

  /** What resizeImage(img, width, height) does: scale the crop of the source into a width × height image. */
  datatype Scale = Scale(source: Rect, width: nat, height: nat)

  function ResizeImage(w: nat, h: nat, width: nat, height: nat): Scale {
    Scale(SquareCrop(w, h), width, height)
  }

  /** The result of resizeCover: the source image itself or a new image of this size. */
  datatype CoverSize = Unchanged | Scaled(width: nat, height: nat)

  /** srcH·maxWidth/srcW rounded down, and no more than srcH when maxWidth < srcW. */
  lemma ShrunkHeight(srcW: nat, srcH: nat, maxWidth: nat)
    requires maxWidth < srcW
    ensures var q := srcH * maxWidth / srcW;
      0 <= q <= srcH && q * srcW <= srcH * maxWidth < (q + 1) * srcW
  {
    var a := srcH * maxWidth;
    assert a >= 0;
    var q := a / srcW;
    assert a == q * srcW + a % srcW;
    assert a <= srcH * srcW by {
      assert srcH * srcW == srcH * maxWidth + srcH * (srcW - maxWidth);
    }
    assert q * srcW <= srcH * srcW;
  }

  /**
   * resizeCover(img, maxWidth) for a srcW × srcH source: the source when it is
   * no wider than maxWidth; otherwise maxWidth wide and srcH·maxWidth/srcW high,
   * rounded down, so the image only ever shrinks.
   */
  function ResizeCover(srcW: nat, srcH: nat, maxWidth: nat): (r: CoverSize)
    ensures r.Unchanged? <==> srcW <= maxWidth
    ensures r.Scaled? ==> r.width == maxWidth < srcW
    ensures r.Scaled? ==> r.height * srcW <= srcH * maxWidth < (r.height + 1) * srcW
    ensures r.Scaled? ==> r.height <= srcH
  {
    if srcW <= maxWidth then Unchanged
    else
      ShrunkHeight(srcW, srcH, maxWidth);
      Scaled(maxWidth, srcH * maxWidth / srcW)
  }

  /** The body limit of both uploads: 5 << 20 bytes. */
  const MaxUploadBytes: nat := 5 * 1024 * 1024

  const AvatarSide: nat := 256
  const CoverMaxWidth: nat := 800
  const ImagesPath: string := "/api/v1/blog/images/"

  /** One file part of a multipart form. */
  datatype FilePart = FilePart(
    contentType: string,              // the part's Content-Type header, as the client sent it
    sniffed: string,                  // what http.DetectContentType reports for its bytes
    decoded: Option<(nat, nat)>,      // width and height when image.Decode accepts the bytes
    orientation: Option<int>)         // the Exif Orientation tag, None when unreadable

  /** An upload request as far as the handlers look at it. */
  datatype UploadRequest = UploadRequest(
    bodyBytes: nat,                   // the length of the request body
    multipart: bool,                  // whether the body parses as a multipart form
    files: map<string, FilePart>)     // the file parts by form field name

  /** ParseMultipartForm behind MaxBytesReader: fails on a body over the limit or one that is not a form. */
  predicate FormParses(req: UploadRequest) {
    req.bodyBytes <= MaxUploadBytes && req.multipart
  }

  /** The size of an image after the orientation correction. */
  function OrientedSize(orientation: Option<int>, size: (nat, nat)): (nat, nat) {
    if SwapsAxes(orientation) then (size.1, size.0) else size
  }

  /** OrientedSize is the size of the grid Oriented produces. */
  lemma OrientedSizeOfGrid(orientation: Option<int>, g: Grid)
    requires WellFormed(g)
    ensures var r := Oriented(orientation, g);
      OrientedSize(orientation, (g.width, g.height)) == (r.width, r.height)
  {
  }

  predicate AvatarTypeAllowed(contentType: string) {
    contentType == "image/jpeg" || contentType == "image/png"
  }

  /**
   * UploadAvatar up to the profile update: the thumbnail plan for the caller's
   * avatar, or the error the handler answers. profileExists says whether the
   * update matched a profile.
   */
  function AvatarUpload(user: ObjectId, req: UploadRequest, profileExists: bool): (r: Reply<Scale>)
    ensures user == Nil ==> r == Err(401, "Unauthorized")
    ensures user != Nil && !FormParses(req) ==> r == Err(413, "Image too large (max 5MB)")
    ensures r.Ok? <==>
      && user != Nil && FormParses(req) && "avatar" in req.files
      && AvatarTypeAllowed(req.files["avatar"].contentType)
      && req.files["avatar"].decoded.Some? && profileExists
    ensures r.Ok? ==>
      var f := req.files["avatar"];
      var size := OrientedSize(f.orientation, f.decoded.value);
      && r.code == 200
      && r.value.width == AvatarSide && r.value.height == AvatarSide
      && r.value.source == SquareCrop(size.0, size.1)
  {
    if user == Nil then Err(401, "Unauthorized")
    else if !FormParses(req) then Err(413, "Image too large (max 5MB)")
    else if "avatar" !in req.files then Err(400, "No image provided")
    else
      var f := req.files["avatar"];
      if !AvatarTypeAllowed(f.contentType) then Err(400, "Only JPEG and PNG images are allowed")
      else if f.decoded.None? then Err(400, "Invalid image format")
      else
        var size := OrientedSize(f.orientation, f.decoded.value);
        if !profileExists then Err(404, "Profile not found")
        else Ok(200, ResizeImage(size.0, size.1, AvatarSide, AvatarSide))
  }

  /** A 300 × 500 portrait without Exif data becomes a 256 × 256 thumbnail of its middle 300 × 300 square. */
  lemma PortraitAvatar(user: ObjectId)
    requires user != Nil
    ensures var part := FilePart("image/png", "image/png", Some((300, 500)), None);
      AvatarUpload(user, UploadRequest(1000, true, map["avatar" := part]), true)
        == Ok(200, Scale(Rect(0, 100, 300, 400), 256, 256))
  {
  }

  predicate CoverTypeAllowed(sniffed: string) {
    sniffed == "image/jpeg" || sniffed == "image/png" || sniffed == "image/webp"
  }

  /** Where a stored post image is served, and the size it was stored at. */
  datatype StoredImage = StoredImage(url: string, size: CoverSize)

  /**
   * UploadPostImage: id is the fresh ObjectID of the image document and
   * insertFails whether storing it fails.
   */
  function PostImageUpload(user: ObjectId, req: UploadRequest, id: ObjectId, insertFails: bool): (r: Reply<StoredImage>)
    ensures user == Nil ==> r == Err(401, "Unauthorized")
    ensures user != Nil && !FormParses(req) ==> r == Err(413, "Image too large (max 5MB)")
    ensures r.Ok? <==>
      && user != Nil && FormParses(req) && "image" in req.files
      && CoverTypeAllowed(req.files["image"].sniffed)
      && req.files["image"].decoded.Some? && !insertFails
    ensures r.Ok? ==>
      var size := req.files["image"].decoded.value;
      && r.code == 200
      && r.value.url == ImagesPath + ToHex(id)
      && r.value.size == ResizeCover(size.0, size.1, CoverMaxWidth)
  {
    if user == Nil then Err(401, "Unauthorized")
    else if !FormParses(req) then Err(413, "Image too large (max 5MB)")
    else if "image" !in req.files then Err(400, "No image provided. Use field name 'image'")
    else
      var f := req.files["image"];
      if !CoverTypeAllowed(f.sniffed) then Err(400, "Only JPEG, PNG and WebP images are allowed")
      else if f.decoded.None? then Err(400, "Invalid image format")
      else if insertFails then Err(500, "Error saving image")
      else Ok(200, StoredImage(ImagesPath + ToHex(id), ResizeCover(f.decoded.value.0, f.decoded.value.1, CoverMaxWidth)))
  }

  /** The returned URL names the stored image: its last segment parses back to the image's id. */
  lemma PostImageUrlNamesImage(user: ObjectId, req: UploadRequest, id: ObjectId, insertFails: bool)
    requires IsObjectId(id)
    ensures var r := PostImageUpload(user, req, id, insertFails);
      r.Ok? ==>
        && |r.value.url| == |ImagesPath| + HexLength
        && r.value.url[..|ImagesPath|] == ImagesPath
        && FromHex(r.value.url[|ImagesPath|..]) == Some(id)
  {
    var r := PostImageUpload(user, req, id, insertFails);
    if r.Ok? {
      assert r.value.url[|ImagesPath|..] == ToHex(id);
      FromHexOfToHex(id);
    }
  }

  /** Post images are never enlarged: a cover no wider than 800 pixels is stored as it is. */
  lemma NarrowCoverUnchanged(w: nat, h: nat)
    requires w <= CoverMaxWidth
    ensures ResizeCover(w, h, CoverMaxWidth) == Unchanged
  {
  }
}
