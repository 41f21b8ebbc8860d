// src/app/api/getImage/route.ts: serves a stored lesson image. The URL decoding, path
// normalisation, extension extraction and file system are parameters: `decode` answers `None`
// where decoding throws, `onDisk` and `readable` stand for the existence check and the read.
module ImageRoute {
  import opened Wrappers
  import opened Text
  import opened Http

  /** The Windows images directory, accepted anywhere inside a normalised path. */
  const WindowsImagesDir: string := "C:\\Users\\inaya\\OneDrive\\Desktop\\FYP\\images"

  const CacheControl: string := "public, max-age=31536000"

  datatype Image = Image(path: string, contentType: string, cacheControl: string)

  /** The traversal guard: the resolved images directory as a prefix, or the Windows one anywhere. */
  predicate Allowed(normalized: string, imagesDir: string)
  {
    StartsWith(normalized, imagesDir) || Contains(normalized, WindowsImagesDir)
  }

  /** The content type by lowercased extension; PNG for anything not listed. */
  function ContentType(ext: string): (t: string)
    ensures t == "image/jpeg" <==> Lower(ext) == ".jpg" || Lower(ext) == ".jpeg"
    ensures t == "image/gif" <==> Lower(ext) == ".gif"
    ensures t == "image/webp" <==> Lower(ext) == ".webp"
    ensures t == "image/png" <==> Lower(ext) != ".jpg" && Lower(ext) != ".jpeg" && Lower(ext) != ".gif" && Lower(ext) != ".webp"
  {
    var e := Lower(ext);
    if e == ".jpg" || e == ".jpeg" then "image/jpeg"
    else if e == ".gif" then "image/gif"
    else if e == ".webp" then "image/webp"
    else "image/png"
  }

  /** The guards in order: parameter, decoding, path, existence, read. */
  function Get(filePath: Option<string>, decode: string -> Option<string>, normalize: string -> string, imagesDir: string,
               onDisk: string -> bool, extname: string -> string, readable: string -> bool): (r: Reply<Image>)
    ensures !Truthy(filePath) ==> r == Fail(400, "File path is required")
    ensures Truthy(filePath) && decode(filePath.value).None? ==> r == Fail(500, "Failed to retrieve image")
    ensures Truthy(filePath) && decode(filePath.value).Some? ==>
              var p := normalize(decode(filePath.value).value);
              (r == Fail(403, "Invalid image path") <==> !Allowed(p, imagesDir))
              && (r == Fail(404, "Image not found") <==> Allowed(p, imagesDir) && !onDisk(p))
              && (r.status == 200 <==> Allowed(p, imagesDir) && onDisk(p) && readable(p))
              && (r.status == 200 ==> r.body == Json(Image(p, ContentType(extname(p)), CacheControl)))
  {
    if !Truthy(filePath) then Fail(400, "File path is required")
    else
      match decode(filePath.value)
      case None => Fail(500, "Failed to retrieve image")
      case Some(imagePath) =>
        var p := normalize(imagePath);
        if !Allowed(p, imagesDir) then Fail(403, "Invalid image path")
        else if !onDisk(p) then Fail(404, "Image not found")
        else if !readable(p) then Fail(500, "Failed to read image file")
        else Answer(Image(p, ContentType(extname(p)), CacheControl))
  }

  /** The substring test lets through any path with the Windows directory somewhere inside it. */
  lemma WindowsDirAnywhere(prefix: string, suffix: string, imagesDir: string)
    ensures Allowed(prefix + WindowsImagesDir + suffix, imagesDir)
  {
    var s := prefix + WindowsImagesDir + suffix;
    assert s[|prefix|..][..|WindowsImagesDir|] == WindowsImagesDir;
  }

  /** The extension is compared in lower case, so its case never changes the type. */
  lemma CaseInsensitive(ext: string)
    ensures ContentType(ext) == ContentType(Lower(ext))
  {
    LowerIdempotent(ext);
  }

  /** For instance an upper-case `.JPG` is served as JPEG, and an unlisted `.svg` as PNG. */
  lemma UpperCaseExtensions()
    ensures ContentType(".JPG") == "image/jpeg" && ContentType(".svg") == "image/png"
  {
    assert Lower(".JPG") == ".jpg";
    assert Lower(".svg") == ".svg";
  }
}
