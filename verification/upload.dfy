/** The REST image-upload endpoint used before a product is created or
    edited: it checks the extension and the declared content type, then
    stores the file under a generated name in the product image directory
    (the same set of names the catalog service checks). */
module Upload {
  import opened Common
  import opened Decimal
  import Products

  datatype FormFile = FormFile(filename: string, contentType: string)

  /** The HTTP status and JSON body of the reply. */
  datatype UploadResponse = UploadResponse(status: int, success: bool, message: string, fileName: Option<string>)

  datatype UploadOutcome = UploadOutcome(response: UploadResponse, files: set<string>)

  const AllowedExtensions: set<string> := {".jpg", ".jpeg", ".png", ".webp"}
  const AllowedContentTypes: set<string> := {"image/jpeg", "image/png", "image/webp"}

  /** A well-formed extension: a dot followed by characters that are neither
      dots nor path separators. */
  predicate IsExtension(e: string) {
    |e| >= 1 && e[0] == '.' && forall j :: 1 <= j < |e| ==> e[j] != '.' && e[j] != '/'
  }

  /** The index of the last dot of `path[..i]` that is not followed by a
      separator within `path[..i]`. */
  function LastDot(path: string, i: nat): (k: Option<nat>)
    requires i <= |path|
    ensures k.Some? ==> k.value < i && path[k.value] == '.'
    ensures k.Some? ==> forall j :: k.value < j < i ==> path[j] != '.' && path[j] != '/'
    ensures k.None? ==> forall j :: 0 <= j < i && path[j] == '.' ==> exists q :: j < q < i && path[q] == '/'
    decreases i
  {
    if i == 0 then None
    else if path[i - 1] == '/' then None
    else if path[i - 1] == '.' then Some(i - 1)
    else LastDot(path, i - 1)
  }

  /** `filepath.Ext`: the suffix that starts at the final dot of the last
      path element, or "" when that element has no dot. */
  function Ext(path: string): (e: string)
    ensures e == "" || (IsExtension(e) && |e| <= |path| && path[|path| - |e|..] == e)
    ensures e == "" ==> forall j :: 0 <= j < |path| && path[j] == '.' ==> exists q :: j < q < |path| && path[q] == '/'
  {
    match LastDot(path, |path|)
    case None => ""
    case Some(k) => path[k..]
  }

  function LowerChar(c: char): char {
    if 'A' <= c <= 'Z' then (c as int + 32) as char else c
  }

  /** `strings.ToLower`, on the ASCII letters. */
  function ToLower(s: string): (r: string)
    ensures |r| == |s|
    ensures forall i :: 0 <= i < |r| ==> !('A' <= r[i] <= 'Z')
    ensures forall i :: 0 <= i < |s| && !('A' <= s[i] <= 'Z') ==> r[i] == s[i]
    ensures forall i :: 0 <= i < |s| && 'A' <= s[i] <= 'Z' ==> r[i] == (s[i] as int + 32) as char
  {
    seq(|s|, i requires 0 <= i < |s| => LowerChar(s[i]))
  }

  const NoImage: string := "Data gambar tidak ditemukan"
  const BadExtension: string := "Ekstensi file tidak valid. Hanya diperbolehkan: .jpg, .jpeg, .png, .webp"
  const BadContentType: string := "Content type tidak valid. Hanya diperbolehkan: image/jpeg, image/png, image/webp"
  const ServerError: string := "Terjadi kesalahan pada server"
  const Uploaded: string := "Upload gambar produk berhasil"

  /** `product_<unix nanoseconds><original extension>`, case preserved. */
  function GeneratedName(nanos: int, original: string): string {
    "product_" + IntToString(nanos) + Ext(original)
  }

  predicate Acceptable(f: FormFile) {
    ToLower(Ext(f.filename)) in AllowedExtensions && f.contentType in AllowedContentTypes
  }

  function BadRequest(message: string): UploadResponse {
    UploadResponse(400, false, message, None)
  }

  /** The image upload endpoint: checks the form field, the extension and
      the declared content type, then saves under a generated name.
      `saveFails` stands for a failure creating or writing the file. */
  function UploadProductImage(files: set<string>, form: Option<FormFile>, nanos: int, saveFails: bool): (out: UploadOutcome)
    ensures out.response.success <==> form.Some? && Acceptable(form.value) && !saveFails
    ensures out.response.success ==>
      && out.response.status == 200
      && out.response.fileName == Some(GeneratedName(nanos, form.value.filename))
      && out.files == files + {GeneratedName(nanos, form.value.filename)}
    ensures !out.response.success ==> out.files == files && out.response.fileName.None?
    ensures form.None? || !Acceptable(form.value) ==> out.response.status == 400
    ensures form.Some? && Acceptable(form.value) && saveFails ==> out.response.status == 500
  {
    match form
    case None => UploadOutcome(BadRequest(NoImage), files)
    case Some(f) =>
      if ToLower(Ext(f.filename)) !in AllowedExtensions then
        UploadOutcome(BadRequest(BadExtension), files)
      else if f.contentType !in AllowedContentTypes then
        UploadOutcome(BadRequest(BadContentType), files)
      else if saveFails then
        UploadOutcome(UploadResponse(500, false, ServerError, None), files)
      else
        var name := GeneratedName(nanos, f.filename);
        UploadOutcome(UploadResponse(200, true, Uploaded, Some(name)), files + {name})
  }

  /** Appending an extension to a dot-free name makes it the name's
      extension; appending nothing leaves a name with no extension. */
  lemma ExtOfDotFreeName(a: string, e: string)
    requires forall j :: 0 <= j < |a| ==> a[j] != '.'
    requires e == "" || IsExtension(e)
    ensures Ext(a + e) == e
  {
    var s := a + e;
    if e == "" {
      assert s == a;
      NoDotBefore(s, |s|);
    } else {
      DotAt(s, |a|, |s|);
    }
  }

  lemma {:induction false} NoDotBefore(path: string, i: nat)
    requires i <= |path|
    requires forall j :: 0 <= j < i ==> path[j] != '.'
    ensures LastDot(path, i) == None
  {
    if i > 0 && path[i - 1] != '/' {
      NoDotBefore(path, i - 1);
    }
  }

  lemma {:induction false} DotAt(path: string, k: nat, i: nat)
    requires k < i <= |path| && path[k] == '.'
    requires forall j :: k < j < i ==> path[j] != '.' && path[j] != '/'
    ensures LastDot(path, i) == Some(k)
  {
    if i - 1 > k {
      DotAt(path, k, i - 1);
    }
  }

  /** The stored name keeps the uploaded file's extension, in its original
      case. */
  lemma GeneratedNameKeepsExtension(nanos: int, original: string)
    ensures Ext(GeneratedName(nanos, original)) == Ext(original)
  {
    var a := "product_" + IntToString(nanos);
    var d := IntToString(nanos);
    assert forall j :: 0 <= j < |d| ==> d[j] != '.' by {
      forall j | 0 <= j < |d|
        ensures d[j] != '.'
      {
        if nanos < 0 && j > 0 {
          assert d[j] == d[1..][j - 1];
        }
      }
    }
    assert forall j :: 0 <= j < |a| ==> a[j] != '.' by {
      forall j | 0 <= j < |a|
        ensures a[j] != '.'
      {
        if j >= 8 {
          assert a[j] == d[j - 8];
        }
      }
    }
    assert GeneratedName(nanos, original) == a + Ext(original);
    ExtOfDotFreeName(a, Ext(original));
  }

  /** Every file the endpoint stores has an allowed extension, whatever the
      case of the uploaded name. */
  lemma StoredNameHasAllowedExtension(files: set<string>, form: Option<FormFile>, nanos: int, saveFails: bool)
    requires UploadProductImage(files, form, nanos, saveFails).response.success
    ensures var name := UploadProductImage(files, form, nanos, saveFails).response.fileName.value;
      ToLower(Ext(name)) in AllowedExtensions && name in UploadProductImage(files, form, nanos, saveFails).files
  {
    GeneratedNameKeepsExtension(nanos, form.value.filename);
  }

  /** A name returned by a successful upload passes the catalog's image
      check, so an admin can create a product with it. */
  lemma UploadThenCreateProduct(c: Products.Catalog, form: Option<FormFile>, nanos: int,
                                claims: Option<Claims>, req: Products.ProductRequest, freshId: Id)
    requires UploadProductImage(c.files, form, nanos, false).response.success
    requires req.imageFileName == UploadProductImage(c.files, form, nanos, false).response.fileName.value
    requires Products.IsAdmin(claims) && freshId !in c.products
    ensures var c' := c.(files := UploadProductImage(c.files, form, nanos, false).files);
      var out := Products.CreateProduct(c', claims, req, freshId, {});
      out.reply.Ok? && out.reply.response.base.Success? && out.reply.response.id == freshId
  {
  }
}
