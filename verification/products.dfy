/** The product catalog service: admin-only create, edit and delete, the
    public detail lookup, and the image files those products point at.
    The catalog is the map of live products; the `storage/product`
    directory is the set of file names it holds. */
module Products {
  import opened Common

  datatype Product = Product(
    id: Id,
    name: string,
    description: string,
    price: Money,
    imageFileName: string)

  datatype Catalog = Catalog(products: map<Id, Product>, files: set<string>)

  datatype ProductRequest = ProductRequest(
    name: string,
    description: string,
    price: Money,
    imageFileName: string)

  /** Repository and file-system steps that may fail with a plain error.
      `StatImage` is an `os.Stat` error other than "does not exist";
      `RemoveFile` is an `os.Remove` error on a file that does exist. */
  datatype Step = StatImage | Insert | Lookup | Update | Delete | RemoveFile | FetchPage

  datatype ProductResponse = ProductResponse(base: Base, id: Id)

  datatype DetailResponse = DetailResponse(base: Base, product: Option<Product>)

  datatype Outcome<+T> = Outcome(reply: Reply<T>, catalog: Catalog)

  predicate IsAdmin(claims: Option<Claims>) {
    claims.Some? && claims.value.role == Admin
  }

  /** The error of a role gate: missing claims, else Unauthenticated. */
  function GateFailure(claims: Option<Claims>): (f: Failure)
    requires !IsAdmin(claims)
    ensures claims.Some? ==> IsUnauthenticated(f)
  {
    if claims.None? then NoClaims else Denied
  }

  /** `os.Remove` of a file in the image directory. */
  function RemoveImage(files: set<string>, name: string, faults: set<Step>): (r: Option<set<string>>)
    ensures r.Some? <==> name in files && RemoveFile !in faults
    ensures r.Some? ==> r.value == files - {name} && name !in r.value
  {
    if name in files && RemoveFile !in faults then Some(files - {name}) else None
  }

  function CreateProduct(c: Catalog, claims: Option<Claims>, req: ProductRequest, freshId: Id, faults: set<Step>): (out: Outcome<ProductResponse>)
    requires freshId !in c.products
    ensures !IsAdmin(claims) ==> out.reply.Err? && out.catalog == c
    ensures claims.Some? && claims.value.role != Admin ==> IsUnauthenticated(out.reply.failure)
    ensures IsAdmin(claims) && StatImage !in faults && req.imageFileName !in c.files ==>
      out.reply.Ok? && out.reply.response.base.BadRequest? && out.catalog == c
    ensures out.catalog.files == c.files
    ensures out.reply.Ok? && out.reply.response.base.Success? <==>
      IsAdmin(claims) && req.imageFileName in c.files && StatImage !in faults && Insert !in faults
    ensures out.reply.Ok? && out.reply.response.base.Success? ==>
      && out.reply.response.id == freshId
      && out.catalog.products.Keys == c.products.Keys + {freshId}
      && out.catalog.products[freshId] == Product(freshId, req.name, req.description, req.price, req.imageFileName)
      && (forall id :: id in c.products ==> out.catalog.products[id] == c.products[id])
    ensures !(out.reply.Ok? && out.reply.response.base.Success?) ==> out.catalog == c
  {
    if !IsAdmin(claims) then Outcome(Err(GateFailure(claims)), c)
    else if StatImage in faults then Outcome(Err(Fault("stat image")), c)
    else if req.imageFileName !in c.files then
      Outcome(Ok(ProductResponse(BadRequest("Gambar produk tidak ditemukan"), "")), c)
    else if Insert in faults then Outcome(Err(Fault("insert product")), c)
    else
      var p := Product(freshId, req.name, req.description, req.price, req.imageFileName);
      Outcome(Ok(ProductResponse(Success("Produk Berhasil dibuat"), freshId)), c.(products := c.products[freshId := p]))
  }

  /** The public detail lookup; it has no role gate. */
  function DetailProduct(c: Catalog, id: Id, faults: set<Step>): (r: Reply<DetailResponse>)
    ensures r.Err? <==> Lookup in faults
    ensures r.Ok? ==> (r.response.base.NotFound? <==> id !in c.products)
    ensures r.Ok? && id in c.products ==>
      r.response.base.Success? && r.response.product == Some(c.products[id])
  {
    if Lookup in faults then Err(Fault("get product"))
    else if id !in c.products then Ok(DetailResponse(NotFound("Produk tidak ditemukan"), None))
    else Ok(DetailResponse(Success("Detail produk berhasil didapatkan"), Some(c.products[id])))
  }

  /** The edit names an existing product and a different image file. */
  predicate ImageChange(c: Catalog, id: Id, req: ProductRequest) {
    id in c.products && c.products[id].imageFileName != req.imageFileName
  }

  /** Edit replaces the record's fields with the request's. When the image
      name changes, the new file must exist and the old file is removed
      before the record is written, so a failing update leaves the old image
      gone. */
  function EditProduct(c: Catalog, claims: Option<Claims>, id: Id, req: ProductRequest, faults: set<Step>): (out: Outcome<ProductResponse>)
    ensures !IsAdmin(claims) ==> out.reply.Err? && out.catalog == c
    ensures claims.Some? && claims.value.role != Admin ==> IsUnauthenticated(out.reply.failure)
    ensures IsAdmin(claims) && Lookup !in faults && id !in c.products ==>
      out.reply.Ok? && out.reply.response.base.NotFound? && out.catalog == c
    ensures (&& IsAdmin(claims) && Lookup !in faults && ImageChange(c, id, req)
             && StatImage !in faults && req.imageFileName !in c.files) ==>
      out.reply.Ok? && out.reply.response.base.BadRequest? && out.catalog == c
    ensures out.reply.Ok? && out.reply.response.base.Success? <==>
      && IsAdmin(claims) && Lookup !in faults && id in c.products && Update !in faults
      && (ImageChange(c, id, req) ==>
            StatImage !in faults && req.imageFileName in c.files
            && c.products[id].imageFileName in c.files && RemoveFile !in faults)
    ensures (&& IsAdmin(claims) && Lookup !in faults && ImageChange(c, id, req)
             && StatImage !in faults && req.imageFileName in c.files
             && c.products[id].imageFileName in c.files && RemoveFile !in faults && Update in faults) ==>
      out.reply.Err? && out.catalog == Catalog(c.products, c.files - {c.products[id].imageFileName})
    ensures out.catalog.products != c.products ==> out.reply.Ok? && out.reply.response.base.Success?
    ensures out.catalog.files != c.files ==>
      id in c.products && c.products[id].imageFileName != req.imageFileName
      && req.imageFileName in c.files
      && out.catalog.files == c.files - {c.products[id].imageFileName}
    ensures out.reply.Ok? && out.reply.response.base.Success? ==>
      && IsAdmin(claims) && id in c.products
      && out.reply.response.id == id
      && out.catalog.products == c.products[id := Product(id, req.name, req.description, req.price, req.imageFileName)]
      && (c.products[id].imageFileName != req.imageFileName ==> req.imageFileName in out.catalog.files)
  {
    if !IsAdmin(claims) then Outcome(Err(GateFailure(claims)), c)
    else if Lookup in faults then Outcome(Err(Fault("get product")), c)
    else if id !in c.products then
      Outcome(Ok(ProductResponse(NotFound("Produk tidak ditemukan"), "")), c)
    else
      var current := c.products[id];
      var updated := Product(id, req.name, req.description, req.price, req.imageFileName);
      if current.imageFileName == req.imageFileName then
        if Update in faults then Outcome(Err(Fault("update product")), c)
        else Outcome(Ok(ProductResponse(Success("Edit produk berhasil"), id)), c.(products := c.products[id := updated]))
      else if StatImage in faults then Outcome(Err(Fault("stat image")), c)
      else if req.imageFileName !in c.files then
        Outcome(Ok(ProductResponse(BadRequest("Gambar tidak ditemukan"), "")), c)
      else match RemoveImage(c.files, current.imageFileName, faults)
        case None => Outcome(Err(Fault("remove old image")), c)
        case Some(files) =>
          if Update in faults then Outcome(Err(Fault("update product")), c.(files := files))
          else Outcome(Ok(ProductResponse(Success("Edit produk berhasil"), id)), Catalog(c.products[id := updated], files))
  }

  /** Delete removes the record first and its image file second; when the
      file cannot be removed the record is already gone and the caller
      still receives an error. */
  function DeleteProduct(c: Catalog, claims: Option<Claims>, id: Id, faults: set<Step>): (out: Outcome<ProductResponse>)
    ensures !IsAdmin(claims) ==> out.reply.Err? && out.catalog == c
    ensures claims.Some? && claims.value.role != Admin ==> IsUnauthenticated(out.reply.failure)
    ensures IsAdmin(claims) && Lookup !in faults && id !in c.products ==>
      out.reply.Ok? && out.reply.response.base.NotFound? && out.catalog == c
    ensures out.catalog != c ==> id in c.products && out.catalog.products == c.products - {id}
    ensures out.reply.Ok? && out.reply.response.base.Success? <==>
      IsAdmin(claims) && id in c.products && Lookup !in faults && Delete !in faults
      && c.products[id].imageFileName in c.files && RemoveFile !in faults
    ensures out.reply.Ok? && out.reply.response.base.Success? ==>
      out.catalog == Catalog(c.products - {id}, c.files - {c.products[id].imageFileName})
  {
    if !IsAdmin(claims) then Outcome(Err(GateFailure(claims)), c)
    else if Lookup in faults then Outcome(Err(Fault("get product")), c)
    else if id !in c.products then
      Outcome(Ok(ProductResponse(NotFound("Produk tidak ditemukan"), "")), c)
    else if Delete in faults then Outcome(Err(Fault("delete product")), c)
    else
      var without := c.products - {id};
      match RemoveImage(c.files, c.products[id].imageFileName, faults)
      case None => Outcome(Err(Fault("remove image")), c.(products := without))
      case Some(files) => Outcome(Ok(ProductResponse(Success("Produk berhasil dihapus"), "")), Catalog(without, files))
  }

  /** The error of a failing pagination query, passed through unchanged. */
  const PageFault: Failure := Fault("product page query")

  /** The admin listing: the role gate, then the repository's page, passed
      through; `FetchPage` in `faults` stands for a failing query. */
  function ListProductAdmin(claims: Option<Claims>, page: seq<Product>, faults: set<Step>): (r: Reply<seq<Product>>)
    ensures r.Ok? <==> IsAdmin(claims) && FetchPage !in faults
    ensures claims.Some? && claims.value.role != Admin ==> IsUnauthenticated(r.failure)
    ensures IsAdmin(claims) && FetchPage in faults ==> r == Err(PageFault)
    ensures r.Ok? ==> r.response == page
  {
    if !IsAdmin(claims) then Err(GateFailure(claims))
    else if FetchPage in faults then Err(PageFault)
    else Ok(page)
  }

  /** An edit that keeps the image name never touches the file store, even
      when that file is missing. */
  lemma EditKeepingImageLeavesFiles(c: Catalog, claims: Option<Claims>, id: Id, req: ProductRequest, faults: set<Step>)
    requires id in c.products && c.products[id].imageFileName == req.imageFileName
    ensures EditProduct(c, claims, id, req, faults).catalog.files == c.files
  {
  }

  /** After a successful edit the detail lookup returns the edited record,
      every other product reads as before, and the file store has lost
      exactly the replaced image, if any. */
  lemma EditThenDetail(c: Catalog, claims: Option<Claims>, id: Id, req: ProductRequest, faults: set<Step>, other: Id)
    requires var out := EditProduct(c, claims, id, req, faults); out.reply.Ok? && out.reply.response.base.Success?
    ensures var out := EditProduct(c, claims, id, req, faults);
      && DetailProduct(out.catalog, id, {}).response.product == Some(Product(id, req.name, req.description, req.price, req.imageFileName))
      && (other != id ==> DetailProduct(out.catalog, other, {}) == DetailProduct(c, other, {}))
      && out.catalog.files == (if ImageChange(c, id, req) then c.files - {c.products[id].imageFileName} else c.files)
  {
  }

  /** A successful delete leaves no record and no file behind. */
  lemma DeleteLeavesNothing(c: Catalog, claims: Option<Claims>, id: Id, faults: set<Step>)
    requires var out := DeleteProduct(c, claims, id, faults); out.reply.Ok? && out.reply.response.base.Success?
    ensures var out := DeleteProduct(c, claims, id, faults);
      id !in out.catalog.products && c.products[id].imageFileName !in out.catalog.files
      && DetailProduct(out.catalog, id, {}) == Ok(DetailResponse(NotFound("Produk tidak ditemukan"), None))
  {
  }

  /** A missing image file turns a delete into an error after the record is
      already gone. */
  lemma DeleteWithMissingImage(c: Catalog, claims: Option<Claims>, id: Id)
    requires IsAdmin(claims) && id in c.products && c.products[id].imageFileName !in c.files
    ensures var out := DeleteProduct(c, claims, id, {});
      out.reply.Err? && out.catalog.products == c.products - {id}
  {
  }
}
