/**
 * The admin blueprint: the upload-extension filter, image record creation and the
 * create/update product routes. Form numbers are parsed by parameters standing for
 * Python's `float()`/`int()`; `None` is a parse failure (an uncaught `ValueError`, so 500).
 */
module AdminRoutes {
  import opened Wrappers
  import opened Models
  import opened Text
  import Seqs

  type Form = map<string, string>

  /** `ALLOWED_EXTENSIONS` of the backend configuration. */
  const AllowedExtensions: set<string> := {"png", "jpg", "jpeg", "gif"}

  /** The index of the last '.' in `s`, if any. */
  function LastDot(s: string): (r: Option<nat>)
    ensures r.Some? ==> r.value < |s| && s[r.value] == '.' && '.' !in s[r.value + 1..]
    ensures r.None? <==> '.' !in s
  {
    if |s| == 0 then None
    else if s[|s| - 1] == '.' then Some(|s| - 1)
    else
      var r := LastDot(s[..|s| - 1]);
      assert s == s[..|s| - 1] + [s[|s| - 1]];
      if r.Some? then
        assert s[r.value + 1..] == s[..|s| - 1][r.value + 1..] + [s[|s| - 1]];
        r
      else r
  }

  /** `allowed_file`: there is a '.', and the lower-cased text after the last one is allowed. */
  function AllowedFile(filename: string): (b: bool)
    ensures b <==> '.' in filename && Lower(filename[LastDot(filename).value + 1..]) in AllowedExtensions
  {
    match LastDot(filename)
    case None => false
    case Some(i) => Lower(filename[i + 1..]) in AllowedExtensions
  }

  lemma {:induction false} LastDotBeforeExtension(base: string, ext: string)
    requires '.' !in ext
    ensures LastDot(base + "." + ext) == Some(|base|)
    decreases |ext|
  {
    var name := base + "." + ext;
    if |ext| > 0 {
      assert name[..|name| - 1] == base + "." + ext[..|ext| - 1];
      assert name[|name| - 1] == ext[|ext| - 1];
      LastDotBeforeExtension(base, ext[..|ext| - 1]);
    }
  }

  /** Only the final extension counts, whatever dots the base name holds. */
  lemma AllowedFileByExtension(base: string, ext: string)
    requires '.' !in ext
    ensures AllowedFile(base + "." + ext) <==> Lower(ext) in AllowedExtensions
  {
    LastDotBeforeExtension(base, ext);
    assert (base + "." + ext)[|base| + 1..] == ext;
  }

  /** An uploaded file: its client-side name and the unique name the server stores it under. */
  datatype Upload = Upload(filename: string, storedAs: string)

  predicate Accepted(u: Upload) {
    u.filename != "" && AllowedFile(u.filename)
  }

  /**
   * `save_product_images`: one image record per accepted upload, in upload order;
   * empty names and disallowed extensions are skipped.
   */
  method SaveProductImages(uploads: seq<Upload>, productId: int) returns (images: seq<ProductImage>)
    ensures var kept := Seqs.Filter(uploads, Accepted);
      && |images| == |kept|
      && forall k :: 0 <= k < |images| ==> images[k] == ProductImage(kept[k].storedAs, productId)
  {
    images := [];
    var i := 0;
    while i < |uploads|
      invariant 0 <= i <= |uploads|
      invariant |images| == |Seqs.Filter(uploads[..i], Accepted)|
      invariant forall k :: 0 <= k < |images| ==>
        images[k] == ProductImage(Seqs.Filter(uploads[..i], Accepted)[k].storedAs, productId)
    {
      var u := uploads[i];
      assert uploads[..i + 1] == uploads[..i] + [u];
      Seqs.FilterAppend(uploads[..i], [u], Accepted);
      if u.filename != "" && AllowedFile(u.filename) {
        images := images + [ProductImage(u.storedAs, productId)];
      }
      i := i + 1;
    }
    assert uploads[..i] == uploads;
  }

  function ImageRecords(uploads: seq<Upload>, productId: int): (images: seq<ProductImage>)
    ensures var kept := Seqs.Filter(uploads, Accepted);
      && |images| == |kept|
      && forall k :: 0 <= k < |images| ==> images[k] == ProductImage(kept[k].storedAs, productId)
  {
    var kept := Seqs.Filter(uploads, Accepted);
    seq(|kept|, k requires 0 <= k < |kept| => ProductImage(kept[k].storedAs, productId))
  }

  datatype ProductsReply = ProductsReply(status: int, products: map<int, ProductRow>)

  /** `form.get(key, default)`: presence decides, an empty value still replaces. */
  function FormGet(form: Form, key: string, default: string): string {
    if key in form then form[key] else default
  }

  /**
   * `POST /admin/product/new`. `newId` is the key the database assigns on flush.
   * `name`, `price` and `stock` must be present (not necessarily non-empty).
   */
  function CreateProduct(products: map<int, ProductRow>, form: Form, uploads: seq<Upload>, newId: int,
                         parsePrice: string -> Option<int>, parseStock: string -> Option<int>): (r: ProductsReply)
    requires newId !in products
    ensures r.status in {201, 400, 500}
    ensures r.status == 400 <==> "name" !in form || "price" !in form || "stock" !in form
    ensures r.status == 500 <==>
      (r.status != 400 && (parsePrice(form["price"]).None? || parseStock(form["stock"]).None?))
    ensures r.status != 201 ==> r.products == products
    ensures r.status == 201 ==>
      && r.products.Keys == products.Keys + {newId}
      && (forall id :: id in products ==> r.products[id] == products[id])
      && var p := r.products[newId];
      && p.id == newId && p.name == form["name"]
      && Some(p.price) == parsePrice(form["price"]) && Some(p.stock) == parseStock(form["stock"])
      && p.description == Some(FormGet(form, "description", ""))
      && p.brand == Some(FormGet(form, "brand", ""))
      && p.images == ImageRecords(uploads, newId)
  {
    if "name" !in form || "price" !in form || "stock" !in form then ProductsReply(400, products)
    else
      var price, stock := parsePrice(form["price"]), parseStock(form["stock"]);
      if price.None? || stock.None? then ProductsReply(500, products)
      else
        var row := ProductRow(newId, form["name"], price.value, stock.value,
                              Some(FormGet(form, "description", "")), Some(FormGet(form, "brand", "")),
                              ImageRecords(uploads, newId));
        ProductsReply(201, products[newId := row])
  }

  /** The stored value of a column after `form.get(key, old)`. */
  function Merge<T>(form: Form, key: string, parse: string -> Option<T>, current: T): Option<T> {
    if key in form then parse(form[key]) else Some(current)
  }

  /**
   * `POST /admin/products/<id>`: every column present in the form is replaced, every
   * other keeps its old value; new accepted uploads are appended to the images.
   */
  function UpdateProduct(products: map<int, ProductRow>, id: int, form: Form, uploads: seq<Upload>,
                         parsePrice: string -> Option<int>, parseStock: string -> Option<int>): (r: ProductsReply)
    ensures r.status in {200, 404, 500}
    ensures r.status == 404 <==> id !in products
    ensures r.status == 500 <==>
      (id in products &&
       (("price" in form && parsePrice(form["price"]).None?) || ("stock" in form && parseStock(form["stock"]).None?)))
    ensures r.status != 200 ==> r.products == products
    ensures r.status == 200 ==>
      && r.products.Keys == products.Keys
      && (forall other :: other in products && other != id ==> r.products[other] == products[other])
      && var prev := products[id];
      && var p := r.products[id];
      && p.name == (if "name" in form then form["name"] else prev.name)
      && p.price == (if "price" in form then parsePrice(form["price"]).value else prev.price)
      && p.stock == (if "stock" in form then parseStock(form["stock"]).value else prev.stock)
      && p.description == (if "description" in form then Some(form["description"]) else prev.description)
      && p.brand == (if "brand" in form then Some(form["brand"]) else prev.brand)
      && p.images == prev.images + ImageRecords(uploads, id)
  {
    if id !in products then ProductsReply(404, products)
    else
      var prev := products[id];
      var price := Merge(form, "price", parsePrice, prev.price);
      var stock := Merge(form, "stock", parseStock, prev.stock);
      if price.None? || stock.None? then ProductsReply(500, products)
      else
        var row := prev.(name := FormGet(form, "name", prev.name),
                        price := price.value, stock := stock.value,
                        description := if "description" in form then Some(form["description"]) else prev.description,
                        brand := if "brand" in form then Some(form["brand"]) else prev.brand,
                        images := prev.images + ImageRecords(uploads, id));
        ProductsReply(200, products[id := row])
  }

  /** An update with an empty form and no uploads changes nothing but answers 200. */
  lemma {:induction false} EmptyUpdateKeepsProduct(products: map<int, ProductRow>, id: int,
                                                   parsePrice: string -> Option<int>, parseStock: string -> Option<int>)
    requires id in products
    ensures UpdateProduct(products, id, map[], [], parsePrice, parseStock) == ProductsReply(200, products)
  {
    var r := UpdateProduct(products, id, map[], [], parsePrice, parseStock);
    assert ImageRecords([], id) == [];
    assert products[id].images + [] == products[id].images;
    assert r.products[id] == products[id];
    assert r.products == products;
  }

  /**
   * A created product as the catalogue then serves it: the form's name and parsed numbers,
   * one image URL per accepted upload in upload order, and a thumbnail exactly when some
   * upload was accepted.
   */
  lemma CreatedProductServed(products: map<int, ProductRow>, form: Form, uploads: seq<Upload>, newId: int,
                             parsePrice: string -> Option<int>, parseStock: string -> Option<int>,
                             urlFor: string -> string)
    requires newId !in products
    requires CreateProduct(products, form, uploads, newId, parsePrice, parseStock).status == 201
    ensures var r := CreateProduct(products, form, uploads, newId, parsePrice, parseStock);
      var d := ProductToDict(r.products[newId], urlFor);
      var kept := Seqs.Filter(uploads, Accepted);
      && d.id == newId && d.name == form["name"]
      && Some(d.price) == parsePrice(form["price"]) && Some(d.stock) == parseStock(form["stock"])
      && |d.imageUrls| == |kept|
      && (forall k :: 0 <= k < |kept| ==> d.imageUrls[k] == urlFor(ImageFolder + kept[k].storedAs))
      && (d.thumbnailUrl.Some? <==> exists k :: 0 <= k < |uploads| && Accepted(uploads[k]))
  {
    var r := CreateProduct(products, form, uploads, newId, parsePrice, parseStock);
    var kept := Seqs.Filter(uploads, Accepted);
    var p := r.products[newId];
    assert p.images == ImageRecords(uploads, newId);
    if exists k :: 0 <= k < |uploads| && Accepted(uploads[k]) {
      var k :| 0 <= k < |uploads| && Accepted(uploads[k]);
      assert uploads[k] in kept;
    }
  }
}
