/**
 * The database rows of the storefront backend and their JSON serialisations.
 * Prices are carried as opaque integers: no arithmetic is ever done on them here.
 */
module Models {
  import opened Wrappers

  /** Upload directory, relative to the static folder, that image URLs point into. */
  const ImageFolder: string := "uploads/products/"

  datatype ProductImage = ProductImage(filename: string, productId: int)

  /** A `products` row together with its `images` relationship, in relationship order. */
  datatype ProductRow = ProductRow(
    id: int,
    name: string,
    price: int,
    stock: int,
    description: Option<string>,
    brand: Option<string>,
    images: seq<ProductImage>)

  datatype UserRow = UserRow(
    id: int,
    username: string,
    email: string,
    passwordHash: string,
    isAdmin: bool,
    phoneNumber: Option<string>)

  datatype AddressRow = AddressRow(
    fullName: string,
    streetAddress: string,
    apartmentSuite: Option<string>,
    city: string,
    postalCode: string,
    country: string,
    phoneNumber: Option<string>)

  datatype OrderProduct = OrderProduct(productId: int, quantity: int, unitPrice: int)

  datatype OrderRow = OrderRow(userId: int, address: AddressRow, products: seq<OrderProduct>)

  /** The whole database: users in insertion order, products by primary key, orders. */
  datatype Db = Db(users: seq<UserRow>, products: map<int, ProductRow>, orders: seq<OrderRow>)

  /** What `Product.to_dict` returns; the client works on exactly this record. */
  datatype ProductDict = ProductDict(
    id: int,
    name: string,
    price: int,
    stock: int,
    description: Option<string>,
    brand: Option<string>,
    imageUrls: seq<string>,
    thumbnailUrl: Option<string>)

  /** What `User.to_dict` returns; the client's `user` is exactly this record. */
  datatype UserDict = UserDict(
    id: int,
    username: string,
    email: string,
    isAdmin: bool,
    phoneNumber: Option<string>)

  /** `Product.to_dict`; `urlFor` stands for Flask's external `url_for('static', ...)`. */
  function ProductToDict(p: ProductRow, urlFor: string -> string): (d: ProductDict)
    ensures d.id == p.id && d.name == p.name && d.price == p.price && d.stock == p.stock
    ensures d.description == p.description && d.brand == p.brand
    ensures |d.imageUrls| == |p.images|
    ensures forall i :: 0 <= i < |p.images| ==> d.imageUrls[i] == urlFor(ImageFolder + p.images[i].filename)
    ensures d.thumbnailUrl.Some? <==> |p.images| > 0
    ensures d.thumbnailUrl.Some? ==> d.thumbnailUrl.value == urlFor(ImageFolder + p.images[0].filename)
  {
    var urls := seq(|p.images|, i requires 0 <= i < |p.images| => urlFor(ImageFolder + p.images[i].filename));
    ProductDict(p.id, p.name, p.price, p.stock, p.description, p.brand, urls,
                if |urls| > 0 then Some(urls[0]) else None)
  }

  /** `User.to_dict`: every public column, and nothing derived from the password hash. */
  function UserToDict(u: UserRow): (d: UserDict)
    ensures d.id == u.id && d.username == u.username && d.email == u.email
    ensures d.isAdmin == u.isAdmin && d.phoneNumber == u.phoneNumber
  {
    UserDict(u.id, u.username, u.email, u.isAdmin, u.phoneNumber)
  }

  /** The serialisation never reveals the password hash: changing it changes nothing visible. */
  lemma UserToDictHidesHash(u: UserRow, otherHash: string)
    ensures UserToDict(u.(passwordHash := otherHash)) == UserToDict(u)
  {
  }

  /** A user row as created by the `User` model's column defaults: not an admin, no phone. */
  function NewUser(id: int, username: string, email: string, passwordHash: string): (u: UserRow)
    ensures !u.isAdmin && u.phoneNumber.None?
    ensures u.id == id && u.username == username && u.email == email && u.passwordHash == passwordHash
  {
    UserRow(id, username, email, passwordHash, false, None)
  }

  /** The position of the row `User.query.get(id)` returns. */
  function UserIndex(users: seq<UserRow>, id: int): (r: Option<nat>)
    ensures r.Some? ==> r.value < |users| && users[r.value].id == id
    ensures r.Some? ==> forall j :: 0 <= j < r.value ==> users[j].id != id
    ensures r.None? ==> forall i :: 0 <= i < |users| ==> users[i].id != id
  {
    if |users| == 0 then None
    else if users[0].id == id then Some(0)
    else match UserIndex(users[1..], id)
      case None => None
      case Some(i) => Some(i + 1)
  }

  /** Python truthiness of an optional string: present and non-empty. */
  predicate Truthy(s: Option<string>) {
    s.Some? && s.value != ""
  }
}
