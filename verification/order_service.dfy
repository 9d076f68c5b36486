/**
 * `OrderService`: address creation, the phone "set only if unset" rule and the
 * sequential processing of a paid session's line items against stock.
 */
module OrderService {
  import opened Wrappers
  import opened Models
  import AuthRoutes

  type Json = AuthRoutes.Json

  /** `create_address`: `None` stands for the `KeyError` of a missing required key. */
  function CreateAddress(data: Json): (r: Option<AddressRow>)
    ensures r.None? <==>
      "fullName" !in data || "streetAddress" !in data || "city" !in data || "postalCode" !in data || "country" !in data
    ensures r.Some? ==>
      && r.value.fullName == data["fullName"] && r.value.streetAddress == data["streetAddress"]
      && r.value.city == data["city"] && r.value.postalCode == data["postalCode"] && r.value.country == data["country"]
      && r.value.apartmentSuite == AuthRoutes.Get(data, "apartmentSuite")
      && r.value.phoneNumber == AuthRoutes.Get(data, "phoneNumber")
  {
    if "fullName" !in data || "streetAddress" !in data || "city" !in data || "postalCode" !in data || "country" !in data then
      None
    else
      Some(AddressRow(data["fullName"], data["streetAddress"], AuthRoutes.Get(data, "apartmentSuite"),
                      data["city"], data["postalCode"], data["country"], AuthRoutes.Get(data, "phoneNumber")))
  }

  /**
   * The `shippingInfo` object `get_my_orders` builds from a stored address. A null
   * column is left out: `.get` reads an absent key and a JSON null alike, as `None`.
   */
  function ShippingInfo(a: AddressRow): Json {
    var required := map["fullName" := a.fullName, "streetAddress" := a.streetAddress, "city" := a.city,
                        "postalCode" := a.postalCode, "country" := a.country];
    var withApartment := if a.apartmentSuite.Some? then required["apartmentSuite" := a.apartmentSuite.value] else required;
    if a.phoneNumber.Some? then withApartment["phoneNumber" := a.phoneNumber.value] else withApartment
  }

  /** An address listed by `get_my_orders` and posted back creates the very same row. */
  lemma CreateAddressShippingInfo(a: AddressRow)
    ensures CreateAddress(ShippingInfo(a)) == Some(a)
  {
    var j := ShippingInfo(a);
    assert "fullName" in j && "streetAddress" in j && "city" in j && "postalCode" in j && "country" in j;
  }

  /** `update_user_phone`: a non-empty phone is stored only on an existing user that has none. */
  function UpdateUserPhone(users: seq<UserRow>, uid: int, phone: Option<string>): (r: seq<UserRow>)
    ensures |r| == |users|
    ensures !Truthy(phone) ==> r == users
    ensures UserIndex(users, uid).None? ==> r == users
    ensures UserIndex(users, uid).Some? && Truthy(users[UserIndex(users, uid).value].phoneNumber) ==> r == users
    ensures Truthy(phone) && UserIndex(users, uid).Some? && !Truthy(users[UserIndex(users, uid).value].phoneNumber) ==>
      var i := UserIndex(users, uid).value;
      r == users[i := users[i].(phoneNumber := phone)]
  {
    if !Truthy(phone) then users
    else match UserIndex(users, uid)
      case None => users
      case Some(i) => if !Truthy(users[i].phoneNumber) then users[i := users[i].(phoneNumber := phone)] else users
  }

  /** Applying the rule twice is applying it once; and an existing phone is never overwritten. */
  lemma UpdateUserPhoneIdempotent(users: seq<UserRow>, uid: int, phone: Option<string>, later: Option<string>)
    ensures var once := UpdateUserPhone(users, uid, phone);
      UpdateUserPhone(once, uid, phone) == once
    ensures var once := UpdateUserPhone(users, uid, phone);
      Truthy(phone) && UserIndex(users, uid).Some? ==> UpdateUserPhone(once, uid, later) == once
  {
    var once := UpdateUserPhone(users, uid, phone);
    if Truthy(phone) && UserIndex(users, uid).Some? {
      var i := UserIndex(users, uid).value;
      assert UserIndex(once, uid) == Some(i) by {
        UserIndexStable(users, uid, i, once[i]);
      }
    }
  }

  /** Replacing a row by one with the same id does not move `User.query.get`. */
  lemma UserIndexStable(users: seq<UserRow>, uid: int, i: nat, row: UserRow)
    requires UserIndex(users, uid) == Some(i)
    requires row.id == uid
    ensures UserIndex(users[i := row], uid) == Some(i)
  {
    assert users[i := row][i].id == uid;
  }

  // ------------------------------------------------------------ line items

  /** One line item of a retrieved payment session; `productId` is its metadata entry. */
  datatype StripeLineItem = StripeLineItem(productId: Option<int>, quantity: int, unitAmount: int)

  /** Each of these is raised as a `ValueError`. */
  datatype LineError = MissingMetadata | UnknownProduct | InsufficientStock

  datatype Processing =
    | Done(products: map<int, ProductRow>, orderProducts: seq<OrderProduct>)
    | Failed(at: nat, reason: LineError)

  /** The quantity that the items of `items` take from product `pid`. */
  function TotalQuantity(items: seq<StripeLineItem>, pid: int): int {
    if |items| == 0 then 0
    else (if items[0].productId == Some(pid) then items[0].quantity else 0) + TotalQuantity(items[1..], pid)
  }

  predicate Mentions(items: seq<StripeLineItem>, pid: int) {
    exists k :: 0 <= k < |items| && items[k].productId == Some(pid)
  }

  /** Why item `k` fails when it is checked against the stock left by the items before it. */
  function ItemError(products: map<int, ProductRow>, items: seq<StripeLineItem>, k: nat): Option<LineError>
    requires k < |items|
  {
    var it := items[k];
    if it.productId.None? then Some(MissingMetadata)
    else if it.productId.value !in products then Some(UnknownProduct)
    else if products[it.productId.value].stock - TotalQuantity(items[..k], it.productId.value) < it.quantity
    then Some(InsufficientStock)
    else None
  }

  /** Stock after taking `q` units of product `pid`. */
  function Take(products: map<int, ProductRow>, pid: int, q: int): map<int, ProductRow>
    requires pid in products
  {
    products[pid := products[pid].(stock := products[pid].stock - q)]
  }

  /**
   * `process_line_items`: items are checked in order, each against the stock already
   * reduced by the items before it; the first failing item aborts with its error.
   */
  function ProcessLineItems(products: map<int, ProductRow>, items: seq<StripeLineItem>): (r: Processing)
    ensures r.Done? ==>
      && |r.orderProducts| == |items|
      && (forall k :: 0 <= k < |items| ==>
            && items[k].productId.Some?
            && r.orderProducts[k] == OrderProduct(items[k].productId.value, items[k].quantity, items[k].unitAmount))
      && r.products.Keys == products.Keys
      && (forall pid :: pid in products ==>
            r.products[pid] == products[pid].(stock := products[pid].stock - TotalQuantity(items, pid)))
      && (forall pid :: pid in products && Mentions(items, pid) ==> r.products[pid].stock >= 0)
    ensures r.Failed? ==> r.at < |items|
    decreases |items|
  {
    if |items| == 0 then Done(products, [])
    else
      var it := items[0];
      if it.productId.None? then Failed(0, MissingMetadata)
      else
        var pid := it.productId.value;
        if pid !in products then Failed(0, UnknownProduct)
        else if products[pid].stock < it.quantity then Failed(0, InsufficientStock)
        else
          match ProcessLineItems(Take(products, pid, it.quantity), items[1..])
          case Failed(k, e) => Failed(k + 1, e)
          case Done(ps, ops) =>
            assert forall k :: 1 <= k < |items| ==> items[k] == items[1..][k - 1];
            assert forall q :: q in products && Mentions(items, q) && q != pid ==> Mentions(items[1..], q);
            TotalQuantityUnmentioned(items[1..]);
            Done(ps, [OrderProduct(pid, it.quantity, it.unitAmount)] + ops)
  }

  lemma {:induction false} TotalQuantityUnmentioned(items: seq<StripeLineItem>)
    ensures forall pid :: !Mentions(items, pid) ==> TotalQuantity(items, pid) == 0
  {
    if |items| > 0 {
      TotalQuantityUnmentioned(items[1..]);
      assert forall k :: 0 <= k < |items| - 1 ==> items[1..][k] == items[k + 1];
    }
  }

  /** Taking from the first item shifts every later item's view of the stock consistently. */
  lemma ItemErrorShift(products: map<int, ProductRow>, items: seq<StripeLineItem>, k: nat)
    requires 0 < k < |items|
    requires ItemError(products, items, 0).None?
    ensures ItemError(Take(products, items[0].productId.value, items[0].quantity), items[1..], k - 1)
         == ItemError(products, items, k)
  {
    var pid := items[0].productId.value;
    assert items[..k][1..] == items[1..][..k - 1];
    assert items[..k][0] == items[0];
  }

  /** The function fails exactly at the first item whose check fails. */
  lemma {:induction false} ProcessFailsAtFirstBadItem(products: map<int, ProductRow>, items: seq<StripeLineItem>)
    ensures var r := ProcessLineItems(products, items);
      && (r.Done? <==> forall k :: 0 <= k < |items| ==> ItemError(products, items, k).None?)
      && (r.Failed? ==> ItemError(products, items, r.at) == Some(r.reason)
                        && forall j :: 0 <= j < r.at ==> ItemError(products, items, j).None?)
    decreases |items|
  {
    if |items| > 0 {
      assert items[..0] == [];
      if ItemError(products, items, 0).None? {
        var pid := items[0].productId.value;
        var rest := Take(products, pid, items[0].quantity);
        ProcessFailsAtFirstBadItem(rest, items[1..]);
        forall k | 0 < k < |items|
          ensures ItemError(rest, items[1..], k - 1) == ItemError(products, items, k)
        {
          ItemErrorShift(products, items, k);
        }
        var r := ProcessLineItems(products, items);
        var r' := ProcessLineItems(rest, items[1..]);
        if r'.Failed? {
          assert ItemError(rest, items[1..], r'.at) == ItemError(products, items, r'.at + 1);
          forall j | 0 <= j < r.at
            ensures ItemError(products, items, j).None?
          {
            if j > 0 {
              assert ItemError(rest, items[1..], j - 1) == ItemError(products, items, j);
            }
          }
        } else {
          forall k | 0 <= k < |items|
            ensures ItemError(products, items, k).None?
          {
            if k > 0 {
              assert ItemError(rest, items[1..], k - 1) == ItemError(products, items, k);
            }
          }
        }
      }
    }
  }

  /** Under sufficient stock for the whole batch up front, processing always succeeds. */
  lemma SufficientUpFront(products: map<int, ProductRow>, items: seq<StripeLineItem>)
    requires forall k :: 0 <= k < |items| ==> items[k].productId.Some? && items[k].productId.value in products
    requires forall k :: 0 <= k < |items| ==> items[k].quantity >= 0
    requires forall k :: 0 <= k < |items| ==>
      products[items[k].productId.value].stock >= TotalQuantity(items, items[k].productId.value)
    ensures ProcessLineItems(products, items).Done?
  {
    forall k | 0 <= k < |items|
      ensures ItemError(products, items, k).None?
    {
      var pid := items[k].productId.value;
      TotalQuantitySplit(items, k, pid);
    }
    ProcessFailsAtFirstBadItem(products, items);
  }

  /** With non-negative quantities, what a prefix and item `k` take together is at most the total. */
  lemma {:induction false} TotalQuantitySplit(items: seq<StripeLineItem>, k: nat, pid: int)
    requires k < |items| && items[k].productId == Some(pid)
    requires forall j :: 0 <= j < |items| ==> items[j].quantity >= 0
    ensures TotalQuantity(items[..k], pid) + items[k].quantity <= TotalQuantity(items, pid)
    decreases |items|
  {
    if k == 0 {
      assert items[..0] == [];
      TotalQuantityNonNegative(items[1..], pid);
    } else {
      assert items[..k][1..] == items[1..][..k - 1];
      TotalQuantitySplit(items[1..], k - 1, pid);
    }
  }

  lemma {:induction false} TotalQuantityNonNegative(items: seq<StripeLineItem>, pid: int)
    requires forall j :: 0 <= j < |items| ==> items[j].quantity >= 0
    ensures TotalQuantity(items, pid) >= 0
  {
    if |items| > 0 {
      TotalQuantityNonNegative(items[1..], pid);
    }
  }
}
