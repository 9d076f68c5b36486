/**
 * The checkout form: its initial address, the Google Places auto-fill, the phone
 * country lookup, the submit-time validation and the request it finally sends.
 */
module Checkout {
  import opened Wrappers
  import opened Models
  import opened Text
  import Seqs
  import CartStore
  import OrderRoutes

  /** The `address` state, with its seven keys in declaration order. */
  datatype Address = Address(
    fullName: string,
    streetAddress: string,
    apartmentSuite: string,
    city: string,
    postalCode: string,
    country: string,
    phoneNumber: string)

  /** The initial state: the user's name and phone when known, every other key empty. */
  function InitialAddress(user: Option<UserDict>): (a: Address)
    ensures a.streetAddress == a.apartmentSuite == a.city == a.postalCode == a.country == ""
    ensures user.Some? && user.value.username != "" ==> a.fullName == user.value.username
    ensures user.None? || user.value.username == "" ==> a.fullName == ""
    ensures user.Some? && Truthy(user.value.phoneNumber) ==> a.phoneNumber == user.value.phoneNumber.value
    ensures user.None? || !Truthy(user.value.phoneNumber) ==> a.phoneNumber == ""
  {
    var name := if user.Some? then user.value.username else "";
    var phone := if user.Some? && Truthy(user.value.phoneNumber) then user.value.phoneNumber.value else "";
    Address(name, "", "", "", "", "", phone)
  }

  // ---------------------------------------------------- address auto-fill

  /** One entry of a Places result's `address_components`. */
  datatype Component = Component(longName: string, shortName: string, types: seq<string>)

  /** `extractAddressComponent`: the first component carrying `kind`, long or short name. */
  function ExtractAddressComponent(components: seq<Component>, kind: string, short: bool): (r: string)
    ensures (forall j :: 0 <= j < |components| ==> kind !in components[j].types) ==> r == ""
    ensures forall k :: 0 <= k < |components| && kind in components[k].types
                        && (forall j :: 0 <= j < k ==> kind !in components[j].types) ==>
              r == if short then components[k].shortName else components[k].longName
  {
    match Seqs.FindFirst(components, (c: Component) => kind in c.types)
    case None => ""
    case Some(i) => if short then components[i].shortName else components[i].longName
  }

  /**
   * Reading the components one at a time: a leading component of the wanted type
   * answers, any other is skipped.
   */
  lemma ExtractScansInOrder(c: Component, rest: seq<Component>, kind: string, short: bool)
    ensures ExtractAddressComponent([c] + rest, kind, short) ==
      if kind in c.types then (if short then c.shortName else c.longName)
      else ExtractAddressComponent(rest, kind, short)
  {
    var cs := [c] + rest;
    assert cs[0] == c;
    assert forall j :: 1 <= j < |cs| ==> cs[j] == rest[j - 1];
    if kind !in c.types {
      if exists k :: 0 <= k < |rest| && kind in rest[k].types {
        var k := Seqs.FindFirst(rest, (x: Component) => kind in x.types).value;
        assert kind in cs[k + 1].types;
        assert forall j :: 0 <= j < k + 1 ==> kind !in cs[j].types;
      }
    }
  }

  /** `[streetNumber, route].filter(Boolean).join(' ') || place.name`. */
  function StreetLine(streetNumber: string, route: string, placeName: string): (r: string)
    ensures streetNumber != "" && route != "" ==> r == streetNumber + " " + route
    ensures streetNumber != "" && route == "" ==> r == streetNumber
    ensures streetNumber == "" && route != "" ==> r == route
    ensures streetNumber == "" && route == "" ==> r == placeName
  {
    var parts := Seqs.Filter([streetNumber, route], (s: string) => s != "");
    NonEmptyOfPair(streetNumber, route);
    var joined := if |parts| == 0 then "" else Join(parts, ' ');
    if joined != "" then joined else placeName
  }

  /** `[a, b].filter(Boolean)` for two strings, and its join. */
  lemma NonEmptyOfPair(a: string, b: string)
    ensures var parts := Seqs.Filter([a, b], (s: string) => s != "");
      && parts == (if a != "" then [a] else []) + (if b != "" then [b] else [])
      && (|parts| == 2 ==> Join(parts, ' ') == a + " " + b)
  {
    var keep := (s: string) => s != "";
    assert [a, b] == [a] + [b];
    Seqs.FilterAppend([a], [b], keep);
    assert [a][1..] == [] && [b][1..] == [];
    var parts := Seqs.Filter([a, b], keep);
    if |parts| == 2 {
      assert parts[1..] == [b];
    }
  }

  /** A Places detail lookup that answered `OK` with address components. */
  datatype Place = Place(name: string, components: seq<Component>)

  /**
   * `handleAddressSelect`'s callback: a failed lookup changes nothing; a good one sets
   * the street line, city, postal code and country and keeps the other keys.
   */
  function AddressSelect(prev: Address, place: Option<Place>): (a: Address)
    ensures place.None? ==> a == prev
    ensures a.fullName == prev.fullName && a.apartmentSuite == prev.apartmentSuite && a.phoneNumber == prev.phoneNumber
    ensures place.Some? ==>
      var cs := place.value.components;
      && a.streetAddress == StreetLine(ExtractAddressComponent(cs, "street_number", false),
                                       ExtractAddressComponent(cs, "route", false), place.value.name)
      && a.city == ExtractAddressComponent(cs, "locality", false)
      && a.postalCode == ExtractAddressComponent(cs, "postal_code", false)
      && a.country == ExtractAddressComponent(cs, "country", false)
  {
    match place
    case None => prev
    case Some(p) =>
      var cs := p.components;
      var street := StreetLine(ExtractAddressComponent(cs, "street_number", false),
                               ExtractAddressComponent(cs, "route", false), p.name);
      prev.(streetAddress := street,
            city := ExtractAddressComponent(cs, "locality", false),
            postalCode := ExtractAddressComponent(cs, "postal_code", false),
            country := ExtractAddressComponent(cs, "country", false))
  }

  /**
   * `getCountryCode`: undefined for an empty name; otherwise whatever the lookup gives,
   * where `lookup` answers `None` when it throws or knows no code.
   */
  function GetCountryCode(countryName: string, lookup: string -> Option<string>): (r: Option<string>)
    ensures countryName == "" ==> r.None?
    ensures countryName != "" ==> r == lookup(countryName)
  {
    if countryName == "" then None else lookup(countryName)
  }

  // --------------------------------------------------- field-name labels

  /** `key.replace(/([A-Z])/g, ' $1').toLowerCase()`. */
  function FormatFieldName(key: string): (r: string)
    ensures forall i :: 0 <= i < |r| ==> !IsUpper(r[i])
    ensures |r| >= |key|
  {
    if |key| == 0 then ""
    else (if IsUpper(key[0]) then [' ', LowerChar(key[0])] else [key[0]]) + FormatFieldName(key[1..])
  }

  /** The inverse reading: drop each space and upper-case the letter after it. */
  function Camelize(words: string): string
    decreases |words|
  {
    if |words| == 0 then ""
    else if words[0] == ' ' && |words| >= 2 then [UpperChar(words[1])] + Camelize(words[2..])
    else [words[0]] + Camelize(words[1..])
  }

  /** Every key without spaces is recovered from its label, so distinct keys get distinct labels. */
  lemma {:induction false} CamelizeFormat(key: string)
    requires forall i :: 0 <= i < |key| ==> key[i] != ' '
    ensures Camelize(FormatFieldName(key)) == key
    decreases |key|
  {
    if |key| > 0 {
      var rest := FormatFieldName(key[1..]);
      CamelizeFormat(key[1..]);
      if IsUpper(key[0]) {
        var f := [' ', LowerChar(key[0])] + rest;
        assert f[0] == ' ' && f[1] == LowerChar(key[0]) && f[2..] == rest;
      } else {
        var f := [key[0]] + rest;
        assert f[0] == key[0] && f[1..] == rest;
      }
    }
  }

  /** Labels of concatenated keys are the concatenated labels. */
  lemma {:induction false} FormatAppend(a: string, b: string)
    ensures FormatFieldName(a + b) == FormatFieldName(a) + FormatFieldName(b)
    decreases |a|
  {
    if |a| == 0 {
      assert a + b == b;
    } else {
      assert (a + b)[1..] == a[1..] + b;
      FormatAppend(a[1..], b);
    }
  }

  /** A key without capitals is its own label. */
  lemma {:induction false} FormatLowerKey(key: string)
    requires forall i :: 0 <= i < |key| ==> !IsUpper(key[i])
    ensures FormatFieldName(key) == key
    decreases |key|
  {
    if |key| > 0 {
      FormatLowerKey(key[1..]);
    }
  }

  lemma PostalCodeLabel()
    ensures FormatFieldName("postalCode") == "postal code"
  {
    assert "postalCode" == "postal" + "Code";
    FormatAppend("postal", "Code");
    FormatLowerKey("postal");
    FormatLowerKey("ode");
    assert "Code"[1..] == "ode";
  }

  // ------------------------------------------------------------- submit

  /** `fieldsToValidate`: the address without `apartmentSuite`, keys in declaration order. */
  function RequiredFields(a: Address): (fs: seq<(string, string)>)
    ensures |fs| == 6
    ensures forall k :: 0 <= k < |fs| ==> fs[k].0 != "apartmentSuite"
  {
    [("fullName", a.fullName), ("streetAddress", a.streetAddress), ("city", a.city),
     ("postalCode", a.postalCode), ("country", a.country), ("phoneNumber", a.phoneNumber)]
  }

  /** A line of the request's `cartItems`: the cart line exactly as the store holds it. */
  datatype CheckoutRequest = CheckoutRequest(cartItems: CartStore.Lines, shippingAddress: Address)

  datatype Submit = InvalidPhone | MissingField(fieldName: string) | Send(request: CheckoutRequest)

  /**
   * `handleCheckout` up to the request: a non-empty phone that fails validation stops
   * it, then the first empty required key names the missing field.
   */
  function HandleCheckout(cart: CartStore.Lines, a: Address, isValidPhone: string -> bool): (r: Submit)
    ensures r.InvalidPhone? <==> a.phoneNumber != "" && !isValidPhone(a.phoneNumber)
    ensures r.Send? <==>
      && (a.phoneNumber != "" ==> isValidPhone(a.phoneNumber))
      && forall k :: 0 <= k < 6 ==> RequiredFields(a)[k].1 != ""
    ensures r.Send? ==> r.request == CheckoutRequest(cart, a) && isValidPhone(a.phoneNumber)
    ensures r.MissingField? ==>
      exists k ::
        && 0 <= k < 6 && RequiredFields(a)[k].1 == ""
        && (forall j :: 0 <= j < k ==> RequiredFields(a)[j].1 != "")
        && r.fieldName == FormatFieldName(RequiredFields(a)[k].0)
  {
    if a.phoneNumber != "" && !isValidPhone(a.phoneNumber) then InvalidPhone
    else
      var fs := RequiredFields(a);
      match Seqs.FindFirst(fs, (f: (string, string)) => f.1 == "")
      case Some(k) => MissingField(FormatFieldName(fs[k].0))
      case None =>
        assert fs[5].1 != "";
        Send(CheckoutRequest(cart, a))
  }

  /** The apartment is never demanded: an empty one alone does not stop submission. */
  lemma ApartmentOptional(cart: CartStore.Lines, a: Address, isValidPhone: string -> bool)
    requires HandleCheckout(cart, a, isValidPhone).Send?
    ensures HandleCheckout(cart, a.(apartmentSuite := ""), isValidPhone).Send?
  {
    assert RequiredFields(a.(apartmentSuite := "")) == RequiredFields(a);
  }

  /** The answer to the request: the Stripe URL, or the server's message if any. */
  datatype Response = Redirect(url: string) | Failed(serverMessage: Option<string>)

  datatype Effect = Navigate(url: string) | ErrorToast(message: string)

  const CheckoutFailed := "Checkout failed. Please try again."

  /** After the request settles: follow the URL or show a message; loading ends either way. */
  function AfterResponse(resp: Response): (e: Effect)
    ensures resp.Redirect? <==> e.Navigate?
    ensures resp.Redirect? ==> e.url == resp.url
    ensures resp.Failed? && Truthy(resp.serverMessage) ==> e == ErrorToast(resp.serverMessage.value)
    ensures resp.Failed? && !Truthy(resp.serverMessage) ==> e == ErrorToast(CheckoutFailed)
  {
    match resp
    case Redirect(url) => Navigate(url)
    case Failed(m) => ErrorToast(if Truthy(m) then m.value else CheckoutFailed)
  }

  // ------------------------------------------------- meeting the server

  /** How the server reads each sent line: its `id` and `quantity` keys are always present. */
  function ServerCart(lines: CartStore.Lines): (items: seq<OrderRoutes.CartItem>)
    ensures |items| == |lines|
    ensures forall k :: 0 <= k < |lines| ==>
      items[k].id == Some(lines[k].product.id) && items[k].quantity == Some(lines[k].quantity)
  {
    seq(|lines|, k requires 0 <= k < |lines| =>
      OrderRoutes.CartItem(Some(lines[k].product.id), Some(lines[k].quantity)))
  }

  /**
   * A cart sent by this form never trips the server's malformed-item check: the server
   * builds its line items exactly when every line's product exists with enough stock.
   */
  lemma ClientCartAccepted(products: map<int, ProductRow>, lines: CartStore.Lines)
    ensures OrderRoutes.BuildLineItems(products, ServerCart(lines)).Lines? <==>
      forall k :: 0 <= k < |lines| ==>
        lines[k].product.id in products && products[lines[k].product.id].stock >= lines[k].quantity
    ensures OrderRoutes.BuildLineItems(products, ServerCart(lines)).Rejected? ==>
      OrderRoutes.BuildLineItems(products, ServerCart(lines)).status in {400, 404}
  {
    var items := ServerCart(lines);
    var r := OrderRoutes.BuildLineItems(products, items);
    if r.Rejected? {
      var k :| 0 <= k < |items| && OrderRoutes.ItemStatus(products, items[k]) == r.status != 0;
    }
  }
}
