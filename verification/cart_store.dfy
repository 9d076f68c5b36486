/**
 * The client's cart store: an ordered sequence of lines (a product snapshot plus a
 * quantity), its four mutations, the effect that empties it when the user becomes
 * absent, and the effect that persists it to local storage after every change.
 */
module CartStore {
  import opened Wrappers
  import opened Models
  import Seqs
  import AuthStore

  /** `{...product, quantity}`: the product as it was when first added, and how many. */
  datatype CartLine = CartLine(product: ProductDict, quantity: int)

  type Lines = seq<CartLine>

  // ------------------------------------------------------------ invariants

  predicate UniqueIds(lines: Lines) {
    forall i, j :: 0 <= i < j < |lines| ==> lines[i].product.id != lines[j].product.id
  }

  /** Every line holds at least one unit and no more than its stock snapshot. */
  predicate Bounded(lines: Lines) {
    forall i :: 0 <= i < |lines| ==> 1 <= lines[i].quantity <= lines[i].product.stock
  }

  predicate Positive(lines: Lines) {
    forall i :: 0 <= i < |lines| ==> lines[i].quantity >= 1
  }

  predicate HasId(lines: Lines, id: int) {
    exists i :: 0 <= i < |lines| && lines[i].product.id == id
  }

  // ------------------------------------------------------------- queries

  /** `cartItems.find(item => item.id === id)`, as a position. */
  function Find(lines: Lines, id: int): (r: Option<nat>)
    ensures r.Some? ==> r.value < |lines| && lines[r.value].product.id == id
    ensures r.Some? ==> forall j :: 0 <= j < r.value ==> lines[j].product.id != id
    ensures r.None? <==> !HasId(lines, id)
  {
    Seqs.FindFirst(lines, (l: CartLine) => l.product.id == id)
  }

  /** `existingItem ? existingItem.quantity : 0`. */
  function QuantityInCart(lines: Lines, id: int): int {
    match Find(lines, id)
    case Some(i) => lines[i].quantity
    case None => 0
  }

  // ----------------------------------------------------------- mutations

  /** `item.id === id ? {...item, quantity: q(item)} : item` over every line. */
  function MapMatching(lines: Lines, id: int, q: CartLine -> int): (r: Lines)
    ensures |r| == |lines|
    ensures forall i :: 0 <= i < |lines| ==>
      r[i] == if lines[i].product.id == id then lines[i].(quantity := q(lines[i])) else lines[i]
  {
    seq(|lines|, i requires 0 <= i < |lines| =>
      if lines[i].product.id == id then lines[i].(quantity := q(lines[i])) else lines[i])
  }

  /** `!product || !product.name`: the guard that rejects an unusable product object. */
  predicate Usable(p: Option<ProductDict>) {
    p.Some? && p.value.name != ""
  }

  /**
   * `addToCart(product)`: always exactly one unit. Rejected when the product is unusable
   * or when the quantity already in the cart has reached the product's current stock.
   */
  function AddToCart(lines: Lines, p: Option<ProductDict>): (r: Lines)
    ensures !Usable(p) ==> r == lines
    ensures Usable(p) && QuantityInCart(lines, p.value.id) >= p.value.stock ==> r == lines
    ensures Usable(p) && QuantityInCart(lines, p.value.id) < p.value.stock && HasId(lines, p.value.id) ==>
      && |r| == |lines|
      && forall i :: 0 <= i < |lines| ==>
           if lines[i].product.id == p.value.id
           then r[i].product == lines[i].product && r[i].quantity == lines[i].quantity + 1
           else r[i] == lines[i]
    ensures Usable(p) && QuantityInCart(lines, p.value.id) < p.value.stock && !HasId(lines, p.value.id) ==>
      r == lines + [CartLine(p.value, 1)]
  {
    if !Usable(p) then lines
    else
      var product := p.value;
      if QuantityInCart(lines, product.id) >= product.stock then lines
      else if Find(lines, product.id).Some? then MapMatching(lines, product.id, (l: CartLine) => l.quantity + 1)
      else lines + [CartLine(product, 1)]
  }

  /** `removeFromCart(id)`: `filter(item => item.id !== id)`. */
  function RemoveFromCart(lines: Lines, id: int): (r: Lines)
    ensures !HasId(r, id)
    ensures forall i :: 0 <= i < |lines| && lines[i].product.id != id ==> lines[i] in r
    ensures forall i :: 0 <= i < |r| ==> r[i] in lines
    ensures !HasId(lines, id) ==> r == lines
  {
    var r := Seqs.Filter(lines, (l: CartLine) => l.product.id != id);
    if !HasId(lines, id) then
      Seqs.FilterKeepsAll(lines, (l: CartLine) => l.product.id != id);
      r
    else r
  }

  /**
   * `updateQuantity(id, q)`: nothing for an absent id; the snapshot stock is checked
   * first, then a quantity below one removes the line; otherwise it is set exactly.
   */
  function UpdateQuantity(lines: Lines, id: int, q: int): (r: Lines)
    ensures !HasId(lines, id) ==> r == lines
    ensures HasId(lines, id) && q > lines[Find(lines, id).value].product.stock ==> r == lines
    ensures HasId(lines, id) && q <= lines[Find(lines, id).value].product.stock && q < 1 ==>
      r == RemoveFromCart(lines, id)
    ensures HasId(lines, id) && q <= lines[Find(lines, id).value].product.stock && q >= 1 ==>
      && |r| == |lines|
      && forall i :: 0 <= i < |lines| ==>
           if lines[i].product.id == id
           then r[i].product == lines[i].product && r[i].quantity == q
           else r[i] == lines[i]
  {
    match Find(lines, id)
    case None => lines
    case Some(i) =>
      if q > lines[i].product.stock then lines
      else if q < 1 then RemoveFromCart(lines, id)
      else MapMatching(lines, id, (_: CartLine) => q)
  }

  // -------------------------------------------------------- the store

  /** The `cartItems` key of local storage. */
  datatype Storage = Missing | Unparseable | Saved(lines: Lines)

  datatype Cart = Cart(lines: Lines, storage: Storage)

  /** The lazy initial state: the stored lines, or an empty cart when absent or unparseable. */
  function Restore(s: Storage): (lines: Lines)
    ensures s.Saved? ==> lines == s.lines
    ensures !s.Saved? ==> lines == []
  {
    match s
    case Saved(lines) => lines
    case _ => []
  }

  /** After every change the persisting effect has written the current lines. */
  predicate Persisted(c: Cart) {
    c.storage == Saved(c.lines)
  }

  /** A state change followed by the persisting effect. */
  function Commit(lines: Lines): (c: Cart)
    ensures Persisted(c) && c.lines == lines
  {
    Cart(lines, Saved(lines))
  }

  /**
   * The provider after mounting: both effects run once, so a restored cart survives
   * only when a user is present.
   */
  function Mount(s: Storage, user: Option<UserDict>): (c: Cart)
    ensures Persisted(c)
    ensures user.None? ==> c.lines == []
    ensures user.Some? ==> c.lines == Restore(s)
  {
    if user.None? then Commit([]) else Commit(Restore(s))
  }

  datatype Action =
    | Add(product: Option<ProductDict>)
    | Remove(id: int)
    | Update(id: int, quantity: int)
    | Clear
    | UserIs(user: Option<UserDict>)

  /** One action and the persisting effect that follows it. */
  function Step(c: Cart, a: Action): (r: Cart)
    ensures Persisted(r)
    ensures a.Clear? ==> r.lines == []
    ensures a.UserIs? && a.user.None? ==> r.lines == []
    ensures a.UserIs? && a.user.Some? ==> r.lines == c.lines
  {
    match a
    case Add(p) => Commit(AddToCart(c.lines, p))
    case Remove(id) => Commit(RemoveFromCart(c.lines, id))
    case Update(id, q) => Commit(UpdateQuantity(c.lines, id, q))
    case Clear => Commit([])
    case UserIs(u) => if u.None? then Commit([]) else Commit(c.lines)
  }

  function Run(c: Cart, actions: seq<Action>): Cart
    decreases |actions|
  {
    if |actions| == 0 then c else Run(Step(c, actions[0]), actions[1..])
  }

  // ---------------------------------------------------------- properties

  /** Whatever happened last, a reload restores exactly the cart that was shown. */
  lemma {:induction false} RunPersists(c: Cart, actions: seq<Action>)
    requires Persisted(c) || |actions| > 0
    ensures Persisted(Run(c, actions))
    ensures Restore(Run(c, actions).storage) == Run(c, actions).lines
    decreases |actions|
  {
    if |actions| > 0 {
      RunPersists(Step(c, actions[0]), actions[1..]);
    }
  }

  /** A product without stock can never be added to a cart of positive lines. */
  lemma AddWithoutStockRejected(lines: Lines, p: ProductDict)
    requires Positive(lines)
    requires p.stock <= 0
    ensures AddToCart(lines, Some(p)) == lines
  {
  }

  lemma {:induction false} AddKeepsUniqueIds(lines: Lines, p: Option<ProductDict>)
    requires UniqueIds(lines)
    ensures UniqueIds(AddToCart(lines, p))
  {
    var r := AddToCart(lines, p);
    if Usable(p) && QuantityInCart(lines, p.value.id) < p.value.stock && !HasId(lines, p.value.id) {
      assert forall i :: 0 <= i < |lines| ==> r[i] == lines[i];
      assert r[|lines|].product.id == p.value.id;
    } else if r != lines {
      assert forall i :: 0 <= i < |lines| ==> r[i].product.id == lines[i].product.id;
    }
  }

  /** After a successful add the product's line holds at most the stock that was passed in. */
  lemma AddStaysWithinPassedStock(lines: Lines, p: ProductDict)
    requires UniqueIds(lines) && Positive(lines)
    requires AddToCart(lines, Some(p)) != lines
    ensures var r := AddToCart(lines, Some(p));
      forall i :: 0 <= i < |r| && r[i].product.id == p.id ==> 1 <= r[i].quantity <= p.stock
  {
    var r := AddToCart(lines, Some(p));
    if HasId(lines, p.id) {
      var k := Find(lines, p.id).value;
      forall i | 0 <= i < |r| && r[i].product.id == p.id
        ensures 1 <= r[i].quantity <= p.stock
      {
        assert lines[i].product.id == p.id;
        assert i == k;
      }
    } else {
      assert forall j :: 0 <= j < |lines| ==> r[j] == lines[j];
    }
  }

  /**
   * The stock check uses the product passed in, while the line keeps its old snapshot:
   * after a restock the line can exceed the snapshot that `updateQuantity` checks against.
   */
  lemma AddCanExceedSnapshot()
    ensures var before := ProductDict(1, "Mug", 5, 2, None, None, [], None);
      var lines := [CartLine(before, 2)];
      var r := AddToCart(lines, Some(before.(stock := 5)));
      Bounded(lines) && !Bounded(r) && r[0].quantity == 3 && r[0].product.stock == 2
  {
    var before := ProductDict(1, "Mug", 5, 2, None, None, [], None);
    var lines := [CartLine(before, 2)];
    assert Find(lines, 1) == Some(0);
  }

  /** Every product a line was taken from matches the catalogue entry for its id. */
  predicate FromCatalogue(lines: Lines, catalogue: map<int, ProductDict>) {
    forall i :: 0 <= i < |lines| ==> lines[i].product.id in catalogue && catalogue[lines[i].product.id] == lines[i].product
  }

  predicate AddsFromCatalogue(actions: seq<Action>, catalogue: map<int, ProductDict>) {
    forall k :: 0 <= k < |actions| && actions[k].Add? && actions[k].product.Some? ==>
      actions[k].product.value.id in catalogue && catalogue[actions[k].product.value.id] == actions[k].product.value
  }

  predicate CartInvariant(lines: Lines, catalogue: map<int, ProductDict>) {
    UniqueIds(lines) && Bounded(lines) && FromCatalogue(lines, catalogue)
  }

  lemma StepKeepsInvariant(c: Cart, a: Action, catalogue: map<int, ProductDict>)
    requires CartInvariant(c.lines, catalogue)
    requires a.Add? && a.product.Some? ==> a.product.value.id in catalogue && catalogue[a.product.value.id] == a.product.value
    ensures CartInvariant(Step(c, a).lines, catalogue)
  {
    var lines := c.lines;
    match a
    case Add(p) =>
      AddKeepsUniqueIds(lines, p);
      var r := AddToCart(lines, p);
      if r != lines {
        AddStaysWithinPassedStock(lines, p.value);
        forall i | 0 <= i < |r|
          ensures 1 <= r[i].quantity <= r[i].product.stock
        {
          if r[i].product.id == p.value.id {
            if i < |lines| {
              assert r[i].product == lines[i].product;
            }
          } else {
            assert i < |lines| && r[i] == lines[i];
          }
        }
        forall i | 0 <= i < |r|
          ensures r[i].product.id in catalogue && catalogue[r[i].product.id] == r[i].product
        {
          if i < |lines| {
            assert r[i].product == lines[i].product;
          }
        }
      }
    case Remove(id) =>
      var r := RemoveFromCart(lines, id);
      forall i, j | 0 <= i < j < |r|
        ensures r[i].product.id != r[j].product.id
      {
        RemoveKeepsUniqueIds(lines, id);
      }
    case Update(id, q) =>
      var r := UpdateQuantity(lines, id, q);
      if HasId(lines, id) && q <= lines[Find(lines, id).value].product.stock && q < 1 {
        RemoveKeepsUniqueIds(lines, id);
      } else if HasId(lines, id) && q <= lines[Find(lines, id).value].product.stock {
        var k := Find(lines, id).value;
        forall i | 0 <= i < |r|
          ensures 1 <= r[i].quantity <= r[i].product.stock
        {
          if lines[i].product.id == id {
            assert i == k;
          }
        }
        assert forall i :: 0 <= i < |r| ==> r[i].product == lines[i].product;
      }
    case Clear =>
    case UserIs(_) =>
  }

  lemma {:induction false} RemoveKeepsUniqueIds(lines: Lines, id: int)
    requires UniqueIds(lines)
    ensures UniqueIds(RemoveFromCart(lines, id))
  {
    var r := RemoveFromCart(lines, id);
    FilterKeepsUniqueIds(lines, (l: CartLine) => l.product.id != id);
  }

  lemma {:induction false} FilterKeepsUniqueIds(lines: Lines, keep: CartLine -> bool)
    requires UniqueIds(lines)
    ensures UniqueIds(Seqs.Filter(lines, keep))
  {
    if |lines| > 0 {
      FilterKeepsUniqueIds(lines[1..], keep);
      var rest := Seqs.Filter(lines[1..], keep);
      forall j | 0 <= j < |rest|
        ensures rest[j].product.id != lines[0].product.id
      {
        var k :| 0 <= k < |lines[1..]| && lines[1..][k] == rest[j];
        assert lines[k + 1] == rest[j];
      }
    }
  }

  /**
   * Over any run whose added products come from one consistent catalogue, every line
   * stays unique and within one unit and its stock snapshot.
   */
  lemma {:induction false} RunKeepsInvariant(c: Cart, actions: seq<Action>, catalogue: map<int, ProductDict>)
    requires CartInvariant(c.lines, catalogue)
    requires AddsFromCatalogue(actions, catalogue)
    ensures CartInvariant(Run(c, actions).lines, catalogue)
    decreases |actions|
  {
    if |actions| > 0 {
      StepKeepsInvariant(c, actions[0], catalogue);
      assert forall k :: 0 <= k < |actions| - 1 ==> actions[1..][k] == actions[k + 1];
      RunKeepsInvariant(Step(c, actions[0]), actions[1..], catalogue);
    }
  }

  /** Adding a product that was not in the cart and removing it again restores the cart. */
  lemma AddThenRemoveRestores(lines: Lines, p: ProductDict)
    requires !HasId(lines, p.id)
    ensures RemoveFromCart(AddToCart(lines, Some(p)), p.id) == lines
  {
    var keep := (l: CartLine) => l.product.id != p.id;
    var added := AddToCart(lines, Some(p));
    if added != lines {
      Seqs.FilterAppend(lines, [CartLine(p, 1)], keep);
      Seqs.FilterKeepsAll(lines, keep);
      assert Seqs.Filter([CartLine(p, 1)], keep) == [];
    }
  }

  /** Setting a quantity of zero is removing the line, whenever the stock check lets it through. */
  lemma UpdateToZeroIsRemove(lines: Lines, id: int)
    requires forall i :: 0 <= i < |lines| ==> lines[i].product.stock >= 0
    ensures UpdateQuantity(lines, id, 0) == RemoveFromCart(lines, id)
  {
  }

  /** Removal keeps the remaining lines in their original relative order. */
  lemma RemoveKeepsOrder(lines: Lines, id: int)
    ensures Seqs.IsSubsequence(RemoveFromCart(lines, id), lines)
  {
    Seqs.FilterIsSubsequence(lines, (l: CartLine) => l.product.id != id);
  }

  /** A logout, whatever the server answered, leaves an empty cart, also after a reload. */
  lemma LogoutEmptiesCart(c: Cart, a: AuthStore.Auth, server: AuthStore.ServerLogout)
    ensures var after := AuthStore.Logout(a, server).auth;
      && Step(c, UserIs(after.user)).lines == []
      && Mount(Step(c, UserIs(after.user)).storage, AuthStore.Mount(after.storage).user).lines == []
  {
  }
}
