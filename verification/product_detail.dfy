/** The product page's quantity input and its add-to-cart button. */
module ProductDetail {
  import opened Wrappers
  import opened Models
  import CartStore

  /**
   * `Math.min(Math.max(1, parseInt(v) || 1), product.stock)`; `parsed` is `None` when
   * `parseInt` gives `NaN`.
   */
  function ClampQuantity(parsed: Option<int>, stock: int): (q: int)
    ensures q <= stock
    ensures stock >= 1 ==> q >= 1
    ensures parsed.Some? && 1 <= parsed.value <= stock ==> q == parsed.value
    ensures stock >= 1 && (parsed.None? || parsed.value < 1) ==> q == 1
    ensures parsed.Some? && parsed.value > stock ==> q == stock
  {
    var value := if parsed.None? || parsed.value == 0 then 1 else parsed.value;
    var atLeastOne := if value > 1 then value else 1;
    if atLeastOne < stock then atLeastOne else stock
  }

  /** Clamping an already clamped quantity changes nothing. */
  lemma ClampIdempotent(parsed: Option<int>, stock: int)
    ensures ClampQuantity(Some(ClampQuantity(parsed, stock)), stock) == ClampQuantity(parsed, stock)
  {
  }

  /**
   * `handleAddToCart`: nothing without a loaded product; otherwise `addToCart(product, quantity)`,
   * whose second argument the cart store never reads.
   */
  function HandleAddToCart(lines: CartStore.Lines, product: Option<ProductDict>, quantity: int): (r: CartStore.Lines)
    ensures product.None? ==> r == lines
    ensures product.Some? ==> r == CartStore.AddToCart(lines, product)
  {
    if product.None? then lines else CartStore.AddToCart(lines, product)
  }

  /** The chosen quantity is ignored: one unit is added whatever the input shows. */
  lemma ChosenQuantityIgnored(lines: CartStore.Lines, p: ProductDict, q: int)
    requires p.name != "" && p.stock >= 1
    requires !CartStore.HasId(lines, p.id)
    ensures HandleAddToCart(lines, Some(p), q) == lines + [CartStore.CartLine(p, 1)]
  {
  }
}
