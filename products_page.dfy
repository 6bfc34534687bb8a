/**
 * The product list page: the stock badge of each card (`getStockStatus`)
 * and the warning caption under the stock bar. Quantities come from the
 * server as numbers, so every comparison here is on integers.
 */
module ProductsPage {
  import opened Wrappers
  import opened JsText

  datatype StockLevel = OutOfStock | LowStock | InStock

  /** `getStockStatus` on the product list: `=== 0` first, then `<= minStock`. */
  function Classify(quantity: int, minStock: int): StockLevel {
    if quantity == 0 then OutOfStock
    else if quantity <= minStock then LowStock
    else InStock
  }

  function Label(level: StockLevel): string {
    match level
    case OutOfStock => "Out of Stock"
    case LowStock => "Low Stock"
    case InStock => "In Stock"
  }

  /** The badge's MUI colour. */
  function Color(level: StockLevel): string {
    match level
    case OutOfStock => "error"
    case LowStock => "warning"
    case InStock => "success"
  }

  datatype Badge = Badge(caption: string, color: string, description: string)

  /** What `getStockStatus` returns: the card shows the label and the colour; the description is computed but not displayed. */
  function BadgeOf(quantity: int, minStock: int): (b: Badge)
    ensures b.caption == Label(Classify(quantity, minStock))
    ensures b.color == Color(Classify(quantity, minStock))
    ensures Classify(quantity, minStock) == OutOfStock ==> b.description == "No stock available"
    ensures Classify(quantity, minStock) == LowStock ==> b.description == "Only " + IntToString(quantity) + " left"
    ensures Classify(quantity, minStock) == InStock ==> b.description == "Good stock level"
  {
    var level := Classify(quantity, minStock);
    Badge(Label(level), Color(level),
      match level
      case OutOfStock => "No stock available"
      case LowStock => "Only " + IntToString(quantity) + " left"
      case InStock => "Good stock level")
  }

  /** Each outcome holds exactly on its region; the three regions cover every pair of integers. */
  lemma ClassifyRegions(quantity: int, minStock: int)
    ensures Classify(quantity, minStock) == OutOfStock <==> quantity == 0
    ensures Classify(quantity, minStock) == LowStock <==> quantity != 0 && quantity <= minStock
    ensures Classify(quantity, minStock) == InStock <==> quantity != 0 && quantity > minStock
  {
  }

  /** No stock is Out of Stock even when the minimum is 0. */
  lemma ZeroIsOutEvenWithZeroMinimum()
    ensures Classify(0, 0) == OutOfStock
  {
  }

  /** The low boundary is inclusive: a quantity equal to the minimum is Low Stock. */
  lemma LowBoundaryInclusive(minStock: int)
    requires minStock != 0
    ensures Classify(minStock, minStock) == LowStock
  {
  }

  /** The out-of-stock branch compares with `=== 0` only, so a negative quantity at or below the minimum reads Low Stock, not Out of Stock. */
  lemma NegativeIsLow(quantity: int, minStock: int)
    requires quantity < 0 && quantity <= minStock
    ensures Classify(quantity, minStock) == LowStock
  {
  }

  /** The caption: shown iff quantity <= minimum, reading "Out of Stock" for 0 and "Low Stock" otherwise. */
  function Caption(quantity: int, minStock: int): Option<string> {
    if quantity <= minStock then Some(if quantity == 0 then "Out of Stock" else "Low Stock") else None
  }

  /** Whenever the caption is shown it repeats the badge's label. */
  lemma CaptionMatchesBadge(quantity: int, minStock: int)
    ensures Caption(quantity, minStock).Some? <==> quantity <= minStock
    ensures Caption(quantity, minStock).Some? ==>
      Caption(quantity, minStock).value == Label(Classify(quantity, minStock))
    ensures Caption(quantity, minStock) == Some("Out of Stock") <==> quantity == 0 && quantity <= minStock
  {
  }

  /** With a negative minimum, an empty product shows the Out of Stock badge but no caption. */
  lemma BadgeWithoutCaption()
    ensures Classify(0, -1) == OutOfStock && Caption(0, -1).None?
  {
  }
}
