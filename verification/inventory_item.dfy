/**
 * The inventory card: the record it displays, the status it derives from the
 * stock level, and the label it shows for that status.
 */
module InventoryItem {

  /** The derived stock status of a record; it is recomputed on every render, never stored. */
  datatype InventoryStatus = InStock | LowStock | OutOfStock

  /**
   * One inventory record, as the card receives it. `stock` and `threshold`
   * are JavaScript numbers; the model takes them to be integers of either sign.
   * `location` and `lastUpdated` are only displayed.
   */
  datatype InventoryRecord = InventoryRecord(
    id: string,
    name: string,
    category: string,
    stock: int,
    threshold: int,
    location: string,
    lastUpdated: string)

  /**
   * `getStatus`: an empty shelf is out of stock whatever the threshold; a
   * non-empty one is low when it is below the threshold and in stock otherwise.
   */
  function GetStatus(stock: int, threshold: int): (r: InventoryStatus)
    ensures r == OutOfStock <==> stock == 0
    ensures r == LowStock <==> stock != 0 && stock < threshold
    ensures r == InStock <==> stock != 0 && stock >= threshold
  {
    if stock == 0 then OutOfStock
    else if stock < threshold then LowStock
    else InStock
  }

  /** The status of a record. */
  function StatusOf(item: InventoryRecord): InventoryStatus {
    GetStatus(item.stock, item.threshold)
  }

  /** How urgent a status is: out of stock before low stock before in stock. */
  function Rank(s: InventoryStatus): nat {
    match s
    case OutOfStock => 0
    case LowStock => 1
    case InStock => 2
  }

  /**
   * For non-negative stock, more stock never makes the status more urgent,
   * and a higher threshold never makes it less urgent.
   */
  lemma StatusMonotone(stock1: int, stock2: int, threshold1: int, threshold2: int)
    requires 0 <= stock1 <= stock2
    requires threshold2 <= threshold1
    ensures Rank(GetStatus(stock1, threshold1)) <= Rank(GetStatus(stock2, threshold2))
  {
  }

  /** With a threshold of zero or less, no record is ever reported as low on stock. */
  lemma NoThresholdNoLowStock(stock: int, threshold: int)
    requires threshold <= 0
    requires stock >= 0
    ensures GetStatus(stock, threshold) == if stock == 0 then OutOfStock else InStock
  {
  }

  /** `getStatusDisplay`: the badge text for each status. */
  function StatusText(s: InventoryStatus): (r: string)
    ensures r != "Unknown"
  {
    match s
    case InStock => "In Stock"
    case LowStock => "Low Stock"
    case OutOfStock => "Out of Stock"
  }

  /** Distinct statuses get distinct badges, so the badge text identifies the status. */
  lemma StatusTextInjective(s1: InventoryStatus, s2: InventoryStatus)
    ensures StatusText(s1) == StatusText(s2) <==> s1 == s2
  {
  }
}
