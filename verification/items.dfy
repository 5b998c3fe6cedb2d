/** Backend rows and the list items derived from them. */
module Items {
  import opened Wrappers
  import opened JsValues

  /** A row `[product, platform, picked]` of the `getProducts` answer. A product or platform
      that is `null`, `undefined` or missing is `None`. */
  datatype Row = Row(product: Option<string>, platform: Option<string>, picked: JsValue)

  /** An item of the list: the product as the row had it, the coerced picked flag and the
      spreadsheet row number that identifies the item in every later request. */
  datatype Item = Item(product: Option<string>, picked: bool, sheetRow: int)

  /** The platform heading for products whose platform cell is empty. */
  const OtherPlatform: string := "Other"

  /** `row[1] || "Other"`: the group a row belongs to. */
  function PlatformOf(row: Row): (p: string)
    ensures p != []
    ensures row.platform.Some? && row.platform.value != [] ==> p == row.platform.value
    ensures row.platform.None? || row.platform.value == [] ==> p == OtherPlatform
  {
    match row.platform
    case Some(p) => if p != [] then p else OtherPlatform
    case None => OtherPlatform
  }

  /** The item made from the row at zero-based position `index`; the header takes row 1 of the
      sheet, so the item lives in sheet row `index + 2`. */
  function ItemOf(row: Row, index: nat): (it: Item)
    ensures it.sheetRow == index + 2 && it.sheetRow >= 2
    ensures it.product == row.product
    ensures it.picked == IsPicked(row.picked)
  {
    Item(row.product, IsPicked(row.picked), index + 2)
  }

  /** `(a.product || "")`: the name the sort compares. */
  function ProductKey(it: Item): string {
    it.product.GetOr("")
  }
}
