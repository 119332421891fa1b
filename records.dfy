/**
 * The rows the pages read: a receipt and a receipt item, with nullable
 * columns as `Option`. Also the JavaScript `||` defaults the pages apply to
 * those columns.
 */
module Records {
  import opened Wrappers

  datatype Receipt = Receipt(
    id: string,
    store_name: Option<string>,
    purchase_date: Option<string>,
    total_amount: Option<real>,
    image_url: Option<string>,
    created_at: string)

  /**
   * A `receipt_items` row. `product_id`, `size` and `unit` are columns the
   * components read although the shared type does not list them.
   */
  datatype ReceiptItem = ReceiptItem(
    id: string,
    receipt_id: string,
    item_name: string,
    receipt_text: Option<string>,
    quantity: Option<real>,
    unit_price: Option<real>,
    total_price: Option<real>,
    was_on_sale: bool,
    category: Option<string>,
    brand: Option<string>,
    generic_name: Option<string>,
    variant: Option<string>,
    size: Option<string>,
    unit: Option<string>,
    product_id: Option<string>)

  /** A nullable text column is truthy: present and not empty. */
  predicate Present(s: Option<string>)
  {
    s.Some? && s.value != ""
  }

  /** `s || fallback` on a nullable text column. */
  function TextOr(s: Option<string>, fallback: string): (r: string)
    ensures Present(s) ==> r == s.value
    ensures !Present(s) ==> r == fallback
  {
    if Present(s) then s.value else fallback
  }

  /** `n || 0` on a nullable number column (null and 0 both give 0). */
  function AmountOf(n: Option<real>): (r: real)
    ensures n.None? ==> r == 0.0
    ensures n.Some? ==> r == n.value
  {
    if n.Some? then n.value else 0.0
  }
}
