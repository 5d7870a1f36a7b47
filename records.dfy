/**
 * The records the billing tool keeps. Money is counted in whole paise (hundredths of a
 * rupee), so a price of 30 rupees is 3000 and rounding to two decimals changes nothing.
 */
module Records {

  datatype Option<T> = None | Some(value: T)
  {
    function GetOr(default: T): T
    {
      if Some? then value else default
    }
  }

  /** A catalogue entry. */
  datatype MenuItem = MenuItem(id: int, name: string, price: int, image: string)

  /** What the admin form hands to `addMenuItem`: every field but the id. */
  datatype MenuDraft = MenuDraft(name: string, price: int, image: string)

  /** Fields to merge into an existing item; an absent field keeps the item's own value. */
  datatype MenuPatch = MenuPatch(name: Option<string>, price: Option<int>, image: Option<string>)

  /** One line of the cart: a copy of a menu item's id, name and price, and a quantity. */
  datatype CartLine = CartLine(id: int, name: string, price: int, quantity: int)

  /** One line of a recorded sale. */
  datatype SaleItem = SaleItem(name: string, quantity: int, price: int, subtotal: int)

  /**
   * A clock reading: milliseconds since the epoch, together with the local calendar date
   * it falls on (`month` counts from 0, as `getMonth` does).
   */
  datatype Instant = Instant(millis: nat, year: nat, month: nat, day: nat)

  /**
   * The object handed to `saveSale`. Id, date and timestamp are optional: when present
   * they win over the values `saveSale` stamps, because they are spread after them.
   */
  datatype SaleDraft = SaleDraft(
    id: Option<string>, date: Option<string>, timestamp: Option<Instant>,
    transactionId: string, items: seq<SaleItem>, total: int)

  /** A completed checkout, as kept in the ledger. */
  datatype Sale = Sale(
    id: string, date: string, timestamp: Instant,
    transactionId: string, items: seq<SaleItem>, total: int)

  /** One entry of the monthly summary. */
  datatype MonthBucket = MonthBucket(month: string, total: int, count: nat)

  /** The result of `calculateBill`. */
  datatype Bill = Bill(total: int)
}
