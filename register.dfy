/**
 * The billing counter of js/main.js: the page's global cart and menu, the cart operations
 * that write the cart back to storage after every change, and the two checkouts.
 */
module Counter {
  import opened Records
  import opened Storage
  import opened Cart
  import Billing
  import Ledger

  class Register {
    /** The global `cart`. */
    var cart: seq<CartLine>
    /** The global `menu`. */
    var menu: seq<MenuItem>
    /** The browser storage the page reads and writes. */
    const store: Store

    /** The page's state before anything is loaded: both globals start as empty arrays. */
    constructor (store: Store)
      ensures this.store == store && cart == [] && menu == []
    {
      this.store := store;
      cart := [];
      menu := [];
    }

    /** The stored cart is the cart on the page. */
    predicate Synced()
      reads this, store
    {
      store.cart == Some(cart)
    }

    /** One line per id and every quantity at least one. */
    predicate Valid()
      reads this
    {
      UniqueIds(cart) && Positive(cart)
    }

    /** `loadMenu`: the page's menu is the stored catalogue, seeded with the default if absent. */
    method LoadMenu()
      modifies this`menu, store`menu
      ensures menu == old(store.MenuOrDefault()) && store.menu == Some(menu)
    {
      menu := store.GetMenu();
    }

    /** `loadCart`: a stored cart replaces the page's cart; with nothing stored the cart stays as it is. */
    method LoadCart()
      modifies this`cart
      ensures store.cart.Some? ==> cart == store.cart.value && Synced()
      ensures store.cart.None? ==> cart == old(cart)
    {
      if store.cart.Some? {
        cart := store.cart.value;
      }
    }

    /** `saveCart`. */
    method SaveCart()
      modifies store`cart
      ensures Synced()
    {
      store.cart := Some(cart);
    }

    /** `addToCart(item)`: one more of that item, saved. */
    method AddToCart(item: MenuItem)
      modifies this`cart, store`cart
      ensures cart == WithAdded(old(cart), item) && Synced()
      ensures old(Valid()) ==> Valid()
    {
      AddedShape(cart, item);
      var existing := FindLine(cart, item.id);
      if existing.Some? {
        var i := existing.value;
        cart := cart[i := cart[i].(quantity := cart[i].quantity + 1)];
      } else {
        cart := cart + [NewLine(item)];
      }
      SaveCart();
    }

    /** `removeFromCart(id)`: drops the lines of that id, saved. */
    method RemoveFromCart(id: int)
      modifies this`cart, store`cart
      ensures cart == Without(old(cart), id) && Synced()
      ensures old(Valid()) ==> Valid()
    {
      WithoutKeepsInvariant(cart, id);
      cart := Without(cart, id);
      SaveCart();
    }

    /**
     * `updateQuantity(id, change)`: an absent id changes nothing, not even the stored cart;
     * otherwise the new cart is saved.
     */
    method UpdateQuantity(id: int, change: int)
      modifies this`cart, store`cart
      ensures cart == WithChange(old(cart), id, change)
      ensures FindLine(old(cart), id).None? ==> store.cart == old(store.cart)
      ensures FindLine(old(cart), id).Some? ==> Synced()
      ensures old(Valid()) ==> Valid()
    {
      ChangeKeepsInvariant(cart, id, change);
      var found := FindLine(cart, id);
      if found.Some? {
        var i := found.value;
        var quantity := cart[i].quantity + change;
        if quantity <= 0 {
          RemoveFromCart(id);
          return;
        }
        cart := cart[i := cart[i].(quantity := quantity)];
        SaveCart();
      }
    }

    /** `clearCart(confirmed)`: empties the cart and the stored cart only if it has lines and the user agrees. */
    method ClearCart(confirmed: bool)
      modifies this`cart, store`cart
      ensures old(cart) == [] || !confirmed ==> cart == old(cart) && store.cart == old(store.cart)
      ensures old(cart) != [] && confirmed ==> cart == [] && Synced()
    {
      if cart == [] {
        return;
      }
      if confirmed {
        cart := [];
        SaveCart();
      }
    }

    /**
     * The checkout both buttons share: the sale draft for the cart at this clock reading,
     * saved to the ledger.
     */
    method RecordSale(now: Instant) returns (draft: SaleDraft)
      requires cart != []
      modifies store`sales
      ensures draft == CheckoutDraft(cart, now)
      ensures store.sales == Some(old(store.GetSales()) + [Ledger.Stamp(draft, now)])
    {
      var bill := Billing.CalculateBill(cart);
      draft := SaleDraft(None, Some(Billing.FormatDate(now)), None, TransactionId(now), SaleItems(cart), bill.total);
      var _ := store.SaveSale(draft, now);
    }

    /**
     * `showPaymentModal`: on an empty cart nothing is recorded and no request is made;
     * otherwise one sale is recorded and the payment request for it is returned. The cart
     * stays as it is.
     */
    method ShowPaymentModal(now: Instant) returns (qrData: Option<string>)
      modifies store`sales
      ensures cart == [] ==> qrData.None? && store.sales == old(store.sales)
      ensures cart != [] ==>
        && store.sales == Some(old(store.GetSales()) + [Ledger.Stamp(CheckoutDraft(cart, now), now)])
        && qrData == Some(Billing.GenerateQRCodeData(Billing.CalculateBill(cart).total, TransactionId(now)))
    {
      if cart == [] {
        return None;
      }
      var draft := RecordSale(now);
      qrData := Some(Billing.GenerateQRCodeData(draft.total, draft.transactionId));
    }

    /**
     * `printBill`: on an empty cart nothing happens; otherwise one sale is recorded for
     * the cart and then the cart and the stored cart are emptied.
     */
    method PrintBill(now: Instant)
      modifies this`cart, store`sales, store`cart
      ensures old(cart) == [] ==>
        cart == old(cart) && store.sales == old(store.sales) && store.cart == old(store.cart)
      ensures old(cart) != [] ==>
        && store.sales == Some(old(store.GetSales()) + [Ledger.Stamp(CheckoutDraft(old(cart), now), now)])
        && cart == [] && Synced()
    {
      if cart == [] {
        return;
      }
      var _ := RecordSale(now);
      cart := [];
      SaveCart();
    }
  }
}
