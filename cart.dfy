/**
 * The cart of js/main.js, stated on the list of cart lines: what each operation leaves in
 * the cart, and how a cart becomes a sale record.
 */
module Cart {
  import opened Records
  import opened Text
  import Billing
  import Ledger

  /** `cart.find(line => line.id === id)`, as the position of the first line with that id. */
  function FindLine(cart: seq<CartLine>, id: int): (r: Option<nat>)
    ensures r.Some? ==> r.value < |cart| && cart[r.value].id == id
                        && forall j :: 0 <= j < r.value ==> cart[j].id != id
    ensures r.None? <==> forall j :: 0 <= j < |cart| ==> cart[j].id != id
  {
    if cart == [] then None
    else if cart[0].id == id then Some(0)
    else match FindLine(cart[1..], id)
      case None => None
      case Some(k) => Some(k + 1)
  }

  /** At most one line per id. */
  predicate UniqueIds(cart: seq<CartLine>)
  {
    forall i, j :: 0 <= i < j < |cart| ==> cart[i].id != cart[j].id
  }

  /** Every line has a quantity of at least one. */
  predicate Positive(cart: seq<CartLine>)
  {
    forall i :: 0 <= i < |cart| ==> cart[i].quantity >= 1
  }

  /** The line `addToCart` appends for a menu item not yet in the cart. */
  function NewLine(item: MenuItem): CartLine
  {
    CartLine(item.id, item.name, item.price, 1)
  }

  /** The cart after `addToCart(item)`: one more of an item already there, or a new line of one. */
  function WithAdded(cart: seq<CartLine>, item: MenuItem): seq<CartLine>
  {
    match FindLine(cart, item.id)
    case Some(i) => cart[i := cart[i].(quantity := cart[i].quantity + 1)]
    case None => cart + [NewLine(item)]
  }

  /** The cart after `removeFromCart(id)`: `filter(line => line.id !== id)`. */
  function Without(cart: seq<CartLine>, id: int): (r: seq<CartLine>)
    ensures |r| <= |cart|
  {
    if cart == [] then []
    else
      var last := cart[|cart| - 1];
      Without(cart[..|cart| - 1], id) + (if last.id != id then [last] else [])
  }

  /**
   * The cart after `updateQuantity(id, change)`: nothing happens for an absent id; a
   * quantity that would drop to zero or below removes the line; otherwise only that
   * line's quantity moves by `change`.
   */
  function WithChange(cart: seq<CartLine>, id: int, change: int): seq<CartLine>
  {
    match FindLine(cart, id)
    case None => cart
    case Some(i) =>
      if cart[i].quantity + change <= 0 then Without(cart, id)
      else cart[i := cart[i].(quantity := cart[i].quantity + change)]
  }

  /**
   * Adding an item already in the cart raises that line's quantity by one and changes
   * nothing else; adding a new item appends a line of one. Either way there is still at
   * most one line per id and no quantity below one.
   */
  lemma AddedShape(cart: seq<CartLine>, item: MenuItem)
    ensures var r := WithAdded(cart, item);
      match FindLine(cart, item.id)
      case Some(i) =>
        |r| == |cart| && r[i].quantity == cart[i].quantity + 1
        && r[i] == cart[i].(quantity := r[i].quantity)
        && forall j :: 0 <= j < |cart| && j != i ==> r[j] == cart[j]
      case None =>
        r == cart + [CartLine(item.id, item.name, item.price, 1)]
    ensures UniqueIds(cart) ==> UniqueIds(WithAdded(cart, item))
    ensures Positive(cart) ==> Positive(WithAdded(cart, item))
  {
  }

  /** Removing acts on each part of the cart separately, so the kept lines stay in their order. */
  lemma {:induction false} WithoutAppend(a: seq<CartLine>, b: seq<CartLine>, id: int)
    ensures Without(a + b, id) == Without(a, id) + Without(b, id)
    decreases |b|
  {
    if b == [] {
      assert a + b == a;
    } else {
      var c := a + b;
      var init, last := b[..|b| - 1], b[|b| - 1];
      var tail := if last.id != id then [last] else [];
      assert c[..|c| - 1] == a + init && c[|c| - 1] == last;
      WithoutAppend(a, init, id);
      assert Without(c, id) == Without(a + init, id) + tail;
      assert Without(b, id) == Without(init, id) + tail;
      assert Without(c, id) == Without(a, id) + (Without(init, id) + tail);
    }
  }

  /** Removing keeps exactly the lines of other ids. */
  lemma {:induction false} WithoutMembers(cart: seq<CartLine>, id: int)
    ensures forall x :: x in Without(cart, id) <==> x in cart && x.id != id
  {
    if cart != [] {
      var init, last := cart[..|cart| - 1], cart[|cart| - 1];
      WithoutMembers(init, id);
      assert cart == init + [last];
    }
  }

  /** Removing an id that is not in the cart changes nothing. */
  lemma {:induction false} WithoutAbsent(cart: seq<CartLine>, id: int)
    requires forall j :: 0 <= j < |cart| ==> cart[j].id != id
    ensures Without(cart, id) == cart
  {
    if cart != [] {
      WithoutAbsent(cart[..|cart| - 1], id);
      assert cart[..|cart| - 1] + [cart[|cart| - 1]] == cart;
    }
  }

  /** Removing keeps ids unique and quantities positive. */
  lemma WithoutKeepsInvariant(cart: seq<CartLine>, id: int)
    ensures Positive(cart) ==> Positive(Without(cart, id))
    ensures UniqueIds(cart) ==> UniqueIds(Without(cart, id))
  {
    var r := Without(cart, id);
    WithoutMembers(cart, id);
    if Positive(cart) {
      forall i | 0 <= i < |r| ensures r[i].quantity >= 1 {
        assert r[i] in cart;
      }
    }
    if UniqueIds(cart) {
      WithoutUnique(cart, id);
    }
  }

  lemma {:induction false} WithoutUnique(cart: seq<CartLine>, id: int)
    requires UniqueIds(cart)
    ensures UniqueIds(Without(cart, id))
  {
    if cart != [] {
      var init, last := cart[..|cart| - 1], cart[|cart| - 1];
      WithoutUnique(init, id);
      WithoutMembers(init, id);
      var t := Without(init, id);
      forall j | 0 <= j < |t| ensures t[j].id != last.id {
        assert t[j] in init;
        var k :| 0 <= k < |init| && init[k] == t[j];
      }
    }
  }

  /**
   * `updateQuantity`: an absent id changes nothing; a resulting quantity of zero or less
   * removes the line exactly as `removeFromCart` does; otherwise only that line's quantity
   * moves by `change`.
   */
  lemma ChangeShape(cart: seq<CartLine>, id: int, change: int)
    ensures FindLine(cart, id).None? ==> WithChange(cart, id, change) == cart
    ensures FindLine(cart, id).Some? ==>
      var i := FindLine(cart, id).value;
      var r := WithChange(cart, id, change);
      if cart[i].quantity + change <= 0 then r == Without(cart, id)
      else |r| == |cart| && r[i].quantity == cart[i].quantity + change
           && r[i] == cart[i].(quantity := r[i].quantity)
           && forall j :: 0 <= j < |cart| && j != i ==> r[j] == cart[j]
  {
  }

  /** Taking a line's whole quantity away is the same as removing the line. */
  lemma ChangeToZeroRemoves(cart: seq<CartLine>, id: int)
    requires FindLine(cart, id).Some?
    ensures WithChange(cart, id, -cart[FindLine(cart, id).value].quantity) == Without(cart, id)
  {
  }

  /** Changing a quantity keeps ids unique and quantities positive. */
  lemma ChangeKeepsInvariant(cart: seq<CartLine>, id: int, change: int)
    ensures Positive(cart) ==> Positive(WithChange(cart, id, change))
    ensures UniqueIds(cart) ==> UniqueIds(WithChange(cart, id, change))
  {
    WithoutKeepsInvariant(cart, id);
  }

  /** The three ways the page changes the cart. */
  datatype CartOp = Add(item: MenuItem) | Remove(id: int) | Change(id: int, change: int)

  function Apply(cart: seq<CartLine>, op: CartOp): seq<CartLine>
  {
    match op
    case Add(item) => WithAdded(cart, item)
    case Remove(id) => Without(cart, id)
    case Change(id, change) => WithChange(cart, id, change)
  }

  function ApplyAll(cart: seq<CartLine>, ops: seq<CartOp>): seq<CartLine>
    decreases |ops|
  {
    if ops == [] then cart else ApplyAll(Apply(cart, ops[0]), ops[1..])
  }

  /**
   * Starting from a cart with one line per id and every quantity at least one, any
   * sequence of additions, removals and quantity changes keeps both properties.
   */
  lemma {:induction false} OperationsKeepInvariant(cart: seq<CartLine>, ops: seq<CartOp>)
    requires UniqueIds(cart) && Positive(cart)
    ensures UniqueIds(ApplyAll(cart, ops)) && Positive(ApplyAll(cart, ops))
    decreases |ops|
  {
    if ops != [] {
      match ops[0] {
        case Add(item) => AddedShape(cart, item);
        case Remove(id) => WithoutKeepsInvariant(cart, id);
        case Change(id, change) => ChangeKeepsInvariant(cart, id, change);
      }
      OperationsKeepInvariant(Apply(cart, ops[0]), ops[1..]);
    }
  }

  /** `cart.map(...)` in the checkout: one sale line per cart line, in order. */
  function SaleItems(cart: seq<CartLine>): (r: seq<SaleItem>)
    ensures |r| == |cart|
    ensures forall i :: 0 <= i < |cart| ==>
              r[i] == SaleItem(cart[i].name, cart[i].quantity, cart[i].price, cart[i].price * cart[i].quantity)
  {
    if cart == [] then []
    else [SaleItem(cart[0].name, cart[0].quantity, cart[0].price, cart[0].price * cart[0].quantity)]
         + SaleItems(cart[1..])
  }

  function SubtotalSum(items: seq<SaleItem>): int
  {
    if items == [] then 0 else items[0].subtotal + SubtotalSum(items[1..])
  }

  /** The subtotals of a sale add up to the bill total of the cart it came from. */
  lemma {:induction false} SubtotalsMatchBill(cart: seq<CartLine>)
    ensures SubtotalSum(SaleItems(cart)) == Billing.CalculateBill(cart).total
  {
    if cart != [] {
      SubtotalsMatchBill(cart[1..]);
      assert SaleItems(cart)[1..] == SaleItems(cart[1..]);
    }
  }

  /** The transaction id of a checkout: "TXN" followed by the clock's milliseconds. */
  function TransactionId(now: Instant): string
  {
    "TXN" + NatToString(now.millis)
  }

  /** The `billData` object a checkout hands to `saveSale`. */
  function CheckoutDraft(cart: seq<CartLine>, now: Instant): SaleDraft
  {
    SaleDraft(None, Some(Billing.FormatDate(now)), None, TransactionId(now), SaleItems(cart),
              Billing.CalculateBill(cart).total)
  }

  /**
   * The sale a checkout records: its id is the clock's milliseconds, its date today's, its
   * items mirror the cart lines in order and its total is the bill total, which the line
   * subtotals add up to.
   */
  lemma CheckoutSale(cart: seq<CartLine>, now: Instant)
    ensures var s := Ledger.Stamp(CheckoutDraft(cart, now), now);
      && s.id == NatToString(now.millis) && s.date == Billing.FormatDate(now) && s.timestamp == now
      && s.transactionId == TransactionId(now)
      && |s.items| == |cart|
      && (forall i :: 0 <= i < |cart| ==>
            (s.items[i].name == cart[i].name
             && s.items[i].quantity == cart[i].quantity && s.items[i].price == cart[i].price
             && s.items[i].subtotal == cart[i].price * cart[i].quantity))
      && s.total == Billing.LinesTotal(cart)
      && SubtotalSum(s.items) == s.total
  {
    SubtotalsMatchBill(cart);
  }

  /** The transaction id never contains '&', so the payment request keeps its five fields. */
  lemma TransactionIdFields(cart: seq<CartLine>, now: Instant)
    ensures '&' !in TransactionId(now)
    ensures |Split(Billing.GenerateQRCodeData(Billing.CalculateBill(cart).total, TransactionId(now)), '&')| == 5
  {
    DigitsHaveNoSeparator(NatToString(now.millis), '&');
    assert TransactionId(now) == "TXN" + NatToString(now.millis);
    Billing.QRCodeFields(Billing.CalculateBill(cart).total, TransactionId(now));
  }

  /** Two Idlis at 30 rupees: one line of quantity two and a bill of 60 rupees, written "60". */
  lemma TwoIdlis()
    ensures var idly := MenuItem(1, "Idly", 3000, "images/idly.jpg");
      var cart := WithAdded(WithAdded([], idly), idly);
      && cart == [CartLine(1, "Idly", 3000, 2)]
      && Billing.CalculateBill(cart).total == 6000
      && Billing.AmountString(6000) == "60"
  {
    var idly := MenuItem(1, "Idly", 3000, "images/idly.jpg");
    var once := WithAdded([], idly);
    assert once == [CartLine(1, "Idly", 3000, 1)];
    assert FindLine(once, 1) == Some(0);
    var twice := [CartLine(1, "Idly", 3000, 2)];
    assert Billing.LinesTotal(twice) == 6000 by {
      assert twice[1..] == [];
    }
    SixtyRupees();
  }

  lemma SixtyRupees()
    ensures Billing.AmountString(6000) == "60"
  {
    assert DigitChar(6) == '6' && DigitChar(0) == '0';
    assert NatToString(6) == ['6'];
    assert NatToString(60) == ['6', '0'];
    assert Billing.UnsignedAmount(6000) == NatToString(60);
  }
}
