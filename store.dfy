/**
 * The browser storage behind js/utils.js, and the repository functions that read and write
 * it. Each storage key is a field; `None` means the key has never been written, while a
 * stored empty list is `Some([])` (the text "[]" is truthy, so it is read back as it is).
 */
module Storage {
  import opened Records
  import opened Order
  import opened Menu
  import opened Ledger

  class Store {
    /** "restaurantMenu" */
    var menu: Option<seq<MenuItem>>
    /** "restaurantSales" */
    var sales: Option<seq<Sale>>
    /** "restaurantCart" */
    var cart: Option<seq<CartLine>>

    constructor (menu: Option<seq<MenuItem>>, sales: Option<seq<Sale>>, cart: Option<seq<CartLine>>)
      ensures this.menu == menu && this.sales == sales && this.cart == cart
    {
      this.menu := menu;
      this.sales := sales;
      this.cart := cart;
    }

    /** The catalogue `getMenu` returns: the stored one, or the default when nothing is stored. */
    function MenuOrDefault(): (m: seq<MenuItem>)
      reads this
      ensures menu.Some? ==> m == menu.value
      ensures menu.None? ==> m == DefaultMenu && |m| == 5 && UniqueIds(m)
    {
      DefaultMenuShape();
      if menu.Some? then menu.value else DefaultMenu
    }

    /** `getMenu`: a stored catalogue is returned as it is; otherwise the default is saved and returned. */
    method GetMenu() returns (m: seq<MenuItem>)
      modifies this`menu
      ensures old(menu).Some? ==> m == old(menu).value
      ensures old(menu).None? ==> m == DefaultMenu
      ensures menu == Some(m)
    {
      if menu.Some? {
        m := menu.value;
      } else {
        m := DefaultMenu;
        menu := Some(m);
      }
    }

    /** `addMenuItem`: appends the draft under the next id and saves the catalogue. */
    method AddMenuItem(draft: MenuDraft) returns (item: MenuItem)
      modifies this`menu
      ensures item == MenuItem(NextId(old(MenuOrDefault())), draft.name, draft.price, draft.image)
      ensures menu == Some(Added(old(MenuOrDefault()), draft))
    {
      var m := GetMenu();
      var newId := if |m| > 0 then MaxId(m) + 1 else 1;
      item := MenuItem(newId, draft.name, draft.price, draft.image);
      m := m + [item];
      menu := Some(m);
    }

    /**
     * `updateMenuItem`: merges the patch into the first item with that id and saves; an
     * absent id gives `None` and leaves the (possibly just seeded) catalogue as it was.
     */
    method UpdateMenuItem(id: int, patch: MenuPatch) returns (r: Option<MenuItem>)
      modifies this`menu
      ensures menu == Some(Updated(old(MenuOrDefault()), id, patch))
      ensures r.None? <==> FindIndex(old(MenuOrDefault()), id).None?
      ensures r.Some? ==> var i := FindIndex(old(MenuOrDefault()), id).value;
                          r.value == Merge(old(MenuOrDefault())[i], patch, id)
    {
      var m := GetMenu();
      var index := FindIndex(m, id);
      if index.Some? {
        m := m[index.value := Merge(m[index.value], patch, id)];
        menu := Some(m);
        r := Some(m[index.value]);
      } else {
        r := None;
      }
    }

    /** `deleteMenuItem`: saves and returns the catalogue without the items of that id. */
    method DeleteMenuItem(id: int) returns (r: seq<MenuItem>)
      modifies this`menu
      ensures r == Deleted(old(MenuOrDefault()), id)
      ensures menu == Some(r)
    {
      var m := GetMenu();
      r := Deleted(m, id);
      menu := Some(r);
    }

    /** `getMenuItemById`: the first item with that id; reading may seed the default catalogue. */
    method GetMenuItemById(id: int) returns (r: Option<MenuItem>)
      modifies this`menu
      ensures r == Find(old(MenuOrDefault()), id)
      ensures menu == Some(old(MenuOrDefault()))
    {
      var m := GetMenu();
      r := Find(m, id);
    }

    /** `getSales`: the stored ledger, or no sales when nothing is stored. */
    function GetSales(): (s: seq<Sale>)
      reads this
      ensures sales.Some? ==> s == sales.value
      ensures sales.None? ==> s == []
    {
      if sales.Some? then sales.value else []
    }

    /** `saveSale`: stamps the draft with the clock reading and appends it to the ledger. */
    method SaveSale(draft: SaleDraft, now: Instant) returns (s: Sale)
      modifies this`sales
      ensures s == Stamp(draft, now)
      ensures sales == Some(old(GetSales()) + [s])
    {
      var all := GetSales();
      s := Stamp(draft, now);
      all := all + [s];
      sales := Some(all);
    }

    /** `getSalesByMonth`: every sale for "all", otherwise the sales of that month and year in order. */
    function GetSalesByMonth(month: MonthArg, year: int): (r: seq<Sale>)
      reads this
      ensures month.AllMonths? ==> r == GetSales()
      ensures month.MonthIndex? ==>
                forall s :: s in r <==> s in GetSales() && s.timestamp.month == month.month
                                                        && s.timestamp.year == year
    {
      SalesByMonth(GetSales(), month, year)
    }

    /** The `forEach` callback of `getMonthlySalesSummary`: opens the sale's bucket if new, then adds to it. */
    static method AddToMonth(monthly: map<string, MonthBucket>, order: seq<string>, sale: Sale)
      returns (monthly': map<string, MonthBucket>, order': seq<string>)
      ensures monthly' == Accumulated(monthly, sale)
      ensures order' == if KeyOf(sale) in monthly then order else order + [KeyOf(sale)]
    {
      var key := KeyOf(sale);
      monthly', order' := monthly, order;
      if key !in monthly' {
        monthly' := monthly'[key := MonthBucket(key, 0, 0)];
        order' := order' + [key];
      }
      monthly' := monthly'[key := monthly'[key].(total := monthly'[key].total + sale.total,
                                                 count := monthly'[key].count + 1)];
    }

    /**
     * `getMonthlySalesSummary`: one bucket per month key, accumulated in a dictionary while
     * walking the ledger, then sorted by key, newest first.
     */
    method GetMonthlySalesSummary() returns (summary: seq<MonthBucket>)
      ensures IsSummaryOf(summary, GetSales())
    {
      var all := GetSales();
      var monthly, order := GroupByMonth(all);
      GroupedSummary(all, monthly, order);
      summary := SortDescending(ValuesInOrder(monthly, order), BucketMonth);
    }

    /** The `forEach` loop of `getMonthlySalesSummary`: the dictionary of buckets and its key order. */
    static method GroupByMonth(all: seq<Sale>) returns (monthly: map<string, MonthBucket>, order: seq<string>)
      ensures Grouped(all, monthly, order)
    {
      monthly, order := map[], [];
      ghost var seen: seq<Sale> := [];
      var i := 0;
      while i < |all|
        invariant 0 <= i <= |all| && seen == all[..i]
        invariant Grouped(seen, monthly, order)
      {
        var sale := all[i];
        ghost var before, orderBefore := monthly, order;
        monthly, order := AddToMonth(monthly, order, sale);
        PrefixSnoc(all, i);
        GroupedStep(seen, sale, before, orderBefore);
        seen := seen + [sale];
        i := i + 1;
      }
      assert seen == all;
    }
  }
}
