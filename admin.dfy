/**
 * The admin page of js/admin.js: the menu form (validation, image choice, add or update),
 * the edit and delete buttons, and the sales report with its month selector.
 */
module Admin {
  import opened Records
  import opened Text
  import opened Order
  import opened Menu
  import opened Ledger
  import opened Storage

  /** The form's checks: a name left after trimming and a price that is a number above zero. */
  function IsValidEntry(name: string, price: Option<int>): (ok: bool)
    ensures ok <==> name != [] && price.Some? && price.value > 0
  {
    !(name == [] || price.None? || price.value == 0 || price.value <= 0)
  }

  /** A name of white space only, once trimmed, is rejected whatever the price. */
  lemma BlankNameRejected(rawName: string, price: Option<int>)
    requires forall i :: 0 <= i < |rawName| ==> IsSpace(rawName[i])
    ensures !IsValidEntry(Trim(rawName), price)
  {
    TrimEmptyIff(rawName);
  }

  /** Accepting a name means the typed text held something other than white space. */
  lemma AcceptedNameHasText(rawName: string, price: Option<int>)
    requires IsValidEntry(Trim(rawName), price)
    ensures exists i :: 0 <= i < |rawName| && !IsSpace(rawName[i])
  {
    TrimEmptyIff(rawName);
  }

  /** The outcome of reading the file chosen in the form, if any. */
  datatype ImageRead = NoFile | Loaded(data: string) | ReadFailed

  /** The image path used when neither an upload nor a typed path gives one. */
  function PlaceholderPath(name: string): string
  {
    "images/" + RemoveSpaces(AsciiLower(name)) + ".jpg"
  }

  /** The placeholder is "images/" + the lower-cased name with all white space removed + ".jpg". */
  lemma PlaceholderShape(name: string)
    ensures var p := PlaceholderPath(name);
      var stem := p[7..|p| - 4];
      && p[..7] == "images/" && p[|p| - 4..] == ".jpg"
      && stem == RemoveSpaces(AsciiLower(name))
      && (forall i :: 0 <= i < |stem| ==> !IsSpace(stem[i]))
      && (forall c :: c in stem <==> c in AsciiLower(name) && !IsSpace(c))
  {
    var stem := RemoveSpaces(AsciiLower(name));
    RemoveSpacesMembers(AsciiLower(name));
    var p := PlaceholderPath(name);
    assert p == "images/" + stem + ".jpg";
    assert p[7..|p| - 4] == stem;
  }

  /** A name that is already lower case and has no white space is its own placeholder stem. */
  lemma PlaceholderOfPlainName(name: string)
    requires forall i :: 0 <= i < |name| ==> !IsSpace(name[i]) && !('A' <= name[i] <= 'Z')
    ensures PlaceholderPath(name) == "images/" + name + ".jpg"
  {
    assert AsciiLower(name) == name;
    RemoveSpacesPlain(name);
  }

  /** The placeholder of a two-word name drops the space between the words and lower-cases both. */
  lemma {:induction false} PlaceholderOfTwoWords(a: string, b: string)
    requires forall i :: 0 <= i < |a| ==> !IsSpace(a[i])
    requires forall i :: 0 <= i < |b| ==> !IsSpace(b[i])
    ensures PlaceholderPath(a + " " + b) == "images/" + AsciiLower(a) + AsciiLower(b) + ".jpg"
  {
    var la, lb := AsciiLower(a), AsciiLower(b);
    LowerKeepsText(a);
    LowerKeepsText(b);
    AsciiLowerAppend(a + " ", b);
    AsciiLowerAppend(a, " ");
    assert AsciiLower(" ") == " ";
    RemoveAroundSpace(la, lb);
  }

  /** Lower-casing acts on each part of a text separately. */
  lemma AsciiLowerAppend(x: string, y: string)
    ensures AsciiLower(x + y) == AsciiLower(x) + AsciiLower(y)
  {
  }

  /** Removing white space from two words joined by a space gives the words run together. */
  lemma {:induction false} RemoveAroundSpace(x: string, y: string)
    requires forall i :: 0 <= i < |x| ==> !IsSpace(x[i])
    requires forall i :: 0 <= i < |y| ==> !IsSpace(y[i])
    ensures RemoveSpaces(x + " " + y) == x + y
  {
    assert RemoveSpaces(" ") == [] by {
      assert IsSpace(' ');
      RemoveSpacesChar(' ');
    }
    RemoveSpacesPlain(x);
    RemoveSpacesPlain(y);
    calc {
      RemoveSpaces(x + " " + y);
    == { RemoveSpacesAppend(x + " ", y); }
      RemoveSpaces(x + " ") + RemoveSpaces(y);
    == { RemoveSpacesAppend(x, " "); }
      RemoveSpaces(x) + RemoveSpaces(" ") + RemoveSpaces(y);
    ==
      x + y;
    }
  }

  /** Lower-casing a text without white space gives a text without white space. */
  lemma LowerKeepsText(s: string)
    requires forall i :: 0 <= i < |s| ==> !IsSpace(s[i])
    ensures forall i :: 0 <= i < |s| ==> !IsSpace(AsciiLower(s)[i])
  {
  }

  /** The image the form saves once the file, if any, has been read successfully. */
  function ChooseImage(name: string, file: ImageRead, path: string): string
    requires !file.ReadFailed?
  {
    var image := if file.Loaded? then file.data else path;
    if image == [] then PlaceholderPath(name) else image
  }

  /**
   * An uploaded file wins over the typed path; the typed path is used when nothing is
   * uploaded; when neither gives an image the placeholder is used.
   */
  lemma ImageChoice(name: string, file: ImageRead, path: string)
    requires !file.ReadFailed?
    ensures file.Loaded? && file.data != [] ==> ChooseImage(name, file, path) == file.data
    ensures file.NoFile? && path != [] ==> ChooseImage(name, file, path) == path
    ensures (file.Loaded? ==> file.data == []) && (file.NoFile? ==> path == []) ==>
              ChooseImage(name, file, path) == PlaceholderPath(name)
    ensures ChooseImage(name, file, path) != []
  {
  }

  /** `if (editingItemId)`: an edit is in progress when an id other than 0 is held. */
  predicate IsEditing(editing: Option<int>)
  {
    editing.Some? && editing.value != 0
  }

  /** What `editItem` puts into the form fields. */
  datatype FormFields = FormFields(name: string, price: int, imagePath: string)

  predicate StartsWith(s: string, prefix: string)
  {
    |prefix| <= |s| && s[..|prefix|] == prefix
  }

  /** The form prefill for an item; an embedded image is not shown as a path. */
  function Prefill(item: MenuItem): (f: FormFields)
    ensures f.name == item.name && f.price == item.price
    ensures f.imagePath == "" <==> item.image == "" || StartsWith(item.image, "data:")
    ensures f.imagePath != "" ==> f.imagePath == item.image
  {
    FormFields(item.name, item.price, if StartsWith(item.image, "data:") then "" else item.image)
  }

  /** The sales report's figures. */
  datatype SalesStats = SalesStats(revenue: int, count: nat, average: real)

  /** `Number(text)` on the pieces of a month key: blank text is 0, digits are their value, else NaN. */
  function JsNumber(s: string): (r: Option<int>)
    ensures AllDigits(s) && s != [] ==> r == Some(DigitsValue(s))
    ensures (forall i :: 0 <= i < |s| ==> IsSpace(s[i])) ==> r == Some(0)
  {
    DigitsAreTrimmed(s);
    TrimEmptyIff(s);
    var t := Trim(s);
    if t == [] then Some(0) else if AllDigits(t) then Some(DigitsValue(t)) else None
  }

  lemma DigitsAreTrimmed(s: string)
    ensures AllDigits(s) ==> Trim(s) == s
  {
    if AllDigits(s) && s != [] {
      DigitIsNotSpace(s[0]);
      assert TrimStart(s) == s;
      DigitIsNotSpace(s[|s| - 1]);
      assert TrimEnd(s) == s;
    }
  }

  lemma DigitIsNotSpace(c: char)
    requires IsDigit(c)
    ensures !IsSpace(c)
  {
  }

  /** The sales of year `year` whose 0-based month is `month - 1`; a NaN on either side keeps nothing. */
  function InSelectedMonth(sales: seq<Sale>, year: Option<int>, month: Option<int>): seq<Sale>
  {
    if sales == [] then []
    else
      var last := sales[|sales| - 1];
      var keep := year.Some? && month.Some? && last.timestamp.month == month.value - 1
                  && last.timestamp.year == year.value;
      InSelectedMonth(sales[..|sales| - 1], year, month) + (if keep then [last] else [])
  }

  /** The filter of `displaySales`: "all" keeps every sale, otherwise "YYYY-MM" is split and read. */
  function SelectedSales(sales: seq<Sale>, selected: string): seq<Sale>
  {
    if selected == "all" then sales
    else
      var parts := Split(selected, '-');
      var year := JsNumber(parts[0]);
      var month := if |parts| >= 2 then JsNumber(parts[1]) else None;
      InSelectedMonth(sales, year, month)
  }

  /** Revenue, transaction count and average order of the selected sales. */
  function Stats(sales: seq<Sale>): (r: SalesStats)
    ensures r.count == |sales| && r.revenue == TotalOf(sales)
    ensures r.count == 0 ==> r.average == 0.0
    ensures r.count > 0 ==> r.average * (r.count as real) == r.revenue as real
  {
    var revenue := TotalOf(sales);
    var count := |sales|;
    SalesStats(revenue, count, if count > 0 then revenue as real / count as real else 0.0)
  }

  /** Keeping the year and month of a key keeps the same sales as selecting by the key. */
  lemma {:induction false} SelectedMonthIsKey(sales: seq<Sale>, year: nat, month: nat)
    ensures InSelectedMonth(sales, Some(year), Some(month + 1)) == WithKey(sales, MonthKey(year, month))
  {
    if sales != [] {
      SelectedMonthIsKey(sales[..|sales| - 1], year, month);
      KeepIffKey(sales[|sales| - 1], year, month);
    }
  }

  /** A sale is in the chosen year and month exactly when its key is that month's key. */
  lemma KeepIffKey(sale: Sale, year: nat, month: nat)
    ensures (sale.timestamp.month == month && sale.timestamp.year == year) <==> KeyOf(sale) == MonthKey(year, month)
  {
    if KeyOf(sale) == MonthKey(year, month) {
      MonthKeyInjective(sale.timestamp.year, sale.timestamp.month, year, month);
    }
  }

  /**
   * Choosing a month the selector offers reports exactly that month's sales: the same
   * sales as its summary bucket, so the same revenue and transaction count.
   */
  lemma SelectedKeyMatchesSummary(sales: seq<Sale>, year: nat, month: nat)
    ensures SelectedSales(sales, MonthKey(year, month)) == WithKey(sales, MonthKey(year, month))
    ensures var st := Stats(SelectedSales(sales, MonthKey(year, month)));
            var b := Bucket(sales, MonthKey(year, month));
            st.revenue == b.total && st.count == b.count
  {
    KeyReadsBack(year, month);
    SelectedMonthIsKey(sales, year, month);
  }

  /** A month key is not "all", and its two pieces read back as the year and the month counted from 1. */
  lemma KeyReadsBack(year: nat, month: nat)
    ensures var key := MonthKey(year, month);
      var parts := Split(key, '-');
      && key != "all" && |parts| >= 2
      && JsNumber(parts[0]) == Some(year) && JsNumber(parts[1]) == Some(month + 1)
  {
    var parts := Split(MonthKey(year, month), '-');
    MonthKeyFields(year, month);
    NumeralReads(parts[0], year);
    NumeralReads(parts[1], month + 1);
    KeyIsNotAll(year, month);
  }

  lemma NumeralReads(s: string, v: nat)
    requires AllDigits(s) && s != [] && DigitsValue(s) == v
    ensures JsNumber(s) == Some(v)
  {
  }

  /** A month key starts with a digit, so it is never the "all" option. */
  lemma KeyIsNotAll(year: nat, month: nat)
    ensures MonthKey(year, month) != "all"
  {
    var y := NatToString(year);
    assert MonthKey(year, month)[0] == y[0];
  }

  /** "all" reports every sale. */
  lemma AllKeepsEverySale(sales: seq<Sale>)
    ensures SelectedSales(sales, "all") == sales
    ensures Stats(SelectedSales(sales, "all")).count == |sales|
  {
  }

  function Identity(s: string): string
  {
    s
  }

  class AdminPage {
    /** The global `menu`. */
    var menu: seq<MenuItem>
    /** The global `editingItemId`; `None` is null. */
    var editing: Option<int>
    /** The browser storage the page reads and writes. */
    const store: Store

    constructor (store: Store)
      ensures this.store == store && menu == [] && editing == None
    {
      this.store := store;
      menu := [];
      editing := None;
    }

    /** `loadMenu`. */
    method LoadMenu()
      modifies this`menu, store`menu
      ensures menu == old(store.MenuOrDefault()) && store.menu == Some(menu)
    {
      menu := store.GetMenu();
    }

    /** `resetForm`: leaves edit mode. */
    method ResetForm()
      modifies this`editing
      ensures editing == None
    {
      editing := None;
    }

    /** `cancelEdit`. */
    method CancelEdit()
      modifies this`editing
      ensures editing == None
    {
      editing := None;
      ResetForm();
    }

    /**
     * `handleFormSubmit` on the typed name, the price as read (`None` for NaN), the file
     * chosen (if any) and the typed image path. A rejected entry or a failed file read
     * changes nothing. Otherwise the item is updated when an edit is in progress and added
     * when not; then edit mode ends and the page's menu is reloaded.
     */
    method HandleFormSubmit(rawName: string, price: Option<int>, file: ImageRead, rawPath: string)
      returns (saved: bool)
      modifies this`menu, this`editing, store`menu
      ensures saved <==> IsValidEntry(Trim(rawName), price) && !file.ReadFailed?
      ensures !saved ==> menu == old(menu) && editing == old(editing) && store.menu == old(store.menu)
      ensures saved ==>
        var name := Trim(rawName);
        var image := ChooseImage(name, file, Trim(rawPath));
        && (IsEditing(old(editing)) ==>
              store.menu == Some(Updated(old(store.MenuOrDefault()), old(editing).value,
                                         MenuPatch(Some(name), Some(price.value), Some(image)))))
        && (!IsEditing(old(editing)) ==>
              store.menu == Some(Added(old(store.MenuOrDefault()), MenuDraft(name, price.value, image))))
        && editing == None && store.menu == Some(menu)
    {
      var name := Trim(rawName);
      if !IsValidEntry(name, price) {
        return false;
      }
      if file.ReadFailed? {
        return false;
      }
      var image := ChooseImage(name, file, Trim(rawPath));
      SaveEntry(name, price.value, image);
      ResetForm();
      LoadMenu();
      saved := true;
    }

    /** The branch of `handleFormSubmit` that writes the catalogue: update when editing, add otherwise. */
    method SaveEntry(name: string, price: int, image: string)
      modifies store`menu
      ensures IsEditing(editing) ==>
        store.menu == Some(Updated(old(store.MenuOrDefault()), editing.value, MenuPatch(Some(name), Some(price), Some(image))))
      ensures !IsEditing(editing) ==>
        store.menu == Some(Added(old(store.MenuOrDefault()), MenuDraft(name, price, image)))
    {
      if IsEditing(editing) {
        var _ := store.UpdateMenuItem(editing.value, MenuPatch(Some(name), Some(price), Some(image)));
      } else {
        var _ := store.AddMenuItem(MenuDraft(name, price, image));
      }
    }

    /**
     * `editItem(id)`: an id not in the catalogue leaves edit mode as it was and fills
     * nothing; otherwise edit mode holds the id and the form is filled from the item.
     * Reading the catalogue may seed the default one.
     */
    method EditItem(id: int) returns (form: Option<FormFields>)
      modifies this`editing, store`menu
      ensures store.menu == Some(old(store.MenuOrDefault()))
      ensures Find(old(store.MenuOrDefault()), id).None? ==> editing == old(editing) && form.None?
      ensures Find(old(store.MenuOrDefault()), id).Some? ==>
                editing == Some(id) && form == Some(Prefill(Find(old(store.MenuOrDefault()), id).value))
    {
      var item := store.GetMenuItemById(id);
      if item.None? {
        return None;
      }
      editing := Some(id);
      form := Some(Prefill(item.value));
    }

    /** `deleteItem(id)`: without confirmation nothing changes; with it the item goes and the menu is reloaded. */
    method DeleteItem(id: int, confirmed: bool)
      modifies this`menu, store`menu
      ensures !confirmed ==> menu == old(menu) && store.menu == old(store.menu)
      ensures confirmed ==> store.menu == Some(Deleted(old(store.MenuOrDefault()), id)) && menu == store.menu.value
    {
      if !confirmed {
        return;
      }
      var _ := store.DeleteMenuItem(id);
      LoadMenu();
    }

    /** `displaySales(selected)`: the figures of the report for the chosen option. */
    function DisplaySales(selected: string): (r: SalesStats)
      reads store
      ensures selected == "all" ==> r.count == |store.GetSales()| && r.revenue == TotalOf(store.GetSales())
    {
      Stats(SelectedSales(store.GetSales(), selected))
    }

    /**
     * `populateMonthSelect`: the values of the month options after "all" — each month key
     * present in the ledger exactly once, newest first.
     */
    method PopulateMonthSelect() returns (options: seq<string>)
      ensures StrictlyDescending(options, Identity)
      ensures forall k :: k in options <==> k in Keys(store.GetSales())
    {
      var sales := store.GetSales();
      var monthSet: seq<string> := [];
      var i := 0;
      while i < |sales|
        invariant 0 <= i <= |sales|
        invariant forall k :: k in monthSet <==> k in Keys(sales[..i])
        invariant KeysDistinct(monthSet, Identity)
      {
        var key := KeyOf(sales[i]);
        PrefixSnoc(sales, i);
        KeysSnoc(sales[..i], sales[i]);
        if key !in monthSet {
          monthSet := monthSet + [key];
        }
        i := i + 1;
      }
      assert sales[..i] == sales;
      options := SortDescending(monthSet, Identity);
      forall k ensures k in options <==> k in monthSet {
        assert k in multiset(options) <==> k in multiset(monthSet);
      }
    }
  }
}
