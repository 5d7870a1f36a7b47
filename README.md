# Restaurant billing tool — a Dafny model

This project models the logic of a small browser-based restaurant billing tool.

- The counter page (`js/main.js`) keeps a cart of menu items, writes it to browser storage after every change, and checks out. A checkout records a sale and then either shows a UPI payment request or prints the bill and empties the cart.
- The admin page (`js/admin.js`) adds, edits and deletes catalogue items. It also reports the sales of a chosen month.
- Both pages share the storage repository and the helpers in `js/utils.js`: the default catalogue, the menu and sales functions, the monthly summary, date formatting, the payment request and the bill.

Modules follow the program's structure:

- `Text`: numerals, `padStart`, `trim`, `split`/`join`, white space, lower case.
- `Order`: the key order and the sort.
- `Records`: the stored records.
- `Billing`: the bill, the date, amount text and the payment request.
- `Menu`: the catalogue operations as values.
- `Ledger`: sales, month keys and the monthly summary.
- `Storage`: class `Store`, browser storage and the repository functions of `js/utils.js`.
- `Cart`: the cart operations as values and the checkout record.
- `Counter`: class `Register`, the state of the counter page.
- `Admin`: form validation, the image choice, class `AdminPage` and the sales report.

Modelling choices:

- Money is a whole number of paise. A price of 30 rupees is 3000. The text JavaScript writes for an amount (`${total}`) is `Billing.AmountString`, e.g. "60" for 6000 and "60.5" for 6050.
- The storage keys "restaurantMenu", "restaurantSales" and "restaurantCart" are the three `Option` fields of `Store`. `None` means the key was never written. A written empty list is `Some([])`, since the text "[]" is truthy.
- The clock is an input. An `Instant` holds the milliseconds together with the local year, 0-based month and day they fall on.
- The answer to a `confirm` dialog is an input too, and so is the outcome of reading an uploaded image file.
- The menu and the cart are kept as separate record types, so their lookups and filters are written once for each: `Menu.FindIndex` and `Menu.Deleted` for `findIndex` and `filter` in `js/utils.js`, `Cart.FindLine` and `Cart.Without` for `find` and `filter` in `js/main.js`. Likewise each has its own `UniqueIds`.

## Model

| member | source | states |
|---|---|---|
| Menu.DefaultMenuShape | js/utils.js:8-44 | the default catalogue has five items, ids 1 to 5 in order, each priced above zero |
| Storage.Store.MenuOrDefault | js/utils.js:47-55 | the catalogue read is the stored one, or the five-item default when nothing is stored |
| Storage.Store.GetMenu | js/utils.js:47-55 | a stored catalogue is returned unchanged; otherwise the default is saved and returned |
| Menu.MaxId | js/utils.js:63 | the largest id is at least every item's id and is the id of some item |
| Menu.NextId | js/utils.js:63 | the new id is larger than every existing id, one above an existing id, and 1 for an empty catalogue |
| Menu.Added | js/utils.js:61-71 | the catalogue after `addMenuItem`: the old one plus the draft under the next id; its properties are in `Menu.AddedKeepsIdsUnique` |
| Menu.AddedKeepsIdsUnique | js/utils.js:61-71 | adding keeps every earlier item in place, appends one item with the next id, and keeps ids unique |
| Storage.Store.AddMenuItem | js/utils.js:61-71 | the new item carries the next id and the draft's fields; the saved catalogue is the old one plus that item |
| Menu.FindIndex | js/utils.js:75 | the result is the first position holding the id; none exactly when no item has it |
| Menu.Merge | js/utils.js:77 | fields present in the patch win, the others are kept, and the id is forced to the requested one |
| Menu.Updated | js/utils.js:73-82 | the catalogue after `updateMenuItem`: the first item with the id merged with the patch, or the catalogue unchanged for an absent id; its properties are in `Menu.UpdatedKeepsIds` |
| Menu.UpdatedKeepsIds | js/utils.js:73-82 | updating changes only the first item with the id, keeps the length and every id, changes nothing for an absent id, and keeps ids unique |
| Storage.Store.UpdateMenuItem | js/utils.js:73-82 | the saved catalogue is the updated one; the result is absent exactly when the id is absent, else it is the merged item |
| Menu.Deleted | js/utils.js:86 | the kept items are exactly those with another id |
| Menu.DeletedAppend | js/utils.js:86 | deleting from two parts of a catalogue is deleting from each, so the kept items stay in their order |
| Menu.DeletedAbsent | js/utils.js:84-89 | deleting an absent id changes nothing |
| Menu.DeletedNotFound | js/utils.js:84-94 | after deleting an id, looking it up finds nothing |
| Menu.DeletedKeepsIdsUnique | js/utils.js:84-89 | deleting keeps ids unique |
| Storage.Store.DeleteMenuItem | js/utils.js:84-89 | the returned and saved catalogue is the old one without the items of that id |
| Menu.Find | js/utils.js:93 | a found item is in the catalogue and has the id; nothing is found exactly when no item has the id |
| Storage.Store.GetMenuItemById | js/utils.js:91-94 | the result is the first item with the id; reading may seed the default catalogue and nothing else changes |
| Storage.Store.GetSales | js/utils.js:97-100 | the stored ledger, or no sales when nothing is stored |
| Ledger.Stamp | js/utils.js:102-110 | the stored sale: the clock's id, date and reading, each overridden by the draft's own field when it has one, then the draft's other fields; `Cart.CheckoutSale` states it for a checkout |
| Storage.Store.SaveSale | js/utils.js:102-113 | the returned sale is the draft stamped with the clock reading, and the ledger is the old one plus that sale |
| Ledger.SalesInMonth | js/utils.js:120-123 | a sale is kept exactly when it is in the ledger and falls in that month and year |
| Storage.Store.GetSalesByMonth | js/utils.js:115-124 | "all" gives the whole ledger; a month index keeps exactly the sales of that month and year |
| Ledger.SalesInMonthAll | js/utils.js:115-124 | when every sale is in the month, the selection is the whole ledger |
| Ledger.SalesInMonthSnoc | js/utils.js:120-123 | one more sale at the end of the ledger is kept at the end of the selection exactly when it falls in the month |
| Ledger.MonthKey | js/utils.js:132-134 | the "YYYY-MM" key of a year and 0-based month, the month counted from 1 and padded to two digits; `Ledger.MonthKeyFields` reads it back |
| Ledger.KeyOf | js/utils.js:131-134 | a sale's month key is the key of its timestamp's local year and month; `Ledger.KeysContainSales` and `Ledger.MonthKeyInjective` are about it |
| Ledger.MonthKeyFields | js/utils.js:132-134 | a month key splits at '-' into the year numeral and a two-digit month numeral that read back as the year and the month counted from 1 |
| Ledger.MonthKeyInjective | js/utils.js:132-134 | different months have different keys |
| Ledger.KeysContainSales | js/utils.js:130-146 | every sale's key is among the ledger's keys |
| Ledger.KeysComeFromSales | js/utils.js:130-146 | every key of the ledger is the key of some sale |
| Ledger.WithKeyMembers | js/utils.js:130-146 | the sales counted under a key are exactly the sales with that key |
| Ledger.Bucket | js/utils.js:136-145 | the entry the loop builds for a key: the key, the total and the number of the sales with that key; `Ledger.BucketSnoc` and `Ledger.WithKeyMembers` are about it |
| Ledger.BucketSnoc | js/utils.js:136-145 | one more sale adds its total and one to its own key's entry and leaves the other entries alone |
| Ledger.AbsentKeyEmpty | js/utils.js:136-142 | a key no sale has counts nothing |
| Ledger.GroupedStep | js/utils.js:130-146 | one step of the loop keeps the dictionary equal to the per-key entries of the sales seen, with its keys in first-seen order |
| Ledger.ValuesInOrder | js/utils.js:148 | the dictionary's values, one per key in insertion order |
| Ledger.ValuesAreBuckets | js/utils.js:130-148 | once every sale is seen, the value under each key in insertion order is that key's entry for the ledger |
| Ledger.ValuesDistinct | js/utils.js:130-148 | the values carry distinct keys |
| Ledger.ValuesMonths | js/utils.js:130-148 | the values' keys are exactly the ledger's keys |
| Ledger.BucketStepAt | js/utils.js:136-145 | after one more sale, the entry under any key of the dictionary is that key's entry for the longer ledger |
| Ledger.GroupedValues | js/utils.js:130-148 | once every sale is seen, the values are the ledger's entries, one per key, covering exactly its keys |
| Storage.Store.AddToMonth | js/utils.js:131-145 | the dictionary after one sale: its entry opened if new, then its total and count raised; a new key goes to the end of the order |
| Storage.Store.GroupByMonth | js/utils.js:128-146 | the loop leaves one entry per key of the ledger, totalling exactly that month's sales |
| Ledger.GroupedSummary | js/utils.js:126-151 | sorting the grouped values, newest key first, gives the ledger's summary |
| Ledger.SortedBucketsAreSummary | js/utils.js:148-150 | sorting one entry per key gives a summary: keys strictly descending, each entry that key's total and count |
| Ledger.IsSummaryOf | js/utils.js:126-151 | what the summary is, independently of the loop: keys strictly descending, each entry that key's total and count, and exactly the ledger's keys |
| Storage.Store.GetMonthlySalesSummary | js/utils.js:126-151 | the result is one entry per month of the ledger, newest first, with that month's total and number of sales |
| Ledger.SummaryPartitions | js/utils.js:126-151 | the summary's counts add up to the number of sales and its totals to the ledger's total |
| Ledger.SummaryKeysShape | js/utils.js:126-151 | every summary key is the key of some sale |
| Ledger.InKeysGrow | js/utils.js:136-145 | adding a key to a selection adds exactly that key's sales and total |
| Ledger.SumOverBuckets | js/utils.js:136-145 | entries of distinct keys add up to the count and total of the sales of those keys |
| Ledger.InKeysCovering | js/utils.js:130-146 | selecting every key of the ledger keeps every sale |
| Ledger.InKeysKeepsLast | js/utils.js:130-146 | a sale whose key is selected is kept after the kept earlier sales |
| Ledger.MonthsOfPermutation | js/utils.js:148-150 | reordering the entries keeps their set of keys |
| Order.SortDescending | js/utils.js:148-150 | the result is ordered by key, largest first, is a permutation of the input, and is strictly ordered when the keys are distinct |
| Order.Insert | js/utils.js:148-150 | inserting into an ordered list keeps it ordered and adds exactly that element |
| Order.LessTrichotomy | js/utils.js:149 | any two keys are equal or one is before the other |
| Order.LessTransitive | js/utils.js:149 | the key order is transitive |
| Order.LessAsymmetric | js/utils.js:149 | no two keys are each before the other |
| Order.NotLessTransitive | js/utils.js:149 | "not before" is transitive, so the order is total |
| Billing.FormatDate | js/utils.js:154-160 | "YYYY-MM-DD" of a clock reading, month counted from 1, month and day padded; `Billing.FormatDateFields` reads it back |
| Billing.FormatDateFields | js/utils.js:154-160 | a formatted date splits at '-' into year, month and day numerals that read back as the date's year, month counted from 1 and day, with month and day two digits |
| Text.PadStart2 | js/utils.js:157-158 | `padStart(2, "0")`: zeros in front of text shorter than two; `Text.PadStart2Shape` states its shape |
| Text.PadStart2Shape | js/utils.js:157-158 | the padded text has length two or more, ends with the original, and only '0's are added in front |
| Text.PaddedNumeral | js/utils.js:157-158 | a padded numeral keeps its value and is two digits below 100 |
| Text.NatToString | js/utils.js:156 | a numeral is digits with no leading zero |
| Text.DigitsRoundTrip | js/utils.js:156 | reading a numeral back gives the number it came from |
| Billing.AmountString | js/utils.js:203 | the text `${total}` writes for an amount in paise; `Billing.AmountRoundTrip` reads it back |
| Billing.AmountRoundTrip | js/utils.js:203 | the amount text of any total, negative included, reads back as that total and contains no '&' |
| Billing.UnsignedRoundTrip | js/utils.js:203 | the text for a non-negative amount reads back as that amount, starts with a digit and contains no '&' |
| Billing.FractionDigits | js/utils.js:203 | the decimals written for some paise are one or two digits with no point or "&", reading back as those paise (one digit counts tens of paise) |
| Billing.ParseWithFraction | js/utils.js:203 | a numeral, a point and one or two decimals read as rupees plus tens of paise or paise |
| Billing.FractionText | js/utils.js:203 | a numeral followed by a point and the decimals of some paise reads as rupees and those paise |
| Billing.RequestFields | js/utils.js:199-204 | a request whose amount and transaction id hold no '&' splits into exactly its five fields, in order |
| Billing.PaymentRequest | js/utils.js:203 | the request text for an amount already written out and a transaction id; `Billing.RequestFields` splits it back |
| Billing.GenerateQRCodeData | js/utils.js:199-204 | `generateQRCodeData`: the request for the bill's total and transaction id; `Billing.QRCodeFields` splits it back |
| Billing.QRCodeFields | js/utils.js:199-204 | the payment request has exactly five '&'-separated fields: merchant, payee name, amount, note with the transaction id, and currency |
| Billing.CalculateBill | js/utils.js:207-216 | the bill whose total is the sum of price times quantity over the lines; `Billing.LinesTotalConcat` and `Billing.BillOrderIndependent` are about it |
| Billing.LinesTotalConcat | js/utils.js:207-211 | the total of two parts of a cart is the sum of their totals |
| Billing.LinesTotalRemove | js/utils.js:207-211 | a cart's total is one line's amount plus the total of the other lines |
| Billing.BillOrderIndependent | js/utils.js:207-216 | any reordering of the cart lines has the same bill total |
| Cart.FindLine | js/main.js:48 | the result is the first line holding the id; none exactly when no line has it |
| Cart.WithAdded | js/main.js:47-64 | the cart after `addToCart`: one more at the item's line, or a new line of one; `Cart.AddedShape` states its shape |
| Cart.AddedShape | js/main.js:47-64 | an item already in the cart gets one more at its own line and nothing else changes; a new item is appended with quantity one; unique ids and positive quantities are kept |
| Counter.Register.AddToCart | js/main.js:47-64 | the cart is the cart with one more of the item, and the stored cart equals it |
| Cart.Without | js/main.js:68 | removing never lengthens the cart; `Cart.WithoutMembers` and `Cart.WithoutAppend` say which lines stay and in what order |
| Cart.WithoutMembers | js/main.js:68 | removing keeps exactly the lines of other ids |
| Cart.WithoutAppend | js/main.js:68 | removing acts on each part of the cart separately, so the kept lines keep their order |
| Cart.WithoutAbsent | js/main.js:67-72 | removing an absent id changes nothing |
| Cart.WithoutKeepsInvariant | js/main.js:67-72 | removing keeps ids unique and quantities positive |
| Counter.Register.RemoveFromCart | js/main.js:67-72 | the cart loses the lines of that id, and the stored cart equals it |
| Cart.WithChange | js/main.js:75-87 | the cart after `updateQuantity`; `Cart.ChangeShape` states its shape |
| Cart.ChangeShape | js/main.js:75-87 | an absent id changes nothing; a quantity that drops to zero or below removes the line; otherwise only that line's quantity changes |
| Cart.ChangeToZeroRemoves | js/main.js:78-81 | taking a line's whole quantity away is removing the line |
| Cart.ChangeKeepsInvariant | js/main.js:75-87 | changing a quantity keeps ids unique and quantities positive |
| Counter.Register.UpdateQuantity | js/main.js:75-87 | the cart is the changed cart; an absent id does not even write storage; otherwise the stored cart equals the cart |
| Cart.OperationsKeepInvariant | js/main.js:47-87 | any sequence of adds, removals and quantity changes keeps ids unique and quantities positive |
| Counter.Register.LoadCart | js/main.js:90-97 | a stored cart replaces the page's cart; with nothing stored the cart is kept |
| Counter.Register.SaveCart | js/main.js:100-102 | the stored cart equals the page's cart |
| Counter.Register.LoadMenu | js/main.js:13-16 | the page's menu is the stored catalogue, seeded with the default when none is stored |
| Counter.Register.ClearCart | js/main.js:161-172 | an empty cart or a refusal changes nothing; otherwise the cart and the stored cart are emptied |
| Cart.SaleItems | js/main.js:186-191 | one sale line per cart line, in order, with the name, quantity, price and price times quantity |
| Cart.SubtotalsMatchBill | js/main.js:183-193 | a sale's subtotals add up to the bill total of its cart |
| Cart.TransactionId | js/main.js:182 | "TXN" followed by the clock's milliseconds; `Cart.TransactionIdFields` is about it |
| Cart.CheckoutDraft | js/main.js:183-193 | the `billData` object a checkout saves: date, transaction id, one item per cart line and the bill total; `Cart.CheckoutSale` states the sale it becomes |
| Cart.CheckoutSale | js/main.js:181-196 | the recorded sale has the clock's id, date and time, the transaction id, one item per cart line and the bill total |
| Cart.TransactionIdFields | js/main.js:182 | the transaction id contains no '&', so the payment request keeps its five fields |
| Counter.Register.RecordSale | js/main.js:181-196 | the draft is the checkout record of the cart, and the ledger gains exactly its stamped sale |
| Counter.Register.ShowPaymentModal | js/main.js:175-199 | an empty cart records nothing and makes no request; otherwise one sale is recorded and the request for the bill total and transaction is returned, the cart kept |
| Counter.Register.PrintBill | js/main.js:243-302 | an empty cart changes nothing; otherwise one sale is recorded for the cart and then the cart and the stored cart are emptied |
| Cart.TwoIdlis | js/main.js:47-64 | adding the same idly twice gives one line of quantity two, billed 6000 paise, written "60" |
| Text.Trim | js/admin.js:37 | `trim`: white space cut from both ends; `Text.TrimShape` and `Text.TrimEmptyIff` state its shape |
| Text.TrimEmptyIff | js/admin.js:37 | a text trims to nothing exactly when it is all white space |
| Text.TrimShape | js/admin.js:37 | trimming cuts white space only at the ends and leaves none at either end |
| Admin.IsValidEntry | js/admin.js:42-45 | an entry is accepted exactly when the trimmed name is not empty and the price is a number above zero |
| Admin.BlankNameRejected | js/admin.js:37-45 | a name of white space only is rejected whatever the price |
| Admin.AcceptedNameHasText | js/admin.js:37-45 | an accepted name had a character other than white space |
| Text.RemoveSpaces | js/admin.js:61 | `replace(/\s+/g, '')` never lengthens the text; the lemmas below say what it keeps and in what order |
| Text.RemoveSpacesMembers | js/admin.js:61 | no white space is left, and exactly the characters other than white space are kept |
| Text.RemoveSpacesAppend | js/admin.js:61 | removing white space from two parts of a text is removing it from each, so the kept characters stay in order |
| Text.RemoveSpacesChar | js/admin.js:61 | a white-space character is dropped and any other character is kept |
| Text.RemoveSpacesPlain | js/admin.js:61 | a text without white space is left as it is |
| Text.AsciiLower | js/admin.js:61 | lower-casing keeps the length and maps each character |
| Admin.PlaceholderPath | js/admin.js:59-62 | the placeholder image path of a name; its shape is stated by `Admin.PlaceholderShape` and the lemmas after it |
| Admin.PlaceholderShape | js/admin.js:59-62 | the placeholder is "images/" + the lower-cased name without white space + ".jpg" |
| Admin.PlaceholderOfPlainName | js/admin.js:59-62 | a name already in lower case without white space is its own placeholder stem |
| Admin.PlaceholderOfTwoWords | js/admin.js:59-62 | two words joined by a space give "images/" + both words lower-cased and run together + ".jpg" |
| Admin.RemoveAroundSpace | js/admin.js:61 | removing white space from two words joined by a space gives the words run together |
| Admin.AsciiLowerAppend | js/admin.js:61 | lower-casing two parts of a text is lower-casing each |
| Admin.LowerKeepsText | js/admin.js:61 | lower-casing a text without white space adds no white space |
| Admin.ChooseImage | js/admin.js:47-62 | the image saved once the file, if any, was read: the upload, else the typed path, else the placeholder; `Admin.ImageChoice` states the choice |
| Admin.ImageChoice | js/admin.js:47-62 | an uploaded image wins over the typed path, the typed path is used without an upload, the placeholder when neither gives one, and the image is never empty |
| Admin.IsEditing | js/admin.js:70 | edit mode is on when the page holds a truthy item id (not null and not 0) |
| Admin.AdminPage.HandleFormSubmit | js/admin.js:33-84 | an invalid entry or a failed upload changes nothing; otherwise the item is updated when editing or added when not, edit mode ends and the menu is reloaded |
| Admin.AdminPage.SaveEntry | js/admin.js:70-78 | when editing, the catalogue is the one with the edited item's name, price and image replaced; otherwise it is the one with the entry added |
| Admin.AdminPage.CancelEdit | js/admin.js:87-90 | edit mode ends |
| Admin.AdminPage.ResetForm | js/admin.js:93-100 | edit mode ends |
| Admin.Prefill | js/admin.js:111-114 | the form gets the item's name and price, and its image path unless the image is empty or embedded data |
| Admin.AdminPage.EditItem | js/admin.js:103-121 | an unknown id keeps edit mode and fills nothing; otherwise edit mode holds the id and the form is filled from the item |
| Admin.AdminPage.DeleteItem | js/admin.js:124-133 | without confirmation nothing changes; with it the item goes and the menu is reloaded |
| Admin.AdminPage.LoadMenu | js/admin.js:16-18 | the page's menu is the stored catalogue, seeded with the default when none is stored |
| Admin.AdminPage.PopulateMonthSelect | js/admin.js:168-193 | the options are each month key of the ledger exactly once, newest first |
| Text.Split | js/admin.js:206 | there is at least one piece and no piece holds the separator |
| Text.SplitOfJoin | js/admin.js:206 | splitting joined pieces that do not hold the separator gives the pieces back |
| Text.SplitJoin | js/admin.js:206 | joining the pieces of a split gives the text back |
| Admin.JsNumber | js/admin.js:206 | a digit string reads as its value and blank text as 0 |
| Admin.KeyReadsBack | js/admin.js:206 | a month key is not "all", and its first two '-'-separated parts read as the year and the month counted from 1 |
| Admin.KeepIffKey | js/admin.js:207-210 | a sale falls in a year and a month exactly when its key is that month's key |
| Admin.InSelectedMonth | js/admin.js:207-210 | the sales whose local month is the read month minus one and whose year is the read year; nothing when either read as NaN |
| Admin.SelectedSales | js/admin.js:202-211 | the filter of `displaySales`: "all" keeps every sale, otherwise the key is split and read; `Admin.SelectedKeyMatchesSummary` and `Admin.AllKeepsEverySale` are about it |
| Admin.SelectedMonthIsKey | js/admin.js:207-210 | keeping the sales of a year and month counted from 1 keeps the sales of that month's key |
| Admin.SelectedKeyMatchesSummary | js/admin.js:202-216 | choosing a month key reports exactly that month's sales, so its revenue and count are those of its summary entry |
| Admin.AllKeepsEverySale | js/admin.js:202-205 | "all" reports every sale |
| Admin.Stats | js/admin.js:213-216 | the count is the number of sales, the revenue their total, and the average is revenue over count, or 0 without sales |
| Admin.AdminPage.DisplaySales | js/admin.js:202-216 | "all" reports the whole ledger's count and revenue |

## Left out

- Rendering and the DOM (`renderMenu`, `renderCart`, `updateCartSummary`, `renderMenuItems`, the sales table and the print layout), `alert`, the QR code library, `window.print`, and the event wiring are I/O and are not modelled.
- The storage keys' JSON encoding is left out; a stored list is held as a value, so a parse error cannot occur.
- `FileReader` is asynchronous I/O. Its outcome is an input (`Admin.ImageRead`), and the interleaving of other events during the `await` in `handleFormSubmit` is not modelled.
- `Date.now()` and `new Date()` called separately in one checkout are taken as one clock reading. The conversion of milliseconds to the local calendar date happens outside the model: an `Instant` carries it decoded.
- Floating point: prices and totals are whole paise, so `parseFloat(total.toFixed(2))` is the identity. The price field's `parseFloat` is an input of type `Option<int>`, with `None` for NaN. `Admin.Stats` computes the average as an exact real.
- `String.prototype.localeCompare` is modelled as code-point order. The two agree on keys of the same shape ("YYYY-MM" with four-digit years).
- Admin.JsNumber: covers only what a month key can hold. Blank text and digit strings are read as JavaScript's `Number` reads them; any other text is NaN (`None`), although `Number` accepts signs, decimals and exponents.
- `toLowerCase` is modelled on ASCII letters only. Unicode case mapping is left out.
- Amounts of 1e21 rupees or more, which JavaScript writes in exponent form, are not modelled: `Billing.AmountString` always writes plain digits.
- The month labels (`getMonthName`) of the month selector are not modelled, only the option values. Each label is determined by its key, so the set of distinct entries is the same.
- `formatCurrency` and `formatDateTime` only format for display and are left out.
- `DEFAULT_MENU` is returned as the same array object that was saved, so a later `push` in `addMenuItem` alters the constant. Values have no identity in this model, so that aliasing is not captured.
- In `addMenuItem`, a draft field named `id` would override the new id by spread order. The drafts the admin page passes hold no `id`, so a draft here has none. In `saveSale` the same override of `id`, `date` and `timestamp` is modelled (`Ledger.Stamp`).
- Ledger.WithKey: its membership property is stated as the lemma `Ledger.WithKeyMembers` rather than in its own contract, to keep each proof small.
- Cart.Without: its membership property is stated as the lemma `Cart.WithoutMembers` rather than in its own contract, for the same reason.
- Admin.AdminPage.DisplaySales: its contract covers "all"; a chosen month key is covered by `Admin.SelectedKeyMatchesSummary`.
