/** The sales ledger of js/utils.js: stamping, month selection and the monthly summary. */
module Ledger {
  import opened Records
  import opened Text
  import opened Order
  import Billing

  /**
   * `saveSale`: the record starts from an id (the clock's milliseconds as text), today's
   * formatted date and the clock reading; every field the draft carries is spread after
   * those, so a draft's own id, date or timestamp wins.
   */
  function Stamp(draft: SaleDraft, now: Instant): Sale
  {
    Sale(
      draft.id.GetOr(NatToString(now.millis)),
      draft.date.GetOr(Billing.FormatDate(now)),
      draft.timestamp.GetOr(now),
      draft.transactionId, draft.items, draft.total)
  }

  /** The `month` argument of `getSalesByMonth`: the string "all", or a month counted from 0. */
  datatype MonthArg = AllMonths | MonthIndex(month: int)

  /** The sales whose local month and year are the given ones, in ledger order. */
  function SalesInMonth(sales: seq<Sale>, month: int, year: int): (r: seq<Sale>)
    ensures forall s :: s in r <==> s in sales && s.timestamp.month == month && s.timestamp.year == year
    ensures |r| <= |sales|
  {
    if sales == [] then []
    else
      var last := sales[|sales| - 1];
      SalesInMonth(sales[..|sales| - 1], month, year)
        + (if last.timestamp.month == month && last.timestamp.year == year then [last] else [])
  }

  /** `getSalesByMonth(month, year)`. */
  function SalesByMonth(sales: seq<Sale>, month: MonthArg, year: int): seq<Sale>
  {
    match month
    case AllMonths => sales
    case MonthIndex(m) => SalesInMonth(sales, m, year)
  }

  /** When every sale is in the month, selecting the month keeps the ledger as it is. */
  lemma {:induction false} SalesInMonthAll(sales: seq<Sale>, month: int, year: int)
    requires forall i :: 0 <= i < |sales| ==> sales[i].timestamp.month == month && sales[i].timestamp.year == year
    ensures SalesInMonth(sales, month, year) == sales
  {
    if sales != [] {
      var init, last := sales[..|sales| - 1], sales[|sales| - 1];
      assert init + [last] == sales;
      SalesInMonthAll(init, month, year);
      SalesInMonthSnoc(init, last, month, year);
    }
  }

  /** Selecting a month of a ledger with one more sale: the earlier selection, then that sale if it matches. */
  lemma SalesInMonthSnoc(init: seq<Sale>, last: Sale, month: int, year: int)
    ensures SalesInMonth(init + [last], month, year)
         == SalesInMonth(init, month, year)
            + (if last.timestamp.month == month && last.timestamp.year == year then [last] else [])
  {
    assert (init + [last])[..|init + [last]| - 1] == init;
  }

  /** The "YYYY-MM" key of a local month, the month counted from 1 and padded to two digits. */
  function MonthKey(year: nat, month: nat): string
  {
    NatToString(year) + "-" + PadStart2(NatToString(month + 1))
  }

  function KeyOf(sale: Sale): string
  {
    MonthKey(sale.timestamp.year, sale.timestamp.month)
  }

  /** A key splits at '-' into the year and the month numerals, which read back as the month. */
  lemma MonthKeyFields(year: nat, month: nat)
    ensures var parts := Split(MonthKey(year, month), '-');
      && |parts| == 2
      && parts[0] == NatToString(year) && AllDigits(parts[0]) && DigitsValue(parts[0]) == year
      && parts[1] == PadStart2(NatToString(month + 1)) && AllDigits(parts[1]) && DigitsValue(parts[1]) == month + 1
      && (month < 99 ==> |parts[1]| == 2)
  {
    var y, m := NatToString(year), PadStart2(NatToString(month + 1));
    DigitsRoundTrip(year);
    PaddedNumeral(month + 1);
    DigitsHaveNoSeparator(y, '-');
    DigitsHaveNoSeparator(m, '-');
    SplitCons(y, '-', m);
    SplitNone(m, '-');
  }

  /** Different months have different keys. */
  lemma MonthKeyInjective(y1: nat, m1: nat, y2: nat, m2: nat)
    requires MonthKey(y1, m1) == MonthKey(y2, m2)
    ensures y1 == y2 && m1 == m2
  {
    MonthKeyFields(y1, m1);
    MonthKeyFields(y2, m2);
  }

  /** The sales whose month key is `key`, in ledger order. */
  function WithKey(sales: seq<Sale>, key: string): (r: seq<Sale>)
    ensures |r| <= |sales|
  {
    if sales == [] then []
    else
      var last := sales[|sales| - 1];
      WithKey(sales[..|sales| - 1], key) + (if KeyOf(last) == key then [last] else [])
  }

  /** The sales whose month key is in `keys`, in ledger order. */
  function InKeys(sales: seq<Sale>, keys: set<string>): seq<Sale>
  {
    if sales == [] then []
    else
      var last := sales[|sales| - 1];
      InKeys(sales[..|sales| - 1], keys) + (if KeyOf(last) in keys then [last] else [])
  }

  /** Sum of the sales' totals. */
  function TotalOf(sales: seq<Sale>): int
  {
    if sales == [] then 0 else TotalOf(sales[..|sales| - 1]) + sales[|sales| - 1].total
  }

  /** The month keys that occur in the ledger. */
  function Keys(sales: seq<Sale>): set<string>
  {
    if sales == [] then {} else Keys(sales[..|sales| - 1]) + {KeyOf(sales[|sales| - 1])}
  }

  /** Every sale's key is among the ledger's keys. */
  lemma {:induction false} KeysContainSales(sales: seq<Sale>, i: nat)
    requires i < |sales|
    ensures KeyOf(sales[i]) in Keys(sales)
  {
    if i < |sales| - 1 {
      KeysContainSales(sales[..|sales| - 1], i);
    }
  }

  /** Every key of the ledger is the key of one of its sales. */
  lemma {:induction false} KeysComeFromSales(sales: seq<Sale>, key: string)
    requires key in Keys(sales)
    ensures exists i :: 0 <= i < |sales| && KeyOf(sales[i]) == key
  {
    var init := sales[..|sales| - 1];
    if key != KeyOf(sales[|sales| - 1]) {
      KeysComeFromSales(init, key);
      var i :| 0 <= i < |init| && KeyOf(init[i]) == key;
      assert init[i] == sales[i];
    }
  }

  /** The entry `getMonthlySalesSummary` builds for one key: the total and number of its sales. */
  function Bucket(sales: seq<Sale>, key: string): MonthBucket
  {
    var group := WithKey(sales, key);
    MonthBucket(key, TotalOf(group), |group|)
  }

  function BucketMonth(b: MonthBucket): string
  {
    b.month
  }

  /** The keys of the entries, as a set. */
  function Months(buckets: seq<MonthBucket>): set<string>
  {
    if buckets == [] then {} else Months(buckets[..|buckets| - 1]) + {buckets[|buckets| - 1].month}
  }

  /**
   * What `getMonthlySalesSummary` returns for a ledger: one entry per month key present,
   * newest key first with no key twice, each entry holding that month's total and count.
   */
  ghost predicate IsSummaryOf(summary: seq<MonthBucket>, sales: seq<Sale>)
  {
    && StrictlyDescending(summary, BucketMonth)
    && (forall i :: 0 <= i < |summary| ==> summary[i] == Bucket(sales, summary[i].month))
    && Months(summary) == Keys(sales)
  }

  function SumCounts(buckets: seq<MonthBucket>): int
  {
    if buckets == [] then 0 else SumCounts(buckets[..|buckets| - 1]) + buckets[|buckets| - 1].count
  }

  function SumTotals(buckets: seq<MonthBucket>): int
  {
    if buckets == [] then 0 else SumTotals(buckets[..|buckets| - 1]) + buckets[|buckets| - 1].total
  }

  /** Selecting by a larger key set adds exactly the sales of the new key. */
  lemma {:induction false} InKeysGrow(sales: seq<Sale>, keys: set<string>, key: string)
    requires key !in keys
    ensures |InKeys(sales, keys + {key})| == |InKeys(sales, keys)| + |WithKey(sales, key)|
    ensures TotalOf(InKeys(sales, keys + {key})) == TotalOf(InKeys(sales, keys)) + TotalOf(WithKey(sales, key))
  {
    if sales != [] {
      var init, last := sales[..|sales| - 1], sales[|sales| - 1];
      InKeysGrow(init, keys, key);
      TotalOfAppend(InKeys(init, keys + {key}), if KeyOf(last) in keys + {key} then [last] else []);
      TotalOfAppend(InKeys(init, keys), if KeyOf(last) in keys then [last] else []);
      TotalOfAppend(WithKey(init, key), if KeyOf(last) == key then [last] else []);
    }
  }

  lemma {:induction false} TotalOfAppend(a: seq<Sale>, b: seq<Sale>)
    requires |b| <= 1
    ensures TotalOf(a + b) == TotalOf(a) + TotalOf(b)
  {
    if b == [] {
      assert a + b == a;
    } else {
      assert (a + b)[..|a + b| - 1] == a;
      assert TotalOf(b) == TotalOf(b[..0]) + b[0].total;
    }
  }

  /** Selecting by a key set that covers the ledger keeps every sale. */
  lemma {:induction false} InKeysCovering(sales: seq<Sale>, keys: set<string>)
    requires Keys(sales) <= keys
    ensures InKeys(sales, keys) == sales
  {
    if sales != [] {
      var init, last := sales[..|sales| - 1], sales[|sales| - 1];
      assert sales == init + [last];
      KeysSnoc(init, last);
      InKeysCovering(init, keys);
      InKeysKeepsLast(init, last, keys);
    }
  }

  /** A sale whose key is selected is kept after the kept earlier sales. */
  lemma InKeysKeepsLast(init: seq<Sale>, last: Sale, keys: set<string>)
    requires InKeys(init, keys) == init && KeyOf(last) in keys
    ensures InKeys(init + [last], keys) == init + [last]
  {
    assert (init + [last])[..|init|] == init;
  }

  /** Summing the entries of distinct keys gives the size and total of their sales together. */
  lemma {:induction false} SumOverBuckets(buckets: seq<MonthBucket>, sales: seq<Sale>)
    requires KeysDistinct(buckets, BucketMonth)
    requires forall i :: 0 <= i < |buckets| ==> buckets[i] == Bucket(sales, buckets[i].month)
    ensures SumCounts(buckets) == |InKeys(sales, Months(buckets))|
    ensures SumTotals(buckets) == TotalOf(InKeys(sales, Months(buckets)))
  {
    if buckets == [] {
      EmptyKeysSelectNothing(sales);
    } else {
      var init, last := buckets[..|buckets| - 1], buckets[|buckets| - 1];
      assert KeysDistinct(init, BucketMonth);
      SumOverBuckets(init, sales);
      MonthsMembership(init);
      InKeysGrow(sales, Months(init), last.month);
    }
  }

  lemma {:induction false} EmptyKeysSelectNothing(sales: seq<Sale>)
    ensures InKeys(sales, {}) == [] && TotalOf([]) == 0
  {
    if sales != [] {
      EmptyKeysSelectNothing(sales[..|sales| - 1]);
    }
  }

  lemma {:induction false} MonthsMembership(buckets: seq<MonthBucket>)
    ensures forall k :: k in Months(buckets) <==> exists i :: 0 <= i < |buckets| && buckets[i].month == k
  {
    if buckets != [] {
      MonthsMembership(buckets[..|buckets| - 1]);
    }
  }

  lemma StrictImpliesDistinct(buckets: seq<MonthBucket>)
    requires StrictlyDescending(buckets, BucketMonth)
    ensures KeysDistinct(buckets, BucketMonth)
  {
    forall i, j | 0 <= i < j < |buckets| ensures BucketMonth(buckets[i]) != BucketMonth(buckets[j]) {
      LessIrreflexive(BucketMonth(buckets[i]));
    }
  }

  /**
   * The summary partitions the ledger: its counts add up to the number of sales and its
   * totals to the ledger's total.
   */
  lemma SummaryPartitions(summary: seq<MonthBucket>, sales: seq<Sale>)
    requires IsSummaryOf(summary, sales)
    ensures SumCounts(summary) == |sales|
    ensures SumTotals(summary) == TotalOf(sales)
  {
    StrictImpliesDistinct(summary);
    SumOverBuckets(summary, sales);
    InKeysCovering(sales, Months(summary));
  }

  /** Each summary key is the key of some sale: a year, '-', and a two-digit month. */
  lemma SummaryKeysShape(summary: seq<MonthBucket>, sales: seq<Sale>, i: nat)
    requires IsSummaryOf(summary, sales) && i < |summary|
    ensures exists j :: 0 <= j < |sales| && summary[i].month == KeyOf(sales[j])
  {
    MonthsMembership(summary);
    assert summary[i].month in Months(summary);
    KeysComeFromSales(sales, summary[i].month);
  }

  /** Taking one more sale into account adds its key to the keys. */
  lemma KeysSnoc(init: seq<Sale>, last: Sale)
    ensures Keys(init + [last]) == Keys(init) + {KeyOf(last)}
  {
    assert (init + [last])[..|init|] == init;
  }

  /** Taking one more sale into account updates only the bucket of that sale's key. */
  lemma BucketSnoc(init: seq<Sale>, last: Sale, key: string)
    ensures Bucket(init + [last], key)
         == if KeyOf(last) == key
            then Bucket(init, key).(total := Bucket(init, key).total + last.total,
                                    count := Bucket(init, key).count + 1)
            else Bucket(init, key)
  {
    var p := init + [last];
    assert p[..|p| - 1] == init && p[|p| - 1] == last;
    var g := WithKey(init, key);
    var tail := if KeyOf(last) == key then [last] else [];
    assert WithKey(p, key) == g + tail;
    TotalOfAppend(g, tail);
  }

  /** A key that no sale has selects no sales. */
  lemma {:induction false} AbsentKeyEmpty(sales: seq<Sale>, key: string)
    requires key !in Keys(sales)
    ensures Bucket(sales, key) == MonthBucket(key, 0, 0)
  {
    if sales != [] {
      AbsentKeyEmpty(sales[..|sales| - 1], key);
    }
  }

  lemma {:induction false} MonthsOfPermutation(a: seq<MonthBucket>, b: seq<MonthBucket>)
    requires multiset(a) == multiset(b)
    ensures Months(a) == Months(b)
  {
    MonthsMembership(a);
    MonthsMembership(b);
    forall k | k in Months(a) ensures k in Months(b) {
      var i :| 0 <= i < |a| && a[i].month == k;
      assert a[i] in multiset(b);
    }
    forall k | k in Months(b) ensures k in Months(a) {
      var i :| 0 <= i < |b| && b[i].month == k;
      assert b[i] in multiset(a);
    }
  }

  /** Sorting the per-key buckets, newest key first, gives the ledger's summary. */
  lemma SortedBucketsAreSummary(values: seq<MonthBucket>, sales: seq<Sale>)
    requires KeysDistinct(values, BucketMonth)
    requires forall j :: 0 <= j < |values| ==> values[j] == Bucket(sales, values[j].month)
    requires Months(values) == Keys(sales)
    ensures IsSummaryOf(SortDescending(values, BucketMonth), sales)
  {
    var r := SortDescending(values, BucketMonth);
    forall i | 0 <= i < |r| ensures r[i] == Bucket(sales, r[i].month) {
      assert r[i] in multiset(values);
    }
    MonthsOfPermutation(r, values);
  }

  /** Each key seen so far has the bucket of the sales seen so far. */
  ghost predicate BucketsMatch(sales: seq<Sale>, monthly: map<string, MonthBucket>)
  {
    && monthly.Keys == Keys(sales)
    && (forall k {:trigger monthly[k]} :: k in monthly ==> monthly[k] == Bucket(sales, k))
  }

  /** `order` lists the keys of the dictionary, in the order they were first seen, each once. */
  ghost predicate OrderMatches(keys: set<string>, order: seq<string>)
  {
    && (forall j :: 0 <= j < |order| ==> order[j] in keys)
    && (forall k :: k in keys ==> k in order)
    && (forall j, l :: 0 <= j < l < |order| ==> order[j] != order[l])
  }

  /** The dictionary built while walking `sales`, and the order its keys were inserted in. */
  ghost predicate Grouped(sales: seq<Sale>, monthly: map<string, MonthBucket>, order: seq<string>)
  {
    BucketsMatch(sales, monthly) && OrderMatches(monthly.Keys, order)
  }

  /** The dictionary after the `forEach` body for `sale`: open the bucket if new, then add to it. */
  function Accumulated(monthly: map<string, MonthBucket>, sale: Sale): map<string, MonthBucket>
  {
    var key := KeyOf(sale);
    var m0 := if key in monthly then monthly else monthly[key := MonthBucket(key, 0, 0)];
    m0[key := m0[key].(total := m0[key].total + sale.total, count := m0[key].count + 1)]
  }

  lemma BucketsStep(init: seq<Sale>, last: Sale, monthly: map<string, MonthBucket>)
    requires BucketsMatch(init, monthly)
    ensures BucketsMatch(init + [last], Accumulated(monthly, last))
  {
    var m1 := Accumulated(monthly, last);
    KeysSnoc(init, last);
    assert m1.Keys == monthly.Keys + {KeyOf(last)};
    forall k | k in m1 ensures m1[k] == Bucket(init + [last], k) {
      if k in monthly {
        assert monthly[k] == Bucket(init, k);
      } else {
        AbsentKeyEmpty(init, k);
      }
      BucketStepAt(init, last, monthly, k);
    }
  }

  /** One key's entry after one more sale. */
  lemma BucketStepAt(init: seq<Sale>, last: Sale, monthly: map<string, MonthBucket>, k: string)
    requires k in monthly ==> monthly[k] == Bucket(init, k)
    requires k !in monthly ==> Bucket(init, k) == MonthBucket(k, 0, 0)
    requires k in Accumulated(monthly, last)
    ensures Accumulated(monthly, last)[k] == Bucket(init + [last], k)
  {
    BucketSnoc(init, last, k);
  }

  lemma OrderStep(keys: set<string>, order: seq<string>, key: string)
    requires OrderMatches(keys, order)
    ensures OrderMatches(keys + {key}, if key in keys then order else order + [key])
  {
  }

  /** One step of the `forEach` keeps the dictionary and its insertion order in step with the ledger. */
  lemma GroupedStep(init: seq<Sale>, last: Sale, monthly: map<string, MonthBucket>, order: seq<string>)
    requires Grouped(init, monthly, order)
    ensures Grouped(init + [last], Accumulated(monthly, last),
                    if KeyOf(last) in monthly then order else order + [KeyOf(last)])
  {
    BucketsStep(init, last, monthly);
    assert Accumulated(monthly, last).Keys == monthly.Keys + {KeyOf(last)};
    OrderStep(monthly.Keys, order, KeyOf(last));
  }

  /** Every sale selected by a key carries that key, and every sale with the key is selected. */
  lemma {:induction false} WithKeyMembers(sales: seq<Sale>, key: string)
    ensures forall s :: s in WithKey(sales, key) <==> s in sales && KeyOf(s) == key
  {
    if sales != [] {
      var init, last := sales[..|sales| - 1], sales[|sales| - 1];
      WithKeyMembers(init, key);
      assert sales == init + [last];
    }
  }

  /** `Object.values(monthlyData)`: the buckets in the order their keys were first seen. */
  function ValuesInOrder(monthly: map<string, MonthBucket>, order: seq<string>): (r: seq<MonthBucket>)
    requires forall j :: 0 <= j < |order| ==> order[j] in monthly
    ensures |r| == |order| && forall j :: 0 <= j < |order| ==> r[j] == monthly[order[j]]
  {
    seq(|order|, j requires 0 <= j < |order| => monthly[order[j]])
  }

  /** Once the whole ledger is grouped, the dictionary's values are its buckets, each key once. */
  lemma GroupedValues(sales: seq<Sale>, monthly: map<string, MonthBucket>, order: seq<string>)
    requires Grouped(sales, monthly, order)
    ensures var values := ValuesInOrder(monthly, order);
      && KeysDistinct(values, BucketMonth)
      && (forall j :: 0 <= j < |values| ==> values[j] == Bucket(sales, values[j].month))
      && Months(values) == Keys(sales)
  {
    ValuesAreBuckets(sales, monthly, order);
    ValuesDistinct(sales, monthly, order);
    ValuesMonths(sales, monthly, order);
  }

  lemma ValuesDistinct(sales: seq<Sale>, monthly: map<string, MonthBucket>, order: seq<string>)
    requires Grouped(sales, monthly, order)
    ensures KeysDistinct(ValuesInOrder(monthly, order), BucketMonth)
  {
    ValuesAreBuckets(sales, monthly, order);
  }

  lemma ValuesMonths(sales: seq<Sale>, monthly: map<string, MonthBucket>, order: seq<string>)
    requires Grouped(sales, monthly, order)
    ensures Months(ValuesInOrder(monthly, order)) == Keys(sales)
  {
    var values := ValuesInOrder(monthly, order);
    ValuesAreBuckets(sales, monthly, order);
    MonthsMembership(values);
    forall k | k in Keys(sales) ensures k in Months(values) {
      var j :| 0 <= j < |order| && order[j] == k;
      assert values[j].month == k;
    }
  }

  /** Each value is the bucket of the key at the same position of the insertion order. */
  lemma ValuesAreBuckets(sales: seq<Sale>, monthly: map<string, MonthBucket>, order: seq<string>)
    requires Grouped(sales, monthly, order)
    ensures var values := ValuesInOrder(monthly, order);
      forall j :: 0 <= j < |values| ==> values[j] == Bucket(sales, order[j]) && values[j].month == order[j]
  {
    var values := ValuesInOrder(monthly, order);
    forall j | 0 <= j < |values| ensures values[j] == Bucket(sales, order[j]) {
      assert values[j] == monthly[order[j]];
    }
  }

  /** Once the whole ledger is grouped, sorting the dictionary's values gives its summary. */
  lemma GroupedSummary(sales: seq<Sale>, monthly: map<string, MonthBucket>, order: seq<string>)
    requires Grouped(sales, monthly, order)
    ensures IsSummaryOf(SortDescending(ValuesInOrder(monthly, order), BucketMonth), sales)
  {
    GroupedValues(sales, monthly, order);
    SortedBucketsAreSummary(ValuesInOrder(monthly, order), sales);
  }

  lemma PrefixSnoc(sales: seq<Sale>, i: nat)
    requires i < |sales|
    ensures sales[..i + 1] == sales[..i] + [sales[i]]
  {
  }
}
