/** The pure helpers of js/utils.js: bill total, payment request string, date and amount text. */
module Billing {
  import opened Records
  import opened Text

  /** One line's contribution, `item.price * item.quantity`. */
  function LineAmount(line: CartLine): int
  {
    line.price * line.quantity
  }

  /** Sum of the line amounts, in the order `reduce` visits them. */
  function LinesTotal(lines: seq<CartLine>): int
  {
    if lines == [] then 0 else LineAmount(lines[0]) + LinesTotal(lines[1..])
  }

  /** `calculateBill`; with whole paise, `parseFloat(total.toFixed(2))` is the total itself. */
  function CalculateBill(lines: seq<CartLine>): Bill
  {
    Bill(LinesTotal(lines))
  }

  lemma {:induction false} LinesTotalConcat(a: seq<CartLine>, b: seq<CartLine>)
    ensures LinesTotal(a + b) == LinesTotal(a) + LinesTotal(b)
  {
    if a != [] {
      assert (a + b)[1..] == a[1..] + b;
      LinesTotalConcat(a[1..], b);
    } else {
      assert a + b == b;
    }
  }

  /** The bill does not depend on the order of the lines: any permutation has the same total. */
  lemma {:induction false} BillOrderIndependent(a: seq<CartLine>, b: seq<CartLine>)
    requires multiset(a) == multiset(b)
    ensures CalculateBill(a).total == CalculateBill(b).total
  {
    if a != [] {
      assert a[0] in multiset(b);
      var k :| 0 <= k < |b| && b[k] == a[0];
      var rest := b[..k] + b[k + 1..];
      RemoveOne(a, b, k);
      BillOrderIndependent(a[1..], rest);
      LinesTotalRemove(b, k);
    } else {
      assert b == [];
    }
  }

  /** Taking the matching line out of both sides of a permutation leaves a permutation. */
  lemma RemoveOne(a: seq<CartLine>, b: seq<CartLine>, k: nat)
    requires a != [] && k < |b| && b[k] == a[0] && multiset(a) == multiset(b)
    ensures multiset(a[1..]) == multiset(b[..k] + b[k + 1..])
  {
    assert b == b[..k] + [b[k]] + b[k + 1..];
    assert a == [a[0]] + a[1..];
    assert multiset(a[1..]) == multiset(a) - multiset{a[0]};
  }

  /** The total is one line's amount plus the total of the other lines. */
  lemma {:induction false} LinesTotalRemove(b: seq<CartLine>, k: nat)
    requires k < |b|
    ensures LinesTotal(b) == LineAmount(b[k]) + LinesTotal(b[..k] + b[k + 1..])
  {
    if k == 0 {
      assert b[..0] + b[1..] == b[1..];
    } else {
      var t := b[1..];
      LinesTotalRemove(t, k - 1);
      assert t[k - 1] == b[k];
      assert b[..k] + b[k + 1..] == [b[0]] + (t[..k - 1] + t[k..]);
    }
  }

  /** `formatDate`: "YYYY-MM-DD" with the month counted from 1 and both fields zero-padded. */
  function FormatDate(d: Instant): string
  {
    NatToString(d.year) + "-" + PadStart2(NatToString(d.month + 1)) + "-" + PadStart2(NatToString(d.day))
  }

  /** A formatted date splits at '-' into year, month and day, which read back as the date's fields. */
  lemma FormatDateFields(d: Instant)
    ensures var parts := Split(FormatDate(d), '-');
      && |parts| == 3
      && parts[0] == NatToString(d.year)
      && AllDigits(parts[1]) && DigitsValue(parts[1]) == d.month + 1
      && AllDigits(parts[2]) && DigitsValue(parts[2]) == d.day
      && (d.month < 12 ==> |parts[1]| == 2)
      && (d.day < 100 ==> |parts[2]| == 2)
  {
    var y, m, dd := NatToString(d.year), PadStart2(NatToString(d.month + 1)), PadStart2(NatToString(d.day));
    PaddedNumeral(d.month + 1);
    PaddedNumeral(d.day);
    DigitsHaveNoSeparator(y, '-');
    DigitsHaveNoSeparator(m, '-');
    DigitsHaveNoSeparator(dd, '-');
    Join3(y, m, dd, '-');
    SplitOfJoin([y, m, dd], '-');
  }

  /** JavaScript's text for a non-negative amount of paise in rupees: no trailing decimal zeros. */
  function UnsignedAmount(paise: nat): string
  {
    var whole := NatToString(paise / 100);
    var cents := paise % 100;
    if cents == 0 then whole
    else whole + "." + Fraction(cents)
  }

  /** `${amount}` for an amount held as paise, e.g. 6000 as "60", 6050 as "60.5", -5 as "-0.05". */
  function AmountString(paise: int): string
  {
    if paise < 0 then "-" + UnsignedAmount(-paise) else UnsignedAmount(paise)
  }

  /** Reads "digits" or "digits.d" or "digits.dd" as paise. */
  function ParseUnsigned(s: string): Option<int>
  {
    ParsePieces(Split(s, '.'))
  }

  /** The rupees and the decimals once the text is split at '.'. */
  function ParsePieces(parts: seq<string>): Option<int>
    requires |parts| >= 1
  {
    if |parts| > 2 || parts[0] == [] || !AllDigits(parts[0]) then None
    else if |parts| == 1 then Some(DigitsValue(parts[0]) * 100)
    else if |parts[1]| == 0 || |parts[1]| > 2 || !AllDigits(parts[1]) then None
    else if |parts[1]| == 1 then Some(DigitsValue(parts[0]) * 100 + DigitsValue(parts[1]) * 10)
    else Some(DigitsValue(parts[0]) * 100 + DigitsValue(parts[1]))
  }

  /** Reads an amount in rupees, with an optional leading minus sign, as paise. */
  function ParseAmount(s: string): Option<int>
  {
    if s != [] && s[0] == '-' then
      match ParseUnsigned(s[1..])
      case None => None
      case Some(v) => Some(-v)
    else ParseUnsigned(s)
  }

  lemma UnsignedRoundTrip(paise: nat)
    ensures ParseUnsigned(UnsignedAmount(paise)) == Some(paise)
    ensures UnsignedAmount(paise) != [] && IsDigit(UnsignedAmount(paise)[0])
    ensures '&' !in UnsignedAmount(paise)
  {
    var whole := NatToString(paise / 100);
    var cents := paise % 100;
    DigitsRoundTrip(paise / 100);
    if cents == 0 {
      ParseWhole(whole, paise / 100);
    } else {
      FractionText(whole, paise / 100, cents);
    }
  }

  /** A numeral followed by a point and the decimals of some paise reads as rupees and those paise. */
  lemma FractionText(w: string, v: nat, cents: nat)
    requires AllDigits(w) && w != [] && DigitsValue(w) == v && 0 < cents < 100
    ensures ParseUnsigned(w + "." + Fraction(cents)) == Some(v * 100 + cents)
    ensures '&' !in w + "." + Fraction(cents) && IsDigit((w + "." + Fraction(cents))[0])
  {
    FractionDigits(cents);
    ParseWithFraction(w, v, Fraction(cents));
    DigitsHaveNoSeparator(w, '&');
    assert (w + "." + Fraction(cents))[0] == w[0];
  }

  /** A numeral without decimals reads as that many rupees. */
  lemma ParseWhole(w: string, v: nat)
    requires AllDigits(w) && w != [] && DigitsValue(w) == v
    ensures ParseUnsigned(w) == Some(v * 100)
    ensures '&' !in w && IsDigit(w[0])
  {
    DigitsHaveNoSeparator(w, '.');
    DigitsHaveNoSeparator(w, '&');
    SplitNone(w, '.');
  }

  /** A numeral with one or two decimals reads as rupees and paise. */
  lemma ParseWithFraction(w: string, v: nat, f: string)
    requires AllDigits(w) && w != [] && DigitsValue(w) == v
    requires AllDigits(f) && 1 <= |f| <= 2
    ensures ParseUnsigned(w + "." + f) == Some(v * 100 + if |f| == 1 then DigitsValue(f) * 10 else DigitsValue(f))
  {
    DigitsHaveNoSeparator(w, '.');
    DigitsHaveNoSeparator(f, '.');
    SplitDecimal(w, f);
    PiecesValue(w, v, f);
  }

  lemma PiecesValue(w: string, v: nat, f: string)
    requires AllDigits(w) && w != [] && DigitsValue(w) == v
    requires AllDigits(f) && 1 <= |f| <= 2
    ensures ParsePieces([w, f]) == Some(v * 100 + if |f| == 1 then DigitsValue(f) * 10 else DigitsValue(f))
  {
  }

  lemma SplitDecimal(w: string, f: string)
    requires '.' !in w && '.' !in f
    ensures Split(w + "." + f, '.') == [w, f]
  {
    SplitCons(w, '.', f);
    SplitNone(f, '.');
  }

  /** The decimals written for a non-zero number of paise below 100. */
  function Fraction(cents: nat): string
  {
    if cents % 10 == 0 then NatToString(cents / 10) else PadStart2(NatToString(cents))
  }

  /** The decimals are one or two digits that read back as the paise. */
  lemma FractionDigits(cents: nat)
    requires 0 < cents < 100
    ensures var frac := Fraction(cents);
      && AllDigits(frac) && '.' !in frac && '&' !in frac
      && (|frac| == 1 ==> DigitsValue(frac) * 10 == cents)
      && (|frac| == 2 ==> DigitsValue(frac) == cents)
      && 1 <= |frac| <= 2
  {
    var frac := Fraction(cents);
    if cents % 10 == 0 {
      DigitsRoundTrip(cents / 10);
      assert NatToString(cents / 10) == [DigitChar(cents / 10)];
    } else {
      PaddedNumeral(cents);
    }
    DigitsHaveNoSeparator(frac, '.');
    DigitsHaveNoSeparator(frac, '&');
  }

  /** Reading back the amount text of a bill gives the bill's amount. */
  lemma AmountRoundTrip(paise: int)
    ensures ParseAmount(AmountString(paise)) == Some(paise)
    ensures '&' !in AmountString(paise)
  {
    if paise < 0 {
      UnsignedRoundTrip(-paise);
      SignedText(UnsignedAmount(-paise), -paise);
    } else {
      UnsignedRoundTrip(paise);
      UnsignedText(UnsignedAmount(paise), paise);
    }
  }

  /** A minus sign in front of an unsigned amount's text negates what it reads as. */
  lemma SignedText(u: string, v: int)
    requires ParseUnsigned(u) == Some(v) && '&' !in u
    ensures ParseAmount("-" + u) == Some(-v) && '&' !in "-" + u
  {
    assert ("-" + u)[1..] == u;
  }

  /** Text that starts with a digit reads as an unsigned amount. */
  lemma UnsignedText(u: string, v: int)
    requires ParseUnsigned(u) == Some(v) && u != [] && IsDigit(u[0])
    ensures ParseAmount(u) == Some(v)
  {
  }

  /** The merchant's UPI id the payment request is addressed to. */
  const MerchantUpiId := "jayavishva3@oksbi"

  /** `generateQRCodeData`: a UPI payment request for the bill's total and transaction. */
  function GenerateQRCodeData(total: int, transactionId: string): string
  {
    PaymentRequest(AmountString(total), transactionId)
  }

  /** The request's text for an amount already written out. */
  function PaymentRequest(amount: string, transactionId: string): string
  {
    ("upi://pay?pa=" + MerchantUpiId) + "&" + "pn=Restaurant" + "&" + ("am=" + amount)
      + "&" + ("tn=Bill-" + transactionId) + "&" + "cu=INR"
  }

  /**
   * The request's query splits into exactly five fields: payee address, payee name,
   * amount, note and currency. The amount field reads back as the bill total and the note
   * carries the transaction id.
   */
  lemma QRCodeFields(total: int, transactionId: string)
    requires '&' !in transactionId
    ensures var fields := Split(GenerateQRCodeData(total, transactionId), '&');
      && |fields| == 5
      && fields[0] == "upi://pay?pa=" + MerchantUpiId
      && fields[1] == "pn=Restaurant"
      && fields[2] == "am=" + AmountString(total)
      && fields[3] == "tn=Bill-" + transactionId
      && fields[4] == "cu=INR"
    ensures ParseAmount(AmountString(total)) == Some(total)
  {
    AmountRoundTrip(total);
    RequestFields(AmountString(total), transactionId);
  }

  lemma RequestFields(amount: string, transactionId: string)
    requires '&' !in amount && '&' !in transactionId
    ensures Split(PaymentRequest(amount, transactionId), '&')
         == ["upi://pay?pa=" + MerchantUpiId, "pn=Restaurant", "am=" + amount, "tn=Bill-" + transactionId, "cu=INR"]
  {
    var f0 := "upi://pay?pa=" + MerchantUpiId;
    MerchantFieldPlain();
    assert '&' !in "am=" + amount;
    assert '&' !in "tn=Bill-" + transactionId;
    SplitFive(f0, "pn=Restaurant", "am=" + amount, "tn=Bill-" + transactionId, "cu=INR", '&');
  }

  lemma MerchantFieldPlain()
    ensures '&' !in "upi://pay?pa=" + MerchantUpiId
  {
  }
}
