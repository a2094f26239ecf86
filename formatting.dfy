/** The report helpers `fmt_currency`, `fmt_date` and `header`
    (fundraising_mcp_server.py:72-83), each with the reader that takes its output apart
    again. Money is integer cents. */
module Formatting {
  import opened Options
  import opened Text

  /** `header(title)`: the title, a line break and an underline of
      `max(6, len(title))` dashes. */
  function Header(title: string): (h: string)
    ensures |h| == |title| + 1 + (if |title| > 6 then |title| else 6)
    ensures StartsWith(h, title) && h[|title|] == '\n'
    ensures forall k :: |title| < k < |h| ==> h[k] == '-'
  {
    title + "\n" + Repeat('-', if |title| > 6 then |title| else 6)
  }

  /** The form of the `,` grouping: digits, with a comma exactly where a multiple of four
      characters remain, that is before every group of three counted from the right,
      and no leading zero except in `0` itself. */
  predicate Grouped(s: string) {
    && |s| > 0 && IsDigit(s[0])
    && (forall k :: 0 <= k < |s| ==> (s[k] == ',' <==> (|s| - k) % 4 == 0))
    && (forall k :: 0 <= k < |s| && s[k] != ',' ==> IsDigit(s[k]))
    && (s[0] == '0' ==> |s| == 1)
  }

  /** The whole part of `f"{x:,.2f}"`: decimal digits with a comma before every group
      of three counted from the right. */
  function GroupThousands(n: nat): (s: string)
    ensures Grouped(s) && IsDigit(s[|s| - 1])
    ensures s[0] == '0' ==> n == 0
  {
    if n < 1000 then
      NatStrShort(n);
      NatStr(n)
    else
      var hi, lo := GroupThousands(n / 1000), PadDigits(n % 1000, 3);
      GroupedAppend(hi, lo);
      hi + "," + lo
  }

  /** A group of three more digits after a comma keeps the grouping. */
  lemma GroupedAppend(hi: string, lo: string)
    requires Grouped(hi) && hi[0] != '0'
    requires |lo| == 3 && AllDigits(lo)
    ensures Grouped(hi + "," + lo)
  {
    var s := hi + "," + lo;
    forall k | 0 <= k < |s|
      ensures s[k] == ',' <==> (|s| - k) % 4 == 0
      ensures s[k] != ',' ==> IsDigit(s[k])
    {
      if k < |hi| {
        assert s[k] == hi[k] && |s| - k == (|hi| - k) + 4;
      } else if k > |hi| {
        assert s[k] == lo[k - |hi| - 1];
      }
    }
  }

  /** A grouped text of at most three characters is a plain run of digits. */
  lemma GroupedShort(s: string)
    requires Grouped(s) && |s| <= 3
    ensures AllDigits(s) && ',' !in s
  {
    forall k | 0 <= k < |s|
      ensures s[k] != ',' && IsDigit(s[k])
    {
      assert 1 <= |s| - k <= 3;
    }
  }

  /** A longer grouped text is a grouped text with no leading zero, a comma and three
      digits. */
  lemma GroupedLong(s: string)
    requires Grouped(s) && |s| > 3
    ensures |s| >= 5 && s == s[..|s| - 4] + "," + s[|s| - 3..]
    ensures Grouped(s[..|s| - 4]) && s[0] != '0'
    ensures AllDigits(s[|s| - 3..])
  {
    assert (|s| - 0) % 4 != 0;
    assert s[|s| - 4] == ',';
    var hi, lo := s[..|s| - 4], s[|s| - 3..];
    forall k | 0 <= k < |hi|
      ensures hi[k] == ',' <==> (|hi| - k) % 4 == 0
    {
      assert hi[k] == s[k] && |s| - k == (|hi| - k) + 4;
    }
    forall j | 0 <= j < 3
      ensures IsDigit(lo[j])
    {
      assert lo[j] == s[|s| - 3 + j] && 1 <= |s| - (|s| - 3 + j) <= 3;
    }
  }

  /** A text dropping whose commas leaves a run starting with a non-zero digit. */
  lemma WithoutLeading(s: string)
    requires |s| > 0 && IsDigit(s[0]) && s[0] != '0' && AllDigits(Without(s, ','))
    ensures |Without(s, ',')| > 0 && DigitsValue(Without(s, ',')) >= 1
  {
    assert Without(s, ',') == [s[0]] + Without(s[1..], ',');
    LeadingDigitPositive(Without(s, ','));
  }

  /** `,` grouping is the only grouped text of a number: a grouped text is the grouping of
      the number its digits denote. */
  lemma {:induction false} GroupedUnique(s: string)
    requires Grouped(s)
    ensures AllDigits(Without(s, ','))
    ensures GroupThousands(DigitsValue(Without(s, ','))) == s
    decreases |s|
  {
    if |s| <= 3 {
      GroupedShort(s);
      WithoutAbsent(s, ',');
      DigitsValueBound(s);
      assert Pow10(1) == 10 && Pow10(2) == 100 && Pow10(3) == 1000;
      NatStrOfDigits(s);
    } else {
      GroupedLong(s);
      var hi, lo := s[..|s| - 4], s[|s| - 3..];
      GroupedUnique(hi);
      var w := Without(hi, ',');
      WithoutGroup(hi, lo);
      DigitsValueAppend(w, lo);
      assert Pow10(3) == 1000;
      DigitsValueBound(lo);
      WithoutLeading(hi);
      var n := DigitsValue(Without(s, ','));
      DivideThousands(n, DigitsValue(w), DigitsValue(lo));
      PadDigitsOfDigits(lo);
      assert GroupThousands(n) == GroupThousands(n / 1000) + "," + PadDigits(n % 1000, 3);
    }
  }

  /** Dropping the commas of a group appended after a comma appends its digits. */
  lemma WithoutGroup(hi: string, lo: string)
    requires AllDigits(lo)
    ensures Without(hi + "," + lo, ',') == Without(hi, ',') + lo
  {
    WithoutAppend(hi + ",", lo, ',');
    WithoutAppend(hi, ",", ',');
    assert Without(",", ',') == [];
    assert ',' !in lo;
    WithoutAbsent(lo, ',');
  }

  /** A number written as thousands and a three-digit group divides back into them. */
  lemma DivideThousands(n: nat, high: nat, low: nat)
    requires low < 1000 && high >= 1 && n == high * 1000 + low
    ensures n / 1000 == high && n % 1000 == low && n >= 1000
  {
  }

  /** Dropping the commas of a grouped number gives back its digits. */
  lemma {:induction false} GroupThousandsValue(n: nat)
    ensures AllDigits(Without(GroupThousands(n), ','))
    ensures DigitsValue(Without(GroupThousands(n), ',')) == n
  {
    if n < 1000 {
      WithoutAbsent(NatStr(n), ',');
      NatStrRoundTrip(n);
    } else {
      var hi, lo := GroupThousands(n / 1000), PadDigits(n % 1000, 3);
      GroupThousandsValue(n / 1000);
      WithoutGroup(hi, lo);
      DigitsValueAppend(Without(hi, ','), lo);
      assert Pow10(3) == 1000;
      PadDigitsValue(n % 1000, 3);
    }
  }

  /** `fmt_currency(amount)` for an amount of `cents`: `$`, a minus sign for a negative
      amount, the grouped whole part, a point and two digits. */
  function FormatCurrency(cents: int): string {
    var magnitude: nat := if cents < 0 then -cents else cents;
    "$" + ((if cents < 0 then "-" else "") + (GroupThousands(magnitude / 100) + "." + PadDigits(magnitude % 100, 2)))
  }

  /** `fmt_currency(amount)` for an amount that may be `None`: `None` is written as a zero
      amount, and the text reads back as the amount, zero for `None`. */
  function FormatOptionalCurrency(cents: Option<int>): (s: string)
    ensures cents.None? ==> s == "$0.00"
    ensures s == FormatCurrency(cents.GetOr(0))
    ensures ParseCurrency(s) == Some(cents.GetOr(0))
  {
    CurrencyRoundTrip(cents.GetOr(0));
    match cents
    case None => ZeroCurrency(); "$0.00"
    case Some(c) => FormatCurrency(c)
  }

  /** Zero is written `$0.00`. */
  lemma ZeroCurrency()
    ensures FormatCurrency(0) == "$0.00"
  {
    assert GroupThousands(0) == "0";
    assert PadDigits(0, 2) == "00";
  }

  /** Reads an amount in the form `FormatCurrency` writes, in cents; a minus sign before
      a zero amount, which an amount in whole cents never has, is refused. */
  function ParseCurrency(s: string): Option<int> {
    if |s| < 2 || s[0] != '$' then None
    else if s[1] == '-' then
      match ParseMagnitude(s[2..])
      case None => None
      case Some(v) => if v == 0 then None else Some(-(v as int))
    else ParseMagnitude(s[1..])
  }

  /** Reads a grouped whole part, a point and two fraction digits, in cents. */
  function ParseMagnitude(body: string): Option<nat> {
    if |body| < 4 || body[|body| - 3] != '.' then None
    else ParseParts(body[..|body| - 3], body[|body| - 2..])
  }

  /** Reads a whole part grouped as `,` groups it, commas dropped, and the fraction
      digits, in cents. */
  function ParseParts(grouped: string, fraction: string): Option<nat> {
    var whole := Without(grouped, ',');
    if !Grouped(grouped) || !AllDigits(whole) || !AllDigits(fraction) then None
    else Some(DigitsValue(whole) * 100 + DigitsValue(fraction))
  }

  /** `ParseMagnitude` splits at the point: the parts are read by `ParseParts`. */
  lemma ParseMagnitudeParts(g: string, f: string)
    requires |g| > 0 && |f| == 2
    ensures ParseMagnitude(g + "." + f) == ParseParts(g, f)
  {
    var body := g + "." + f;
    assert |body| == |g| + 3 && body[|g|] == '.';
    assert body[..|g|] == g;
    assert body[|g| + 1..] == f;
  }

  /** `ParseCurrency` reads the sign and leaves the rest to `ParseMagnitude`. */
  lemma ParseCurrencySign(negative: bool, body: string)
    requires |body| > 0 && body[0] != '-'
    ensures ParseCurrency("$" + ((if negative then "-" else "") + body)) ==
      match ParseMagnitude(body)
      case None => None
      case Some(v) => if negative && v == 0 then None else Some(if negative then -(v as int) else v as int)
  {
    var sign := if negative then "-" else "";
    var s := "$" + (sign + body);
    assert s[1] == (sign + body)[0];
    assert (if negative then s[2..] else s[1..]) == body;
  }

  /** The grouped whole part and the two fraction digits read back as one amount. */
  lemma MagnitudeRoundTrip(whole: nat, fraction: nat)
    requires fraction < 100
    ensures ParseMagnitude(GroupThousands(whole) + "." + PadDigits(fraction, 2)) == Some(whole * 100 + fraction)
  {
    var g, f := GroupThousands(whole), PadDigits(fraction, 2);
    GroupThousandsValue(whole);
    assert Pow10(2) == 100;
    PadDigitsValue(fraction, 2);
    ParseMagnitudeParts(g, f);
    assert DigitsValue(Without(g, ',')) == whole && DigitsValue(f) == fraction;
    assert ParseParts(g, f) == Some(whole * 100 + fraction);
  }

  lemma Recombine(m: nat, whole: nat, fraction: nat)
    requires whole == m / 100 && fraction == m % 100
    ensures whole * 100 + fraction == m
  {
  }

  /** Every amount comes back from its formatted text. */
  lemma CurrencyRoundTrip(cents: int)
    ensures ParseCurrency(FormatCurrency(cents)) == Some(cents)
  {
    var magnitude: nat := if cents < 0 then -cents else cents;
    var whole, fraction := magnitude / 100, magnitude % 100;
    var g := GroupThousands(whole);
    var body := g + "." + PadDigits(fraction, 2);
    var text := FormatCurrency(cents);
    assert text == "$" + ((if cents < 0 then "-" else "") + body);
    assert body[0] == g[0];
    MagnitudeRoundTrip(whole, fraction);
    Recombine(magnitude, whole, fraction);
    assert ParseMagnitude(body) == Some(magnitude);
    ParseCurrencySign(cents < 0, body);
    assert ParseCurrency(text) == Some(if cents < 0 then -(magnitude as int) else magnitude as int);
  }

  /** The only text of a magnitude that `ParseMagnitude` reads is the one `fmt_currency`
      writes for it. */
  lemma MagnitudeCanonical(body: string, v: nat)
    requires ParseMagnitude(body) == Some(v)
    ensures body == GroupThousands(v / 100) + "." + PadDigits(v % 100, 2)
  {
    var g, f := body[..|body| - 3], body[|body| - 2..];
    assert body == g + "." + f;
    PartsCanonical(g, f, v);
  }

  /** The parts `ParseParts` reads as `v` are the grouped whole dollars and the two
      padded cent digits of `v`. */
  lemma PartsCanonical(g: string, f: string, v: nat)
    requires |f| == 2 && ParseParts(g, f) == Some(v)
    ensures g == GroupThousands(v / 100) && f == PadDigits(v % 100, 2)
  {
    GroupedUnique(g);
    DigitsValueBound(f);
    assert Pow10(2) == 100;
    PadDigitsOfDigits(f);
    Recombine(v, v / 100, v % 100);
    DivideParts(v, DigitsValue(Without(g, ',')), DigitsValue(f));
  }

  /** The whole and the fraction of a number of cents are its quotient and remainder. */
  lemma DivideParts(v: nat, whole: nat, fraction: nat)
    requires fraction < 100 && v == whole * 100 + fraction
    ensures v / 100 == whole && v % 100 == fraction
  {
  }

  /** `fmt_currency`'s text is exactly the text that reads as its amount: a text reads as
      `cents` if and only if it is `FormatCurrency(cents)`, so the sign, the grouping
      commas and the two fraction digits are all where `fmt_currency` puts them. */
  lemma CurrencyExactly(s: string, cents: int)
    ensures ParseCurrency(s) == Some(cents) <==> s == FormatCurrency(cents)
  {
    if s == FormatCurrency(cents) {
      CurrencyRoundTrip(cents);
    }
    if ParseCurrency(s) == Some(cents) {
      var negative := s[1] == '-';
      var body := if negative then s[2..] else s[1..];
      var v := ParseMagnitude(body).value;
      MagnitudeCanonical(body, v);
      var magnitude: nat := if cents < 0 then -cents else cents;
      assert magnitude == v && (cents < 0 <==> negative);
      assert s == "$" + ((if negative then "-" else "") + body);
    }
  }

  /** A calendar date. */
  datatype Date = Date(year: nat, month: nat, day: nat)

  /** The dates `datetime` represents. */
  predicate ValidDate(d: Date) {
    1 <= d.year <= 9999 && 1 <= d.month <= 12 && 1 <= d.day <= 31
  }

  /** `fmt_date(dt)` for a date: `dt.strftime("%Y-%m-%d")`. */
  function FormatDate(d: Date): (s: string)
    ensures |s| == 10 && s[4] == '-' && s[7] == '-'
  {
    PadDigits(d.year, 4) + "-" + PadDigits(d.month, 2) + "-" + PadDigits(d.day, 2)
  }

  /** `fmt_date(dt)`: the empty string for a missing date; a valid date reads back from
      its text. */
  function FormatOptionalDate(d: Option<Date>): (s: string)
    ensures d.None? ==> s == ""
    ensures d.Some? ==> s == FormatDate(d.value)
    ensures d.Some? && ValidDate(d.value) ==> ParseDate(s) == d
  {
    match d
    case None => ""
    case Some(x) => if ValidDate(x) then DateRoundTrip(x); FormatDate(x) else FormatDate(x)
  }

  /** Reads a `YYYY-MM-DD` date. */
  function ParseDate(s: string): Option<Date> {
    if |s| != 10 || s[4] != '-' || s[7] != '-' then None
    else if !AllDigits(s[..4]) || !AllDigits(s[5..7]) || !AllDigits(s[8..]) then None
    else Some(Date(DigitsValue(s[..4]), DigitsValue(s[5..7]), DigitsValue(s[8..])))
  }

  /** Every valid date comes back from its formatted text. */
  lemma DateRoundTrip(d: Date)
    requires ValidDate(d)
    ensures ParseDate(FormatDate(d)) == Some(d)
  {
    var s := FormatDate(d);
    assert s[..4] == PadDigits(d.year, 4);
    assert s[5..7] == PadDigits(d.month, 2);
    assert s[8..] == PadDigits(d.day, 2);
    assert Pow10(4) == 10000 && Pow10(2) == 100;
    PadDigitsValue(d.year, 4);
    PadDigitsValue(d.month, 2);
    PadDigitsValue(d.day, 2);
  }
}
