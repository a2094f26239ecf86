/** `parse_timeframe` (fundraising_mcp_server.py:93-96, 120-136): a "last/past N
    months" or "last/past N years" window ending now.

    MONTHS_PATTERN is `(last|past)\s*(\d+)\s*(month|months)` and YEARS_PATTERN the
    same with `year`, both case-insensitive; a match of `month` is all the first
    needs, whether or not an `s` follows.

    The clock and the calendar arithmetic of `relativedelta` are parameters:
    `now` is an instant in seconds and `back(now, span)` is the instant `span`
    before it. */
module TimeframeParser {
  import opened Options
  import opened Text
  import opened PhraseScan

  /** Seconds since the epoch. */
  type Instant = int

  /** The argument of `relativedelta`. */
  datatype Span = Months(months: nat) | Years(years: nat)

  /** The `Timeframe` dataclass (fundraising_mcp_server.py:86-89). */
  datatype Timeframe = Timeframe(start: Instant, end: Instant)

  const MonthsPattern: Phrase := Phrase("last", "past", 0, "month", true)
  const YearsPattern: Phrase := Phrase("last", "past", 0, "year", true)

  /** `(last|past)\s*<digit>\s*<word>` matches at `i`: the literal SIX_MONTHS_PATTERN
      (`digit` '6', `word` "months") and ONE_YEAR_PATTERN ('1', "year"). */
  predicate LiteralAt(t: string, i: nat, digit: char, word: string)
    requires i <= |t|
  {
    LeadAt(t, i, MonthsPattern) && i + 4 <= |t| &&
    var a := SpacesEnd(t, i + 4);
    a < |t| && t[a] == digit && WordAt(t, SpacesEnd(t, a + 1), word, true)
  }

  /** `PATTERN.search(t)` for a literal pattern. */
  predicate SearchLiteral(t: string, digit: char, word: string) {
    exists i :: 0 <= i <= |t| && LiteralAt(t, i, digit, word)
  }

  lemma WordPrefix(t: string, c: nat, w: string, n: nat)
    requires WordAt(t, c, w, true) && n <= |w|
    ensures WordAt(t, c, w[..n], true)
  {
    assert Lower(t[c..c + n]) == Lower(t[c..c + |w|])[..n];
  }

  /** Wherever a literal pattern matches, the general pattern for `unit` matches too and reads
      the literal's digit. */
  lemma LiteralIsWindow(t: string, i: nat, digit: char, word: string, p: Phrase)
    requires i <= |t| && IsDigit(digit) && ValidPhrase(p)
    requires p.lead == "last" && p.alt == "past" && p.minGap == 0 && p.ignoreCase
    requires |p.unit| <= |word| && word[..|p.unit|] == p.unit
    requires LiteralAt(t, i, digit, word)
    ensures NumberAt(t, i, p) == Some(DigitValue(digit))
  {
    var a := SpacesEnd(t, i + 4);
    var c := SpacesEnd(t, a + 1);
    LiteralShape(t, i, digit, word, p);
    NumberAtComplete(t, i, a, a + 1, c, p);
    SingleDigit(t, a);
  }

  /** The match of a literal pattern is a match of the general pattern, one digit long. */
  lemma LiteralShape(t: string, i: nat, digit: char, word: string, p: Phrase)
    requires i <= |t| && IsDigit(digit)
    requires p.lead == "last" && p.alt == "past" && p.minGap == 0 && p.ignoreCase
    requires |p.unit| <= |word| && word[..|p.unit|] == p.unit
    requires LiteralAt(t, i, digit, word)
    ensures i + 4 <= SpacesEnd(t, i + 4) < |t| && t[SpacesEnd(t, i + 4)] == digit
    ensures PhraseShape(t, i, SpacesEnd(t, i + 4), SpacesEnd(t, i + 4) + 1, SpacesEnd(t, SpacesEnd(t, i + 4) + 1), p)
  {
    var a := SpacesEnd(t, i + 4);
    var c := SpacesEnd(t, a + 1);
    assert LeadAt(t, i, p) by {
      assert p.lead == MonthsPattern.lead && p.alt == MonthsPattern.alt;
      assert p.ignoreCase == MonthsPattern.ignoreCase;
    }
    WordPrefix(t, c, word, |p.unit|);
  }

  lemma SingleDigit(t: string, a: nat)
    requires a < |t| && IsDigit(t[a])
    ensures AllDigits(t[a..a + 1]) && DigitsValue(t[a..a + 1]) == DigitValue(t[a])
  {
    assert t[a..a + 1] == [t[a]];
    assert [t[a]][..0] == [];
  }

  /** `back` never moves forward in time: subtracting months or years gives an earlier or
      equal instant. */
  ghost predicate GoesBack(back: (Instant, Span) -> Instant) {
    forall now, span :: back(now, span) <= now
  }

  /** `parse_timeframe(text)` at instant `now`, with `back` doing the calendar arithmetic of
      `now - relativedelta(...)`. The four patterns are tried in the source's order. */
  function ParseTimeframe(text: string, now: Instant, back: (Instant, Span) -> Instant): (r: Option<Timeframe>)
    ensures r.Some? ==> r.value.end == now
    ensures r.Some? && GoesBack(back) ==> r.value.start <= r.value.end
  {
    match Search(text, MonthsPattern)
    case Some(n) => Some(Timeframe(back(now, Months(n)), now))
    case None =>
      match Search(text, YearsPattern)
      case Some(n) => Some(Timeframe(back(now, Years(n)), now))
      case None =>
        if SearchLiteral(text, '6', "months") then Some(Timeframe(back(now, Months(6)), now))
        else if SearchLiteral(text, '1', "year") then Some(Timeframe(back(now, Years(1)), now))
        else None
  }

  /** The literal six-month and one-year rules never decide the result: any text they match
      was already matched by the general months or years pattern. So the result is the
      months window if there is one, else the years window, else `None`. */
  lemma LiteralRulesUnreachable(text: string, now: Instant, back: (Instant, Span) -> Instant)
    ensures SearchLiteral(text, '6', "months") ==> Search(text, MonthsPattern).Some?
    ensures SearchLiteral(text, '1', "year") ==> Search(text, YearsPattern).Some?
    ensures ParseTimeframe(text, now, back) ==
      match Search(text, MonthsPattern)
      case Some(n) => Some(Timeframe(back(now, Months(n)), now))
      case None =>
        match Search(text, YearsPattern)
        case Some(n) => Some(Timeframe(back(now, Years(n)), now))
        case None => None
  {
    if SearchLiteral(text, '6', "months") {
      var i :| 0 <= i <= |text| && LiteralAt(text, i, '6', "months");
      LiteralIsWindow(text, i, '6', "months", MonthsPattern);
      SearchLeftmost(text, MonthsPattern, i);
    }
    if SearchLiteral(text, '1', "year") {
      var i :| 0 <= i <= |text| && LiteralAt(text, i, '1', "year");
      LiteralIsWindow(text, i, '1', "year", YearsPattern);
      SearchLeftmost(text, YearsPattern, i);
    }
  }

}
