/** `nl_to_soql` (fundraising_mcp_server.py:332-377): a first-match-wins decision list
    over the lower-cased, stripped question that returns a query and a fixed
    explanation of it. */
module QuestionRouter {
  import opened Options
  import opened Text
  import opened PhraseScan
  import opened SoqlTemplates

  datatype Answer = Answer(soql: string, explanation: string)

  /** Written in two pieces so that the verifier sees its `SELECT COUNT` start. */
  const CountQuery: string := "SELECT COUNT" + "() FROM Opportunity WHERE IsWon = true AND CloseDate = THIS_MONTH"
  const CountExplanation: string := "Count of won opportunities in the current month"

  const TopDonorsPrefix: string :=
    "SELECT ContactId, SUM(Opportunity.Amount) total "
    + "FROM OpportunityContactRole "
    + "WHERE Opportunity.IsWon = true AND Opportunity.CloseDate = THIS_QUARTER "
    + "GROUP BY ContactId ORDER BY SUM(Opportunity.Amount) DESC"
  const TopDonorsExplanation: string := "Top donors this quarter by total won amount"

  const LapsedSinceLastYearPrefix: string :=
    "SELECT Id, Name, Email FROM Contact WHERE Id IN ("
    + "SELECT ContactId FROM OpportunityContactRole WHERE Opportunity.IsWon=true AND Opportunity.CloseDate = LAST_YEAR) "
    + "AND Id NOT IN (SELECT ContactId FROM OpportunityContactRole WHERE Opportunity.IsWon=true AND Opportunity.CloseDate = THIS_YEAR)"
  const LapsedSinceLastYearExplanation: string := "Contacts who gave last year but not yet this year"

  const RecencyExplanationPrefix: string := "Contacts with gifts in the last "
  const RecencyExplanationSuffix: string := " months"

  const FallbackExplanation: string := "Fallback: recent donors in the last 6 months"

  /** `top\s+(\d+)\s+donor`. */
  const TopPattern: Phrase := Phrase("top", "top", 1, "donor", false)

  /** `last\s*(\d+)\s*months?`: matching `month` is all the search needs. */
  const RecencyPattern: Phrase := Phrase("last", "last", 0, "month", false)

  /** No line break in `q[i..j]`: the stretch `.` may cover. */
  predicate NoNewline(q: string, i: nat, j: nat) {
    forall k :: i <= k < j && k < |q| ==> q[k] != '\n'
  }

  /** `this\s+month` matches at `j`. */
  predicate ThisMonthAt(q: string, j: nat) {
    j + 4 <= |q| && q[j..j + 4] == "this" &&
    var c := SpacesEnd(q, j + 4);
    c > j + 4 && c + 5 <= |q| && q[c..c + 5] == "month"
  }

  /** End of `how\s+many\s+(donation|gift)` at `i`, if it matches there. The blank runs are
      greedy because `m` and the first letters of `donation` and `gift` are not blanks. */
  function HowManyEnd(q: string, i: nat): Option<nat>
    requires i <= |q|
  {
    if !(i + 3 <= |q| && q[i..i + 3] == "how") then None
    else
      var a := SpacesEnd(q, i + 3);
      if !(a > i + 3 && a + 4 <= |q| && q[a..a + 4] == "many") then None
      else
        var b := SpacesEnd(q, a + 4);
        if b == a + 4 then None
        else if b + 8 <= |q| && q[b..b + 8] == "donation" then Some(b + 8)
        else if b + 4 <= |q| && q[b..b + 4] == "gift" then Some(b + 4)
        else None
  }

  /** `how\s+many\s+(donation|gift)s?.*this\s+month` matches at `i`. The optional `s` can
      as well be taken by `.*`, so it does not constrain where `this month` may start. */
  predicate CountQuestionAt(q: string, i: nat)
    requires i <= |q|
  {
    match HowManyEnd(q, i)
    case None => false
    case Some(e) => exists j :: e <= j <= |q| && NoNewline(q, e, j) && ThisMonthAt(q, j)
  }

  /** `re.search(r"how\s+many\s+(donation|gift)s?.*this\s+month", q)` succeeds. */
  predicate IsCountQuestion(q: string) {
    exists i :: 0 <= i <= |q| && CountQuestionAt(q, i)
  }

  predicate IsTopQuarter(q: string) {
    Contains(q, "top") && Contains(q, "donor") && (Contains(q, "quarter") || Contains(q, "this quarter"))
  }

  predicate IsLapsedSinceLastYear(q: string) {
    (Contains(q, "last year") || Contains(q, "this time last year")) &&
    (Contains(q, "hasn't given since") || Contains(q, "not since") || Contains(q, "haven't given since"))
  }

  predicate IsRecency(q: string) {
    (Contains(q, "donor") || Contains(q, "gift")) && Search(q, RecencyPattern).Some?
  }

  /** The number of a top-donors query: `N` of the first `top N donor`, else 10. */
  function TopN(q: string): (n: nat)
    ensures Search(q, TopPattern).None? ==> n == 10
    ensures Search(q, TopPattern).Some? ==> n == Search(q, TopPattern).value
  {
    Search(q, TopPattern).GetOr(10)
  }

  /** `max(1, int(m.group(1)))` for the recency pattern. */
  function RecencyMonths(q: string): (months: nat)
    requires Search(q, RecencyPattern).Some?
    ensures months >= 1
    ensures Search(q, RecencyPattern).value >= 1 ==> months == Search(q, RecencyPattern).value
    ensures Search(q, RecencyPattern).value == 0 ==> months == 1
  {
    var n := Search(q, RecencyPattern).value;
    if n > 1 then n else 1
  }

  function RecencyExplanation(months: int): string {
    RecencyExplanationPrefix + (IntStr(months) + RecencyExplanationSuffix)
  }

  /** The decision list on the normalised question. */
  function Route(q: string, limit: int): Answer {
    if IsCountQuestion(q) then Answer(CountQuery, CountExplanation)
    else if IsTopQuarter(q) then Answer(TopDonorsPrefix + (LimitClause + IntStr(TopN(q))), TopDonorsExplanation)
    else if IsLapsedSinceLastYear(q) then
      Answer(LapsedSinceLastYearPrefix + (LimitClause + IntStr(limit)), LapsedSinceLastYearExplanation)
    else if IsRecency(q) then
      var months := RecencyMonths(q);
      Answer(RecentDonors(months, limit), RecencyExplanation(months))
    else Answer(RecentDonors(6, limit), FallbackExplanation)
  }

  /** `nl_to_soql(question, default_limit)`. */
  function NlToSoql(question: string, limit: int): Answer {
    Route(Strip(Lower(question)), limit)
  }

  /** The branches are tried in a fixed order and the first that applies decides the
      explanation; the explanations tell the branches apart. */
  lemma RouteOrder(q: string, limit: int)
    ensures var e := Route(q, limit).explanation;
      && (e == CountExplanation <==> IsCountQuestion(q))
      && (e == TopDonorsExplanation <==> !IsCountQuestion(q) && IsTopQuarter(q))
      && (e == LapsedSinceLastYearExplanation <==>
            !IsCountQuestion(q) && !IsTopQuarter(q) && IsLapsedSinceLastYear(q))
      && (StartsWith(e, RecencyExplanationPrefix) <==>
            !IsCountQuestion(q) && !IsTopQuarter(q) && !IsLapsedSinceLastYear(q) && IsRecency(q))
      && (e == FallbackExplanation <==>
            !IsCountQuestion(q) && !IsTopQuarter(q) && !IsLapsedSinceLastYear(q) && !IsRecency(q))
  {
    if IsRecency(q) {
      ExplanationsDiffer(RecencyMonths(q));
    } else {
      ExplanationsDiffer(6);
    }
  }

  /** The five explanations are pairwise different, and only the recency ones start with
      the recency prefix. */
  lemma ExplanationsDiffer(m: int)
    ensures StartsWith(RecencyExplanation(m), RecencyExplanationPrefix)
    ensures !StartsWith(CountExplanation, RecencyExplanationPrefix)
    ensures !StartsWith(TopDonorsExplanation, RecencyExplanationPrefix)
    ensures !StartsWith(LapsedSinceLastYearExplanation, RecencyExplanationPrefix)
    ensures !StartsWith(FallbackExplanation, RecencyExplanationPrefix)
    ensures CountExplanation != TopDonorsExplanation && CountExplanation != LapsedSinceLastYearExplanation
    ensures CountExplanation != FallbackExplanation && TopDonorsExplanation != LapsedSinceLastYearExplanation
    ensures TopDonorsExplanation != FallbackExplanation && LapsedSinceLastYearExplanation != FallbackExplanation
  {
    var e := RecencyExplanation(m);
    assert e[..|RecencyExplanationPrefix|] == RecencyExplanationPrefix;
    assert CountExplanation[3] != RecencyExplanationPrefix[3];
    assert TopDonorsExplanation[0] != RecencyExplanationPrefix[0];
    assert LapsedSinceLastYearExplanation[10] != RecencyExplanationPrefix[10];
    assert FallbackExplanation[0] != RecencyExplanationPrefix[0];
    assert TopDonorsExplanation[0] == 'T';
  }

  /** Every answer but the count ends with a limit clause: the top-donors limit `TopN(q)`,
      and `limit` for the others. */
  lemma AnswerLimit(q: string, limit: int)
    requires !IsCountQuestion(q)
    ensures EndsWith(Route(q, limit).soql, LimitClause + IntStr(if IsTopQuarter(q) then TopN(q) else limit))
  {
    if IsTopQuarter(q) {
      EndsWithAppended(TopDonorsPrefix, LimitClause + IntStr(TopN(q)));
    } else if IsLapsedSinceLastYear(q) {
      EndsWithAppended(LapsedSinceLastYearPrefix, LimitClause + IntStr(limit));
    } else {
      EndsWithLimit(if IsRecency(q) then RecencyMonths(q) else 6, 0, limit);
    }
  }

  /** A recency answer states the month count its query searches: the explanation reads
      `m` months and both `LAST_N_DAYS` windows of the query are `30 * m` days. */
  lemma RecencyAnswer(q: string, limit: int)
    requires !IsCountQuestion(q) && !IsTopQuarter(q) && !IsLapsedSinceLastYear(q) && IsRecency(q)
    ensures exists m :: m >= 1 && Route(q, limit).explanation == RecencyExplanation(m) &&
              Route(q, limit).soql == RecentDonors(m, limit) && RecentDays(m) == 30 * m
  {
    var m := RecencyMonths(q);
    assert Route(q, limit).explanation == RecencyExplanation(m);
  }

  /** The month count can be read back from a recency explanation. */
  lemma RecencyExplanationInjective(m1: int, m2: int)
    ensures RecencyExplanation(m1) == RecencyExplanation(m2) <==> m1 == m2
  {
    if RecencyExplanation(m1) == RecencyExplanation(m2) {
      var m := RecencyExplanationSuffix;
      assert m[0] == ' ';
      assert IntStr(m1) + m == IntStr(m1) + m + [];
      assert IntStr(m2) + m == IntStr(m2) + m + [];
      SplitIntAfter(RecencyExplanationPrefix, m1, m2, m, [], []);
    }
  }
}
