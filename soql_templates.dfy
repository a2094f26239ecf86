/** The four `SOQLBuilder` templates (fundraising_mcp_server.py:241-286): fixed SOQL text
    with integers rendered by `str()` spliced in. Each template is a fixed prefix, one or
    two rendered integers separated by fixed text, and `" LIMIT "` with the limit at the
    end; the lemmas read the parameters back from the text. */
module SoqlTemplates {
  import opened Text

  /** DEFAULT_LIMIT (fundraising_mcp_server.py:65). */
  const DefaultLimit: int := 25

  const LimitClause: string := " LIMIT "

  const LapsedPrefix: string :=
    "SELECT Id, Name, Email, "
    + "(SELECT SUM(Amount) total FROM Opportunities WHERE IsWon=true) LifetimeGiving, "
    + "(SELECT MAX(CloseDate) lastGiftDate FROM Opportunities WHERE IsWon=true) LastGiftDate "
    + "FROM Contact "
    + "WHERE Id IN (SELECT ContactId FROM OpportunityContactRole WHERE Opportunity.IsWon=true) "
    + "AND Id NOT IN (SELECT ContactId FROM OpportunityContactRole WHERE Opportunity.IsWon=true "
    + "AND Opportunity.CloseDate = LAST_N_DAYS:"

  const MajorPrefix: string :=
    "SELECT Id, Name, Email, "
    + "(SELECT SUM(Amount) total FROM Opportunities WHERE IsWon=true) LifetimeGiving "
    + "FROM Contact "
    + "WHERE Id IN (SELECT ContactId FROM OpportunityContactRole WHERE Opportunity.IsWon=true) "
    + "AND Id IN (SELECT ContactId FROM OpportunityContactRole WHERE Opportunity.IsWon=true "
    + "GROUP BY ContactId HAVING SUM(Opportunity.Amount) > "

  const RecentPrefix: string :=
    "SELECT Id, Name, Email, "
    + "(SELECT MAX(CloseDate) lastGiftDate FROM Opportunities WHERE IsWon=true AND CloseDate = LAST_N_DAYS:"

  const RecentMiddle: string :=
    ") LastGiftDate "
    + "FROM Contact WHERE Id IN (SELECT ContactId FROM OpportunityContactRole WHERE "
    + "Opportunity.IsWon=true AND Opportunity.CloseDate = LAST_N_DAYS:"

  const FirstTimeQuery: string :=
    "SELECT Id, Name, Email FROM Contact WHERE "
    + "Id IN (SELECT ContactId FROM OpportunityContactRole WHERE Opportunity.IsWon=true "
    + "GROUP BY ContactId HAVING COUNT(Opportunity.Id) = 1)"

  /** `prefix`, the integer `x`, a closing parenthesis and the limit clause. */
  function OneParameter(prefix: string, x: int, limit: int): string {
    prefix + (IntStr(x) + (")" + LimitClause) + IntStr(limit))
  }

  /** `SOQLBuilder.lapsed_donors(months, limit)`: no won gift in the last `months*30` days. */
  function LapsedDonors(months: int, limit: int): string {
    OneParameter(LapsedPrefix, months * 30, limit)
  }

  /** `int(amount)` for a non-negative amount given in cents: the whole dollars. */
  function WholeDollars(amount: nat): (d: nat)
    ensures d * 100 <= amount < d * 100 + 100
  {
    amount / 100
  }

  /** `SOQLBuilder.major_donors_over(amount, limit)`, with the amount in cents. */
  function MajorDonorsOver(amount: nat, limit: int): string {
    OneParameter(MajorPrefix, WholeDollars(amount), limit)
  }

  /** The `LAST_N_DAYS` window of the recent-donors template: `max(1, months*30)`. */
  function RecentDays(months: int): (days: int)
    ensures days >= 1
    ensures months >= 1 ==> days == months * 30
    ensures months < 1 ==> days == 1
  {
    if months * 30 > 1 then months * 30 else 1
  }

  /** `SOQLBuilder.recent_donors_last_n_months(months, limit)`. */
  function RecentDonors(months: int, limit: int): string {
    var days := RecentDays(months);
    RecentPrefix + (IntStr(days) + RecentMiddle + OneParameter("", days, limit))
  }

  /** `SOQLBuilder.first_time_donors(limit)`. */
  function FirstTimeDonors(limit: int): string {
    FirstTimeQuery + LimitClause + IntStr(limit)
  }

  lemma OneParameterEndsWithLimit(prefix: string, x: int, limit: int)
    ensures EndsWith(OneParameter(prefix, x, limit), LimitClause + IntStr(limit))
  {
    var tail := LimitClause + IntStr(limit);
    Regroup(IntStr(x), ")", LimitClause, IntStr(limit));
    EndsWithAppended(IntStr(x) + ")", tail);
    EndsWithPrepended(prefix, (IntStr(x) + ")") + tail, tail);
  }

  /** Every template ends with the limit clause. */
  lemma EndsWithLimit(months: int, amount: nat, limit: int)
    ensures EndsWith(LapsedDonors(months, limit), LimitClause + IntStr(limit))
    ensures EndsWith(MajorDonorsOver(amount, limit), LimitClause + IntStr(limit))
    ensures EndsWith(RecentDonors(months, limit), LimitClause + IntStr(limit))
    ensures EndsWith(FirstTimeDonors(limit), LimitClause + IntStr(limit))
  {
    OneParameterEndsWithLimit(LapsedPrefix, months * 30, limit);
    OneParameterEndsWithLimit(MajorPrefix, WholeDollars(amount), limit);
    RecentEndsWithLimit(months, limit);
    FirstTimeEndsWithLimit(limit);
  }

  lemma RecentEndsWithLimit(months: int, limit: int)
    ensures EndsWith(RecentDonors(months, limit), LimitClause + IntStr(limit))
  {
    var days := RecentDays(months);
    var tail, last := LimitClause + IntStr(limit), OneParameter("", days, limit);
    var middle := IntStr(days) + RecentMiddle;
    OneParameterEndsWithLimit("", days, limit);
    EndsWithPrepended(middle, last, tail);
    EndsWithPrepended(RecentPrefix, middle + last, tail);
  }

  lemma FirstTimeEndsWithLimit(limit: int)
    ensures EndsWith(FirstTimeDonors(limit), LimitClause + IntStr(limit))
  {
    var tail := LimitClause + IntStr(limit);
    Associate(FirstTimeQuery, LimitClause, IntStr(limit));
    EndsWithAppended(FirstTimeQuery, tail);
  }

  /** The integer and the limit of a one-parameter template can be read back from it. */
  lemma OneParameterInjective(prefix: string, x1: int, l1: int, x2: int, l2: int)
    requires OneParameter(prefix, x1, l1) == OneParameter(prefix, x2, l2)
    ensures x1 == x2 && l1 == l2
  {
    var m := ")" + LimitClause;
    assert m[0] == ')';
    SplitIntAfter(prefix, x1, x2, m, IntStr(l1), IntStr(l2));
    IntStrInjective(l1, l2);
  }

  /** Two lapsed-donor queries are equal exactly when their month counts and limits are. */
  lemma LapsedDonorsInjective(m1: int, l1: int, m2: int, l2: int)
    ensures LapsedDonors(m1, l1) == LapsedDonors(m2, l2) <==> m1 == m2 && l1 == l2
  {
    if LapsedDonors(m1, l1) == LapsedDonors(m2, l2) {
      OneParameterInjective(LapsedPrefix, m1 * 30, l1, m2 * 30, l2);
    }
  }

  /** Two major-donor queries are equal exactly when their amounts have the same whole
      dollars and their limits are equal: the cents never reach the query. */
  lemma MajorDonorsOverInjective(a1: nat, l1: int, a2: nat, l2: int)
    ensures MajorDonorsOver(a1, l1) == MajorDonorsOver(a2, l2) <==>
              WholeDollars(a1) == WholeDollars(a2) && l1 == l2
  {
    if MajorDonorsOver(a1, l1) == MajorDonorsOver(a2, l2) {
      OneParameterInjective(MajorPrefix, WholeDollars(a1), l1, WholeDollars(a2), l2);
    }
  }

  /** Two recent-donor queries are equal exactly when their clamped windows and limits are:
      every month count below one gives the same one-day query. */
  lemma RecentDonorsInjective(m1: int, l1: int, m2: int, l2: int)
    ensures RecentDonors(m1, l1) == RecentDonors(m2, l2) <==>
              RecentDays(m1) == RecentDays(m2) && l1 == l2
  {
    if RecentDonors(m1, l1) == RecentDonors(m2, l2) {
      var d1, d2 := RecentDays(m1), RecentDays(m2);
      assert RecentMiddle[0] == ')';
      SplitIntAfter(RecentPrefix, d1, d2, RecentMiddle, OneParameter("", d1, l1), OneParameter("", d2, l2));
      OneParameterInjective("", d1, l1, d2, l2);
    }
  }

  /** Two first-time-donor queries are equal exactly when their limits are. */
  lemma FirstTimeDonorsInjective(l1: int, l2: int)
    ensures FirstTimeDonors(l1) == FirstTimeDonors(l2) <==> l1 == l2
  {
    if FirstTimeDonors(l1) == FirstTimeDonors(l2) {
      PrefixCancel(FirstTimeQuery + LimitClause, IntStr(l1), IntStr(l2));
      IntStrInjective(l1, l2);
    }
  }
}
