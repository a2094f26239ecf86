/** The query text of `tool_get_donor_profile` (fundraising_mcp_server.py:541-551) and
    the COUNT() special case of `tool_run_soql` and `tool_ask_salesforce`
    (fundraising_mcp_server.py:461-462, 509-510). A SOQL string literal is read the way
    the query language reads it: a backslash escapes the next character and an unescaped
    quote closes it. */
module SoqlTools {
  import opened Options
  import opened Text
  import opened Formatting
  import opened Report
  import opened SoqlTemplates
  import opened QuestionRouter

  /** Where a string literal whose text starts at `i` ends: the index of its closing
      quote, or `|s|` when nothing closes it. */
  function LiteralEnd(s: string, i: nat): (e: nat)
    requires i <= |s|
    ensures i <= e <= |s|
    ensures e < |s| ==> s[e] == '\''
    decreases |s| - i
  {
    if i == |s| then |s|
    else if s[i] == '\'' then i
    else if s[i] == '\\' then (if i + 1 == |s| then |s| else LiteralEnd(s, i + 2))
    else LiteralEnd(s, i + 1)
  }

  /** A stretch with neither quotes nor backslashes leaves the literal open. */
  lemma {:induction false} PlainSkipped(s: string, i: nat, j: nat)
    requires i <= j <= |s|
    requires forall k :: i <= k < j ==> s[k] != '\'' && s[k] != '\\'
    ensures LiteralEnd(s, i) == LiteralEnd(s, j)
    decreases j - i
  {
    if i < j {
      PlainSkipped(s, i + 1, j);
    }
  }

  /** One character as it is written inside a literal. */
  function LiteralChar(c: char): (s: string)
    ensures 1 <= |s| <= 2
  {
    if c == '\\' then "\\\\" else if c == '\'' then "\\'" else [c]
  }

  /** A text written inside a literal: every backslash and quote escaped. */
  function LiteralText(t: string): string {
    if t == [] then [] else LiteralChar(t[0]) + LiteralText(t[1..])
  }

  /** The text a literal's body stands for. */
  function Unescape(s: string): string
    decreases |s|
  {
    if s == [] then []
    else if s[0] == '\\' && |s| >= 2 then [s[1]] + Unescape(s[2..])
    else [s[0]] + Unescape(s[1..])
  }

  /** An escaped text stands for the text itself. */
  lemma {:induction false} UnescapeLiteralText(t: string)
    ensures Unescape(LiteralText(t)) == t
  {
    if t != [] {
      var c, rest := LiteralChar(t[0]), LiteralText(t[1..]);
      var s := c + rest;
      UnescapeLiteralText(t[1..]);
      if |c| == 2 {
        assert s[0] == '\\' && s[1] == t[0] && s[2..] == rest;
      } else {
        assert s[0] == t[0] && s[1..] == rest;
      }
    }
  }

  /** An escaped text never closes the literal it is written in. */
  lemma {:induction false} LiteralTextSkipped(s: string, i: nat, t: string)
    requires i + |LiteralText(t)| <= |s|
    requires forall k :: 0 <= k < |LiteralText(t)| ==> s[i + k] == LiteralText(t)[k]
    ensures LiteralEnd(s, i) == LiteralEnd(s, i + |LiteralText(t)|)
    decreases |t|
  {
    if t != [] {
      var c, rest := LiteralChar(t[0]), LiteralText(t[1..]);
      var n := |c|;
      assert LiteralText(t) == c + rest;
      assert s[i] == c[0] by { assert LiteralText(t)[0] == c[0]; }
      if n == 2 {
        assert s[i] == '\\' && i + 1 < |s|;
        assert LiteralEnd(s, i) == LiteralEnd(s, i + 2);
      } else {
        assert s[i] != '\'' && s[i] != '\\';
        assert LiteralEnd(s, i) == LiteralEnd(s, i + 1);
      }
      forall k | 0 <= k < |rest|
        ensures s[i + n + k] == rest[k]
      {
        assert LiteralText(t)[n + k] == rest[k];
      }
      LiteralTextSkipped(s, i + n, t[1..]);
    }
  }

  /** `identifier.replace("'", "\\'")`: quotes escaped, backslashes left as they are. */
  function QuoteEscaped(t: string): string {
    if t == [] then [] else (if t[0] == '\'' then "\\'" else [t[0]]) + QuoteEscaped(t[1..])
  }

  /** For a text without backslashes the quote-only escape is the full one. */
  lemma {:induction false} QuoteEscapedAgrees(t: string)
    requires forall k :: 0 <= k < |t| ==> t[k] != '\\'
    ensures QuoteEscaped(t) == LiteralText(t)
  {
    if t != [] {
      QuoteEscapedAgrees(t[1..]);
    }
  }

  /** `(003|005)[A-Za-z0-9]{12,18}`, the whole text. */
  predicate IdForm(s: string) {
    15 <= |s| <= 21 && (s[..3] == "003" || s[..3] == "005") && forall k :: 3 <= k < |s| ==> IsAlnum(s[k])
  }

  /** `re.match(r"^(003|005)[A-Za-z0-9]{12,18}$", identifier)`: `$` matches at the end and
      also before a line break that ends the text. */
  predicate IsRecordId(s: string) {
    IdForm(s) || (|s| > 0 && s[|s| - 1] == '\n' && IdForm(s[..|s| - 1]))
  }

  const IdOpen: string := "Id = '"
  const LikeOpen: string := "Name LIKE '%"
  const LikeClose: string := "%'"

  /** The condition of the profile query: the record with that Id, or the contacts whose
      name contains the identifier. */
  function WhereClause(identifier: string): string {
    if IsRecordId(identifier) then IdOpen + identifier + "'"
    else LikeOpen + (LiteralText(identifier) + LikeClose)
  }

  /** The name search as the tool writes it. */
  function QuoteEscapedWhere(identifier: string): string {
    LikeOpen + (QuoteEscaped(identifier) + LikeClose)
  }

  /** With the quote-only escape, the identifier made of a backslash and a quote closes
      the literal at index 14 of a 17-character condition, so `%'` falls outside it. */
  lemma QuoteEscapedBreaksOut()
    ensures var w := QuoteEscapedWhere("\\'");
      |w| == 17 && w[10] == '\'' && LiteralEnd(w, 11) == 14
  {
    var w := QuoteEscapedWhere("\\'");
    assert QuoteEscaped("\\'") == "\\\\'" by {
      assert QuoteEscaped("\\'"[1..]) == "\\'" + QuoteEscaped([]);
    }
    assert w == "Name LIKE '%\\\\'%'";
  }

  /** The identifier stays inside the literal it is written in: the literal opened before
      it is closed by the last character of the condition and by nothing earlier. */
  lemma WhereClauseClosed(identifier: string)
    ensures var w := WhereClause(identifier);
      var start := if IsRecordId(identifier) then |IdOpen| else |LikeOpen| - 1;
      start <= |w| && w[start - 1] == '\'' && LiteralEnd(w, start) == |w| - 1
  {
    if IsRecordId(identifier) {
      IdClauseClosed(identifier);
    } else {
      LikeClauseClosed(identifier);
    }
  }

  /** A record id holds neither quotes nor backslashes. */
  lemma RecordIdPlain(identifier: string)
    requires IsRecordId(identifier)
    ensures forall k :: 0 <= k < |identifier| ==> identifier[k] != '\'' && identifier[k] != '\\'
  {
    var n := |identifier|;
    if IdForm(identifier) {
      assert forall k :: 0 <= k < 3 ==> identifier[k] == identifier[..3][k];
    } else {
      var s := identifier[..n - 1];
      assert forall k :: 0 <= k < 3 ==> s[k] == s[..3][k];
      assert forall k :: 0 <= k < n - 1 ==> identifier[k] == s[k];
    }
  }

  lemma IdClauseClosed(identifier: string)
    requires IsRecordId(identifier)
    ensures var w := IdOpen + identifier + "'";
      w[|IdOpen| - 1] == '\'' && LiteralEnd(w, |IdOpen|) == |w| - 1
  {
    var w := IdOpen + identifier + "'";
    var n := |identifier|;
    RecordIdPlain(identifier);
    assert forall k :: 0 <= k < n ==> w[6 + k] == identifier[k];
    PlainSkipped(w, 6, 6 + n);
    assert w[6 + n] == '\'';
  }

  lemma LikeClauseClosed(identifier: string)
    ensures var w := LikeOpen + (LiteralText(identifier) + LikeClose);
      w[|LikeOpen| - 2] == '\'' && LiteralEnd(w, |LikeOpen| - 1) == |w| - 1
  {
    var body := LiteralText(identifier);
    var w := LikeOpen + (body + LikeClose);
    Enclosed(LikeOpen, body, LikeClose);
    assert w[|LikeOpen| - 1] == '%';
    assert LiteralEnd(w, |LikeOpen| - 1) == LiteralEnd(w, |LikeOpen|);
    LiteralTextSkipped(w, |LikeOpen|, identifier);
    assert w[|LikeOpen| + |body|] == '%' && w[|LikeOpen| + |body| + 1] == '\'';
  }

  /** Where the parts of `open + (body + close)` sit. */
  lemma Enclosed(open: string, body: string, close: string)
    ensures forall k :: 0 <= k < |open| ==> (open + (body + close))[k] == open[k]
    ensures forall k :: 0 <= k < |body| ==> (open + (body + close))[|open| + k] == body[k]
    ensures forall k :: 0 <= k < |close| ==> (open + (body + close))[|open| + |body| + k] == close[k]
  {
  }

  const ProfileSelect: string :=
    "SELECT Id, Name, Email, Phone, MailingCity, MailingState, "
    + "(SELECT Amount, CloseDate, StageName FROM Opportunities WHERE IsWon=true ORDER BY CloseDate DESC LIMIT 5) RecentGifts, "
    + "(SELECT SUM(Amount) total FROM Opportunities WHERE IsWon=true) LifetimeGiving "
    + "FROM Contact WHERE "

  /** The profile query for an identifier; `None` for the empty one, which the tool
      refuses. */
  function ProfileQuery(identifier: string): (q: Option<string>)
    ensures q.None? <==> identifier == []
    ensures q.Some? ==> |q.value| >= |ProfileSelect| + 8
    ensures q.Some? ==> StartsWith(q.value, ProfileSelect) && EndsWith(q.value, " LIMIT 1")
    ensures q.Some? ==> q.value[|ProfileSelect|..|q.value| - 8] == WhereClause(identifier)
  {
    if identifier == [] then None
    else
      var q := ProfileSelect + WhereClause(identifier) + " LIMIT 1";
      assert q[..|ProfileSelect|] == ProfileSelect;
      assert q[|q| - 8..] == " LIMIT 1";
      Some(q)
  }

  const CountStart: string := "select count"

  /** `res.get("records") == [] and "totalSize" in res`: a response with no rows and a
      total. */
  predicate CountShaped(res: Record) {
    "records" in res && res["records"] == Items([]) && "totalSize" in res
  }

  /** The count case: such a response to a query that starts with `select count` in any
      case. */
  predicate CountResponse(res: Record, q: string) {
    CountShaped(res) && StartsWith(Lower(q), CountStart)
  }

  /** `tool_run_soql`'s reply when the count case applies to the stripped query. */
  function RunSoqlCount(query: string, res: Record, repr: Value -> string): (r: Option<string>)
    ensures r.Some? <==> CountResponse(res, Strip(query))
  {
    var q := Strip(query);
    if CountResponse(res, q) then
      Some(Header("SOQL Count Result") + "\n- Count: " + Show(res["totalSize"], repr) + "\n- Query: `" + q + "`")
    else None
  }

  /** `tool_ask_salesforce`'s reply when the count case applies to the routed query. */
  function AskCount(question: string, limit: int, res: Record, repr: Value -> string): Option<string> {
    var a := NlToSoql(question, limit);
    if CountResponse(res, a.soql) then
      Some(Header("Answer") + "\n- " + a.explanation + "\n- Count: " + Show(res["totalSize"], repr) +
           "\n- SOQL: `" + a.soql + "`")
    else None
  }

  /** Lower-casing a prefix is the prefix of the lower-cased text. */
  lemma LowerPrefix(s: string, n: nat)
    requires n <= |s|
    ensures Lower(s)[..n] == Lower(s[..n])
  {
  }

  /** The count query starts with `select count` once lower-cased. */
  lemma CountQueryCounts()
    ensures StartsWith(Lower(CountQuery), CountStart)
  {
    assert CountQuery[..12] == "SELECT COUNT";
    LowerPrefix(CountQuery, 12);
    assert forall k :: 0 <= k < 12 ==> Lower("SELECT COUNT")[k] == CountStart[k];
  }

  /** A text whose character `k` differs from `CountStart`'s in any case does not start
      with it once lower-cased. */
  lemma NotCountAt(s: string, k: nat)
    requires k < 12 <= |s| && 'a' <= CountStart[k] <= 'z'
    requires s[k] != CountStart[k] && s[k] as int != CountStart[k] as int - 32
    ensures !StartsWith(Lower(s), CountStart)
  {
    assert Lower(s)[k] == ToLower(s[k]);
  }

  /** The other routed queries do not start with `select count`. */
  lemma OthersDoNotCount(x: string, limit: int, months: int)
    ensures !StartsWith(Lower(TopDonorsPrefix + x), CountStart)
    ensures !StartsWith(Lower(LapsedSinceLastYearPrefix + x), CountStart)
    ensures !StartsWith(Lower(RecentDonors(months, limit)), CountStart)
  {
    TopDoesNotCount(x);
    LapsedDoesNotCount(x);
    RecentDoesNotCount(months, limit);
  }

  lemma TopDoesNotCount(x: string)
    ensures !StartsWith(Lower(TopDonorsPrefix + x), CountStart)
  {
    assert CountStart[9] == 'u';
    assert TopDonorsPrefix[9] == 'n';
    var top := TopDonorsPrefix + x;
    assert top[9] == 'n';
    NotCountAt(top, 9);
  }

  lemma LapsedDoesNotCount(x: string)
    ensures !StartsWith(Lower(LapsedSinceLastYearPrefix + x), CountStart)
  {
    assert CountStart[7] == 'c';
    assert LapsedSinceLastYearPrefix[7] == 'I';
    var lapsed := LapsedSinceLastYearPrefix + x;
    assert lapsed[7] == 'I';
    NotCountAt(lapsed, 7);
  }

  lemma RecentDoesNotCount(months: int, limit: int)
    ensures !StartsWith(Lower(RecentDonors(months, limit)), CountStart)
  {
    assert CountStart[7] == 'c';
    var r := RecentDonors(months, limit);
    assert r[7] == RecentPrefix[7] == 'I';
    NotCountAt(r, 7);
  }

  /** The routed query counts exactly for a count question. */
  lemma RouteCounts(q: string, limit: int)
    ensures StartsWith(Lower(Route(q, limit).soql), CountStart) <==> IsCountQuestion(q)
  {
    var soql := Route(q, limit).soql;
    if IsCountQuestion(q) {
      assert soql == CountQuery;
      CountQueryCounts();
    } else if IsTopQuarter(q) {
      assert soql == TopDonorsPrefix + (LimitClause + IntStr(TopN(q)));
      OthersDoNotCount(LimitClause + IntStr(TopN(q)), limit, 0);
    } else if IsLapsedSinceLastYear(q) {
      assert soql == LapsedSinceLastYearPrefix + (LimitClause + IntStr(limit));
      OthersDoNotCount(LimitClause + IntStr(limit), limit, 0);
    } else {
      var months := if IsRecency(q) then RecencyMonths(q) else 6;
      assert soql == RecentDonors(months, limit);
      OthersDoNotCount([], limit, months);
    }
  }

  /** The count answer is given exactly for a count question whose response has no rows
      and a total. */
  lemma AskCountOnlyForCountQuestions(question: string, limit: int, res: Record, repr: Value -> string)
    ensures AskCount(question, limit, res, repr).Some? <==>
      IsCountQuestion(Strip(Lower(question))) && CountShaped(res)
  {
    var q := Strip(Lower(question));
    assert NlToSoql(question, limit) == Route(q, limit);
    RouteCounts(q, limit);
  }
}
