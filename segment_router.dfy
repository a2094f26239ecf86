/** `build_soql_from_criteria` (fundraising_mcp_server.py:289-326): a first-match-wins
    decision list over substring tests on the lower-cased, stripped criteria that picks
    a donor segment, fills in its parameters and renders its query. */
module SegmentRouter {
  import opened Options
  import opened Text
  import opened AmountParser
  import opened TimeframeParser
  import opened SoqlTemplates

  datatype Segment = LapsedDonorsSegment | MajorDonorsOverSegment | RecentDonorsSegment | FirstTimeDonorsSegment

  /** The `"segment"` entry of the metadata. */
  function SegmentName(s: Segment): string {
    match s
    case LapsedDonorsSegment => "lapsed_donors"
    case MajorDonorsOverSegment => "major_donors_over"
    case RecentDonorsSegment => "recent_donors"
    case FirstTimeDonorsSegment => "first_time_donors"
  }

  /** The metadata dictionary: `"limit"` and `"segment"` always, `"months"`, `"amount"`
      and `"defaulted"` only where a branch sets them (`defaulted` false stands for an
      absent key). */
  datatype Meta = Meta(limit: int, segment: Segment, months: Option<int>, amount: Option<Cents>, defaulted: bool)

  datatype Built = Built(soql: string, meta: Meta)

  /** The default amount, $1000.00, in cents. */
  const DefaultAmount: Cents := 100_000

  /** Python's `int(x / y)` for a positive `y`: the quotient truncated toward zero. */
  function TruncDiv(x: int, y: nat): (q: int)
    requires y > 0
    ensures x >= 0 ==> q == x / y
    ensures x < 0 ==> q == -((-x) / y)
  {
    if x >= 0 then x / y else -((-x) / y)
  }

  /** `max(1, int((now - start).days / 30))`: whole days, floored as `timedelta.days`
      does, then thirty-day blocks, truncated, and at least one. */
  function ElapsedMonths(now: Instant, start: Instant): (months: int)
    ensures months >= 1
    ensures start <= now ==> months == if (now - start) / 86400 / 30 >= 1 then (now - start) / 86400 / 30 else 1
    ensures start > now ==> months == 1
  {
    var days := (now - start) / 86400;
    var blocks := TruncDiv(days, 30);
    if blocks > 1 then blocks else 1
  }

  /** The months of a lapsed or recent query: `fallback` when no timeframe is found, else
      the thirty-day blocks elapsed since the timeframe's start. */
  function MonthsFor(text: string, fallback: int, now: Instant, back: (Instant, Span) -> Instant): (months: int)
    requires fallback >= 1
    ensures months >= 1
    ensures ParseTimeframe(text, now, back).None? ==> months == fallback
    ensures ParseTimeframe(text, now, back).Some? ==>
      months == ElapsedMonths(now, ParseTimeframe(text, now, back).value.start)
  {
    match ParseTimeframe(text, now, back)
    case None => fallback
    case Some(tf) => ElapsedMonths(now, tf.start)
  }

  /** `parse_amount(text) or 1000.0`: a failed parse and a zero both give the default. */
  function AmountOrDefault(text: string): (amount: Cents)
    ensures amount > 0
    ensures ParseAmount(text).Some? && ParseAmount(text).value > 0 ==> amount == ParseAmount(text).value
    ensures ParseAmount(text) == None || ParseAmount(text) == Some(0) ==> amount == DefaultAmount
  {
    ParseAmountBound(text);
    match ParseAmount(text)
    case Some(c) => if c != 0 then c else DefaultAmount
    case None => DefaultAmount
  }

  predicate IsLapsed(text: string) { Contains(text, "lapsed") }
  predicate IsMajor(text: string) { Contains(text, "major") || Contains(text, "over") || Contains(text, "$") }
  predicate IsRecent(text: string) { Contains(text, "recent") && Contains(text, "month") }
  predicate IsFirstTime(text: string) { Contains(text, "first") || Contains(text, "first-time") }

  /** The query the metadata describes, with each template's own defaults for missing
      entries. */
  function Render(meta: Meta): string {
    match meta.segment
    case LapsedDonorsSegment => LapsedDonors(meta.months.GetOr(12), meta.limit)
    case MajorDonorsOverSegment => MajorDonorsOver(meta.amount.GetOr(DefaultAmount), meta.limit)
    case RecentDonorsSegment => RecentDonors(meta.months.GetOr(6), meta.limit)
    case FirstTimeDonorsSegment => FirstTimeDonors(meta.limit)
  }

  /** What every result of the router satisfies: the limit is passed through, the query
      is the one the metadata describes, and each segment carries exactly its own
      parameters, which are positive. */
  predicate Consistent(r: Built, limit: int) {
    && r.meta.limit == limit
    && r.soql == Render(r.meta)
    && (r.meta.months.Some? <==> r.meta.segment == LapsedDonorsSegment || r.meta.segment == RecentDonorsSegment)
    && (r.meta.months.Some? ==> r.meta.months.value >= 1)
    && (r.meta.amount.Some? <==> r.meta.segment == MajorDonorsOverSegment)
    && (r.meta.amount.Some? ==> r.meta.amount.value > 0)
    && (r.meta.defaulted ==> r.meta.segment == RecentDonorsSegment && r.meta.months == Some(6))
  }

  function LapsedBranch(text: string, limit: int, now: Instant, back: (Instant, Span) -> Instant): (r: Built)
    ensures Consistent(r, limit) && r.meta.segment == LapsedDonorsSegment && !r.meta.defaulted
    ensures r.meta.months == Some(MonthsFor(text, 12, now, back))
  {
    var months := MonthsFor(text, 12, now, back);
    Built(LapsedDonors(months, limit), Meta(limit, LapsedDonorsSegment, Some(months), None, false))
  }

  function MajorBranch(text: string, limit: int): (r: Built)
    ensures Consistent(r, limit) && r.meta.segment == MajorDonorsOverSegment && !r.meta.defaulted
    ensures r.meta.amount == Some(AmountOrDefault(text))
  {
    var amount := AmountOrDefault(text);
    Built(MajorDonorsOver(amount, limit), Meta(limit, MajorDonorsOverSegment, None, Some(amount), false))
  }

  function RecentBranch(text: string, limit: int, now: Instant, back: (Instant, Span) -> Instant): (r: Built)
    ensures Consistent(r, limit) && r.meta.segment == RecentDonorsSegment && !r.meta.defaulted
    ensures r.meta.months == Some(MonthsFor(text, 6, now, back))
  {
    var months := MonthsFor(text, 6, now, back);
    Built(RecentDonors(months, limit), Meta(limit, RecentDonorsSegment, Some(months), None, false))
  }

  function FirstTimeBranch(limit: int): (r: Built)
    ensures Consistent(r, limit) && r.meta.segment == FirstTimeDonorsSegment && !r.meta.defaulted
  {
    Built(FirstTimeDonors(limit), Meta(limit, FirstTimeDonorsSegment, None, None, false))
  }

  function DefaultBranch(limit: int): (r: Built)
    ensures Consistent(r, limit) && r.meta.segment == RecentDonorsSegment && r.meta.defaulted
  {
    Built(RecentDonors(6, limit), Meta(limit, RecentDonorsSegment, Some(6), None, true))
  }

  /** The decision list on the normalised text. */
  function Route(text: string, limit: int, now: Instant, back: (Instant, Span) -> Instant): (r: Built)
    ensures Consistent(r, limit)
  {
    if IsLapsed(text) then LapsedBranch(text, limit, now, back)
    else if IsMajor(text) then MajorBranch(text, limit)
    else if IsRecent(text) then RecentBranch(text, limit, now, back)
    else if IsFirstTime(text) then FirstTimeBranch(limit)
    else DefaultBranch(limit)
  }

  /** `build_soql_from_criteria(criteria, limit)` at instant `now`. */
  function BuildSoql(criteria: string, limit: int, now: Instant, back: (Instant, Span) -> Instant): (r: Built)
    ensures Consistent(r, limit)
  {
    Route(Strip(Lower(criteria)), limit, now, back)
  }

  /** The segments are tried in a fixed order and the first test that holds wins; only
      the fallback sets `defaulted`. */
  lemma SegmentOrder(criteria: string, limit: int, now: Instant, back: (Instant, Span) -> Instant)
    ensures var text, r := Strip(Lower(criteria)), BuildSoql(criteria, limit, now, back);
      && (r.meta.segment == LapsedDonorsSegment <==> IsLapsed(text))
      && (r.meta.segment == MajorDonorsOverSegment <==> !IsLapsed(text) && IsMajor(text))
      && (r.meta.segment == FirstTimeDonorsSegment <==>
            !IsLapsed(text) && !IsMajor(text) && !IsRecent(text) && IsFirstTime(text))
      && (r.meta.defaulted <==>
            !IsLapsed(text) && !IsMajor(text) && !IsRecent(text) && !IsFirstTime(text))
      && (r.meta.segment == RecentDonorsSegment <==>
            !IsLapsed(text) && !IsMajor(text) && (IsRecent(text) || !IsFirstTime(text)))
  {
  }

  /** The amount of a major-donor query is what `parse_amount` finds when that is positive,
      and $1000.00 otherwise. */
  lemma MajorAmount(criteria: string, limit: int, now: Instant, back: (Instant, Span) -> Instant)
    requires BuildSoql(criteria, limit, now, back).meta.segment == MajorDonorsOverSegment
    ensures BuildSoql(criteria, limit, now, back).meta.amount == Some(AmountOrDefault(Strip(Lower(criteria))))
  {
    var text := Strip(Lower(criteria));
    SegmentOrder(criteria, limit, now, back);
    assert BuildSoql(criteria, limit, now, back) == MajorBranch(text, limit);
  }

  /** The month count of a lapsed or recent query: the branch's default (12 or 6) when no
      timeframe is found, else the elapsed thirty-day blocks since its start. */
  lemma SegmentMonths(criteria: string, limit: int, now: Instant, back: (Instant, Span) -> Instant)
    requires BuildSoql(criteria, limit, now, back).meta.months.Some?
    requires !BuildSoql(criteria, limit, now, back).meta.defaulted
    ensures var r := BuildSoql(criteria, limit, now, back);
      r.meta.months ==
        Some(MonthsFor(Strip(Lower(criteria)), if r.meta.segment == LapsedDonorsSegment then 12 else 6, now, back))
  {
    var text := Strip(Lower(criteria));
    SegmentOrder(criteria, limit, now, back);
    if IsLapsed(text) {
      assert BuildSoql(criteria, limit, now, back) == LapsedBranch(text, limit, now, back);
    } else {
      assert BuildSoql(criteria, limit, now, back) == RecentBranch(text, limit, now, back);
    }
  }

  /** The month count depends on the calendar: a three-month window is 89 to 92 days long,
      and 89 days make two thirty-day blocks while 90 to 92 make three. */
  lemma ThreeMonthsIsTwoOrThree(now: Instant, start: Instant)
    requires 89 * 86400 <= now - start < 93 * 86400
    ensures ElapsedMonths(now, start) == (if now - start < 90 * 86400 then 2 else 3)
  {
  }

  /** A lapsed or recent query whose criteria name a timeframe starting 89 to 92 days ago,
      as "last 3 months" does, carries 2 or 3 months, never 3 alone. */
  lemma BuiltThreeMonths(criteria: string, limit: int, now: Instant, back: (Instant, Span) -> Instant)
    requires BuildSoql(criteria, limit, now, back).meta.months.Some?
    requires !BuildSoql(criteria, limit, now, back).meta.defaulted
    requires ParseTimeframe(Strip(Lower(criteria)), now, back).Some?
    requires 89 * 86400 <= now - ParseTimeframe(Strip(Lower(criteria)), now, back).value.start < 93 * 86400
    ensures var start := ParseTimeframe(Strip(Lower(criteria)), now, back).value.start;
      BuildSoql(criteria, limit, now, back).meta.months == Some(if now - start < 90 * 86400 then 2 else 3)
  {
    SegmentMonths(criteria, limit, now, back);
    ThreeMonthsIsTwoOrThree(now, ParseTimeframe(Strip(Lower(criteria)), now, back).value.start);
  }

  /** `str.lower()` is idempotent. */
  lemma LowerIdempotent(s: string)
    ensures Lower(Lower(s)) == Lower(s)
  {
  }

  /** The criteria are read case-insensitively: lower-casing them first changes nothing. */
  lemma BuildSoqlIgnoresCase(criteria: string, limit: int, now: Instant, back: (Instant, Span) -> Instant)
    ensures BuildSoql(Lower(criteria), limit, now, back) == BuildSoql(criteria, limit, now, back)
  {
    LowerIdempotent(criteria);
  }
}
