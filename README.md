# Fundraising CRM server: a verified model of its core

`fundraising_mcp_server.py` is a tool server for a fundraising team. It works over a
Salesforce CRM. Its core turns free-text questions and donor criteria into SOQL queries.
It then turns the records that come back into a short text report. It also validates the
input of its write tools before they call the CRM.

This project models that core in Dafny and proves properties of the model:

- **Parameter extraction.** `parse_amount` finds a dollar figure in text. It is modelled
  in integer cents (`AmountParser`). `parse_timeframe` finds a "last/past N months/years"
  window (`TimeframeParser`). Both use one scanner, `PhraseScan`, for patterns of the
  shape `(lead|alt)\s*(\d+)\s*unit`.
- **Query templates.** The four `SOQLBuilder` templates (`SoqlTemplates`).
- **Routers.** `build_soql_from_criteria` picks a donor segment (`SegmentRouter`).
  `nl_to_soql` answers free questions (`QuestionRouter`). Both are first-match-wins
  decision lists.
- **Report rendering.** `header`, `fmt_currency` and `fmt_date` (`Formatting`), and
  `_format_records` (`Report`). The record loop is a method, proved equal to a function
  of the records.
- **Query cache.** `tool_query_donors` checks a TTL cache before it queries the CRM
  (`DonorCache`). The cache is a class whose methods update its map in place.
- **Write tools.** The required-field checks of `tool_create_task` and
  `tool_create_opportunity`, and the counting loop of `tool_bulk_update_records`
  (`WriteTools`).
- **Query text of two read tools.** The profile query of `tool_get_donor_profile`, and the
  COUNT() special case of `tool_run_soql` and `tool_ask_salesforce` (`SoqlTools`).

The files follow that structure:

- `options.dfy`, `text.dfy`: Python's `None`, and the string and integer primitives the
  source uses (`str.strip`, `str.lower`, `str(int)`, `int()`).
- `phrase_scan.dfy`, `amount_parser.dfy`, `timeframe_parser.dfy`
- `soql_templates.dfy`, `segment_router.dfy`, `question_router.dfy`
- `formatting.dfy`, `report.dfy`
- `donor_cache.dfy`, `write_tools.dfy`, `soql_tools.dfy`

Python's regular expressions are written out as scanners over `string`. Each scanner comes
with lemmas that tie it to the pattern's language. The pattern's greedy runs are followed
by tokens the run cannot take, so the greedy split is the only one. Money is a whole
number of cents. The clock, the calendar and the CRM calls are parameters:

- `now` is the wall clock, in seconds.
- `back(now, span)` stands for `now - relativedelta(...)`.
- `tick` and `storeTick` are the cache's timer at the lookup and, after the remote call returns, at the store.
- The remote query, create and update calls are functions from the request to an outcome.
- `repr` stands for Python's `str()` of floats, dates, lists and dictionaries.

Where the code and the description of the system disagree, the model follows the code:

- **`parse_amount`.** The description expects `"over $1,000"` to give 1000.0, `"$5k"` to
  give 5000.0 and `"2.5M"` to give 2500000.0. The code removes the commas first. The
  first alternative of `AMOUNT_PATTERN` then always wins, and it captures at most three
  integer digits. So the code gives 100.0, 5.0 and 2.5. The model is the code, and
  `ParseAmountBound` proves that no result exceeds $999.99.
- **Month counts.** The description says that six calendar months re-derive as 6 or 5.
  The code uses `int(days / 30)` on `timedelta.days`. For a three-month window that is 2
  or 3, depending on the calendar (`ThreeMonthsIsTwoOrThree`).

## Model

| member | source | states |
|---|---|---|
| AmountParser.FirstDigitFrom | fundraising_mcp_server.py:92 | the index of the first digit at or after `i`, with no digit before it; `None` exactly when no digit follows |
| AmountParser.ThousandsEnd | fundraising_mcp_server.py:92 | the greedy `(?:[,\s]\d{3})*` covers whole separator-and-three-digit groups, and no further group starts where it stops |
| AmountParser.FractionEnd | fundraising_mcp_server.py:92 | the greedy `(?:\.\d{1,2})?` takes a point and one or two digits when a point and a digit follow, and nothing otherwise; after two digits the next character is no digit |
| AmountParser.MatchAt | fundraising_mcp_server.py:92 | group 1 starting at a digit is a well-formed first alternative (one to three lead digits, groups, optional fraction) occurring at that position, and each part is as long as it goes: a lead shorter than three is followed by a non-digit, no `[,\s]\d{3}` group follows the groups, an absent fraction is not followed by a point and a digit, and a one-digit fraction is not followed by a digit |
| AmountParser.AmountGroup | fundraising_mcp_server.py:92 | the search fails exactly when the text has no digit; otherwise group 1 is well formed, occurs in the text, starts at the first digit, and its lead, groups and fraction are each as long as they go |
| AmountParser.FractionCents | fundraising_mcp_server.py:115 | one or two fraction digits are fewer than 100 cents |
| AmountParser.Multiplier | fundraising_mcp_server.py:104-113 | with a factor of 1 the text is left unchanged |
| AmountParser.HasDigitWithoutCommas | fundraising_mcp_server.py:100 | removing commas keeps the text's digits: the comma-free text has a digit exactly when the text has |
| AmountParser.CapturedEndsWithDigit | fundraising_mcp_server.py:92 | group 1 always ends with a digit |
| AmountParser.CapturedIsRaw | fundraising_mcp_server.py:103 | `.strip().lower()` leaves group 1 unchanged |
| AmountParser.MultiplierAlwaysOne | fundraising_mcp_server.py:103-113 | the k/m/b branch is dead: the factor is always 1 and the text is group 1 itself |
| AmountParser.DecimalCentsOfMatch | fundraising_mcp_server.py:114-117 | `float()` of group 1 is the lead in dollars plus the fraction in cents when there are no groups, and fails when a blank separates a group |
| AmountParser.SeparatorIsBlank | fundraising_mcp_server.py:100 | in the comma-free text a group separator can only be a blank |
| AmountParser.ParseAmountNone | fundraising_mcp_server.py:99-117 | `parse_amount` returns `None` for text without a digit; for text with a digit it returns `None` exactly when a blank splits the number |
| AmountParser.ParseAmountValue | fundraising_mcp_server.py:99-117 | when no blank splits the number, the result is its one to three lead digits as dollars plus its fraction as cents |
| AmountParser.FloatCentsReads | fundraising_mcp_server.py:115 | `float()` reads a decimal with any white space around it and an optional `+` or `-` sign, negating it for `-` |
| AmountParser.FloatCentsOfIntStr | fundraising_mcp_server.py:115 | `float(str(i))` is `i` for every integer |
| AmountParser.FloatCentsOfCaptured | fundraising_mcp_server.py:115 | group 1 has no sign and no white space around it, so `float()` reads it as the unsigned decimal it is |
| AmountParser.ParseCapturedOfMatch | fundraising_mcp_server.py:103-117 | reading group 1 back applies no multiplier, and gives the decimal value or `None` as `float()` does |
| AmountParser.ParseAmountBound | fundraising_mcp_server.py:99-117 | every amount `parse_amount` returns is between $0.00 and $999.99 |
| PhraseScan.Split | fundraising_mcp_server.py:93 | the greedy blank, digit and blank runs after the lead are ordered within the text, and the middle run is all digits |
| PhraseScan.NumberAtSound | fundraising_mcp_server.py:93 | every number the scanner reads at a position comes from a match of the pattern's language there |
| PhraseScan.NumberAtComplete | fundraising_mcp_server.py:93 | every way the pattern can match at a position gives the number the scanner reads |
| PhraseScan.SplitOfShape | fundraising_mcp_server.py:93 | the greedy runs end where the runs of any match end |
| PhraseScan.NoMatchAtEnd | fundraising_mcp_server.py:93 | the pattern never matches at the end of the text: its digit group is non-empty |
| PhraseScan.FirstMatch | fundraising_mcp_server.py:123 | the leftmost position at or after `i` where the pattern matches, with no match before it; `None` when there is none |
| PhraseScan.Search | fundraising_mcp_server.py:123 | `search` fails exactly when the pattern matches nowhere |
| PhraseScan.SearchLeftmost | fundraising_mcp_server.py:123-125 | when the pattern matches at `i`, the search succeeds and reads the number at the leftmost match, at or before `i` |
| TimeframeParser.LiteralShape | fundraising_mcp_server.py:95-96 | a match of SIX_MONTHS_PATTERN or ONE_YEAR_PATTERN is a match of the general pattern with a one-digit group |
| TimeframeParser.LiteralIsWindow | fundraising_mcp_server.py:93-96 | where a literal pattern matches, MONTHS_PATTERN or YEARS_PATTERN matches at the same position and reads the literal's digit |
| TimeframeParser.ParseTimeframe | fundraising_mcp_server.py:120-136 | every window returned ends at `now`, and starts no later than it when the calendar subtraction goes back in time |
| TimeframeParser.LiteralRulesUnreachable | fundraising_mcp_server.py:123-134 | text matched by a literal rule was already matched by the general months or years rule, so the result is the months window, else the years window, else `None` |
| SoqlTemplates.WholeDollars | fundraising_mcp_server.py:263 | `int(amount)` truncates the amount to whole dollars |
| SoqlTemplates.RecentDays | fundraising_mcp_server.py:269 | the window is `months*30` days for a positive month count and 1 day otherwise |
| SoqlTemplates.OneParameterEndsWithLimit | fundraising_mcp_server.py:251-252 | a one-parameter template ends with ` LIMIT ` and the limit |
| SoqlTemplates.RecentEndsWithLimit | fundraising_mcp_server.py:275-276 | the recent-donors template ends with ` LIMIT ` and the limit |
| SoqlTemplates.FirstTimeEndsWithLimit | fundraising_mcp_server.py:284-285 | the first-time-donors template ends with ` LIMIT ` and the limit |
| SoqlTemplates.EndsWithLimit | fundraising_mcp_server.py:241-286 | all four templates end with ` LIMIT ` and the limit |
| SoqlTemplates.OneParameterInjective | fundraising_mcp_server.py:251-252 | the integer and the limit can be read back from a one-parameter template |
| SoqlTemplates.LapsedDonorsInjective | fundraising_mcp_server.py:243-253 | two lapsed-donor queries are equal exactly when their month counts and limits are |
| SoqlTemplates.MajorDonorsOverInjective | fundraising_mcp_server.py:256-265 | two major-donor queries are equal exactly when their amounts have the same whole dollars and their limits are equal |
| SoqlTemplates.RecentDonorsInjective | fundraising_mcp_server.py:268-277 | two recent-donor queries are equal exactly when their clamped windows and their limits are |
| SoqlTemplates.FirstTimeDonorsInjective | fundraising_mcp_server.py:280-286 | two first-time-donor queries are equal exactly when their limits are |
| SegmentRouter.TruncDiv | fundraising_mcp_server.py:302 | `int(x / y)` truncates toward zero for either sign of `x` |
| SegmentRouter.ElapsedMonths | fundraising_mcp_server.py:302 | the month count is at least 1: the elapsed whole days divided into thirty-day blocks, and 1 for a start in the future |
| SegmentRouter.MonthsFor | fundraising_mcp_server.py:297-302 | the month count is at least 1; it is the branch's default when no timeframe is found, and otherwise the thirty-day blocks elapsed since the timeframe's start |
| SegmentRouter.AmountOrDefault | fundraising_mcp_server.py:307 | the amount is positive: the parsed amount when that is positive, and $1000.00 when parsing fails or gives zero |
| SegmentRouter.LapsedBranch | fundraising_mcp_server.py:297-304 | the lapsed branch passes the limit through, sets only `months`, from the default 12, and renders the query the metadata describes |
| SegmentRouter.MajorBranch | fundraising_mcp_server.py:306-309 | the major branch passes the limit through, sets only the amount, and renders the query the metadata describes |
| SegmentRouter.RecentBranch | fundraising_mcp_server.py:311-317 | the recent branch passes the limit through, sets only `months`, from the default 6, and renders the query the metadata describes |
| SegmentRouter.FirstTimeBranch | fundraising_mcp_server.py:319-321 | the first-time branch passes the limit through and sets no parameter |
| SegmentRouter.DefaultBranch | fundraising_mcp_server.py:323-326 | the fallback is the recent segment with 6 months, and it is the branch that sets `defaulted` |
| SegmentRouter.Route | fundraising_mcp_server.py:297-326 | every result passes the limit through, renders the query its metadata describes, and carries exactly its segment's positive parameters |
| SegmentRouter.BuildSoql | fundraising_mcp_server.py:289-326 | `build_soql_from_criteria` keeps the router's consistency: `meta["limit"] == limit` on every path |
| SegmentRouter.SegmentOrder | fundraising_mcp_server.py:297-326 | the segment is decided first-match-wins in the order lapsed, major/over/$, recent with month, first, fallback; only the fallback sets `defaulted` |
| SegmentRouter.MajorAmount | fundraising_mcp_server.py:306-309 | a major-donor query carries `parse_amount(text) or 1000.0` |
| SegmentRouter.SegmentMonths | fundraising_mcp_server.py:297-317 | a lapsed or recent query carries the timeframe's month count, or 12 and 6 by default |
| SegmentRouter.ThreeMonthsIsTwoOrThree | fundraising_mcp_server.py:315 | a window of 89 days gives 2 months and one of 90 to 92 days gives 3 |
| SegmentRouter.BuiltThreeMonths | fundraising_mcp_server.py:297-317 | a lapsed or recent query whose timeframe starts 89 to 92 days back carries 2 months for 89 days and 3 for 90 to 92 |
| SegmentRouter.BuildSoqlIgnoresCase | fundraising_mcp_server.py:294 | the criteria are read case-insensitively |
| QuestionRouter.TopN | fundraising_mcp_server.py:345-346 | the top-N limit is the number of the first `top N donor`, else 10 |
| QuestionRouter.RecencyMonths | fundraising_mcp_server.py:369-371 | the recency month count is `max(1, N)`: `N` when it is at least 1, and 1 when it is 0 |
| QuestionRouter.RouteOrder | fundraising_mcp_server.py:337-377 | the branch is decided first-match-wins in the order count, top-quarter, last-year-not-since, recency, fallback, and the explanation identifies it |
| QuestionRouter.ExplanationsDiffer | fundraising_mcp_server.py:342-377 | the five explanations are pairwise different, and only the recency one starts with the recency prefix |
| QuestionRouter.AnswerLimit | fundraising_mcp_server.py:349-376 | every non-count query ends with ` LIMIT ` and the top-N limit or the caller's limit |
| QuestionRouter.RecencyAnswer | fundraising_mcp_server.py:369-373 | a recency answer names the month count `m >= 1` whose `30*m`-day window its query searches |
| QuestionRouter.RecencyExplanationInjective | fundraising_mcp_server.py:373 | the month count can be read back from the recency explanation |
| Formatting.Header | fundraising_mcp_server.py:82-83 | the header is the title, a line break and `max(6, len(title))` dashes |
| Formatting.GroupThousands | fundraising_mcp_server.py:75 | the whole part is digits with a comma exactly before every group of three counted from the right, and no leading zero except for zero itself |
| Formatting.GroupThousandsValue | fundraising_mcp_server.py:75 | the grouped whole part read without its commas is the number |
| Formatting.GroupedUnique | fundraising_mcp_server.py:75 | every text grouped that way is the grouping of the number its digits denote, so `:,` has one output per number |
| Formatting.MagnitudeRoundTrip | fundraising_mcp_server.py:75 | the grouped whole part, a point and two digits read back as the amount in cents |
| Formatting.CurrencyRoundTrip | fundraising_mcp_server.py:75 | every amount in cents, negative ones included, reads back from its formatted text |
| Formatting.CurrencyExactly | fundraising_mcp_server.py:74-75 | a text reads as an amount if and only if it is that amount's formatted text: the sign, the grouping commas and the two fraction digits are where `fmt_currency` puts them |
| Formatting.ZeroCurrency | fundraising_mcp_server.py:74 | zero is written `$0.00` |
| Formatting.FormatOptionalCurrency | fundraising_mcp_server.py:72-75 | `None` is written `$0.00` as for zero, and the text reads back as the amount; by `CurrencyExactly` no other text does |
| Formatting.FormatDate | fundraising_mcp_server.py:79 | the date text is ten characters with dashes at positions 4 and 7 |
| Formatting.FormatOptionalDate | fundraising_mcp_server.py:78-79 | a missing date is the empty text, and a valid date reads back from its text |
| Formatting.DateRoundTrip | fundraising_mcp_server.py:79 | every valid date reads back from its `%Y-%m-%d` text |
| Report.Get | fundraising_mcp_server.py:401-404 | `r.get(k)` is `None` for an absent key |
| Report.NestedGet | fundraising_mcp_server.py:401 | `r.get(k, {}).get(inner)` raises exactly when the value under `k` is present but is not a dictionary |
| Report.NameOf | fundraising_mcp_server.py:401 | the name is truthy: the record's own name when it is truthy, else the contact's name when that is truthy, else `Unknown`; it raises exactly when the own name is falsy and `Contact` holds a non-dictionary |
| Report.TotalOf | fundraising_mcp_server.py:403 | the total is `LifetimeGiving` when truthy, else `total` when truthy, else `attributes.total` (truthy or not); the lookup raises exactly when neither candidate is truthy and `attributes` holds a non-dictionary |
| Report.LastOf | fundraising_mcp_server.py:404-406 | the last gift is `LastGiftDate` when truthy, else `lastGiftDate`; a non-empty list is replaced by its first element; falsy when both are falsy |
| Report.TotalText | fundraising_mcp_server.py:411 | integers, booleans and floats are formatted as currency; text is formatted exactly when `float()` reads it (blanks around it and a sign allowed), as the value it reads; dates, lists and dictionaries make `float()` raise |
| Report.LastText | fundraising_mcp_server.py:412-416 | a last gift is shown exactly when it is text, which is shown as it is, or a date, which goes through `fmt_date` |
| Report.View | fundraising_mcp_server.py:401-406 | the lookups of a record succeed exactly when the name and total lookups do |
| Report.ViewLines | fundraising_mcp_server.py:407-416 | a rendered record block is never empty |
| Report.RecordLines | fundraising_mcp_server.py:400-416 | a record renders only when its lookups succeed |
| Report.Bullets | fundraising_mcp_server.py:420 | one `- item` line per item, in order |
| Report.BlockLines | fundraising_mcp_server.py:417-424 | a block is absent when it has no items; otherwise a blank line, its header and one bullet per item in order |
| Report.AppendRecord | fundraising_mcp_server.py:401-416 | appending a record's lines one by one appends its block, or fails when rendering it raises |
| Report.RecordsLinesPrefixFails | fundraising_mcp_server.py:400-416 | once a record fails to render, the whole report does |
| Report.FormatRecords | fundraising_mcp_server.py:398-425 | the loop produces the report function's text: the header, each record's block in order, then the insights and next-steps blocks |
| Report.AppendBlock | fundraising_mcp_server.py:417-424 | appending a block adds exactly its lines |
| Report.ReportStartsWithHeader | fundraising_mcp_server.py:399 | the report starts with the title's header |
| Report.LabelsDiffer | fundraising_mcp_server.py:407-416 | the four line labels of a record block cannot be mistaken for one another |
| Report.ViewLinesShape | fundraising_mcp_server.py:407-416 | a block opens with its name line and has an email, giving or last-gift line exactly when that value is truthy, so a zero total prints nothing |
| Report.RecordLinesShape | fundraising_mcp_server.py:400-416 | the same for a record's block, in terms of the record's own fields |
| Report.RecordTopLevel | fundraising_mcp_server.py:407-416 | the name line is the only unindented line of a record's block |
| Report.NamesInOrder | fundraising_mcp_server.py:400-407 | the report has one `- Name:` line per record, in input order |
| DonorCache.EscapeInjective | fundraising_mcp_server.py:431 | JSON-escaped texts followed by the key's closing are equal only when the texts are |
| DonorCache.CacheKeyInjective | fundraising_mcp_server.py:431 | two queries share a cache key exactly when they are the same text |
| DonorCache.Take | fundraising_mcp_server.py:442 | `s[:limit]` is a prefix of the records with at most `limit` of them; a negative limit counts from the end |
| DonorCache.ResultCache.constructor | fundraising_mcp_server.py:387 | the cache starts empty |
| DonorCache.ResultCache.Live | fundraising_mcp_server.py:66 | the live entries are exactly those stored less than 60 seconds ago, with their stored values |
| DonorCache.ResultCache.Lookup | fundraising_mcp_server.py:432-433 | a lookup hits exactly on a live entry and returns its result |
| DonorCache.ResultCache.Store | fundraising_mcp_server.py:441 | storing keeps at most 128 entries; afterwards the key holds the result and a lookup hits for the next 60 seconds; every other entry was live and is unchanged; at most one live entry is evicted, and none when the key was present or there was room |
| DonorCache.Admit | fundraising_mcp_server.py:387 | an insert after at most one eviction stays within the 128-entry bound and loses at most the evicted entry |
| DonorCache.StoredIsLive | fundraising_mcp_server.py:66 | a cache entry stored at `s` answers a lookup of its key at any `t >= s` exactly when `t < s + 60`, and misses from then on |
| DonorCache.Served | fundraising_mcp_server.py:432-436 | a hit answers with the cached result, and a miss with the remote outcome |
| DonorCache.Server.constructor | fundraising_mcp_server.py:387 | the server starts with an empty cache and has sent no query |
| DonorCache.Server.CachedQuery | fundraising_mcp_server.py:432-441 | a live hit sends no query and leaves the cache unchanged; a miss sends the query once; a failure is not stored; a success is stored at the timer's reading after the call, hits for the 60 seconds from then, and every other entry was live then and is unchanged, with at most one evicted |
| DonorCache.Server.QueryDonors | fundraising_mcp_server.py:428-451 | the reply is the error text or the report of at most `limit` records; it sends the query exactly on a miss; it stores only a successful result, under the rendered query's key, at the timer's reading after the call, live for the 60 seconds from then, and keeps every other entry live then unchanged, with at most one evicted |
| SoqlTools.UnescapeLiteralText | fundraising_mcp_server.py:545 | escaping both backslashes and quotes can be undone |
| SoqlTools.LiteralTextSkipped | fundraising_mcp_server.py:545-546 | a text escaped this way never closes the literal it is written in |
| SoqlTools.QuoteEscapedAgrees | fundraising_mcp_server.py:545 | for text without backslashes the tool's quote-only escape is the full escape |
| SoqlTools.QuoteEscapedBreaksOut | fundraising_mcp_server.py:545-546 | with the quote-only escape, the identifier `\'` closes the name literal early: at index 14 of a 17-character condition |
| SoqlTools.WhereClauseClosed | fundraising_mcp_server.py:541-546 | with the full escape, the identifier stays inside its literal: the literal closes at the condition's last character and nowhere earlier |
| SoqlTools.RecordIdPlain | fundraising_mcp_server.py:541 | a text matched as a record id holds neither quotes nor backslashes |
| SoqlTools.IdClauseClosed | fundraising_mcp_server.py:542 | the id condition's literal closes at its last character |
| SoqlTools.LikeClauseClosed | fundraising_mcp_server.py:546 | the escaped name condition's literal closes at its last character |
| SoqlTools.ProfileQuery | fundraising_mcp_server.py:537-551 | no query for an empty identifier; otherwise the fixed select, the condition and ` LIMIT 1` |
| SoqlTools.RunSoqlCount | fundraising_mcp_server.py:455-462 | the count reply is given exactly for a response with no rows and a total to a stripped query that starts with `select count` in any case |
| SoqlTools.CountQueryCounts | fundraising_mcp_server.py:341 | the count query starts with `select count` once lower-cased |
| SoqlTools.NotCountAt | fundraising_mcp_server.py:509 | a text that differs from `select count` at a letter, in either case, does not start with it once lower-cased |
| SoqlTools.OthersDoNotCount | fundraising_mcp_server.py:349-376 | the top-donors, last-year and recent-donors queries do not start with `select count` |
| SoqlTools.RouteCounts | fundraising_mcp_server.py:337-377 | the routed query starts with `select count` exactly for a count question |
| SoqlTools.AskCountOnlyForCountQuestions | fundraising_mcp_server.py:509-510 | `tool_ask_salesforce` gives the count answer exactly for a count question whose response has no rows and a total |
| WriteTools.MissingFields | fundraising_mcp_server.py:633 | a field is listed as missing exactly when it is required and its value is not truthy, and no more than the required fields are listed |
| WriteTools.MissingFieldsInOrder | fundraising_mcp_server.py:633 | the missing fields keep the order of `required` |
| WriteTools.MissingTaskFields | fundraising_mcp_server.py:632-633 | the missing task and opportunity fields keep the order of their required lists |
| WriteTools.CreateTask | fundraising_mcp_server.py:630-640 | the task is sent exactly when `Subject` and `WhoId` are truthy, and is sent unchanged; otherwise the reply lists the missing fields |
| WriteTools.CreateOpportunity | fundraising_mcp_server.py:652-662 | the opportunity is sent exactly when `Name`, `StageName`, `CloseDate` and `Amount` are truthy, and is sent unchanged; otherwise the reply lists the missing fields |
| WriteTools.Requests | fundraising_mcp_server.py:690-698 | no more update requests are sent than there are entries |
| WriteTools.TallyCounts | fundraising_mcp_server.py:688-701 | every entry is counted once, as updated or as an error, and no more entries are counted as updated than requests are sent |
| WriteTools.BulkUpdate | fundraising_mcp_server.py:683-706 | an empty list is refused with no request; otherwise the loop's summary is that of the tally, and the requests sent are exactly those of the complete entries, in order |
| WriteTools.RequestsComplete | fundraising_mcp_server.py:694-698 | every request sent has a truthy `sobject`, `id` and `fields`, so an incomplete entry never reaches the update |

## Left out

- Network and protocol I/O are not modelled: `SalesforceClient` with its OAuth refresh and login fallback, the MCP server wiring, `start`/`main`, and the optional imports. So are the async plumbing of `ensure_connected`, and the environment and logging setup. The remote `soql`, `create` and `update` calls are function parameters.
- `datetime.now` is the parameter `now`. `now - relativedelta(...)` is the parameter `back`. The calendar arithmetic itself is not modelled, and neither is its error path: `now - relativedelta(months=n)` or `years=n` raises `ValueError` once the year leaves 1 to 9999 (for example `"last 3000 years"`, lines 124 and 128). That error is not caught on the way to the tool's reply. The total parameter `back` always returns an instant, so there the model gives a window where the server raises. `build_soql_from_criteria` reads the clock a second time; the model assumes both reads give the same instant.
- TimeframeParser.ParseTimeframe: `start <= end` is proved under the assumption that `back` never moves forward in time, which `relativedelta` subtraction is not shown to satisfy here.
- Floating point is not modelled. Amounts are whole cents. `float()` on text is read as an optionally signed decimal with white space around it and at most two fraction digits (`AmountParser.FloatCents`), and `fmt_currency`'s rounding of fractions of a cent is not modelled. `str()` of floats, dates, lists and dictionaries is the parameter `repr`.
- Report.TotalText: text that `float()` reads in forms the model does not gives `None` here, where the server prints an amount. These forms are exponents (`"1e3"`), underscores (`"1_000"`), `inf` and `nan`, more than two fraction digits, and non-ASCII digits. Text reading as negative zero (`"-0"`) prints `$0.00` here and `$-0.00` in the server. The same holds for the amount of WriteTools.CreateOpportunity.
- Python's regex engine is not modelled in general. Only the patterns the core uses are written out. White space (`\s`, `str.strip()`, `float()`) is Python's, all of Unicode's. Digits and letters are ASCII only:
  - Python's `\d`, `int()` and `float()` also accept the other Unicode decimal digits.
  - `str.lower` and `re.I` also fold non-ASCII letters. So `re.I` lets `"laſt 3 months"`, with a long s, match MONTHS_PATTERN, and the model does not.
- `json.dumps` of the cache key is modelled only for the two escapes a query can need, `"` and `\`. The JSON dumps in tool replies are not modelled.
- DonorCache.ResultCache.Lookup: `key in cache` and `cache[key]` (lines 432-433) read the cache's timer twice. An entry that expires between the two reads makes `cache[key]` raise `KeyError`, outside the `try`. The model reads the timer once, at `tick`, so it never takes that path.
- DonorCache.ResultCache.Store: which live entry a full `TTLCache` evicts is left open. The model proves only that one live entry goes, not that it is the least recently used one. Expired entries are purged on every store.
- `tool_find_prospects` is not modelled. Its scoring uses floats and `round`, and it sorts with Python's `sort`.
- `tool_run_soql` and `tool_ask_salesforce`: only the COUNT() case is modelled. The JSON dump of records and the "Top Rows" listing are not.
- `tool_get_donor_profile`: the query text is modelled, but not the formatting of the response or the classification of rate-limit errors. SoqlTools.ProfileQuery uses the corrected escape (see Findings).
- `tool_create_record`, `tool_update_record`, `tool_create_contact`, `tool_log_interaction` and `tool_update_contact_stage` are not modelled. They are one-line validations followed by a remote call.
- WriteTools.CreateTask: the success and failure replies are computed, but the contract states only the validation and the request sent.
- WriteTools.CreateOpportunity: the same as for `CreateTask`; the reply to an amount that `float()` cannot read is the error text passed in as a parameter.
- Formatting.FormatDate: `strftime`'s zero padding of years below 1000 is modelled as four digits. Dates outside `datetime`'s range are not considered.
- Text.IntStr: the model does not capture Python's limit on converting integers of more than 4300 digits. The same limit makes `int()` of a digit run of more than 4300 digits raise `ValueError`: at lines 124 and 128 in `parse_timeframe`, and at lines 346 and 371 in `tool_ask_salesforce`. Line 346 runs for every question that is not a count question. At all four places `DigitsValue` returns the number instead.
- The `"months"` of build_soql_from_criteria come from a window that `back`, the calendar arithmetic of `relativedelta`, sizes; the model takes `back` as a parameter. `MonthsFor` and `SegmentMonths` give the count as a function of the window's start, and `BuiltThreeMonths` gives 2 or 3 for a window of 89 to 92 days, but that "last 3 months" is such a window is a fact about the calendar, not proved here.

## Findings

| source | as written | input that shows it | evidently intended | confidence | as-written member | corrected member |
|---|---|---|---|---|---|---|
| fundraising_mcp_server.py:545-546 | `identifier.replace("'", "\\'")` escapes quotes but not backslashes, so a backslash in the identifier escapes the added backslash and the quote closes the `LIKE` literal | identifier `\'` gives `Name LIKE '%\\'%'`, whose literal closes at index 14, leaving `%'` outside it | escape backslashes as well as quotes, so that the identifier always stays inside the literal | high, not executed | SoqlTools.QuoteEscapedBreaksOut | SoqlTools.WhereClauseClosed |
