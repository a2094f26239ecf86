/** The cache-or-fetch protocol of `tool_query_donors` (fundraising_mcp_server.py:427-447)
    over the server's `TTLCache(maxsize=128, ttl=60)` (fundraising_mcp_server.py:66, 387).
    The remote query is an oracle from the query text to an outcome; the cache's timer is
    a parameter in seconds. */
module DonorCache {
  import opened Options
  import opened Text
  import opened Formatting
  import opened TimeframeParser
  import opened SegmentRouter
  import opened Report

  /** CACHE_TTL_SECONDS. */
  const Ttl: int := 60
  /** The cache's `maxsize`. */
  const Capacity: nat := 128

  /** The part of a query response the tool reads: `result.get("records", [])`. */
  datatype QueryResult = QueryResult(records: seq<Record>)

  /** What the remote query does: return a result, or raise `SalesforceMalformedRequest`
      or another exception, whose text is `message`. */
  datatype Outcome =
    | Fetched(result: QueryResult)
    | MalformedRequest(message: string)
    | Failed(message: string)

  /** JSON's escape of one character of a string, for the two characters the queries
      could hold that need one. */
  function EscapeChar(c: char): (s: string)
    ensures |s| > 0
  {
    if c == '"' then "\\\"" else if c == '\\' then "\\\\" else [c]
  }

  function Escape(s: string): string {
    if s == [] then [] else EscapeChar(s[0]) + Escape(s[1..])
  }

  const KeyPrefix: string := "{\"t\": \"q\", \"q\": \""
  const KeySuffix: string := "\"}"

  /** `json.dumps({"t": "q", "q": soql})`: the key depends on nothing but the query. */
  function CacheKey(soql: string): string {
    KeyPrefix + (Escape(soql) + KeySuffix)
  }

  /** The escaped text determines the text. */
  lemma {:induction false} EscapeInjective(a: string, b: string, rest1: string, rest2: string)
    requires Escape(a) + rest1 == Escape(b) + rest2
    requires rest1 == KeySuffix && rest2 == KeySuffix
    ensures a == b
  {
    if a != [] && b != [] {
      var x, y := Escape(a) + rest1, Escape(b) + rest2;
      assert x == EscapeChar(a[0]) + (Escape(a[1..]) + rest1);
      assert y == EscapeChar(b[0]) + (Escape(b[1..]) + rest2);
      EscapeCharPrefix(a[0], b[0], Escape(a[1..]) + rest1, Escape(b[1..]) + rest2);
      PrefixCancel(EscapeChar(a[0]), Escape(a[1..]) + rest1, Escape(b[1..]) + rest2);
      EscapeInjective(a[1..], b[1..], rest1, rest2);
    }
  }

  /** The escapes of two characters cannot be told apart only if the characters are equal. */
  lemma EscapeCharPrefix(c: char, d: char, x: string, y: string)
    requires EscapeChar(c) + x == EscapeChar(d) + y
    ensures c == d
  {
    var u, v := EscapeChar(c) + x, EscapeChar(d) + y;
    assert u[0] == EscapeChar(c)[0] && v[0] == EscapeChar(d)[0];
    if c == '"' || c == '\\' {
      assert u[1] == c;
      assert v[1] == d;
    }
  }

  /** Two queries share a cache entry exactly when they are the same text: criteria that
      render the same query share one, and no two different queries collide. */
  lemma CacheKeyInjective(s1: string, s2: string)
    ensures CacheKey(s1) == CacheKey(s2) <==> s1 == s2
  {
    if CacheKey(s1) == CacheKey(s2) {
      PrefixCancel(KeyPrefix, Escape(s1) + KeySuffix, Escape(s2) + KeySuffix);
      EscapeInjective(s1, s2, KeySuffix, KeySuffix);
    }
  }

  /** Python's `s[:limit]`: a negative limit counts from the end. */
  function Take<T>(s: seq<T>, limit: int): (r: seq<T>)
    ensures |r| <= |s| && r == s[..|r|]
    ensures limit >= 0 ==> |r| == if limit < |s| then limit else |s|
    ensures limit < 0 ==> |r| == if |s| + limit > 0 then |s| + limit else 0
  {
    if limit >= 0 then (if limit < |s| then s[..limit] else s)
    else if |s| + limit > 0 then s[..|s| + limit] else []
  }

  /** `TTLCache(maxsize=128, ttl=60)`: each entry keeps its result and the time it was
      stored, and is live for `Ttl` seconds after that. Which live entry a full cache
      evicts is left open. */
  class ResultCache {
    var entries: map<string, (QueryResult, int)>

    predicate Valid()
      reads this
    {
      |entries| <= Capacity
    }

    constructor()
      ensures entries == map[] && Valid()
    {
      entries := map[];
    }

    /** The entries still live at time `now`. */
    function Live(now: int): (live: map<string, (QueryResult, int)>)
      reads this
      ensures live.Keys <= entries.Keys
      ensures forall k :: k in live <==> k in entries && now < entries[k].1 + Ttl
      ensures forall k :: k in live ==> live[k] == entries[k]
    {
      map k | k in entries && now < entries[k].1 + Ttl :: entries[k]
    }

    /** `key in cache` followed by `cache[key]`, both at time `now`. */
    function Lookup(key: string, now: int): (r: Option<QueryResult>)
      reads this
      ensures r.Some? <==> key in Live(now)
      ensures r.Some? ==> r.value == entries[key].0
    {
      if key in entries && now < entries[key].1 + Ttl then Some(entries[key].0) else None
    }

    /** `cache[key] = result` at time `now`: expired entries are purged, a full cache
        evicts one live entry, and the new entry is stored. */
    method Store(key: string, result: QueryResult, now: int)
      requires Valid()
      modifies this
      ensures Valid()
      ensures key in entries && entries[key] == (result, now)
      ensures Lookup(key, now) == Some(result)
      ensures forall t :: now <= t < now + Ttl ==> Lookup(key, t) == Some(result)
      ensures forall k :: k in entries && k != key ==> k in old(Live(now)) && entries[k] == old(Live(now))[k]
      ensures |old(Live(now)).Keys - entries.Keys| <= 1
      ensures key in old(Live(now)) || |old(Live(now))| < Capacity ==> old(Live(now)).Keys <= entries.Keys
    {
      var live := Live(now);
      ghost var before := live;
      SubsetCardinality(live.Keys, entries.Keys);
      if key !in live && |live| >= Capacity {
        var victim :| victim in live;
        RemoveOne(live, victim);
        live := live - {victim};
      }
      Admit(before, live, key, (result, now));
      entries := live[key := (result, now)];
    }
  }

  /** What `Store(key, result, at)` leaves: `after` holds the result stored at `at` and,
      besides it, only entries of the cache that were live at `at`, unchanged, with at most
      one of those evicted and none when the key was present or there was room. */
  ghost predicate Stored(before: map<string, (QueryResult, int)>, after: map<string, (QueryResult, int)>,
                         key: string, result: QueryResult, at: int)
  {
    && key in after && after[key] == (result, at)
    && (forall k :: k in after && k != key ==> k in before && after[k] == before[k])
    && |before.Keys - after.Keys| <= 1
    && (key in before || |before| < Capacity ==> before.Keys <= after.Keys)
  }

  lemma SubsetCardinality<T>(a: set<T>, b: set<T>)
    requires a <= b
    ensures |a| <= |b|
  {
    if a != {} {
      var x :| x in a;
      SubsetCardinality(a - {x}, b - {x});
    }
  }

  /** Evicting one entry frees one place and keeps the others. */
  lemma RemoveOne<V>(m: map<string, V>, victim: string)
    requires victim in m
    ensures (m - {victim}).Keys == m.Keys - {victim}
    ensures |m - {victim}| == |m| - 1
  {
    assert m.Keys == (m - {victim}).Keys + {victim};
  }

  /** Storing into what is left of the live entries `before` after at most one eviction:
      a cache with room for the key stays within `Capacity`, and only the evicted entry
      is lost. */
  lemma Admit<V>(before: map<string, V>, live: map<string, V>, key: string, v: V)
    requires |before| <= Capacity
    requires live == before || exists victim :: victim in before && live == before - {victim} && |live| == |before| - 1
    requires key in live || |live| < Capacity
    requires key in before || |before| < Capacity ==> live == before
    ensures |live[key := v]| <= Capacity
    ensures forall k :: k in live[key := v] && k != key ==> k in before && live[key := v][k] == before[k]
    ensures |before.Keys - live[key := v].Keys| <= 1
    ensures key in before || |before| < Capacity ==> before.Keys <= live[key := v].Keys
  {
    var after := live[key := v];
    if key in live {
      assert after.Keys == live.Keys;
    } else {
      assert after.Keys == live.Keys + {key};
    }
    if live == before {
      assert before.Keys - after.Keys == {};
    } else {
      var victim :| victim in before && live == before - {victim} && |live| == |before| - 1;
      assert before.Keys - after.Keys <= {victim};
      SubsetCardinality(before.Keys - after.Keys, {victim});
    }
  }

  const DonorResultsTitle: string := "Donor Results"
  const PrioritizeInsight: string := "Prioritize donors with higher lifetime giving and recent engagement."
  const FollowUpStep: string := "Create follow-up tasks for top 5 donors."
  const OutreachStep: string := "Draft personalized outreach acknowledging specific past gifts."

  /** The reply to a malformed query. */
  function SoqlErrorText(soql: string, message: string): string {
    Header("SOQL Error") + "\n- Query: `" + soql + "`\n- Message: " + message +
    "\n- Suggestion: Check field names and ensure NPSP is installed."
  }

  /** The reply to any other failure of the query. */
  function FetchErrorText(message: string): string {
    Header("Salesforce Error") + "\n- Unable to query donors. " + message
  }

  /** The report on a result: at most `limit` records, the segment and two fixed
      insights, two fixed next steps; `None` where rendering a record raises. */
  function DonorReport(result: QueryResult, segment: Segment, limit: int, repr: Value -> string): Option<string> {
    ReportText(DonorResultsTitle, Take(result.records, limit),
               ["Segment: " + SegmentName(segment), PrioritizeInsight], [FollowUpStep, OutreachStep], repr)
  }

  /** What answers a query: the live cached result if there is one, else the remote call. */
  function Served(hit: Option<QueryResult>, fetched: Outcome): (outcome: Outcome)
    ensures hit.Some? ==> outcome == Fetched(hit.value)
    ensures hit.None? ==> outcome == fetched
  {
    if hit.Some? then Fetched(hit.value) else fetched
  }

  /** The reply after a remote call with `outcome`. */
  function Reply(outcome: Outcome, soql: string, segment: Segment, limit: int, repr: Value -> string): Option<string> {
    match outcome
    case MalformedRequest(m) => Some(SoqlErrorText(soql, m))
    case Failed(m) => Some(FetchErrorText(m))
    case Fetched(result) => DonorReport(result, segment, limit, repr)
  }

  /** The server's state that `tool_query_donors` touches: its cache, and the queries it
      has sent to the remote so far. */
  class Server {
    const cache: ResultCache
    var sent: seq<string>

    constructor()
      ensures fresh(cache) && cache.entries == map[] && cache.Valid() && sent == []
    {
      cache := new ResultCache();
      sent := [];
    }

    /** Lines 432-441: the cached result for `soql` while it is live at `tick`; otherwise
        the remote call, whose result, but not whose failure, is stored when the timer
        reads `storeTick`, once the call has returned. */
    method CachedQuery(soql: string, tick: int, storeTick: int, fetch: string -> Outcome) returns (outcome: Outcome)
      requires cache.Valid()
      requires tick <= storeTick
      modifies this, cache
      ensures cache.Valid()
      ensures var hit := old(cache.Lookup(CacheKey(soql), tick));
        && outcome == Served(hit, fetch(soql))
        && sent == old(sent) + (if hit.Some? then [] else [soql])
        && (hit.Some? || !outcome.Fetched? ==> cache.entries == old(cache.entries))
        && (outcome.Fetched? ==> cache.Lookup(CacheKey(soql), tick) == Some(outcome.result))
        && (hit.None? && outcome.Fetched? ==>
              Stored(old(cache.Live(storeTick)), cache.entries, CacheKey(soql), outcome.result, storeTick))
        && (hit.None? && outcome.Fetched? ==> forall t :: storeTick <= t < storeTick + Ttl ==>
              cache.Lookup(CacheKey(soql), t) == Some(outcome.result))
    {
      var key := CacheKey(soql);
      var hit := cache.Lookup(key, tick);
      if hit.Some? {
        return Fetched(hit.value);
      }
      sent := sent + [soql];
      outcome := fetch(soql);
      if outcome.Fetched? {
        cache.Store(key, outcome.result, storeTick);
      }
    }

    /** `tool_query_donors(criteria, limit)` with the wall clock at `now`, the cache's
        timer at `tick` for the lookup and at `storeTick` for the store. A live entry
        answers without a remote call; otherwise the query is sent, a failure is reported
        and not stored, and a result is stored. */
    method QueryDonors(criteria: string, limit: int, now: Instant, back: (Instant, Span) -> Instant,
                       tick: int, storeTick: int, fetch: string -> Outcome, repr: Value -> string)
      returns (reply: Option<string>)
      requires cache.Valid()
      requires tick <= storeTick
      modifies this, cache
      ensures cache.Valid()
      ensures var built := BuildSoql(criteria, limit, now, back);
        var hit := old(cache.Lookup(CacheKey(built.soql), tick));
        && reply == Reply(Served(hit, fetch(built.soql)), built.soql, built.meta.segment, limit, repr)
        && sent == old(sent) + (if hit.Some? then [] else [built.soql])
        && (hit.Some? || !fetch(built.soql).Fetched? ==> cache.entries == old(cache.entries))
        && (hit.None? && fetch(built.soql).Fetched? ==>
              cache.Lookup(CacheKey(built.soql), tick) == Some(fetch(built.soql).result))
        && (hit.None? && fetch(built.soql).Fetched? ==>
              Stored(old(cache.Live(storeTick)), cache.entries, CacheKey(built.soql), fetch(built.soql).result, storeTick))
        && (hit.None? && fetch(built.soql).Fetched? ==> forall t :: storeTick <= t < storeTick + Ttl ==>
              cache.Lookup(CacheKey(built.soql), t) == Some(fetch(built.soql).result))
    {
      var built := BuildSoql(criteria, limit, now, back);
      var outcome := CachedQuery(built.soql, tick, storeTick, fetch);
      match outcome {
        case MalformedRequest(m) =>
          return Some(SoqlErrorText(built.soql, m));
        case Failed(m) =>
          return Some(FetchErrorText(m));
        case Fetched(result) =>
          var records := Take(result.records, limit);
          var insights := ["Segment: " + SegmentName(built.meta.segment), PrioritizeInsight];
          var steps := [FollowUpStep, OutreachStep];
          reply := FormatRecords(DonorResultsTitle, records, insights, steps, repr);
      }
    }
  }

  /** A stored result answers the same query again for exactly `Ttl` seconds: a lookup
      of its key from the time it was stored is a hit before `stored + Ttl` and a miss
      from then on. */
  lemma StoredIsLive(c: ResultCache, key: string, result: QueryResult, stored: int, later: int)
    requires key in c.entries && c.entries[key] == (result, stored)
    requires stored <= later
    ensures c.Lookup(key, later) == Some(result) <==> later < stored + Ttl
    ensures later >= stored + Ttl ==> c.Lookup(key, later).None?
  {
  }
}
