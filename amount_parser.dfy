/** `parse_amount` (fundraising_mcp_server.py:92, 99-117): the first dollar figure
    in free text, as integer cents.

    AMOUNT_PATTERN is `\$?\s*(A1|A2|A3)` with A1 = `\d{1,3}(?:[,\s]\d{3})*(?:\.\d{1,2})?`.
    Python's `search` takes the leftmost position where the pattern matches, and
    at that position the first alternative that succeeds. A1 succeeds as soon as
    one digit is present, so A2 (`\d+…`) and A3 (`\d+\s*[kKmMbB]`) are never used.
    The leftmost match position is the first digit, or the `$`/blanks in front of
    it, and in every case group 1 begins at the first digit of the text. The three
    parts of A1 are greedy and followed by nothing, so the scanners below take
    each of them as long as it goes. */
module AmountParser {
  import opened Options
  import opened Text

  /** An amount of money in whole cents. */
  type Cents = nat

  /** `t[k]` is a separator that `[,\s]` accepts. */
  predicate IsSeparator(c: char) { c == ',' || IsSpace(c) }

  /** Index of the first digit of `t` at or after `i`. */
  function FirstDigitFrom(t: string, i: nat): (r: Option<nat>)
    requires i <= |t|
    ensures r.Some? ==> i <= r.value < |t| && IsDigit(t[r.value])
    ensures r.Some? ==> forall k :: i <= k < r.value ==> !IsDigit(t[k])
    ensures r.None? ==> forall k :: i <= k < |t| ==> !IsDigit(t[k])
    decreases |t| - i
  {
    if i == |t| then None
    else if IsDigit(t[i]) then Some(i)
    else FirstDigitFrom(t, i + 1)
  }

  /** One `[,\s]\d{3}` group begins at `i`. */
  predicate GroupAt(t: string, i: nat) {
    i + 4 <= |t| && IsSeparator(t[i]) && IsDigit(t[i + 1]) && IsDigit(t[i + 2]) && IsDigit(t[i + 3])
  }

  /** `s` is a sequence of `[,\s]\d{3}` groups. */
  predicate IsGroups(s: string) {
    s == [] || (GroupAt(s, 0) && IsGroups(s[4..]))
  }

  /** End of the greedy repetition `(?:[,\s]\d{3})*` that starts at `i`. */
  function ThousandsEnd(t: string, i: nat): (e: nat)
    requires i <= |t|
    ensures i <= e <= |t| && IsGroups(t[i..e]) && !GroupAt(t, e)
    decreases |t| - i
  {
    if GroupAt(t, i) then
      var e := ThousandsEnd(t, i + 4);
      assert t[i..e][4..] == t[i + 4..e];
      e
    else i
  }

  /** End of the greedy option `(?:\.\d{1,2})?` that starts at `i`. */
  function FractionEnd(t: string, i: nat): (e: nat)
    requires i <= |t|
    ensures i <= e <= |t|
    ensures e == i ==> !(i + 1 < |t| && t[i] == '.' && IsDigit(t[i + 1]))
    ensures e != i ==> t[i] == '.' && 2 <= e - i <= 3 && AllDigits(t[i + 1..e])
    ensures e - i == 2 && e < |t| ==> !IsDigit(t[e])
  {
    if i + 1 < |t| && t[i] == '.' && IsDigit(t[i + 1]) then DigitRunEnd(t, i + 1, 2) else i
  }

  /** `s` is empty or a decimal point and one or two digits. */
  predicate IsFraction(s: string) {
    s == [] || (s[0] == '.' && 2 <= |s| <= 3 && AllDigits(s[1..]))
  }

  /** The leftmost match of A1: where it starts and its three parts
      `\d{1,3}`, `(?:[,\s]\d{3})*` and `(?:\.\d{1,2})?`. */
  datatype AmountMatch = AmountMatch(start: nat, lead: string, thousands: string, fraction: string) {
    /** The text of group 1. */
    function Captured(): string { lead + thousands + fraction }

    predicate WellFormed() {
      1 <= |lead| <= 3 && AllDigits(lead) && IsGroups(thousands) && IsFraction(fraction)
    }

    /** In `t`, none of the three greedy parts could have been longer: a lead of fewer
        than three digits is followed by a non-digit, no `[,\s]\d{3}` group follows the
        groups, an absent fraction is not followed by a point and a digit, and a
        one-digit fraction is not followed by a digit. */
    predicate GreedyIn(t: string) {
      var a := start + |lead|;
      var b := a + |thousands|;
      var e := b + |fraction|;
      && (|lead| < 3 && a < |t| ==> !IsDigit(t[a]))
      && !GroupAt(t, b)
      && (fraction == [] ==> !(b + 1 < |t| && t[b] == '.' && IsDigit(t[b + 1])))
      && (|fraction| == 2 && e < |t| ==> !IsDigit(t[e]))
    }
  }

  /** `t[d..a] + t[a..b] + t[b..e]` glued back together is `t[d..e]`. */
  lemma SlicesJoin(t: string, d: nat, a: nat, b: nat, e: nat)
    requires d <= a <= b <= e <= |t|
    ensures t[d..a] + t[a..b] + t[b..e] == t[d..e]
  {
    assert t[a..e] == t[a..b] + t[b..e];
    assert t[d..e] == t[d..a] + t[a..e];
  }

  /** Group 1 when the first digit of `t` is at `d`: the three greedy parts of A1. */
  function MatchAt(t: string, d: nat): (m: AmountMatch)
    requires d < |t| && IsDigit(t[d])
    ensures m.start == d && m.WellFormed()
    ensures OccursAt(t, m.Captured(), d)
    ensures m.GreedyIn(t)
  {
    var a := DigitRunEnd(t, d, 3);
    var b := ThousandsEnd(t, a);
    var e := FractionEnd(t, b);
    PartsWellFormed(t, d, a, b, e);
    PartsGreedy(t, d, a, b, e);
    SlicesJoin(t, d, a, b, e);
    AmountMatch(d, t[d..a], t[a..b], t[b..e])
  }

  lemma PartsWellFormed(t: string, d: nat, a: nat, b: nat, e: nat)
    requires d < |t| && IsDigit(t[d])
    requires a == DigitRunEnd(t, d, 3) && b == ThousandsEnd(t, a) && e == FractionEnd(t, b)
    ensures AmountMatch(d, t[d..a], t[a..b], t[b..e]).WellFormed()
  {
    var lead, fraction := t[d..a], t[b..e];
    assert d < a;
    assert AllDigits(lead) by {
      assert forall k :: 0 <= k < |lead| ==> lead[k] == t[d + k];
    }
    assert IsFraction(fraction) by {
      if e != b {
        assert fraction[0] == t[b] && fraction[1..] == t[b + 1..e];
      }
    }
  }

  lemma PartsGreedy(t: string, d: nat, a: nat, b: nat, e: nat)
    requires d < |t| && IsDigit(t[d])
    requires a == DigitRunEnd(t, d, 3) && b == ThousandsEnd(t, a) && e == FractionEnd(t, b)
    ensures AmountMatch(d, t[d..a], t[a..b], t[b..e]).GreedyIn(t)
  {
    var m := AmountMatch(d, t[d..a], t[a..b], t[b..e]);
    assert d + |m.lead| == a && a + |m.thousands| == b && b + |m.fraction| == e;
  }

  /** Group 1 of `AMOUNT_PATTERN.search(t)`, or `None` when the search fails. Group 1
      starts at the first digit, and each of its three parts is as long as it goes. */
  function AmountGroup(t: string): (m: Option<AmountMatch>)
    ensures m.None? <==> forall k :: 0 <= k < |t| ==> !IsDigit(t[k])
    ensures m.Some? ==> m.value.WellFormed()
    ensures m.Some? ==> OccursAt(t, m.value.Captured(), m.value.start)
    ensures m.Some? ==> forall k :: 0 <= k < m.value.start ==> !IsDigit(t[k])
    ensures m.Some? ==> m.value.GreedyIn(t)
  {
    match FirstDigitFrom(t, 0)
    case None => None
    case Some(d) => Some(MatchAt(t, d))
  }

  /** Cents denoted by the one or two fraction digits after a decimal point. */
  function FractionCents(f: string): (c: nat)
    requires |f| <= 2 && AllDigits(f)
    ensures c < 100
  {
    if |f| == 0 then 0
    else if |f| == 1 then DigitValue(f[0]) * 10
    else DigitValue(f[0]) * 10 + DigitValue(f[1])
  }

  /** The amount a match denotes when no blank splits it: the lead as dollars and the
      fraction digits as cents. */
  function Dollars(m: AmountMatch): Cents
    requires m.WellFormed()
  {
    DigitsValue(m.lead) * 100 + (if m.fraction == [] then 0 else FractionCents(m.fraction[1..]))
  }

  /** Python's `float()` on an unsigned decimal, in cents: digits, a point, digits, with
      at least one digit and at most two after the point (`"7"`, `"7."`, `".5"`,
      `"7.25"`). `None` on anything else. */
  function DecimalCents(s: string): (c: Option<Cents>)
    ensures c.Some? ==> |s| > 0 && (IsDigit(s[0]) || s[0] == '.')
    ensures c.Some? ==> IsDigit(s[|s| - 1]) || s[|s| - 1] == '.'
  {
    var w := DigitRunEnd(s, 0, |s|);
    if w == |s| then
      if w == 0 then None
      else
        assert s[..w] == s;
        Some(DigitsValue(s) * 100)
    else if s[w] == '.' && |s| - w <= 3 && AllDigits(s[w + 1..]) && (w > 0 || w + 1 < |s|) then
      assert |s| - 1 > w ==> s[|s| - 1] == s[w + 1..][|s| - w - 2];
      Some(DigitsValue(s[..w]) * 100 + FractionCents(s[w + 1..]))
    else None
  }

  /** A decimal with an optional `+` or `-` sign in front, in cents. */
  function SignedCents(body: string): Option<int> {
    var signed := |body| > 0 && (body[0] == '+' || body[0] == '-');
    match DecimalCents(if signed then body[1..] else body)
    case None => None
    case Some(v) =>
      var value: int := v;
      Some(if signed && body[0] == '-' then -value else value)
  }

  /** Python's `float()` on text, in cents: the white space around it is dropped, a `+`
      or `-` sign is read, and the rest is an unsigned decimal. `None` where `float()`
      raises, and on the forms DecimalCents does not read. */
  function FloatCents(s: string): Option<int> {
    SignedCents(Strip(s))
  }

  lemma SignedCentsOf(sign: string, u: string)
    requires sign == "" || sign == "+" || sign == "-"
    requires DecimalCents(u).Some?
    ensures var v: int := DecimalCents(u).value;
            SignedCents(sign + u) == Some(if sign == "-" then -v else v)
  {
    if sign == "" {
      assert sign + u == u;
    } else {
      assert (sign + u)[1..] == u;
    }
  }

  /** `float()` reads a decimal with white space around it and an optional sign. */
  lemma FloatCentsReads(pre: string, sign: string, u: string, post: string)
    requires AllSpaces(pre) && AllSpaces(post)
    requires sign == "" || sign == "+" || sign == "-"
    requires DecimalCents(u).Some?
    ensures var v: int := DecimalCents(u).value;
            FloatCents(pre + sign + u + post) == Some(if sign == "-" then -v else v)
  {
    var m := sign + u;
    assert m[0] == if sign == "" then u[0] else sign[0];
    assert m[|m| - 1] == u[|u| - 1];
    StripAround(pre, m, post);
    Associate(pre, sign, u);
    SignedCentsOf(sign, u);
  }

  /** `float(str(i))` is `i`: every integer's text reads back. */
  lemma FloatCentsOfIntStr(i: int)
    ensures FloatCents(IntStr(i)) == Some(i * 100)
  {
    var n: nat := if i < 0 then -i else i;
    var digits := NatStr(n);
    var text := IntStr(i);
    NatStrRoundTrip(n);
    DecimalCentsOfDigits(digits);
    StripIdentity(text);
    assert FloatCents(text) == SignedCents(text);
    if i < 0 {
      assert text == "-" + digits;
      SignedCentsOf("-", digits);
      assert i * 100 == -(n * 100);
    } else {
      assert text == digits;
      SignedCentsUnsigned(digits);
    }
  }

  lemma DecimalCentsOfDigits(s: string)
    requires |s| > 0 && AllDigits(s)
    ensures DecimalCents(s) == Some(DigitsValue(s) * 100)
  {
    DigitRunEndFrom(s, 0, |s|, |s|);
    assert s[..|s|] == s;
  }

  /** Text starting with a digit carries no sign. */
  lemma SignedCentsUnsigned(u: string)
    requires |u| > 0 && IsDigit(u[0])
    ensures SignedCents(u) == DecimalCents(u)
  {
    assert !(u[0] == '+' || u[0] == '-');
  }

  /** Group 1 has no sign and no white space around it, so `float()` reads it as the
      unsigned decimal it is. */
  lemma FloatCentsOfCaptured(m: AmountMatch)
    requires m.WellFormed()
    ensures FloatCents(m.Captured()) == DecimalCents(m.Captured())
  {
    var g := m.Captured();
    CapturedEndsWithDigit(m);
    assert g[0] == m.lead[0];
    StripIdentity(g);
    SignedCentsUnsigned(g);
  }

  /** Lines 103-113: a trailing `k`, `m` or `b` sets the multiplier and is dropped. */
  function Multiplier(raw: string): (r: (nat, string))
    ensures r.0 == 1 ==> r.1 == raw
  {
    if |raw| > 0 && raw[|raw| - 1] == 'k' then (1_000, raw[..|raw| - 1])
    else if |raw| > 0 && raw[|raw| - 1] == 'm' then (1_000_000, raw[..|raw| - 1])
    else if |raw| > 0 && raw[|raw| - 1] == 'b' then (1_000_000_000, raw[..|raw| - 1])
    else (1, raw)
  }

  /** `float(raw) * factor`, in cents. */
  function Scaled(c: int, factor: nat): int {
    c * factor
  }

  /** Lines 103-117: group 1 stripped, lower-cased, its multiplier applied and read by `float()`. */
  function ParseCaptured(group: string): Option<int> {
    var raw := Lower(Strip(group));
    var (factor, number) := Multiplier(raw);
    match FloatCents(number)
    case None => None
    case Some(c) => Some(Scaled(c, factor))
  }

  /** `parse_amount(text)`, in cents. Never raises: every failure is `None`. */
  function ParseAmount(text: string): Option<int> {
    match AmountGroup(Without(text, ','))
    case None => None
    case Some(m) => ParseCaptured(m.Captured())
  }

  predicate HasDigit(s: string) { exists k :: 0 <= k < |s| && IsDigit(s[k]) }

  /** Removing the commas keeps every digit, so the search succeeds exactly when `text` has a digit. */
  lemma HasDigitWithoutCommas(text: string)
    ensures HasDigit(Without(text, ',')) <==> HasDigit(text)
  {
    var t := Without(text, ',');
    if HasDigit(text) {
      var k :| 0 <= k < |text| && IsDigit(text[k]);
      WithoutKeeps(text, ',', text[k]);
      assert text[k] in t;
    }
    if HasDigit(t) {
      var k :| 0 <= k < |t| && IsDigit(t[k]);
      assert t[k] in t;
      WithoutKeeps(text, ',', t[k]);
    }
  }

  lemma {:induction false} GroupsEndWithDigit(s: string)
    requires IsGroups(s) && s != []
    ensures IsDigit(s[|s| - 1])
  {
    if s[4..] != [] {
      GroupsEndWithDigit(s[4..]);
    }
  }

  /** Every character of a run of groups is a separator or a digit. */
  lemma {:induction false} GroupsChars(s: string, k: nat)
    requires IsGroups(s) && k < |s|
    ensures IsSeparator(s[k]) || IsDigit(s[k])
  {
    if k >= 4 {
      GroupsChars(s[4..], k - 4);
    }
  }

  lemma SeparatorNotUpper(c: char)
    requires IsSeparator(c) || IsDigit(c)
    ensures !('A' <= c <= 'Z')
  {
  }

  /** The captured text ends with a digit. */
  lemma CapturedEndsWithDigit(m: AmountMatch)
    requires m.WellFormed()
    ensures IsDigit(m.Captured()[|m.Captured()| - 1])
  {
    var g := m.Captured();
    if m.fraction != [] {
      assert g[|g| - 1] == m.fraction[1..][|m.fraction| - 2];
    } else if m.thousands != [] {
      GroupsEndWithDigit(m.thousands);
      assert g[|g| - 1] == m.thousands[|m.thousands| - 1];
    } else {
      assert g[|g| - 1] == m.lead[|m.lead| - 1];
    }
  }

  /** Stripping and lower-casing leave the captured text alone: it begins and ends with a
      digit and holds only digits, separators and a decimal point. */
  lemma CapturedIsRaw(m: AmountMatch)
    requires m.WellFormed()
    ensures Lower(Strip(m.Captured())) == m.Captured()
  {
    var g := m.Captured();
    CapturedEndsWithDigit(m);
    assert g[0] == m.lead[0];
    StripIdentity(g);
    CapturedHasNoUpper(m);
    LowerIdentity(g);
  }

  lemma CapturedHasNoUpper(m: AmountMatch)
    requires m.WellFormed()
    ensures forall k :: 0 <= k < |m.Captured()| ==> !('A' <= m.Captured()[k] <= 'Z')
  {
    var g := m.Captured();
    forall k | 0 <= k < |g| ensures !('A' <= g[k] <= 'Z') {
      if k < |m.lead| {
        assert g[k] == m.lead[k];
      } else if k < |m.lead| + |m.thousands| {
        GroupsChars(m.thousands, k - |m.lead|);
        SeparatorNotUpper(m.thousands[k - |m.lead|]);
        assert g[k] == m.thousands[k - |m.lead|];
      } else if k > |m.lead| + |m.thousands| {
        assert g[k] == m.fraction[1..][k - |m.lead| - |m.thousands| - 1];
      }
    }
  }

  /** The k/m/b branch (lines 105-113) is dead: group 1 always ends with a digit, so the
      multiplier is 1 and the number parsed is group 1 itself. */
  lemma MultiplierAlwaysOne(m: AmountMatch)
    requires m.WellFormed()
    ensures Multiplier(Lower(Strip(m.Captured()))) == (1, m.Captured())
  {
    CapturedIsRaw(m);
    CapturedEndsWithDigit(m);
  }

  /** What `float()` makes of group 1: the lead as dollars and the fraction as cents, unless
      a blank separates digit groups, which `float()` rejects. */
  lemma DecimalCentsOfMatch(m: AmountMatch)
    requires m.WellFormed()
    ensures m.thousands == [] ==>
      DecimalCents(m.Captured()) ==
        Some(Dollars(m))
    ensures m.thousands != [] && IsSpace(m.thousands[0]) ==> DecimalCents(m.Captured()).None?
  {
    var g := m.Captured();
    var n := |m.lead|;
    assert g[..n] == m.lead;
    if m.thousands == [] {
      if m.fraction == [] {
        assert g == m.lead;
        DigitRunEndFrom(g, 0, |g|, n);
      } else {
        assert g[n] == '.';
        DigitRunEndFrom(g, 0, |g|, n);
        assert g[n + 1..] == m.fraction[1..];
      }
    } else if IsSpace(m.thousands[0]) {
      assert g[n] == m.thousands[0];
      DigitRunEndFrom(g, 0, |g|, n);
    }
  }

  /** In the comma-free text a `[,\s]` separator can only be a blank. */
  lemma SeparatorIsBlank(text: string)
    requires AmountGroup(Without(text, ',')).Some?
    ensures var m := AmountGroup(Without(text, ',')).value;
            m.thousands != [] ==> IsSpace(m.thousands[0])
  {
    var t := Without(text, ',');
    var m := AmountGroup(t).value;
    if m.thousands != [] {
      var i := m.start + |m.lead|;
      assert m.Captured()[|m.lead|] == m.thousands[0];
      OccursAtIndex(t, m.Captured(), m.start, |m.lead|);
      assert t[i] in t;
    }
  }

  /** `parse_amount` fails exactly when the comma-free text has no digit, or when the
      number it finds has a blank between digit groups ("1 000"), which `float()` rejects. */
  lemma ParseAmountNone(text: string)
    ensures !HasDigit(text) ==> ParseAmount(text).None?
    ensures HasDigit(text) ==>
      && AmountGroup(Without(text, ',')).Some?
      && (ParseAmount(text).None? <==> AmountGroup(Without(text, ',')).value.thousands != [])
  {
    HasDigitWithoutCommas(text);
    if HasDigit(text) {
      var m := AmountGroup(Without(text, ',')).value;
      SeparatorIsBlank(text);
      ParseCapturedOfMatch(m);
    }
  }

  /** When no blank splits the number, the result is its leading one to three digits as
      dollars and its one or two fraction digits as cents. */
  lemma ParseAmountValue(text: string)
    requires AmountGroup(Without(text, ',')).Some?
    requires AmountGroup(Without(text, ',')).value.thousands == []
    ensures var m := AmountGroup(Without(text, ',')).value;
            ParseAmount(text) == Some(Dollars(m))
  {
    var t := Without(text, ',');
    var m := AmountGroup(t).value;
    ParseCapturedOfMatch(m);
    assert ParseAmount(text) == ParseCaptured(m.Captured());
  }

  /** Group 1 read back: the multiplier is 1, so the value is what `float()` makes of the group. */
  lemma ParseCapturedOfMatch(m: AmountMatch)
    requires m.WellFormed()
    ensures ParseCaptured(m.Captured()) == FloatCents(m.Captured()) == DecimalCents(m.Captured())
    ensures m.thousands == [] ==>
      ParseCaptured(m.Captured()) ==
        Some(Dollars(m))
    ensures m.thousands != [] && IsSpace(m.thousands[0]) ==> ParseCaptured(m.Captured()).None?
  {
    var g := m.Captured();
    MultiplierAlwaysOne(m);
    FloatCentsOfCaptured(m);
    DecimalCentsOfMatch(m);
    if FloatCents(g).Some? {
      var c := FloatCents(g).value;
      assert Scaled(c, 1) == c;
    }
  }

  /** A match of at most three lead digits and two fraction digits is at most $999.99. */
  lemma DollarsBound(m: AmountMatch)
    requires m.WellFormed()
    ensures Dollars(m) <= 99_999
  {
    DigitsValueBound(m.lead);
    assert Pow10(|m.lead|) <= 1000 by {
      assert Pow10(1) == 10 && Pow10(2) == 100 && Pow10(3) == 1000;
    }
  }

  /** `parse_amount` never yields more than $999.99 (contrast test_server.py:17-19, which
      expect 1000.0, 5000.0 and 2500000.0). */
  lemma ParseAmountBound(text: string)
    ensures ParseAmount(text).Some? ==> 0 <= ParseAmount(text).value <= 99_999
  {
    ParseAmountNone(text);
    if ParseAmount(text).Some? {
      ParseAmountValue(text);
      DollarsBound(AmountGroup(Without(text, ',')).value);
    }
  }
}
