/** Regular expressions of the form `(lead|alt)\s*(\d+)\s*unit` (blank runs `\s*` or
    `\s+`), searched for and read back as the number in the digit group. They serve
    MONTHS_PATTERN and YEARS_PATTERN (fundraising_mcp_server.py:93-94) and the
    `top\s+(\d+)\s+donor` and `last\s*(\d+)\s*months?` tests of `nl_to_soql`
    (fundraising_mcp_server.py:343, 367).

    Every token of such a pattern starts with a character the run before it cannot
    take: a digit after blanks, a blank or a letter after digits, a letter after
    blanks. So the greedy run is the only one that can lead to a match, and the
    scanner below decides the pattern at a position without backtracking; the
    lemmas prove it equal to the pattern's language. */
module PhraseScan {
  import opened Options
  import opened Text

  /** A pattern `(lead|alt)\s{minGap,}(\d+)\s{minGap,}unit`, case-insensitive when
      `ignoreCase` holds. With `alt == lead` there is one lead word. */
  datatype Phrase = Phrase(lead: string, alt: string, minGap: nat, unit: string, ignoreCase: bool)

  /** The two lead words are equally long, and the unit starts with a lower-case letter. */
  predicate ValidPhrase(p: Phrase) {
    |p.alt| == |p.lead| && |p.unit| > 0 && 'a' <= p.unit[0] <= 'z'
  }

  /** `w` occurs at `i` in `t`, ignoring the case of `t` when `ignoreCase` holds. */
  predicate WordAt(t: string, i: nat, w: string, ignoreCase: bool) {
    i + |w| <= |t| && (if ignoreCase then Lower(t[i..i + |w|]) else t[i..i + |w|]) == w
  }

  predicate LeadAt(t: string, i: nat, p: Phrase) {
    WordAt(t, i, p.lead, p.ignoreCase) || WordAt(t, i, p.alt, p.ignoreCase)
  }

  /** The pattern matches at `i` with the first blank run over `[i + |lead|, a)`, the
      digits over `[a, b)` and the second blank run over `[b, c)`: the pattern's
      language, without any preference between the ways of splitting. */
  predicate PhraseShape(t: string, i: nat, a: nat, b: nat, c: nat, p: Phrase) {
    LeadAt(t, i, p) && i + |p.lead| + p.minGap <= a < b && b + p.minGap <= c <= |t| &&
    (forall k :: i + |p.lead| <= k < a ==> IsSpace(t[k])) &&
    (forall k :: a <= k < b ==> IsDigit(t[k])) &&
    (forall k :: b <= k < c ==> IsSpace(t[k])) &&
    WordAt(t, c, p.unit, p.ignoreCase)
  }

  /** The number in the digit group when the pattern matches at `i`. */
  function NumberAt(t: string, i: nat, p: Phrase): Option<nat>
    requires i <= |t|
  {
    if !LeadAt(t, i, p) || i + |p.lead| > |t| then None
    else
      var (a, b, c) := Split(t, i, p);
      if a - (i + |p.lead|) < p.minGap || b == a || c - b < p.minGap then None
      else if WordAt(t, c, p.unit, p.ignoreCase) then Some(DigitsValue(t[a..b]))
      else None
  }

  /** The greedy blank run after the lead, the greedy digit run and the greedy blank run
      after it, as the end positions `(a, b, c)` of the three runs. */
  function Split(t: string, i: nat, p: Phrase): (r: (nat, nat, nat))
    requires i + |p.lead| <= |t|
    ensures i + |p.lead| <= r.0 <= r.1 <= r.2 <= |t|
    ensures AllDigits(t[r.0..r.1])
  {
    var a := SpacesEnd(t, i + |p.lead|);
    var b := DigitRunEnd(t, a, |t| - a);
    assert forall k :: 0 <= k < b - a ==> t[a..b][k] == t[a + k];
    (a, b, SpacesEnd(t, b))
  }

  /** Every number the scanner reports comes from a match the pattern allows. */
  lemma NumberAtSound(t: string, i: nat, p: Phrase)
    requires i <= |t| && NumberAt(t, i, p).Some?
    ensures exists a: nat, b: nat, c: nat :: PhraseShape(t, i, a, b, c, p) &&
              AllDigits(t[a..b]) && NumberAt(t, i, p).value == DigitsValue(t[a..b])
  {
    var (a, b, c) := Split(t, i, p);
    assert PhraseShape(t, i, a, b, c, p);
  }

  /** The character a unit word starts at is neither a digit nor a blank. */
  lemma UnitStart(t: string, c: nat, p: Phrase)
    requires ValidPhrase(p) && WordAt(t, c, p.unit, p.ignoreCase)
    ensures !IsDigit(t[c]) && !IsSpace(t[c])
  {
    if p.ignoreCase {
      assert Lower(t[c..c + |p.unit|])[0] == ToLower(t[c]);
    } else {
      assert t[c..c + |p.unit|][0] == t[c];
    }
  }

  /** Every way the pattern can match at `i` yields the number the scanner reports: the
      split into blanks, digits and blanks is unique. */
  lemma NumberAtComplete(t: string, i: nat, a: nat, b: nat, c: nat, p: Phrase)
    requires ValidPhrase(p) && PhraseShape(t, i, a, b, c, p)
    ensures AllDigits(t[a..b])
    ensures NumberAt(t, i, p) == Some(DigitsValue(t[a..b]))
  {
    SplitOfShape(t, i, a, b, c, p);
    assert NumberAt(t, i, p) == Some(DigitsValue(t[a..b]));
  }

  /** The greedy runs end where the pattern's runs end. */
  lemma SplitOfShape(t: string, i: nat, a: nat, b: nat, c: nat, p: Phrase)
    requires ValidPhrase(p) && PhraseShape(t, i, a, b, c, p)
    ensures Split(t, i, p) == (a, b, c)
  {
    UnitStart(t, c, p);
    assert IsDigit(t[a]);
    SpacesEndFrom(t, i + |p.lead|, a);
    if b < c {
      assert IsSpace(t[b]);
    }
    assert b == |t| || !IsDigit(t[b]);
    DigitRunEndFrom(t, a, |t| - a, b);
    SpacesEndFrom(t, b, c);
    SplitFrom(t, i, p, a, b, c);
  }

  /** `Split` is fixed by the ends of its three runs. */
  lemma SplitFrom(t: string, i: nat, p: Phrase, a: nat, b: nat, c: nat)
    requires i + |p.lead| <= |t| && a <= |t|
    requires SpacesEnd(t, i + |p.lead|) == a && DigitRunEnd(t, a, |t| - a) == b && SpacesEnd(t, b) == c
    ensures Split(t, i, p) == (a, b, c)
  {
  }

  /** Leftmost position at or after `i` where the pattern matches. */
  function FirstMatch(t: string, i: nat, p: Phrase): (r: Option<nat>)
    requires i <= |t|
    ensures r.Some? ==> i <= r.value < |t| && NumberAt(t, r.value, p).Some?
    ensures r.Some? ==> forall k :: i <= k < r.value ==> NumberAt(t, k, p).None?
    ensures r.None? ==> forall k :: i <= k <= |t| ==> NumberAt(t, k, p).None?
    decreases |t| - i
  {
    if i == |t| then NoMatchAtEnd(t, p); None
    else if NumberAt(t, i, p).Some? then Some(i)
    else FirstMatch(t, i + 1, p)
  }

  /** Nothing matches at the end of the text: the digit group cannot be empty. */
  lemma NoMatchAtEnd(t: string, p: Phrase)
    ensures NumberAt(t, |t|, p).None?
  {
    if LeadAt(t, |t|, p) && |p.lead| == 0 {
      var (a, b, c) := Split(t, |t|, p);
      assert a == b;
    }
  }

  /** `int(m.group(n))` for `m = pattern.search(t)`, or `None` when the search fails. */
  function Search(t: string, p: Phrase): (r: Option<nat>)
    ensures r.None? <==> forall k :: 0 <= k <= |t| ==> NumberAt(t, k, p).None?
  {
    match FirstMatch(t, 0, p)
    case None => None
    case Some(q) => NumberAt(t, q, p)
  }

  /** The search succeeds exactly when the pattern matches somewhere, and then reports the
      number at the leftmost such position. */
  lemma SearchLeftmost(t: string, p: Phrase, i: nat)
    requires i <= |t| && NumberAt(t, i, p).Some?
    ensures Search(t, p).Some?
    ensures exists q :: 0 <= q <= i && Search(t, p) == NumberAt(t, q, p) &&
              forall k :: 0 <= k < q ==> NumberAt(t, k, p).None?
  {
    var q := FirstMatch(t, 0, p).value;
    assert Search(t, p) == NumberAt(t, q, p);
  }
}
