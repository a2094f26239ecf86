/** Character classes, case mapping, trimming, substring search and decimal
    rendering of integers: the small string toolkit the server's parsers,
    query templates and report lines are written with. Letters and digits are
    the ASCII ones; white space is Python's, all of Unicode's. */
module Text {

  predicate IsDigit(c: char) { '0' <= c <= '9' }

  /** The characters Python's `\s`, `str.strip()` and `float()` treat as white space
      (`str.isspace()`): the ASCII controls 9-13 and 28-31, the blank, and the
      Unicode separators. */
  predicate IsSpace(c: char) {
    || '\U{0009}' <= c <= '\U{000D}'
    || '\U{001C}' <= c <= '\U{0020}'
    || c == '\U{0085}' || c == '\U{00A0}' || c == '\U{1680}'
    || '\U{2000}' <= c <= '\U{200A}'
    || c == '\U{2028}' || c == '\U{2029}' || c == '\U{202F}' || c == '\U{205F}' || c == '\U{3000}'
  }

  predicate IsAlnum(c: char) { IsDigit(c) || 'a' <= c <= 'z' || 'A' <= c <= 'Z' }

  predicate AllDigits(s: string) { forall i :: 0 <= i < |s| ==> IsDigit(s[i]) }

  /** `str.lower()` on one ASCII character. */
  function ToLower(c: char): char {
    if 'A' <= c <= 'Z' then (c as int - 'A' as int + 'a' as int) as char else c
  }

  /** `str.lower()` on ASCII letters. */
  function Lower(s: string): string {
    seq(|s|, i requires 0 <= i < |s| => ToLower(s[i]))
  }

  function TrimStart(s: string): (r: string)
    ensures |r| <= |s| && r == s[|s| - |r|..]
  {
    if |s| > 0 && IsSpace(s[0]) then TrimStart(s[1..]) else s
  }

  function TrimEnd(s: string): (r: string)
    ensures |r| <= |s| && r == s[..|r|]
  {
    if |s| > 0 && IsSpace(s[|s| - 1]) then TrimEnd(s[..|s| - 1]) else s
  }

  /** `str.strip()`. */
  function Strip(s: string): string {
    TrimEnd(TrimStart(s))
  }

  predicate AllSpaces(s: string) { forall k :: 0 <= k < |s| ==> IsSpace(s[k]) }

  lemma {:induction false} TrimStartSpaces(pre: string, rest: string)
    requires AllSpaces(pre) && |rest| > 0 && !IsSpace(rest[0])
    ensures TrimStart(pre + rest) == rest
  {
    if pre == [] {
      assert pre + rest == rest;
    } else {
      assert (pre + rest)[1..] == pre[1..] + rest;
      TrimStartSpaces(pre[1..], rest);
    }
  }

  lemma {:induction false} TrimEndSpaces(rest: string, post: string)
    requires AllSpaces(post) && |rest| > 0 && !IsSpace(rest[|rest| - 1])
    ensures TrimEnd(rest + post) == rest
  {
    if post == [] {
      assert rest + post == rest;
    } else {
      assert (rest + post)[..|rest + post| - 1] == rest + post[..|post| - 1];
      TrimEndSpaces(rest, post[..|post| - 1]);
    }
  }

  /** `str.strip()` removes exactly the white space around a text that neither starts
      nor ends with white space. */
  lemma StripAround(pre: string, m: string, post: string)
    requires AllSpaces(pre) && AllSpaces(post)
    requires |m| > 0 && !IsSpace(m[0]) && !IsSpace(m[|m| - 1])
    ensures Strip(pre + m + post) == m
  {
    assert pre + m + post == pre + (m + post);
    TrimStartSpaces(pre, m + post);
    TrimEndSpaces(m, post);
  }

  lemma StripIdentity(s: string)
    requires |s| > 0 && !IsSpace(s[0]) && !IsSpace(s[|s| - 1])
    ensures Strip(s) == s
  {
  }

  lemma LowerIdentity(s: string)
    requires forall k :: 0 <= k < |s| ==> !('A' <= s[k] <= 'Z')
    ensures Lower(s) == s
  {
  }

  predicate StartsWith(s: string, w: string) {
    |w| <= |s| && s[..|w|] == w
  }

  predicate EndsWith(s: string, w: string) {
    |w| <= |s| && s[|s| - |w|..] == w
  }

  lemma EndsWithAppended(s: string, w: string)
    ensures EndsWith(s + w, w)
  {
    assert (s + w)[|s|..] == w;
  }

  lemma EndsWithPrepended(p: string, s: string, w: string)
    requires EndsWith(s, w)
    ensures EndsWith(p + s, w)
  {
    assert (p + s)[|p + s| - |w|..] == s[|s| - |w|..];
  }

  lemma Regroup(a: string, b: string, c: string, d: string)
    ensures a + (b + c) + d == (a + b) + (c + d)
  {
  }

  lemma Associate<T>(a: seq<T>, b: seq<T>, c: seq<T>)
    ensures a + b + c == a + (b + c)
  {
  }

  /** A common prefix can be cancelled. */
  lemma PrefixCancel(p: string, x: string, y: string)
    requires p + x == p + y
    ensures x == y
  {
    assert x == (p + x)[|p|..];
    assert y == (p + y)[|p|..];
  }

  /** `w` occurs in `s` starting at index `i`. */
  predicate OccursAt(s: string, w: string, i: int) {
    0 <= i && i + |w| <= |s| && s[i..i + |w|] == w
  }

  lemma OccursAtIndex(s: string, w: string, i: int, k: nat)
    requires OccursAt(s, w, i) && k < |w|
    ensures s[i + k] == w[k]
  {
    assert s[i..i + |w|][k] == s[i + k];
  }

  /** Python's `w in s` for strings. */
  predicate Contains(s: string, w: string) {
    exists i | 0 <= i <= |s| - |w| :: OccursAt(s, w, i)
  }

  /** End of the greedy run of at most `max` digits that starts at `i` (`\d{0,max}`). */
  function DigitRunEnd(t: string, i: nat, max: nat): (e: nat)
    requires i <= |t|
    ensures i <= e <= |t| && e - i <= max
    ensures forall k :: i <= k < e ==> IsDigit(t[k])
    ensures e - i < max && e < |t| ==> !IsDigit(t[e])
    decreases max
  {
    if max == 0 || i == |t| || !IsDigit(t[i]) then i else DigitRunEnd(t, i + 1, max - 1)
  }

  lemma {:induction false} DigitRunEndFrom(t: string, i: nat, max: nat, n: nat)
    requires i <= n <= |t| && n - i <= max && (n == |t| || !IsDigit(t[n]))
    requires forall k :: i <= k < n ==> IsDigit(t[k])
    ensures DigitRunEnd(t, i, max) == n
    decreases max
  {
    if i < n {
      DigitRunEndFrom(t, i + 1, max - 1, n);
    }
  }

  /** End of the greedy run of white space that starts at `i` (`\s*`). */
  function SpacesEnd(t: string, i: nat): (e: nat)
    requires i <= |t|
    ensures i <= e <= |t|
    ensures forall k :: i <= k < e ==> IsSpace(t[k])
    ensures e < |t| ==> !IsSpace(t[e])
    decreases |t| - i
  {
    if i < |t| && IsSpace(t[i]) then SpacesEnd(t, i + 1) else i
  }

  /** A run of white space that stops before a non-blank is the greedy one. */
  lemma {:induction false} SpacesEndFrom(t: string, i: nat, n: nat)
    requires i <= n <= |t| && (n == |t| || !IsSpace(t[n]))
    requires forall k :: i <= k < n ==> IsSpace(t[k])
    ensures SpacesEnd(t, i) == n
    decreases n - i
  {
    if i < n {
      SpacesEndFrom(t, i + 1, n);
    }
  }

  /** `s.replace(c, "")` for a one-character `c`: every other character is kept, in order. */
  function Without(s: string, c: char): (r: string)
    ensures |r| <= |s|
    ensures c !in r
  {
    if s == [] then []
    else if s[0] == c then Without(s[1..], c)
    else [s[0]] + Without(s[1..], c)
  }

  /** `Without` drops only `c`: any other character occurs in the result iff it occurs in `s`. */
  lemma {:induction false} WithoutKeeps(s: string, c: char, x: char)
    requires x != c
    ensures x in Without(s, c) <==> x in s
  {
    if s != [] {
      WithoutKeeps(s[1..], c, x);
      assert s == [s[0]] + s[1..];
    }
  }

  function Repeat(c: char, n: nat): (r: string)
    ensures |r| == n && forall i :: 0 <= i < n ==> r[i] == c
  {
    seq(n, _ => c)
  }

  /** `sep.join(lines)`. */
  function Join(lines: seq<string>, sep: string): string {
    if lines == [] then ""
    else if |lines| == 1 then lines[0]
    else lines[0] + sep + Join(lines[1..], sep)
  }

  lemma JoinStartsWithFirst(lines: seq<string>, sep: string)
    requires lines != []
    ensures StartsWith(Join(lines, sep), lines[0])
  {
    if |lines| > 1 {
      assert Join(lines, sep) == lines[0] + (sep + Join(lines[1..], sep));
    }
  }

  function DigitChar(d: nat): (c: char)
    requires d < 10
    ensures IsDigit(c)
  {
    ('0' as int + d) as char
  }

  function DigitValue(c: char): (d: nat)
    requires IsDigit(c)
    ensures d < 10 && DigitChar(d) == c
  {
    c as int - '0' as int
  }

  /** Python's `str(n)` for a non-negative integer: no sign, no leading zero. */
  function NatStr(n: nat): (s: string)
    ensures 1 <= |s| && AllDigits(s)
    ensures s[0] == '0' ==> n == 0
  {
    if n < 10 then [DigitChar(n)] else NatStr(n / 10) + [DigitChar(n % 10)]
  }

  /** A number below 1000 has at most three digits. */
  lemma NatStrShort(n: nat)
    requires n < 1000
    ensures |NatStr(n)| <= 3
  {
    if n >= 10 {
      assert |NatStr(n)| == |NatStr(n / 10)| + 1;
      if n >= 100 {
        assert |NatStr(n / 10)| == |NatStr(n / 100)| + 1;
      }
    }
  }

  /** The number a run of decimal digits denotes (Python's `int()` on it). */
  function DigitsValue(s: string): nat
    requires AllDigits(s)
  {
    if s == [] then 0 else DigitsValue(s[..|s| - 1]) * 10 + DigitValue(s[|s| - 1])
  }

  lemma {:induction false} NatStrRoundTrip(n: nat)
    ensures DigitsValue(NatStr(n)) == n
  {
    if n >= 10 {
      var s := NatStr(n);
      assert s[..|s| - 1] == NatStr(n / 10);
      NatStrRoundTrip(n / 10);
    }
  }

  /** A digit's character is the digit's own. */
  lemma DigitCharValue(c: char)
    requires IsDigit(c)
    ensures DigitChar(DigitValue(c)) == c
  {
  }

  /** A run of digits with no leading zero, other than `0` itself, denotes a positive
      number when its first digit is not zero. */
  lemma {:induction false} LeadingDigitPositive(s: string)
    requires AllDigits(s) && |s| > 0 && s[0] != '0'
    ensures DigitsValue(s) >= 1
  {
    if |s| > 1 {
      LeadingDigitPositive(s[..|s| - 1]);
    }
  }

  /** `str()` of the number a digit run without a leading zero denotes gives back the run. */
  lemma {:induction false} NatStrOfDigits(s: string)
    requires AllDigits(s) && |s| > 0 && (s[0] == '0' ==> |s| == 1)
    ensures NatStr(DigitsValue(s)) == s
  {
    var d := DigitValue(s[|s| - 1]);
    DigitCharValue(s[|s| - 1]);
    if |s| > 1 {
      var init := s[..|s| - 1];
      NatStrOfDigits(init);
      LeadingDigitPositive(init);
      var v := DigitsValue(s);
      assert v == DigitsValue(init) * 10 + d && v / 10 == DigitsValue(init) && v % 10 == d;
      assert s == init + [s[|s| - 1]];
    } else {
      assert s == [s[0]];
    }
  }

  /** Zero-padding the number a digit run of width `|s|` denotes gives back the run. */
  lemma {:induction false} PadDigitsOfDigits(s: string)
    requires AllDigits(s)
    ensures PadDigits(DigitsValue(s), |s|) == s
  {
    if |s| > 0 {
      var init := s[..|s| - 1];
      var d := DigitValue(s[|s| - 1]);
      DigitCharValue(s[|s| - 1]);
      PadDigitsOfDigits(init);
      var v := DigitsValue(s);
      assert v == DigitsValue(init) * 10 + d && v / 10 == DigitsValue(init) && v % 10 == d;
      assert s == init + [s[|s| - 1]];
    }
  }

  lemma {:induction false} DigitsValueBound(s: string)
    requires AllDigits(s)
    ensures DigitsValue(s) < Pow10(|s|)
  {
    if s != [] {
      DigitsValueBound(s[..|s| - 1]);
    }
  }

  function Pow10(w: nat): (p: nat)
    ensures p >= 1
  {
    if w == 0 then 1 else 10 * Pow10(w - 1)
  }

  /** `n` written with exactly `w` digits, zero-padded on the left (Python's `f"{n:0{w}d}"` when `n` fits). */
  function PadDigits(n: nat, w: nat): (s: string)
    ensures |s| == w && AllDigits(s)
  {
    if w == 0 then [] else PadDigits(n / 10, w - 1) + [DigitChar(n % 10)]
  }

  lemma {:induction false} PadDigitsValue(n: nat, w: nat)
    requires n < Pow10(w)
    ensures DigitsValue(PadDigits(n, w)) == n
  {
    if w > 0 {
      var s := PadDigits(n, w);
      assert s[..|s| - 1] == PadDigits(n / 10, w - 1);
      PadDigitsValue(n / 10, w - 1);
    }
  }

  /** The concatenation of two digit strings is a digit string. */
  lemma AllDigitsAppend(x: string, y: string)
    requires AllDigits(x) && AllDigits(y)
    ensures AllDigits(x + y)
  {
    forall k | 0 <= k < |x + y| ensures IsDigit((x + y)[k]) {
      if k < |x| {
        assert (x + y)[k] == x[k];
      } else {
        assert (x + y)[k] == y[k - |x|];
      }
    }
  }

  /** Appending digits shifts the value: `DigitsValue(x + y) == DigitsValue(x) * 10^|y| + DigitsValue(y)`. */
  lemma {:induction false} DigitsValueAppend(x: string, y: string)
    requires AllDigits(x) && AllDigits(y)
    ensures AllDigits(x + y)
    ensures DigitsValue(x + y) == DigitsValue(x) * Pow10(|y|) + DigitsValue(y)
  {
    AllDigitsAppend(x, y);
    if y == [] {
      assert x + y == x;
    } else {
      var y' := y[..|y| - 1];
      var d := DigitValue(y[|y| - 1]);
      LastDigitOfAppend(x, y);
      DigitsValueAppend(x, y');
      ShiftDigit(DigitsValue(x), Pow10(|y'|), DigitsValue(y'), d);
    }
  }

  /** The last digit of `x + y` is the last digit of a non-empty `y`. */
  lemma LastDigitOfAppend(x: string, y: string)
    requires AllDigits(x) && AllDigits(y) && y != []
    ensures AllDigits(x + y) && AllDigits(x + y[..|y| - 1])
    ensures DigitsValue(x + y) == DigitsValue(x + y[..|y| - 1]) * 10 + DigitValue(y[|y| - 1])
    ensures Pow10(|y|) == 10 * Pow10(|y| - 1)
  {
    AllDigitsAppend(x, y);
    assert (x + y)[..|x + y| - 1] == x + y[..|y| - 1];
    assert (x + y)[|x + y| - 1] == y[|y| - 1];
  }

  lemma ShiftDigit(dx: int, p: int, dy: int, d: int)
    ensures (dx * p + dy) * 10 + d == dx * (10 * p) + (dy * 10 + d)
  {
  }

  /** `Without` distributes over concatenation. */
  lemma {:induction false} WithoutAppend(a: string, b: string, c: char)
    ensures Without(a + b, c) == Without(a, c) + Without(b, c)
  {
    if a == [] {
      assert a + b == b;
    } else {
      assert (a + b)[0] == a[0];
      assert (a + b)[1..] == a[1..] + b;
      WithoutAppend(a[1..], b, c);
      if a[0] != c {
        assert [a[0]] + Without(a[1..], c) + Without(b, c) == [a[0]] + (Without(a[1..], c) + Without(b, c));
      }
    }
  }

  /** A text without `c` is left alone by `Without`. */
  lemma {:induction false} WithoutAbsent(s: string, c: char)
    requires c !in s
    ensures Without(s, c) == s
  {
    if s != [] {
      assert c !in s[1..];
      WithoutAbsent(s[1..], c);
    }
  }

  /** Python's `str(i)` for any integer. */
  function IntStr(i: int): (s: string)
    ensures 1 <= |s| && AllDigits(s[1..])
    ensures s[0] == '-' <==> i < 0
    ensures i >= 0 ==> IsDigit(s[0])
  {
    if i < 0 then "-" + NatStr(-i) else NatStr(i)
  }

  /** Python's `int()` on an optionally signed run of digits. */
  function IntValue(s: string): int
    requires 1 <= |s| && AllDigits(s[1..])
    requires s[0] == '-' || IsDigit(s[0])
  {
    var magnitude: int := if s[0] == '-' then DigitsValue(s[1..]) else DigitsValue(s);
    if s[0] == '-' then -magnitude else magnitude
  }

  lemma IntStrRoundTrip(i: int)
    ensures IntValue(IntStr(i)) == i
  {
    if i < 0 {
      assert IntStr(i)[1..] == NatStr(-i);
      NatStrRoundTrip(-i);
    } else {
      NatStrRoundTrip(i);
    }
  }

  /** In `IntStr(i) + m + …` with `m` not starting with a digit, the rendered integer ends where
      `m` begins, so a longer rendering cannot hide behind a shorter one. */
  lemma IntStrNotShorter(i: int, j: int, m: string, rest1: string, rest2: string)
    requires |m| > 0 && !IsDigit(m[0])
    requires IntStr(i) + m + rest1 == IntStr(j) + m + rest2
    ensures |IntStr(i)| >= |IntStr(j)|
  {
    var a, b := IntStr(i), IntStr(j);
    var x, y := a + m + rest1, b + m + rest2;
    assert x[|a|] == m[0] && !IsDigit(x[|a|]);
    assert forall k :: 1 <= k < |b| ==> y[k] == b[1..][k - 1] && IsDigit(y[k]);
  }

  /** An integer rendered in front of a text that does not begin with a digit can be read back
      unambiguously: equal renderings come from equal integers and equal tails. */
  lemma SplitAfterInt(i: int, j: int, m: string, rest1: string, rest2: string)
    requires |m| > 0 && !IsDigit(m[0])
    requires IntStr(i) + m + rest1 == IntStr(j) + m + rest2
    ensures i == j && rest1 == rest2
  {
    IntStrNotShorter(i, j, m, rest1, rest2);
    IntStrNotShorter(j, i, m, rest2, rest1);
    var a, b := IntStr(i), IntStr(j);
    var x, y := a + m + rest1, b + m + rest2;
    assert a == x[..|a|] == y[..|b|] == b;
    IntStrInjective(i, j);
    assert rest1 == x[|a| + |m|..] == y[|b| + |m|..] == rest2;
  }

  /** `SplitAfterInt` behind a common prefix. */
  lemma SplitIntAfter(p: string, i: int, j: int, m: string, rest1: string, rest2: string)
    requires |m| > 0 && !IsDigit(m[0])
    requires p + (IntStr(i) + m + rest1) == p + (IntStr(j) + m + rest2)
    ensures i == j && rest1 == rest2
  {
    PrefixCancel(p, IntStr(i) + m + rest1, IntStr(j) + m + rest2);
    SplitAfterInt(i, j, m, rest1, rest2);
  }

  lemma IntStrInjective(i: int, j: int)
    requires IntStr(i) == IntStr(j)
    ensures i == j
  {
    IntStrRoundTrip(i);
    IntStrRoundTrip(j);
  }
}
