/** `FundraisingServer._format_records` (fundraising_mcp_server.py:398-425): the text
    report of a list of query records, one block of lines per record, then the insights
    and the next steps. A record is a JSON object; a lookup that Python cannot perform
    (`.get` on a non-dictionary, `float()` on text that is no number, `strftime` on a
    value that is no date) raises, which the model reports as `None`. */
module Report {
  import opened Options
  import opened Text
  import opened AmountParser
  import opened Formatting

  /** A JSON value as the query client returns it. `Real` is a float holding a whole
      number of cents. */
  datatype Value =
    | Null
    | Flag(b: bool)
    | Int(i: int)
    | Real(cents: int)
    | Str(s: string)
    | Moment(d: Date)
    | Items(items: seq<Value>)
    | Fields(fields: map<string, Value>)

  type Record = map<string, Value>

  /** Python's truth value of a JSON value. */
  predicate Truthy(v: Value) {
    match v
    case Null => false
    case Flag(b) => b
    case Int(i) => i != 0
    case Real(c) => c != 0
    case Str(s) => s != []
    case Moment(_) => true
    case Items(xs) => xs != []
    case Fields(m) => m != map[]
  }

  /** `r.get(k)`. */
  function Get(r: Record, k: string): (v: Value)
    ensures k !in r ==> v == Null
  {
    if k in r then r[k] else Null
  }

  /** `r.get(k, {}).get(inner)`: `None` where the value under `k` is present but is no
      dictionary, so that `.get` raises. */
  function NestedGet(r: Record, k: string, inner: string): (v: Option<Value>)
    ensures v.None? <==> k in r && !r[k].Fields?
    ensures k !in r ==> v == Some(Null)
  {
    if k !in r then Some(Null)
    else match r[k]
      case Fields(m) => Some(Get(m, inner))
      case _ => None
  }

  /** `str(v)` for the values whose text is fixed; `repr` stands for `str()` of floats,
      dates, lists and dictionaries. */
  function Show(v: Value, repr: Value -> string): string {
    match v
    case Null => "None"
    case Flag(b) => if b then "True" else "False"
    case Int(i) => IntStr(i)
    case Str(s) => s
    case _ => repr(v)
  }

  /** `r.get("Name") or r.get("Contact", {}).get("Name") or "Unknown"`. */
  function NameOf(r: Record): (name: Option<Value>)
    ensures name.Some? ==> Truthy(name.value)
    ensures Truthy(Get(r, "Name")) ==> name == Some(Get(r, "Name"))
    ensures name.None? <==> !Truthy(Get(r, "Name")) && "Contact" in r && !r["Contact"].Fields?
    ensures (!Truthy(Get(r, "Name")) && NestedGet(r, "Contact", "Name").Some? &&
             Truthy(NestedGet(r, "Contact", "Name").value)) ==> name == NestedGet(r, "Contact", "Name")
    ensures (!Truthy(Get(r, "Name")) && NestedGet(r, "Contact", "Name").Some? &&
             !Truthy(NestedGet(r, "Contact", "Name").value)) ==> name == Some(Str("Unknown"))
  {
    var direct := Get(r, "Name");
    if Truthy(direct) then Some(direct)
    else match NestedGet(r, "Contact", "Name")
      case None => None
      case Some(v) => Some(if Truthy(v) then v else Str("Unknown"))
  }

  /** `r.get("LifetimeGiving") or r.get("total") or r.get("attributes", {}).get("total")`. */
  function TotalOf(r: Record): (total: Option<Value>)
    ensures Truthy(Get(r, "LifetimeGiving")) ==> total == Some(Get(r, "LifetimeGiving"))
    ensures !Truthy(Get(r, "LifetimeGiving")) && Truthy(Get(r, "total")) ==> total == Some(Get(r, "total"))
    ensures !Truthy(Get(r, "LifetimeGiving")) && !Truthy(Get(r, "total")) ==>
              total == NestedGet(r, "attributes", "total")
    ensures total.None? <==>
              !Truthy(Get(r, "LifetimeGiving")) && !Truthy(Get(r, "total")) &&
              "attributes" in r && !r["attributes"].Fields?
  {
    if Truthy(Get(r, "LifetimeGiving")) then Some(Get(r, "LifetimeGiving"))
    else if Truthy(Get(r, "total")) then Some(Get(r, "total"))
    else NestedGet(r, "attributes", "total")
  }

  /** `r.get("LastGiftDate") or r.get("lastGiftDate")`, replaced by its first element when
      it is a non-empty list. */
  function LastOf(r: Record): (last: Value)
    ensures Truthy(Get(r, "LastGiftDate")) && !Get(r, "LastGiftDate").Items? ==> last == Get(r, "LastGiftDate")
    ensures Truthy(Get(r, "LastGiftDate")) && Get(r, "LastGiftDate").Items? ==>
              last == Get(r, "LastGiftDate").items[0]
    ensures !Truthy(Get(r, "LastGiftDate")) && !Get(r, "lastGiftDate").Items? ==> last == Get(r, "lastGiftDate")
    ensures !Truthy(Get(r, "LastGiftDate")) && Get(r, "lastGiftDate").Items? && Get(r, "lastGiftDate").items != [] ==>
              last == Get(r, "lastGiftDate").items[0]
    ensures !Truthy(Get(r, "LastGiftDate")) && !Truthy(Get(r, "lastGiftDate")) ==> !Truthy(last)
  {
    var last := if Truthy(Get(r, "LastGiftDate")) then Get(r, "LastGiftDate") else Get(r, "lastGiftDate");
    if last.Items? && last.items != [] then last.items[0] else last
  }

  /** `fmt_currency(float(total) if not isinstance(total, (int, float)) else total)` for a
      truthy total: a `bool` counts as an `int`, text goes through `float()`, which
      raises on anything but a number. */
  function TotalText(total: Value): (s: Option<string>)
    requires Truthy(total)
    ensures total.Flag? ==> s == Some(FormatCurrency(100))
    ensures total.Int? ==> s == Some(FormatCurrency(total.i * 100))
    ensures total.Real? ==> s == Some(FormatCurrency(total.cents))
    ensures total.Str? ==> (s.Some? <==> FloatCents(total.s).Some?)
    ensures total.Str? && s.Some? ==> s.value == FormatCurrency(FloatCents(total.s).value)
    ensures s.Some? ==> !total.Moment? && !total.Items? && !total.Fields?
  {
    match total
    case Flag(_) => Some(FormatCurrency(100))
    case Int(i) => Some(FormatCurrency(i * 100))
    case Real(c) => Some(FormatCurrency(c))
    case Str(text) =>
      (match FloatCents(text)
       case None => None
       case Some(c) => Some(FormatCurrency(c)))
    case _ => None
  }

  /** The text of a truthy last-gift value: a string as it is, a date through `fmt_date`;
      `strftime` raises on anything else. */
  function LastText(last: Value): (s: Option<string>)
    requires Truthy(last)
    ensures s.Some? <==> last.Str? || last.Moment?
    ensures last.Str? ==> s == Some(last.s)
    ensures last.Moment? ==> s == Some(FormatDate(last.d))
  {
    match last
    case Str(text) => Some(text)
    case Moment(d) => Some(FormatOptionalDate(Some(d)))
    case _ => None
  }

  const NameLabel: string := "- Name: "
  const EmailLabel: string := "  - Email: "
  const TotalLabel: string := "  - Lifetime Giving: "
  const LastLabel: string := "  - Last Gift: "

  function EmailLines(email: Value, repr: Value -> string): seq<string> {
    if Truthy(email) then [EmailLabel + Show(email, repr)] else []
  }

  function TotalLines(total: Value): Option<seq<string>> {
    if !Truthy(total) then Some([])
    else match TotalText(total)
      case None => None
      case Some(t) => Some([TotalLabel + t])
  }

  function LastLines(last: Value): Option<seq<string>> {
    if !Truthy(last) then Some([])
    else match LastText(last)
      case None => None
      case Some(t) => Some([LastLabel + t])
  }

  /** The four values a record's lines are made of, after the lookups of lines 401-406. */
  datatype RecordView = RecordView(name: Value, email: Value, total: Value, last: Value)

  /** The lookups of one record, or `None` where one raises. */
  function View(r: Record): (v: Option<RecordView>)
    ensures v.Some? <==> NameOf(r).Some? && TotalOf(r).Some?
    ensures v.Some? ==> v.value == RecordView(NameOf(r).value, Get(r, "Email"), TotalOf(r).value, LastOf(r))
  {
    match NameOf(r)
    case None => None
    case Some(name) =>
      match TotalOf(r)
      case None => None
      case Some(total) => Some(RecordView(name, Get(r, "Email"), total, LastOf(r)))
  }

  /** The lines of looked-up values, or `None` where converting one raises. */
  function ViewLines(v: RecordView, repr: Value -> string): (lines: Option<seq<string>>)
    ensures lines.Some? ==> |lines.value| > 0
  {
    match TotalLines(v.total)
    case None => None
    case Some(totalLines) =>
      match LastLines(v.last)
      case None => None
      case Some(lastLines) =>
        Some([NameLabel + Show(v.name, repr)] + EmailLines(v.email, repr) + totalLines + lastLines)
  }

  /** The lines of one record, or `None` where rendering it raises. */
  function RecordLines(r: Record, repr: Value -> string): (lines: Option<seq<string>>)
    ensures lines.Some? ==> View(r).Some? && |lines.value| > 0
  {
    match View(r)
    case None => None
    case Some(v) => ViewLines(v, repr)
  }

  /** The lines of all records in order, or `None` where any of them raises. */
  function RecordsLines(records: seq<Record>, repr: Value -> string): Option<seq<string>> {
    if records == [] then Some([])
    else match RecordsLines(records[..|records| - 1], repr)
      case None => None
      case Some(front) =>
        match RecordLines(records[|records| - 1], repr)
        case None => None
        case Some(back) => Some(front + back)
  }

  /** One `- item` line per item, in order. */
  function Bullets(items: seq<string>): (lines: seq<string>)
    ensures |lines| == |items|
    ensures forall k :: 0 <= k < |items| ==> lines[k] == "- " + items[k]
  {
    seq(|items|, k requires 0 <= k < |items| => "- " + items[k])
  }

  /** A titled block after a blank line, left out when it has no items. */
  function BlockLines(title: string, items: seq<string>): (lines: seq<string>)
    ensures items == [] ==> lines == []
    ensures items != [] ==> |lines| == |items| + 2 && lines[0] == "" && lines[1] == Header(title)
    ensures items != [] ==> forall k :: 0 <= k < |items| ==> lines[k + 2] == "- " + items[k]
  {
    if items == [] then [] else ["", Header(title)] + Bullets(items)
  }

  /** The lines of the report, or `None` where rendering a record raises. */
  function ReportLines(title: string, records: seq<Record>, insights: seq<string>, steps: seq<string>,
                       repr: Value -> string): Option<seq<string>>
  {
    match RecordsLines(records, repr)
    case None => None
    case Some(body) =>
      Some([Header(title)] + body + BlockLines("AI Insights", insights) + BlockLines("Next Steps", steps))
  }

  /** `_format_records(title, records, insights, next_steps)`: the report lines joined by
      line breaks. */
  function ReportText(title: string, records: seq<Record>, insights: seq<string>, steps: seq<string>,
                      repr: Value -> string): Option<string>
  {
    match ReportLines(title, records, insights, steps, repr)
    case None => None
    case Some(lines) => Some(Join(lines, "\n"))
  }

  /** Lines 401-419 for one record: the lookups, then the lines appended one by one. */
  method AppendRecord(lines: seq<string>, r: Record, repr: Value -> string) returns (result: Option<seq<string>>)
    ensures RecordLines(r, repr).None? ==> result.None?
    ensures RecordLines(r, repr).Some? ==> result == Some(lines + RecordLines(r, repr).value)
  {
    var view := View(r);
    if view.None? {
      return None;
    }
    var v := view.value;
    var out := lines + [NameLabel + Show(v.name, repr)];
    if Truthy(v.email) {
      out := out + [EmailLabel + Show(v.email, repr)];
    }
    ghost var head := [NameLabel + Show(v.name, repr)] + EmailLines(v.email, repr);
    assert out == lines + head;
    if Truthy(v.total) {
      var text := TotalText(v.total);
      if text.None? {
        return None;
      }
      out := out + [TotalLabel + text.value];
    }
    Associate(lines, head, TotalLines(v.total).value);
    assert out == lines + (head + TotalLines(v.total).value);
    if Truthy(v.last) {
      var text := LastText(v.last);
      if text.None? {
        return None;
      }
      out := out + [LastLabel + text.value];
    }
    ghost var body := head + TotalLines(v.total).value;
    assert out == lines + body + LastLines(v.last).value;
    Associate(lines, body, LastLines(v.last).value);
    assert ViewLines(v, repr) == Some(body + LastLines(v.last).value);
    assert RecordLines(r, repr) == ViewLines(v, repr);
    return Some(out);
  }

  /** Once a prefix of the records fails to render, the whole list does. */
  lemma {:induction false} RecordsLinesPrefixFails(records: seq<Record>, n: nat, repr: Value -> string)
    requires n <= |records| && RecordsLines(records[..n], repr).None?
    ensures RecordsLines(records, repr).None?
    decreases |records| - n
  {
    if n < |records| {
      assert records[..n + 1][..n] == records[..n];
      RecordsLinesPrefixFails(records, n + 1, repr);
    } else {
      assert records[..n] == records;
    }
  }

  /** `_format_records`, with the loop over the records as in the source. */
  method FormatRecords(title: string, records: seq<Record>, insights: seq<string>, steps: seq<string>,
                       repr: Value -> string) returns (report: Option<string>)
    ensures report == ReportText(title, records, insights, steps, repr)
  {
    var lines := [Header(title)];
    var i := 0;
    while i < |records|
      invariant 0 <= i <= |records|
      invariant RecordsLines(records[..i], repr).Some?
      invariant lines == [Header(title)] + RecordsLines(records[..i], repr).value
    {
      assert records[..i + 1][..i] == records[..i];
      var next := AppendRecord(lines, records[i], repr);
      if next.None? {
        assert RecordsLines(records[..i + 1], repr).None?;
        RecordsLinesPrefixFails(records, i + 1, repr);
        return None;
      }
      assert records[..i + 1][i] == records[i];
      ghost var front, back := RecordsLines(records[..i], repr).value, RecordLines(records[i], repr).value;
      assert RecordsLines(records[..i + 1], repr) == Some(front + back);
      Associate([Header(title)], front, back);
      lines := next.value;
      i := i + 1;
    }
    assert records[..i] == records;
    lines := AppendBlock(lines, "AI Insights", insights);
    lines := AppendBlock(lines, "Next Steps", steps);
    assert ReportLines(title, records, insights, steps, repr) == Some(lines);
    return Some(Join(lines, "\n"));
  }

  /** Lines 420-423 for one block: a blank line, the header and the bullets, when there
      are items. */
  method AppendBlock(lines: seq<string>, title: string, items: seq<string>) returns (result: seq<string>)
    ensures result == lines + BlockLines(title, items)
  {
    result := lines;
    if items != [] {
      result := result + ["", Header(title)];
      result := result + Bullets(items);
      Associate(lines, ["", Header(title)], Bullets(items));
    }
  }

  /** The report opens with the title's header. */
  lemma ReportStartsWithHeader(title: string, records: seq<Record>, insights: seq<string>, steps: seq<string>,
                               repr: Value -> string)
    requires ReportText(title, records, insights, steps, repr).Some?
    ensures StartsWith(ReportText(title, records, insights, steps, repr).value, Header(title))
  {
    var lines := ReportLines(title, records, insights, steps, repr).value;
    JoinStartsWithFirst(lines, "\n");
  }

  /** Some line of `lines` starts with `p`. */
  predicate HasLineStarting(lines: seq<string>, p: string) {
    exists k :: 0 <= k < |lines| && StartsWith(lines[k], p)
  }

  lemma HasLineStartingAppend(a: seq<string>, b: seq<string>, p: string)
    ensures HasLineStarting(a + b, p) <==> HasLineStarting(a, p) || HasLineStarting(b, p)
  {
    if HasLineStarting(a + b, p) {
      var k :| 0 <= k < |a + b| && StartsWith((a + b)[k], p);
      if k >= |a| {
        assert b[k - |a|] == (a + b)[k];
      }
    }
    if HasLineStarting(a, p) {
      var k :| 0 <= k < |a| && StartsWith(a[k], p);
      assert (a + b)[k] == a[k];
    }
    if HasLineStarting(b, p) {
      var k :| 0 <= k < |b| && StartsWith(b[k], p);
      assert (a + b)[k + |a|] == b[k];
    }
  }

  /** The four line labels of a record start differently. */
  lemma LabelsDiffer(x: string)
    ensures !StartsWith(NameLabel + x, EmailLabel) && !StartsWith(NameLabel + x, TotalLabel)
    ensures !StartsWith(NameLabel + x, LastLabel)
    ensures !StartsWith(EmailLabel + x, TotalLabel) && !StartsWith(EmailLabel + x, LastLabel)
    ensures !StartsWith(TotalLabel + x, EmailLabel) && !StartsWith(TotalLabel + x, LastLabel)
    ensures !StartsWith(LastLabel + x, EmailLabel) && !StartsWith(LastLabel + x, TotalLabel)
    ensures StartsWith(EmailLabel + x, EmailLabel) && StartsWith(TotalLabel + x, TotalLabel)
    ensures StartsWith(LastLabel + x, LastLabel)
  {
    assert (NameLabel + x)[0] == '-' && EmailLabel[0] == ' ' && TotalLabel[0] == ' ' && LastLabel[0] == ' ';
    assert (EmailLabel + x)[4] == 'E' && TotalLabel[4] == 'L' && LastLabel[4] == 'L';
    assert (TotalLabel + x)[4] == 'L' && (TotalLabel + x)[5] == 'i' && EmailLabel[4] == 'E' && LastLabel[5] == 'a';
    assert (LastLabel + x)[4] == 'L' && (LastLabel + x)[5] == 'a' && TotalLabel[5] == 'i';
    assert (EmailLabel + x)[..|EmailLabel|] == EmailLabel;
    assert (TotalLabel + x)[..|TotalLabel|] == TotalLabel;
    assert (LastLabel + x)[..|LastLabel|] == LastLabel;
  }

  /** The block of looked-up values: its name line first, then an email line exactly when
      the email is truthy, a giving line exactly when the total is (so a zero total prints
      nothing), and a last-gift line exactly when the last gift is. */
  lemma ViewLinesShape(v: RecordView, repr: Value -> string)
    requires ViewLines(v, repr).Some?
    ensures var lines := ViewLines(v, repr).value;
      && lines[0] == NameLabel + Show(v.name, repr)
      && (HasLineStarting(lines, EmailLabel) <==> Truthy(v.email))
      && (HasLineStarting(lines, TotalLabel) <==> Truthy(v.total))
      && (HasLineStarting(lines, LastLabel) <==> Truthy(v.last))
  {
    var xn, xe := Show(v.name, repr), Show(v.email, repr);
    var xt := if Truthy(v.total) then TotalText(v.total).value else "";
    var xl := if Truthy(v.last) then LastText(v.last).value else "";
    var n, e, t, l := [NameLabel + xn], EmailLines(v.email, repr), TotalLines(v.total).value, LastLines(v.last).value;
    assert ViewLines(v, repr).value == n + e + t + l;
    LabelsDiffer(xn);
    LabelsDiffer(xe);
    LabelsDiffer(xt);
    LabelsDiffer(xl);
    Sections(n, e, t, l, xn, xe, xt, xl, EmailLabel);
    Sections(n, e, t, l, xn, xe, xt, xl, TotalLabel);
    Sections(n, e, t, l, xn, xe, xt, xl, LastLabel);
  }

  /** Which label a record's block has a line for, section by section. */
  lemma Sections(n: seq<string>, e: seq<string>, t: seq<string>, l: seq<string>,
                 xn: string, xe: string, xt: string, xl: string, p: string)
    requires n == [NameLabel + xn]
    requires e == [] || e == [EmailLabel + xe]
    requires t == [] || t == [TotalLabel + xt]
    requires l == [] || l == [LastLabel + xl]
    ensures HasLineStarting(n + e + t + l, p) <==>
      || StartsWith(NameLabel + xn, p)
      || (e != [] && StartsWith(EmailLabel + xe, p))
      || (t != [] && StartsWith(TotalLabel + xt, p))
      || (l != [] && StartsWith(LastLabel + xl, p))
  {
    HasLineStartingAppend(n + e + t, l, p);
    HasLineStartingAppend(n + e, t, p);
    HasLineStartingAppend(n, e, p);
    assert HasLineStarting(n, p) <==> StartsWith(n[0], p);
    assert e != [] ==> (HasLineStarting(e, p) <==> StartsWith(e[0], p));
    assert t != [] ==> (HasLineStarting(t, p) <==> StartsWith(t[0], p));
    assert l != [] ==> (HasLineStarting(l, p) <==> StartsWith(l[0], p));
  }

  /** A record's block: its name line first, then the email, giving and last-gift lines
      exactly when the looked-up value is truthy. */
  lemma RecordLinesShape(r: Record, repr: Value -> string)
    requires RecordLines(r, repr).Some?
    ensures var lines := RecordLines(r, repr).value;
      && lines[0] == NameLabel + Show(NameOf(r).value, repr)
      && (HasLineStarting(lines, EmailLabel) <==> Truthy(Get(r, "Email")))
      && (HasLineStarting(lines, TotalLabel) <==> Truthy(TotalOf(r).value))
      && (HasLineStarting(lines, LastLabel) <==> Truthy(LastOf(r)))
  {
    ViewLinesShape(View(r).value, repr);
  }

  /** A top-level line starts with a dash; the lines under a record are indented. */
  predicate IsTopLevel(line: string) { |line| > 0 && line[0] == '-' }

  /** The top-level lines of `lines`, in order. */
  function TopLevel(lines: seq<string>): seq<string> {
    if lines == [] then []
    else TopLevel(lines[..|lines| - 1]) + (if IsTopLevel(lines[|lines| - 1]) then [lines[|lines| - 1]] else [])
  }

  lemma {:induction false} TopLevelAppend(a: seq<string>, b: seq<string>)
    ensures TopLevel(a + b) == TopLevel(a) + TopLevel(b)
  {
    if b == [] {
      assert a + b == a;
    } else {
      var b' := b[..|b| - 1];
      assert (a + b)[..|a + b| - 1] == a + b';
      assert (a + b)[|a + b| - 1] == b[|b| - 1];
      TopLevelAppend(a, b');
    }
  }

  lemma {:induction false} TopLevelNone(lines: seq<string>)
    requires forall k :: 0 <= k < |lines| ==> !IsTopLevel(lines[k])
    ensures TopLevel(lines) == []
  {
    if lines != [] {
      TopLevelNone(lines[..|lines| - 1]);
    }
  }

  /** An indented line, or none, has no top-level line. */
  lemma IndentedLine(lines: seq<string>, tag: string, x: string)
    requires |tag| > 0 && tag[0] == ' '
    requires lines == [] || lines == [tag + x]
    ensures TopLevel(lines) == []
  {
    if lines != [] {
      assert lines[..0] == [];
      assert (tag + x)[0] == ' ';
    }
  }

  /** Exactly one line of a record's block is top-level: its name line. */
  lemma RecordTopLevel(r: Record, repr: Value -> string)
    requires RecordLines(r, repr).Some?
    ensures TopLevel(RecordLines(r, repr).value) == [NameLabel + Show(NameOf(r).value, repr)]
  {
    var v := View(r).value;
    var n, e, t, l := [NameLabel + Show(v.name, repr)], EmailLines(v.email, repr), TotalLines(v.total).value, LastLines(v.last).value;
    assert RecordLines(r, repr).value == n + e + t + l;
    assert n[..0] == [] && n[0][0] == '-';
    assert TopLevel(n) == n;
    IndentedLine(e, EmailLabel, Show(v.email, repr));
    IndentedLine(t, TotalLabel, if Truthy(v.total) then TotalText(v.total).value else "");
    IndentedLine(l, LastLabel, if Truthy(v.last) then LastText(v.last).value else "");
    TopLevelAppend(n + e + t, l);
    TopLevelAppend(n + e, t);
    TopLevelAppend(n, e);
  }

  /** One name line per record, in input order: the top-level lines of the records' blocks
      are their name lines. */
  lemma {:induction false} NamesInOrder(records: seq<Record>, repr: Value -> string)
    requires RecordsLines(records, repr).Some?
    ensures var top := TopLevel(RecordsLines(records, repr).value);
      && |top| == |records|
      && forall k :: 0 <= k < |records| ==>
           RecordLines(records[k], repr).Some? && top[k] == NameLabel + Show(NameOf(records[k]).value, repr)
  {
    if records != [] {
      var front := records[..|records| - 1];
      var r := records[|records| - 1];
      var ls, back := RecordsLines(front, repr).value, RecordLines(r, repr).value;
      assert RecordsLines(records, repr) == Some(ls + back);
      NamesInOrder(front, repr);
      TopLevelAppend(ls, back);
      RecordTopLevel(r, repr);
      var top := TopLevel(ls + back);
      assert top == TopLevel(ls) + [NameLabel + Show(NameOf(r).value, repr)];
      forall k | 0 <= k < |records|
        ensures RecordLines(records[k], repr).Some? && top[k] == NameLabel + Show(NameOf(records[k]).value, repr)
      {
        if k < |records| - 1 {
          assert records[k] == front[k];
          assert top[k] == TopLevel(ls)[k];
        }
      }
    }
  }
}
