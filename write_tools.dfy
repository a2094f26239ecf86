/** The validation of the write tools (fundraising_mcp_server.py:626-706): the required
    fields of `tool_create_task` and `tool_create_opportunity`, and the loop of
    `tool_bulk_update_records`. The remote create and update calls are oracles: the model
    records which requests reach them and takes their answers as parameters. */
module WriteTools {
  import opened Options
  import opened Text
  import opened Formatting
  import opened Report

  /** `[k for k in required if not details.get(k)]`. */
  function MissingFields(details: Record, required: seq<string>): (missing: seq<string>)
    ensures |missing| <= |required|
    ensures forall k :: k in missing <==> k in required && !Truthy(Get(details, k))
  {
    if required == [] then []
    else
      var front := MissingFields(details, required[..|required| - 1]);
      var k := required[|required| - 1];
      assert forall x :: x in required <==> x in required[..|required| - 1] || x == k;
      if Truthy(Get(details, k)) then front else front + [k]
  }

  /** `sub` is `s` with some elements left out, the rest in their order. */
  predicate Subsequence(sub: seq<string>, s: seq<string>)
    decreases |s|
  {
    if sub == [] then true
    else if s == [] then false
    else if sub[|sub| - 1] == s[|s| - 1] then Subsequence(sub[..|sub| - 1], s[..|s| - 1])
    else Subsequence(sub, s[..|s| - 1])
  }

  /** The missing fields are listed in the order of `required`. */
  lemma {:induction false} MissingFieldsInOrder(details: Record, required: seq<string>)
    ensures Subsequence(MissingFields(details, required), required)
  {
    if required != [] {
      var front := required[..|required| - 1];
      MissingFieldsInOrder(details, front);
      var m := MissingFields(details, required);
      if Truthy(Get(details, required[|required| - 1])) {
        SubsequenceWeaken(m, front, required[|required| - 1]);
      } else {
        assert m[..|m| - 1] == MissingFields(details, front);
      }
    }
  }

  lemma {:induction false} SubsequenceDrop(sub: seq<string>, s: seq<string>)
    requires sub != [] && Subsequence(sub, s)
    ensures Subsequence(sub[..|sub| - 1], s)
    decreases |s|, 0
  {
    if s != [] {
      if sub[|sub| - 1] == s[|s| - 1] {
        SubsequenceWeaken(sub[..|sub| - 1], s[..|s| - 1], s[|s| - 1]);
      } else {
        SubsequenceDrop(sub, s[..|s| - 1]);
        SubsequenceWeaken(sub[..|sub| - 1], s[..|s| - 1], s[|s| - 1]);
      }
    }
  }

  /** Appending an element keeps a subsequence one. */
  lemma {:induction false} SubsequenceWeaken(sub: seq<string>, s: seq<string>, x: string)
    requires Subsequence(sub, s)
    ensures Subsequence(sub, s + [x])
    decreases |s|, 1
  {
    assert (s + [x])[..|s|] == s;
    if sub != [] && sub[|sub| - 1] == x {
      SubsequenceDrop(sub, s);
    }
  }

  const TaskFields: seq<string> := ["Subject", "WhoId"]
  const OpportunityFields: seq<string> := ["Name", "StageName", "CloseDate", "Amount"]

  /** A create request: the sObject type and its fields. */
  datatype Request = Request(sobject: string, fields: Record)

  /** What the remote create does: return the response's `id`, or raise with `message`. */
  datatype Created = CreatedId(id: Value) | CreateFailed(message: string)

  /** The request a write tool sends, if any, and its reply. */
  datatype WriteResult = WriteResult(request: Option<Request>, reply: string)

  function ValidationError(missing: seq<string>): string {
    Header("Validation Error") + "\n- Missing fields: " + Join(missing, ", ")
  }

  /** `tool_create_task(task_details)`: no request unless `Subject` and `WhoId` are both
      truthy. */
  function CreateTask(details: Record, created: Created, repr: Value -> string): (r: WriteResult)
    ensures r.request.Some? <==> MissingFields(details, TaskFields) == []
    ensures r.request.Some? ==> r.request.value == Request("Task", details)
    ensures r.request.None? ==> r.reply == ValidationError(MissingFields(details, TaskFields))
  {
    var missing := MissingFields(details, TaskFields);
    if missing != [] then WriteResult(None, ValidationError(missing))
    else
      WriteResult(Some(Request("Task", details)),
        match created
        case CreatedId(id) =>
          Header("Task Created") + "\n- Id: " + Show(id, repr) + "\n- Subject: " + Show(Get(details, "Subject"), repr) +
          "\n- WhoId: " + Show(Get(details, "WhoId"), repr)
        case CreateFailed(m) => Header("Salesforce Error") + "\n- Unable to create task. " + m)
  }

  /** `tool_create_opportunity(opportunity_details)`: no request unless `Name`,
      `StageName`, `CloseDate` and `Amount` are all truthy. The amount is formatted
      after the create returns, inside the same `try`, so an amount `float()` cannot read
      turns the reply into an error whose text is `floatError`. */
  function CreateOpportunity(details: Record, created: Created, floatError: string, repr: Value -> string)
    : (r: WriteResult)
    ensures r.request.Some? <==> MissingFields(details, OpportunityFields) == []
    ensures r.request.Some? ==> r.request.value == Request("Opportunity", details)
    ensures r.request.None? ==> r.reply == ValidationError(MissingFields(details, OpportunityFields))
  {
    var missing := MissingFields(details, OpportunityFields);
    if missing != [] then WriteResult(None, ValidationError(missing))
    else
      assert "Amount" in OpportunityFields;
      var failure := Header("Salesforce Error") + "\n- Unable to create opportunity. ";
      WriteResult(Some(Request("Opportunity", details)),
        match created
        case CreatedId(id) =>
          (match TotalText(Get(details, "Amount"))
           case Some(amount) =>
             Header("Opportunity Created") + "\n- Id: " + Show(id, repr) + "\n- Name: " + Show(Get(details, "Name"), repr) +
             "\n- Amount: " + amount
           case None => failure + floatError)
        case CreateFailed(m) => failure + m)
  }

  /** The order in which the required fields are reported missing is the order they are
      listed in. */
  lemma MissingTaskFields(details: Record)
    ensures Subsequence(MissingFields(details, TaskFields), TaskFields)
    ensures Subsequence(MissingFields(details, OpportunityFields), OpportunityFields)
  {
    MissingFieldsInOrder(details, TaskFields);
    MissingFieldsInOrder(details, OpportunityFields);
  }

  /** An update request: `(sobject, id, fields)` as read from one entry. */
  datatype Update = Update(sobject: Value, id: Value, fields: Value)

  /** The request an entry makes: `sobject`, `id` and `fields` (default `{}`). */
  function UpdateOf(r: Record): Update {
    Update(Get(r, "sobject"), Get(r, "id"), if "fields" in r then r["fields"] else Fields(map[]))
  }

  /** The entry has all three parts. */
  predicate Complete(r: Record) {
    var u := UpdateOf(r);
    Truthy(u.sobject) && Truthy(u.id) && Truthy(u.fields)
  }

  /** The update requests the entries make, in order: the complete ones only. */
  function Requests(records: seq<Record>): (sent: seq<Update>)
    ensures |sent| <= |records|
  {
    if records == [] then []
    else
      var r := records[|records| - 1];
      Requests(records[..|records| - 1]) + (if Complete(r) then [UpdateOf(r)] else [])
  }

  /** What the loop has counted after the entries `records`: the number updated and the
      error lines. `update` gives the message of a failed update, `None` on success;
      `repr` is `str()` of an entry. */
  function Tally(records: seq<Record>, update: Update -> Option<string>, repr: Value -> string)
    : (t: (nat, seq<string>))
  {
    if records == [] then (0, [])
    else
      var (updated, errors) := Tally(records[..|records| - 1], update, repr);
      var r := records[|records| - 1];
      var u := UpdateOf(r);
      if !Complete(r) then (updated, errors + ["Missing data for record: " + repr(Fields(r))])
      else match update(u)
        case None => (updated + 1, errors)
        case Some(m) => (updated, errors + [Show(u.sobject, repr) + ":" + Show(u.id, repr) + " -> " + m])
  }

  /** Every entry is counted once: as updated or as an error. */
  lemma {:induction false} TallyCounts(records: seq<Record>, update: Update -> Option<string>, repr: Value -> string)
    ensures Tally(records, update, repr).0 + |Tally(records, update, repr).1| == |records|
    ensures Tally(records, update, repr).0 <= |Requests(records)|
  {
    if records != [] {
      TallyCounts(records[..|records| - 1], update, repr);
    }
  }

  /** The summary the tool replies with. */
  function Summary(updated: nat, errors: seq<string>): string {
    Join([Header("Bulk Update Summary"), "- Updated: " + NatStr(updated)] +
         (if errors == [] then [] else ["- Errors:"] + seq(|errors|, k requires 0 <= k < |errors| => "  - " + errors[k])),
         "\n")
  }

  /** `tool_bulk_update_records(records_data)`, with the requests it sends as `sent`: an
      incomplete entry never reaches the remote update. */
  method BulkUpdate(records: seq<Record>, update: Update -> Option<string>, repr: Value -> string)
    returns (reply: string, sent: seq<Update>)
    ensures records == [] ==> reply == Header("Validation Error") + "\n- records_data is empty" && sent == []
    ensures records != [] ==> reply == Summary(Tally(records, update, repr).0, Tally(records, update, repr).1)
    ensures sent == Requests(records)
  {
    sent := [];
    if records == [] {
      return Header("Validation Error") + "\n- records_data is empty", sent;
    }
    var updated: nat := 0;
    var errors: seq<string> := [];
    var i := 0;
    while i < |records|
      invariant 0 <= i <= |records|
      invariant (updated, errors) == Tally(records[..i], update, repr)
      invariant sent == Requests(records[..i])
    {
      var r := records[i];
      assert records[..i + 1][..i] == records[..i] && records[..i + 1][i] == r;
      var u := UpdateOf(r);
      if !Truthy(u.sobject) || !Truthy(u.id) || !Truthy(u.fields) {
        errors := errors + ["Missing data for record: " + repr(Fields(r))];
      } else {
        sent := sent + [u];
        var failure := update(u);
        if failure.None? {
          updated := updated + 1;
        } else {
          errors := errors + [Show(u.sobject, repr) + ":" + Show(u.id, repr) + " -> " + failure.value];
        }
      }
      i := i + 1;
    }
    assert records[..i] == records;
    reply := Summary(updated, errors);
  }

  /** Every request sent is complete: it has a truthy `sobject`, `id` and `fields`. */
  lemma {:induction false} RequestsComplete(records: seq<Record>)
    ensures forall u :: u in Requests(records) ==> Truthy(u.sobject) && Truthy(u.id) && Truthy(u.fields)
  {
    if records != [] {
      RequestsComplete(records[..|records| - 1]);
    }
  }
}
