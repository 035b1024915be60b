/** The premium check of public/system/premium/api/check-premium.js: a
    customer's access code is looked for among the custom fields of the paid
    checkout sessions of the payment provider.

    The provider's client is not modelled: what its list call and its
    retrieve calls return is an input (a failed call carries the message of
    the error it throws). */
module Premium {
  import opened Options
  import opened Text

  type Header = (string, string)

  /** The CORS headers every response carries. */
  const Cors: seq<Header> := [
    ("Access-Control-Allow-Origin", "*"),
    ("Access-Control-Allow-Methods", "GET,OPTIONS"),
    ("Access-Control-Allow-Headers", "Content-Type")]

  /** How many sessions the list call asks for. */
  const ListLimit: nat := 100

  const AccessCodeKey := "threadline_access_code"
  const AccessCodeLabel := "Threadline Access Code"
  const MissingCode := "Missing code"
  /** The message of the `TypeError` thrown by `code.trim()` when the query
      string repeats `code` and so gives an array. */
  const TrimTypeError := "code.trim is not a function"

  /** A checkout custom field: its key, its custom label and its text value,
      each possibly absent. */
  datatype Field = Field(key: Option<string>, labelCustom: Option<string>, textValue: Option<string>)

  /** `custom_fields` of a retrieved session: absent or null, present but not
      an array, or an array of fields. */
  datatype CustomFields = NoFields | NotArray | Fields(fields: seq<Field>)

  /** What retrieving a session returns: its details, or the error thrown. */
  datatype Details = RetrieveFailed(message: string) | Details(customFields: CustomFields)

  datatype Session = Session(id: string, paymentStatus: string, details: Details)

  /** What the list call returns: the account's sessions, newest first, or
      the error thrown. */
  datatype Listing = ListFailed(message: string) | Listed(sessions: seq<Session>)

  /** `req.query.code`: absent, one value, or several (a repeated key). */
  datatype Code = NoCode | CodeText(text: string) | CodeList(items: seq<string>)

  datatype Request = Request(verb: string, code: Code)

  /** A JSON body `{ premium, error? }`. */
  datatype Body = Body(premium: bool, error: Option<string>)

  /** The response: status, headers, and the JSON body (none for `end()`). */
  datatype Reply = Reply(status: nat, headers: seq<Header>, body: Option<Body>)

  /** `!code`: absent or the empty string (an array is truthy). */
  predicate Missing(code: Code) {
    code.NoCode? || code == CodeText("")
  }

  /** The sessions one list call returns: the first `ListLimit`. */
  function Page(all: seq<Session>): (r: seq<Session>)
    ensures |r| <= ListLimit && |r| <= |all|
    ensures r == all[..|r|]
    ensures |r| == ListLimit || r == all
  {
    if |all| <= ListLimit then all else all[..ListLimit]
  }

  /** The field the `find` callback accepts. */
  predicate IsAccessCodeField(f: Field) {
    f.key == Some(AccessCodeKey) || f.labelCustom == Some(AccessCodeLabel)
  }

  /** `custom_fields.find(...)`: the first accepted field. */
  function AccessCodeField(fields: seq<Field>): (r: Option<Field>)
    ensures r.Some? <==> exists i :: 0 <= i < |fields| && IsAccessCodeField(fields[i])
    ensures r.Some? ==>
      (exists i :: 0 <= i < |fields| && fields[i] == r.value
         && IsAccessCodeField(fields[i]) && forall j :: 0 <= j < i ==> !IsAccessCodeField(fields[j]))
  {
    if fields == [] then None
    else if IsAccessCodeField(fields[0]) then Some(fields[0])
    else
      var r := AccessCodeField(fields[1..]);
      assert r.Some? ==>
        (exists i :: 0 <= i < |fields[1..]| && fields[1..][i] == r.value
           && IsAccessCodeField(fields[1..][i]) && forall j :: 0 <= j < i ==> !IsAccessCodeField(fields[1..][j]));
      assert r.Some? ==>
        (exists i :: 0 <= i < |fields| && fields[i] == r.value
           && IsAccessCodeField(fields[i]) && forall j :: 0 <= j < i ==> !IsAccessCodeField(fields[j])) by {
        if r.Some? {
          var i :| 0 <= i < |fields[1..]| && fields[1..][i] == r.value
            && IsAccessCodeField(fields[1..][i]) && forall j :: 0 <= j < i ==> !IsAccessCodeField(fields[1..][j]);
          assert fields[i + 1] == r.value;
          forall j | 0 <= j < i + 1 ensures !IsAccessCodeField(fields[j]) {
            if j > 0 {
              assert fields[j] == fields[1..][j - 1];
            }
          }
        }
      }
      assert (exists i :: 0 <= i < |fields[1..]| && IsAccessCodeField(fields[1..][i])) ==>
        exists i :: 0 <= i < |fields| && IsAccessCodeField(fields[i]) by {
        if exists i :: 0 <= i < |fields[1..]| && IsAccessCodeField(fields[1..][i]) {
          var i :| 0 <= i < |fields[1..]| && IsAccessCodeField(fields[1..][i]);
          assert fields[i + 1] == fields[1..][i];
        }
      }
      assert (exists i :: 0 <= i < |fields| && IsAccessCodeField(fields[i])) ==>
        exists i :: 0 <= i < |fields[1..]| && IsAccessCodeField(fields[1..][i]) by {
        if exists i :: 0 <= i < |fields| && IsAccessCodeField(fields[i]) {
          var i :| 0 <= i < |fields| && IsAccessCodeField(fields[i]);
          assert i > 0 && fields[1..][i - 1] == fields[i];
        }
      }
      r
  }

  /** The same code once trimmed and lower-cased. */
  predicate SameCode(stored: string, given: string) {
    Lower(Trim(stored)) == Lower(Trim(given))
  }

  /** What looking at one listed session leads to: go on to the next, answer
      premium, or throw. */
  datatype Verdict = Continue | Grant | Throw(message: string)

  /** What the scan makes of a session's access-code field: nothing without
      one or without a non-empty text value; otherwise premium when the value
      equals the code up to surrounding white space and case, and a throw when
      the code is repeated (an array has no `trim`). */
  function FieldVerdict(field: Option<Field>, code: Code): Verdict {
    if field.None? || field.value.textValue.None? || field.value.textValue.value == "" then Continue
    else if code.CodeText? then (if SameCode(field.value.textValue.value, code.text) then Grant else Continue)
    else Throw(TrimTypeError)
  }

  /** One turn of the scan. An unpaid session is skipped without a
      retrieve; a failed retrieve throws; a retrieved session without an
      array of custom fields is passed over; otherwise its first access-code
      field decides. */
  function Examine(s: Session, code: Code): Verdict {
    if s.paymentStatus != "paid" then Continue
    else
      match s.details
      case RetrieveFailed(message) => Throw(message)
      case Details(cf) =>
        if !cf.Fields? then Continue
        else FieldVerdict(AccessCodeField(cf.fields), code)
  }

  /** The scan over the listed sessions: the first verdict that is not
      `Continue`, or `Continue` when every session was passed over. */
  function Scan(sessions: seq<Session>, code: Code): Verdict {
    if sessions == [] then Continue
    else
      var v := Examine(sessions[0], code);
      if v.Continue? then Scan(sessions[1..], code) else v
  }

  /** The ids of the sessions the scan retrieves: the paid ones, up to the
      one the scan stops at. */
  function Retrievals(sessions: seq<Session>, code: Code): seq<string> {
    if sessions == [] then []
    else if sessions[0].paymentStatus != "paid" then Retrievals(sessions[1..], code)
    else if Examine(sessions[0], code).Continue? then [sessions[0].id] + Retrievals(sessions[1..], code)
    else [sessions[0].id]
  }

  /** The handler's response to a request, given what the provider returns. */
  function Respond(req: Request, listing: Listing): (r: Reply)
    ensures r.headers == Cors
    ensures r.body.None? <==> req.verb == "OPTIONS"
    ensures r.status == 200 <==> req.verb == "OPTIONS" || (!Missing(req.code) && r.body.Some? && r.body.value.error.None?)
    ensures req.verb != "OPTIONS" && Missing(req.code) ==> r == Reply(400, Cors, Some(Body(false, Some(MissingCode))))
    ensures r.body.Some? && r.body.value.premium <==>
      req.verb != "OPTIONS" && !Missing(req.code) && listing.Listed? && Scan(Page(listing.sessions), req.code) == Grant
    ensures r.status == 500 <==>
      req.verb != "OPTIONS" && !Missing(req.code)
      && (listing.ListFailed? || Scan(Page(listing.sessions), req.code).Throw?)
  {
    if req.verb == "OPTIONS" then Reply(200, Cors, None)
    else if Missing(req.code) then Reply(400, Cors, Some(Body(false, Some(MissingCode))))
    else
      match listing
      case ListFailed(message) => Reply(500, Cors, Some(Body(false, Some(message))))
      case Listed(all) =>
        match Scan(Page(all), req.code)
        case Grant => Reply(200, Cors, Some(Body(true, None)))
        case Continue => Reply(200, Cors, Some(Body(false, None)))
        case Throw(message) => Reply(500, Cors, Some(Body(false, Some(message))))
  }

  /** The provider calls the handler makes: whether it lists, and which
      sessions it retrieves. */
  function Calls(req: Request, listing: Listing): (bool, seq<string>) {
    if req.verb == "OPTIONS" || Missing(req.code) then (false, [])
    else if listing.ListFailed? then (true, [])
    else (true, Retrievals(Page(listing.sessions), req.code))
  }

  /** The ids of the paid sessions among `sessions`, in order. */
  function PaidIds(sessions: seq<Session>): seq<string> {
    if sessions == [] then []
    else (if sessions[0].paymentStatus == "paid" then [sessions[0].id] else []) + PaidIds(sessions[1..])
  }

  /** The scan stops at the first session not passed over: that session's
      verdict is the answer (premium, or a throw), and when there is none the
      answer is "not premium". The sessions retrieved are the paid ones up to
      and including the one it stops at. */
  lemma {:induction false} ScanStopsAt(sessions: seq<Session>, code: Code, k: nat)
    requires k <= |sessions|
    requires forall j :: 0 <= j < k ==> Examine(sessions[j], code) == Continue
    requires k < |sessions| ==> Examine(sessions[k], code) != Continue
    ensures Scan(sessions, code) == if k < |sessions| then Examine(sessions[k], code) else Continue
    ensures Retrievals(sessions, code) == PaidIds(sessions[..if k < |sessions| then k + 1 else k])
  {
    var end := if k < |sessions| then k + 1 else k;
    if sessions == [] {
    } else if k == 0 {
      assert sessions[..1][1..] == [];
    } else {
      var rest := sessions[1..];
      forall j | 0 <= j < k - 1 ensures Examine(rest[j], code) == Continue {
        assert rest[j] == sessions[j + 1];
      }
      assert k - 1 < |rest| ==> rest[k - 1] == sessions[k];
      assert Examine(sessions[0], code) == Continue;
      ScanStopsAt(rest, code, k - 1);
      assert sessions[..end][1..] == rest[..end - 1];
      assert sessions[..end][0] == sessions[0];
    }
  }

  /** The scan answers "not premium" exactly when every listed session is
      passed over. */
  lemma {:induction false} ScanPassesOver(sessions: seq<Session>, code: Code)
    ensures Scan(sessions, code) == Continue <==>
      forall i :: 0 <= i < |sessions| ==> Examine(sessions[i], code) == Continue
  {
    if sessions != [] {
      ScanPassesOver(sessions[1..], code);
      if forall i :: 0 <= i < |sessions[1..]| ==> Examine(sessions[1..][i], code) == Continue {
        if Examine(sessions[0], code) == Continue {
          forall i | 0 <= i < |sessions| ensures Examine(sessions[i], code) == Continue {
            if i > 0 {
              assert sessions[i] == sessions[1..][i - 1];
            }
          }
        }
      } else {
        var i :| 0 <= i < |sessions[1..]| && Examine(sessions[1..][i], code) != Continue;
        assert sessions[i + 1] == sessions[1..][i];
      }
    }
  }

  /** Only paid sessions matter: dropping an unpaid session leaves the scan
      and the retrievals as they were. */
  lemma UnpaidIgnored(before: seq<Session>, s: Session, after: seq<Session>, code: Code)
    requires s.paymentStatus != "paid"
    ensures Scan(before + [s] + after, code) == Scan(before + after, code)
    ensures Retrievals(before + [s] + after, code) == Retrievals(before + after, code)
    decreases |before|
  {
    if before == [] {
      assert before + [s] + after == [s] + after;
      assert ([s] + after)[1..] == after;
      assert before + after == after;
    } else {
      UnpaidIgnored(before[1..], s, after, code);
      assert (before + [s] + after)[1..] == before[1..] + [s] + after;
      assert (before + after)[1..] == before[1..] + after;
    }
  }

  /** Every retrieved session is a listed paid one. */
  lemma {:induction false} RetrievalsArePaid(sessions: seq<Session>, code: Code, k: nat)
    requires k < |Retrievals(sessions, code)|
    ensures exists i :: (0 <= i < |sessions| && sessions[i].paymentStatus == "paid"
                         && sessions[i].id == Retrievals(sessions, code)[k])
  {
    var r := Retrievals(sessions, code);
    var rest := sessions[1..];
    if sessions[0].paymentStatus == "paid" && k == 0 {
      assert sessions[0].id == r[0];
    } else {
      var k' := if sessions[0].paymentStatus == "paid" then k - 1 else k;
      assert r[k] == Retrievals(rest, code)[k'];
      RetrievalsArePaid(rest, code, k');
      var i :| 0 <= i < |rest| && rest[i].paymentStatus == "paid" && rest[i].id == Retrievals(rest, code)[k'];
      assert sessions[i + 1] == rest[i];
    }
  }

  /** Only the first access-code field of a paid session is compared: the
      verdict is that field's, whatever the fields after it hold. */
  lemma FirstFieldOnly(id: string, fields: seq<Field>, code: Code, i: nat)
    requires i < |fields| && IsAccessCodeField(fields[i])
    requires forall j :: 0 <= j < i ==> !IsAccessCodeField(fields[j])
    ensures Examine(Session(id, "paid", Details(Fields(fields))), code) == FieldVerdict(Some(fields[i]), code)
  {
    var r := AccessCodeField(fields);
    var k :| 0 <= k < |fields| && fields[k] == r.value
      && IsAccessCodeField(fields[k]) && forall j :: 0 <= j < k ==> !IsAccessCodeField(fields[j]);
    assert k == i;
  }

  /** Codes that agree after trimming and lower-casing get the same answer. */
  lemma NormalisedCodesAgree(req: Request, listing: Listing, other: string)
    requires req.code.CodeText? && !Missing(req.code) && other != ""
    requires Lower(Trim(req.code.text)) == Lower(Trim(other))
    ensures Respond(req, listing) == Respond(req.(code := CodeText(other)), listing)
  {
    if req.verb != "OPTIONS" && listing.Listed? {
      var page := Page(listing.sessions);
      ExamineNormalised(page, req.code.text, other);
      assert Scan(page, req.code) == Scan(page, CodeText(other));
    }
  }

  lemma {:induction false} ExamineNormalised(sessions: seq<Session>, a: string, b: string)
    requires Lower(Trim(a)) == Lower(Trim(b))
    ensures Scan(sessions, CodeText(a)) == Scan(sessions, CodeText(b))
  {
    if sessions != [] {
      var v := Examine(sessions[0], CodeText(a));
      assert v == Examine(sessions[0], CodeText(b)) by {
        ExamineSameCode(sessions[0], a, b);
      }
      assert Scan(sessions[1..], CodeText(a)) == Scan(sessions[1..], CodeText(b)) by {
        ExamineNormalised(sessions[1..], a, b);
      }
      assert Scan(sessions, CodeText(a)) == if v.Continue? then Scan(sessions[1..], CodeText(a)) else v;
    }
  }

  lemma ExamineSameCode(s: Session, a: string, b: string)
    requires Lower(Trim(a)) == Lower(Trim(b))
    ensures Examine(s, CodeText(a)) == Examine(s, CodeText(b))
  {
    if s.paymentStatus == "paid" && s.details.Details? && s.details.customFields.Fields? {
      var field := AccessCodeField(s.details.customFields.fields);
      if field.Some? && field.value.textValue.Some? {
        var v := field.value.textValue.value;
        assert SameCode(v, a) == SameCode(v, b);
      }
      assert FieldVerdict(field, CodeText(a)) == FieldVerdict(field, CodeText(b));
    }
  }

  /** Sessions past the first hundred listed are never looked at. */
  lemma OnlyFirstPageScanned(req: Request, all: seq<Session>, more: seq<Session>)
    requires |all| >= ListLimit
    ensures Respond(req, Listed(all + more)) == Respond(req, Listed(all))
    ensures Calls(req, Listed(all + more)) == Calls(req, Listed(all))
  {
    assert (all + more)[..ListLimit] == all[..ListLimit];
  }

  lemma AppendOne(before: seq<string>, x: string, after: seq<string>)
    ensures before + ([x] + after) == (before + [x]) + after
  {
  }

  /** One turn of the scan, at position `i`. */
  lemma ScanStep(sessions: seq<Session>, i: nat, code: Code)
    requires i < |sessions|
    ensures Scan(sessions[i..], code) ==
      if Examine(sessions[i], code).Continue? then Scan(sessions[i + 1..], code) else Examine(sessions[i], code)
    ensures sessions[i].paymentStatus != "paid" ==>
      Retrievals(sessions[i..], code) == Retrievals(sessions[i + 1..], code)
    ensures sessions[i].paymentStatus == "paid" && Examine(sessions[i], code).Continue? ==>
      Retrievals(sessions[i..], code) == [sessions[i].id] + Retrievals(sessions[i + 1..], code)
    ensures sessions[i].paymentStatus == "paid" && !Examine(sessions[i], code).Continue? ==>
      Retrievals(sessions[i..], code) == [sessions[i].id]
  {
    assert sessions[i..][0] == sessions[i];
    assert sessions[i..][1..] == sessions[i + 1..];
  }

  /** `handler(req, res)`: the CORS headers, the preflight answer, the
      missing-code answer, then the scan of the listed sessions, one retrieve
      per paid session, stopping at the first grant or the first error. */
  method Handle(req: Request, listing: Listing) returns (reply: Reply, listed: bool, retrieved: seq<string>)
    ensures reply == Respond(req, listing)
    ensures (listed, retrieved) == Calls(req, listing)
  {
    var headers := Cors;
    listed, retrieved := false, [];
    if req.verb == "OPTIONS" {
      reply := Reply(200, headers, None);
      return;
    }
    if Missing(req.code) {
      reply := Reply(400, headers, Some(Body(false, Some(MissingCode))));
      return;
    }
    listed := true;
    if listing.ListFailed? {
      reply := Reply(500, headers, Some(Body(false, Some(listing.message))));
      return;
    }
    var code := req.code;
    var sessions := Page(listing.sessions);
    var i := 0;
    while i < |sessions|
      invariant 0 <= i <= |sessions|
      invariant Scan(sessions[i..], code) == Scan(sessions, code)
      invariant retrieved + Retrievals(sessions[i..], code) == Retrievals(sessions, code)
    {
      var s := sessions[i];
      ScanStep(sessions, i, code);
      if s.paymentStatus != "paid" {
        i := i + 1;
        continue;
      }
      ghost var before := retrieved;
      retrieved := retrieved + [s.id];
      var verdict := Continue;
      if s.details.RetrieveFailed? {
        verdict := Throw(s.details.message);
      } else {
        var cf := s.details.customFields;
        if cf.Fields? {
          var field := AccessCodeField(cf.fields);
          if field.Some? && field.value.textValue.Some? && field.value.textValue.value != "" {
            if !code.CodeText? {
              verdict := Throw(TrimTypeError);
            } else if Lower(Trim(field.value.textValue.value)) == Lower(Trim(code.text)) {
              verdict := Grant;
            }
          }
        }
      }
      assert verdict == Examine(s, code);
      if verdict.Grant? {
        reply := Reply(200, headers, Some(Body(true, None)));
        return;
      } else if verdict.Throw? {
        reply := Reply(500, headers, Some(Body(false, Some(verdict.message))));
        return;
      }
      AppendOne(before, s.id, Retrievals(sessions[i + 1..], code));
      i := i + 1;
    }
    assert retrieved + [] == retrieved;
    reply := Reply(200, headers, Some(Body(false, None)));
  }
}
