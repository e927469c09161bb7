/** The activity logger of src/utils/logger.ts: e-mail masking, redaction of
    log details, and the signed-in / anonymous writers of the `activity_logs`
    table. */
module Logger {
  import opened Js

  /** `maskEmail`: `user@example.com` becomes `u***@example.com`. Only the first
      two pieces of `email.split("@")` are used. */
  function MaskEmail(email: string): string
  {
    if email == "" || '@' !in email then email
    else
      var parts := Split(email, '@');
      var local, domain := parts[0], parts[1];
      if |local| <= 1 then "*@" + domain else [local[0]] + "***@" + domain
  }

  /** The masked address in terms of the first '@': a text without '@' is
      returned as is; otherwise the local part becomes "*" (when it has at most one
      character) or its first character followed by "***", and the domain is the
      text between the first and the second '@'. */
  lemma MaskEmailSpec(email: string)
    ensures '@' !in email ==> MaskEmail(email) == email
    ensures '@' in email ==>
              var i := IndexOf(email, '@');
              var domain := UpTo(email[i + 1..], '@');
              MaskEmail(email) == (if i <= 1 then "*" else [email[0]] + "***") + "@" + domain
  {
    if '@' in email {
      SplitFirstPieces(email, '@');
      var i := IndexOf(email, '@');
      var parts := Split(email, '@');
      var local, domain := parts[0], parts[1];
      assert local == email[..i];
      assert |local| == i;
      if i > 1 {
        assert local[0] == email[0];
      }
    }
  }

  /** At most one character of the local part is revealed, the result holds
      exactly one '@', and whatever followed a second '@' is gone. */
  lemma MaskEmailReveals(email: string)
    requires '@' in email
    ensures var r := MaskEmail(email);
            var i := IndexOf(email, '@');
            '@' in r &&
            UpTo(r, '@') == (if i <= 1 then "*" else [email[0]] + "***") &&
            '@' !in r[IndexOf(r, '@') + 1..] &&
            r[IndexOf(r, '@') + 1..] == UpTo(email[i + 1..], '@')
  {
    MaskEmailSpec(email);
    var i := IndexOf(email, '@');
    var head: string := if i <= 1 then "*" else [email[0]] + "***";
    var domain := UpTo(email[i + 1..], '@');
    var r := MaskEmail(email);
    assert r == head + "@" + domain;
    assert '@' !in head;
    assert r[|head|] == '@';
    assert IndexOf(r, '@') == |head| by {
      assert r[..|head|] == head;
    }
    assert r[|head| + 1..] == domain;
  }

  /** Masking is idempotent: a masked address is a fixed point. */
  lemma MaskEmailIdempotent(email: string)
    ensures MaskEmail(MaskEmail(email)) == MaskEmail(email)
  {
    if '@' in email {
      MaskEmailReveals(email);
      var r := MaskEmail(email);
      MaskEmailSpec(r);
      var j := IndexOf(r, '@');
      var tail := r[j + 1..];
      assert UpTo(tail, '@') == tail;
      assert r == r[..j] + "@" + tail;
      assert r[..j] == UpTo(r, '@');
    }
  }

  /** `maskEmail(sanitized.email)` throws a TypeError when the e-mail is truthy
      but not a string, because only strings have `includes`. */
  predicate EmailThrows(details: map<string, Value>)
  {
    Truthy(Get(details, "email")) && !Get(details, "email").Str?
  }

  /** Result of `sanitizeDetails`: the redacted details, or a thrown exception. */
  datatype Sanitized = Sanitized(details: Option<map<string, Value>>) | Threw

  /** The redacted details, stated key by key: `password` and `token` are gone, a
      truthy `email` is masked, every other top-level entry is kept as it is. */
  function Redacted(details: Option<map<string, Value>>): (r: Sanitized)
    ensures details.None? ==> r == Sanitized(None)
    ensures details.Some? ==> (r.Threw? <==> EmailThrows(details.value))
    ensures r.Sanitized? && details.Some? ==>
              r.details.Some? &&
              r.details.value.Keys == details.value.Keys - {"password", "token"} &&
              (forall k :: k in r.details.value && k != "email" ==> r.details.value[k] == details.value[k])
  {
    match details
    case None => Sanitized(None)
    case Some(m) =>
      if EmailThrows(m) then Threw
      else
        Sanitized(Some(map k | k in m && k != "password" && k != "token" ::
                         if k == "email" && Truthy(m[k]) then Str(MaskEmail(m[k].s)) else m[k]))
  }

  /** `sanitizeDetails`: falsy details are returned unchanged; otherwise a shallow
      copy is made and the copy is updated in place. Nested objects are not visited. */
  method SanitizeDetails(details: Option<map<string, Value>>) returns (r: Sanitized)
    ensures r == Redacted(details)
  {
    if details.None? {
      return Sanitized(details);
    }
    var sanitized := details.value;
    if Truthy(Get(sanitized, "email")) {
      match sanitized["email"]
      case Str(e) =>
        sanitized := sanitized["email" := Str(MaskEmail(e))];
      case _ =>
        return Threw;
    }
    sanitized := sanitized - {"password"};
    sanitized := sanitized - {"token"};
    r := Sanitized(Some(sanitized));
    assert r.details.value == Redacted(details).details.value;
  }

  /** A redacted e-mail keeps its masked form when the details are redacted again. */
  lemma {:induction false} RedactedEmailMasked(details: map<string, Value>)
    requires !EmailThrows(details) && Truthy(Get(details, "email"))
    ensures var r := Redacted(Some(details));
            "email" in r.details.value &&
            r.details.value["email"] == Str(MaskEmail(details["email"].s)) &&
            Redacted(r.details).details.value["email"] == r.details.value["email"]
  {
    var e := details["email"].s;
    MaskEmailIdempotent(e);
    assert e != "";
    if '@' in e {
      MaskEmailReveals(e);
    }
  }

  /** A row of the `activity_logs` table. */
  datatype LogRow = LogRow(userId: Option<string>, action: string, details: Option<map<string, Value>>)

  /** How the insert into `activity_logs` went. */
  datatype InsertResult = Inserted | InsertFailed | InsertThrew

  /** What the writer reported: nothing, or a console.error line. */
  datatype Report = Written | ConsoleError(message: string)

  class ActivityLogTable {
    var rows: seq<LogRow>

    constructor ()
      ensures rows == []
    {
      rows := [];
    }
  }

  /** `logActivityAnonymous`: inserts a row with `user_id` null. It never throws:
      a failed or throwing insert, or a redaction that throws, is only reported. */
  method LogActivityAnonymous(table: ActivityLogTable, action: string, details: Option<map<string, Value>>,
                              insert: InsertResult) returns (report: Report)
    modifies table
    ensures var s := Redacted(details);
            if s.Threw? || insert == InsertThrew then
              report == ConsoleError("Error in logActivityAnonymous:") && table.rows == old(table.rows)
            else if insert == InsertFailed then
              report == ConsoleError("Failed to write anonymous activity log:") && table.rows == old(table.rows)
            else
              report == Written && table.rows == old(table.rows) + [LogRow(None, action, s.details)]
  {
    var sanitized := SanitizeDetails(details);
    if sanitized.Threw? || insert == InsertThrew {
      return ConsoleError("Error in logActivityAnonymous:");
    }
    if insert == InsertFailed {
      return ConsoleError("Failed to write anonymous activity log:");
    }
    table.rows := table.rows + [LogRow(None, action, sanitized.details)];
    report := Written;
  }

  /** `logActivity`: with a signed-in user the row carries the user's id; without
      one it falls back to the anonymous writer. It never throws. */
  method LogActivity(table: ActivityLogTable, user: Option<string>, action: string,
                     details: Option<map<string, Value>>, insert: InsertResult) returns (report: Report)
    modifies table
    ensures var s := Redacted(details);
            if s.Threw? || insert == InsertThrew then
              report == ConsoleError(if user.None? then "Error in logActivityAnonymous:" else "Error in logActivity:") &&
              table.rows == old(table.rows)
            else if insert == InsertFailed then
              report == ConsoleError(if user.None? then "Failed to write anonymous activity log:"
                                     else "Failed to write activity log:") &&
              table.rows == old(table.rows)
            else
              report == Written && table.rows == old(table.rows) + [LogRow(user, action, s.details)]
  {
    if user.None? {
      report := LogActivityAnonymous(table, action, details, insert);
      return;
    }
    var sanitized := SanitizeDetails(details);
    if sanitized.Threw? || insert == InsertThrew {
      return ConsoleError("Error in logActivity:");
    }
    if insert == InsertFailed {
      return ConsoleError("Failed to write activity log:");
    }
    table.rows := table.rows + [LogRow(user, action, sanitized.details)];
    report := Written;
  }
}
