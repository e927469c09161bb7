/** The student's dashboard page, src/app/student/dashboard/page.tsx: the sign-in
    gate, the summary figures over the student's applications and the action that
    recreates a missing student row. */
module StudentDashboard {
  import opened Js
  import opened Db

  /** The gate in front of the page: None when it renders, or the redirect target. */
  function Gate(signedIn: bool): (target: Option<string>)
    ensures target.None? <==> signedIn
    ensures !signedIn ==> target == Some("/login")
  {
    if signedIn then None else Some("/login")
  }

  /** Screening still open: no result, an empty one, or "審査中". */
  predicate Pending(a: Application)
  {
    a.documentResult.None? || a.documentResult == Some("") || a.documentResult == Some("審査中")
  }

  /** `Math.max(0, 20 - n)`: applications still needed to reach the goal of 20. */
  function GoalRemainder(n: nat): (r: nat)
    ensures r == 0 <==> n >= 20
    ensures n < 20 ==> n + r == 20
  {
    if 20 - n > 0 then 20 - n else 0
  }

  /** The figures of the page. */
  datatype Summary = Summary(count: nat, passed: nat, pending: nat, passRate: nat, goalRemainder: nat)

  /** The figures over the student's applications (none when the join gave null). */
  function Summarize(joined: Option<seq<Application>>): Summary
  {
    var apps := if joined.Some? then joined.value else [];
    var passed := CountWhere(apps, DocumentPassed);
    Summary(|apps|, passed, CountWhere(apps, Pending), RoundedPercent(passed, |apps|), GoalRemainder(|apps|))
  }

  /** Passed and pending never overlap, so together they are at most the count; the
      pass rate lies between 0 and 100 and is 0 with no applications. */
  lemma SummaryBounds(joined: Option<seq<Application>>)
    ensures var s := Summarize(joined);
            s.passed + s.pending <= s.count && s.passRate <= 100 &&
            (s.count == 0 ==> s.passRate == 0 && s.goalRemainder == 20) &&
            (s.passed == 0 ==> s.passRate == 0) && (0 < s.passed == s.count ==> s.passRate == 100)
  {
    var apps := if joined.Some? then joined.value else [];
    CountDisjoint(apps, DocumentPassed, Pending);
    RoundedPercentBounds(CountWhere(apps, DocumentPassed), |apps|);
  }

  /** What the page's query for the caller's students row gave: the row with its
      joined applications (None when the join gave null), or no row, with the
      error's message when there was an error. */
  datatype Fetch = Row(joined: Option<seq<Application>>) | NoRow(error: Option<string>)

  const NotFoundMessage := "データが見つかりませんでした。"

  /** What the page shows. */
  datatype View = RedirectTo(path: string) | ErrorPanel(message: string) | Dashboard(summary: Summary)

  /** The page: the gate, then the error panel or the figures. */
  function StudentPage(signedIn: bool, fetched: Fetch): (v: View)
    ensures !signedIn <==> v == RedirectTo("/login")
    ensures v.ErrorPanel? ==> v.message != "" && (v.message == NotFoundMessage || fetched == NoRow(Some(v.message)))
    ensures v.ErrorPanel? <==> signedIn && fetched.NoRow?
    ensures v.Dashboard? ==> fetched.Row? && v.summary == Summarize(fetched.joined)
  {
    if Gate(signedIn).Some? then RedirectTo(Gate(signedIn).value)
    else match fetched
      case NoRow(error) => ErrorPanel(OrElse(error, NotFoundMessage))
      case Row(joined) => Dashboard(Summarize(joined))
  }

  /** The recovery action of the error panel: insert a students row whose id is the
      caller's. The insert fails when the row exists; its answer is not inspected. */
  method RecoverStudentRow(db: Store, user: string, insert: DbResult)
    modifies db
    ensures db.applications == old(db.applications) && db.attachments == old(db.attachments) &&
            db.profiles == old(db.profiles) && db.objects == old(db.objects)
    ensures insert.Ok? && user !in old(db.students) ==> db.students == old(db.students)[user := Student(None, None)]
    ensures insert.DbError? || user in old(db.students) ==> db.students == old(db.students)
    ensures insert.Ok? ==> user in db.students
  {
    if insert.Ok? && user !in db.students {
      db.students := db.students[user := Student(None, None)];
    }
  }
}
