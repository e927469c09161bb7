/** The administrator's dashboard page, src/app/admin/dashboard/page.tsx: the role
    gate, the two store queries it builds from the search parameters, the keyword
    filter it applies in memory, the KPI figures and the tab links. `lower` is
    `toLowerCase`. */
module AdminDashboard {
  import opened Js
  import opened Db
  import opened QueryParams
  import opened ApplicationList

  /** The gate in front of the page: None when it renders, or the redirect target. */
  function Gate(signedIn: bool, role: Option<string>): (target: Option<string>)
    ensures target.None? <==> signedIn && role == Some("admin")
    ensures !signedIn ==> target == Some("/login")
    ensures signedIn && role != Some("admin") ==> target == Some("/")
  {
    if !signedIn then Some("/login")
    else if role != Some("admin") then Some("/")
    else None
  }

  /** The tab shown: the `tab` parameter, by default "students". */
  function CurrentTab(params: ParamList): string
  {
    OrElse(GetParam(params, "tab"), "students")
  }

  /** One filter or ordering added to a store query. */
  datatype Constraint =
    | Eq(column: string, value: string)
    | Gte(column: string, value: string)
    | Lte(column: string, value: string)
    | ILike(column: string, pattern: string)
    | OrderDescending(column: string)

  /** The bounds of the month filter: the first and the 31st of the month, whatever
      the month's length. */
  function MonthStart(month: string): string { month + "-01" }
  function MonthEnd(month: string): string { month + "-31" }

  /** The constraints a step adds when its parameter is given. */
  function When(given: bool, added: seq<Constraint>): seq<Constraint>
  {
    if given then added else []
  }

  /** The constraints on the students query: the course, the month and a name
      pattern, each when its parameter is given. */
  function StudentConstraints(params: ParamList): seq<Constraint>
  {
    var course, month, q := OrElse(GetParam(params, "course_id"), ""), OrElse(GetParam(params, "month"), ""),
                            OrElse(GetParam(params, "q"), "");
    When(course != "", [Eq("course_id", course)]) +
    When(month != "", [Gte("graduation_date", MonthStart(month)), Lte("graduation_date", MonthEnd(month))]) +
    When(q != "", [ILike("profiles.full_name", "%" + q + "%")])
  }

  /** `studentsQuery`, built step by step from the search parameters. */
  method StudentsQuery(params: ParamList) returns (query: seq<Constraint>)
    ensures query == StudentConstraints(params)
  {
    query := [];
    var course := OrElse(GetParam(params, "course_id"), "");
    if course != "" {
      query := query + [Eq("course_id", course)];
    }
    assert query == When(course != "", [Eq("course_id", course)]);
    var month := OrElse(GetParam(params, "month"), "");
    ghost var before := query;
    if month != "" {
      query := query + [Gte("graduation_date", MonthStart(month)), Lte("graduation_date", MonthEnd(month))];
    }
    assert query == before + When(month != "", [Gte("graduation_date", MonthStart(month)), Lte("graduation_date", MonthEnd(month))]);
    var q := OrElse(GetParam(params, "q"), "");
    before := query;
    if q != "" {
      query := query + [ILike("profiles.full_name", "%" + q + "%")];
    }
    assert query == before + When(q != "", [ILike("profiles.full_name", "%" + q + "%")]);
  }

  /** The filters on the applications query, given the course, month, status and
      result parameters ("" when absent): each is added when it is given. */
  function ApplicationConstraints(course: string, month: string, status: string, result: string): seq<Constraint>
  {
    When(course != "", [Eq("students.course_id", course)]) +
    When(month != "", [Gte("students.graduation_date", MonthStart(month)), Lte("students.graduation_date", MonthEnd(month))]) +
    When(status != "", [Eq("status", status)]) +
    When(result != "", [Eq("document_result", result)])
  }

  /** `appsQuery`, built step by step; it always ends with the newest-first order. */
  method ApplicationsQuery(params: ParamList) returns (query: seq<Constraint>)
    ensures query == ApplicationConstraints(OrElse(GetParam(params, "course_id"), ""), OrElse(GetParam(params, "month"), ""),
                                            OrElse(GetParam(params, "status"), ""), OrElse(GetParam(params, "result"), "")) +
                     [OrderDescending("created_at")]
  {
    var course := OrElse(GetParam(params, "course_id"), "");
    query := When(course != "", [Eq("students.course_id", course)]);
    var month := OrElse(GetParam(params, "month"), "");
    if month != "" {
      query := query + [Gte("students.graduation_date", MonthStart(month)), Lte("students.graduation_date", MonthEnd(month))];
    }
    ghost var upToMonth := query;
    assert upToMonth == When(course != "", [Eq("students.course_id", course)]) +
      When(month != "", [Gte("students.graduation_date", MonthStart(month)), Lte("students.graduation_date", MonthEnd(month))]);
    var status := OrElse(GetParam(params, "status"), "");
    if status != "" {
      query := query + [Eq("status", status)];
    }
    assert query == upToMonth + When(status != "", [Eq("status", status)]);
    ghost var upToStatus := query;
    var result := OrElse(GetParam(params, "result"), "");
    if result != "" {
      query := query + [Eq("document_result", result)];
    }
    assert query == upToStatus + When(result != "", [Eq("document_result", result)]);
    query := query + [OrderDescending("created_at")];
  }

  /** The applications query filters on status and document result exactly when
      those parameters are given, with their values, and always ends newest first. */
  lemma ApplicationFilters(course: string, month: string, status: string, result: string)
    ensures var query := ApplicationConstraints(course, month, status, result) + [OrderDescending("created_at")];
            query[|query| - 1] == OrderDescending("created_at") &&
            (status != "" ==> Eq("status", status) in query) &&
            (result != "" ==> Eq("document_result", result) in query) &&
            (forall v :: Eq("status", v) in query ==> v == status) &&
            (forall v :: Eq("document_result", v) in query ==> v == result)
  {
    var a := When(course != "", [Eq("students.course_id", course)]);
    var b := When(month != "", [Gte("students.graduation_date", MonthStart(month)), Lte("students.graduation_date", MonthEnd(month))]);
    var c := When(status != "", [Eq("status", status)]);
    var d := When(result != "", [Eq("document_result", result)]);
    var e := [OrderDescending("created_at")];
    assert ApplicationConstraints(course, month, status, result) + e == a + b + c + d + e;
    assert forall x :: x in a + b + c + d + e <==> x in a || x in b || x in c || x in d || x in e;
  }

  /** The month filter is present exactly when a month is given, and then bounds the
      graduation date by that month's "-01" and "-31" days; the other constraints do
      not bound the date. */
  lemma MonthFilter(params: ParamList)
    ensures var month := OrElse(GetParam(params, "month"), "");
            var query := StudentConstraints(params);
            (month != "" ==> Gte("graduation_date", month + "-01") in query && Lte("graduation_date", month + "-31") in query) &&
            (month == "" ==> forall c :: c in query ==> !c.Gte? && !c.Lte?)
  {
    var course, month, q := OrElse(GetParam(params, "course_id"), ""), OrElse(GetParam(params, "month"), ""),
                            OrElse(GetParam(params, "q"), "");
    var a := When(course != "", [Eq("course_id", course)]);
    var b := When(month != "", [Gte("graduation_date", MonthStart(month)), Lte("graduation_date", MonthEnd(month))]);
    var c := When(q != "", [ILike("profiles.full_name", "%" + q + "%")]);
    assert StudentConstraints(params) == a + b + c;
    assert forall x :: x in a + b + c <==> x in a || x in b || x in c;
  }

  /** A row of the applications query: the application, the name on the student's
      profile, and the file names of its attachments (null when none were joined). */
  datatype AppRow = AppRow(app: Application, studentName: Option<string>, attachmentNames: Option<seq<string>>)

  /** The in-memory keyword test: the lower-cased keyword occurs in the student's
      name, the company, the position or the name of one of the attachments. */
  predicate KeywordMatch(r: AppRow, q: string, lower: string -> string)
  {
    var k := lower(q);
    Includes(LowerOrEmpty(r.studentName, lower), k) || Includes(LowerOrEmpty(r.app.company, lower), k) ||
    Includes(LowerOrEmpty(r.app.position, lower), k) ||
    (r.attachmentNames.Some? && exists i :: 0 <= i < |r.attachmentNames.value| && Includes(lower(r.attachmentNames.value[i]), k))
  }

  /** `filteredApps`: the query's rows (none when it gave null), filtered by the
      keyword when there is one. */
  function KeywordFiltered(raw: Option<seq<AppRow>>, q: string, lower: string -> string): (r: seq<AppRow>)
    ensures q == "" ==> r == (if raw.Some? then raw.value else [])
  {
    var rows := if raw.Some? then raw.value else [];
    if q == "" then rows else Filter(rows, r => KeywordMatch(r, q, lower))
  }

  /** With a keyword, a row is kept exactly when it matches; either way the rows
      keep the query's newest-first order. */
  lemma KeywordFilteredMembers(rows: seq<AppRow>, q: string, lower: string -> string, r: AppRow)
    ensures q != "" ==> (r in KeywordFiltered(Some(rows), q, lower) <==> r in rows && KeywordMatch(r, q, lower))
    ensures IsSubsequence(KeywordFiltered(Some(rows), q, lower), rows)
  {
    FilterMembers(rows, x => KeywordMatch(x, q, lower), r);
    FilterIsSubsequence(rows, x => KeywordMatch(x, q, lower));
    if q == "" {
      FilterAll(rows, x => true);
      FilterIsSubsequence(rows, x => true);
    }
  }

  /** The figures shown above the list, and on each student's row. */
  datatype Kpi = Kpi(total: nat, passed: nat, offers: nat, docRate: nat, offerRate: nat)

  /** The figures of a list of applications: passed counts document result "通過",
      offers count status "内定", and the rates are rounded percentages. */
  function Kpis(apps: seq<Application>): Kpi
  {
    var passed := CountWhere(apps, DocumentPassed);
    var offers := CountWhere(apps, Offered);
    Kpi(|apps|, passed, offers, RoundedPercent(passed, |apps|), RoundedPercent(offers, |apps|))
  }

  /** The applications of the filtered rows. */
  function AppsOf(rows: seq<AppRow>): (apps: seq<Application>)
    ensures |apps| == |rows| && forall i :: 0 <= i < |rows| ==> apps[i] == rows[i].app
  {
    seq(|rows|, i requires 0 <= i < |rows| => rows[i].app)
  }

  /** The counts lie within the total and the rates between 0 and 100; with no
      applications both rates are 0, and a rate is 100 when every application counts. */
  lemma KpiBounds(apps: seq<Application>)
    ensures var k := Kpis(apps);
            k.passed <= k.total && k.offers <= k.total && k.docRate <= 100 && k.offerRate <= 100 &&
            (k.total == 0 ==> k.docRate == 0 && k.offerRate == 0) &&
            (k.passed == 0 ==> k.docRate == 0) && (k.offers == 0 ==> k.offerRate == 0) &&
            (0 < k.passed == k.total ==> k.docRate == 100) && (0 < k.offers == k.total ==> k.offerRate == 100)
  {
    var k := Kpis(apps);
    RoundedPercentBounds(k.passed, k.total);
    RoundedPercentBounds(k.offers, k.total);
  }

  /** A student's row: the same figures over that student's applications (none when
      the join gave null). */
  function StudentKpis(apps: Option<seq<Application>>): Kpi
  {
    Kpis(if apps.Some? then apps.value else [])
  }

  /** The figures above the list are those of the rows shown: never more than the
      query returned, all of them without a keyword, and within the bounds of
      `KpiBounds`. */
  lemma FilteredKpis(raw: Option<seq<AppRow>>, q: string, lower: string -> string)
    ensures var shown := KeywordFiltered(raw, q, lower);
            var k := Kpis(AppsOf(shown));
            k.total == |shown| && k.total <= (if raw.Some? then |raw.value| else 0) &&
            (q == "" && raw.Some? ==> k.total == |raw.value|) &&
            k.passed <= k.total && k.offers <= k.total && k.docRate <= 100 && k.offerRate <= 100
  {
    KpiBounds(AppsOf(KeywordFiltered(raw, q, lower)));
  }

  /** A student's row shows the zero figures when the join gave null, a total
      equal to the number of joined applications otherwise, and always the bounds
      of `KpiBounds`. */
  lemma StudentKpisBounds(apps: Option<seq<Application>>)
    ensures apps.None? ==> StudentKpis(apps) == Kpi(0, 0, 0, 0, 0)
    ensures apps.Some? ==> StudentKpis(apps).total == |apps.value|
    ensures var k := StudentKpis(apps);
            k.passed <= k.total && k.offers <= k.total && k.docRate <= 100 && k.offerRate <= 100 &&
            (k.total == 0 ==> k.docRate == 0 && k.offerRate == 0)
  {
    KpiBounds(if apps.Some? then apps.value else []);
  }

  /** A tab link: the tab, then every search parameter except `tab` whose value is
      not empty, in order. */
  function TabLink(tab: string, params: ParamList, encode: string -> string): string
  {
    "/admin/dashboard?tab=" + tab + "&" + Serialize(Carried(params), encode)
  }

  /** A tab link always starts with the tab and a '&'; when no parameter other
      than `tab` has a value, the link is just that, ending in a bare '&'. */
  lemma TabLinkShape(tab: string, params: ParamList, encode: string -> string)
    ensures StartsWith(TabLink(tab, params, encode), "/admin/dashboard?tab=" + tab + "&")
    ensures (forall p :: p in params ==> p.name == "tab" || p.value == "") ==>
              TabLink(tab, params, encode) == "/admin/dashboard?tab=" + tab + "&"
  {
    var prefix := "/admin/dashboard?tab=" + tab + "&";
    assert TabLink(tab, params, encode)[..|prefix|] == prefix;
    if Carried(params) != [] {
      CarriedExactly(params, Carried(params)[0]);
    }
  }

  predicate CarriedPair(p: Pair)
  {
    p.name != "tab" && p.value != ""
  }

  /** The parameters a tab link carries over. */
  function Carried(params: ParamList): ParamList
  {
    Filter(params, CarriedPair)
  }

  /** A tab link carries exactly the non-empty parameters other than `tab`, in
      their order, so the filters survive a change of tab. */
  lemma CarriedExactly(params: ParamList, p: Pair)
    ensures p in Carried(params) <==> p in params && p.name != "tab" && p.value != ""
    ensures IsSubsequence(Carried(params), params)
    ensures Values(Carried(params), "tab") == []
  {
    FilterMembers(params, CarriedPair, p);
    FilterIsSubsequence(params, CarriedPair);
    NoTab(params);
  }

  lemma {:induction false} NoTab(params: ParamList)
    ensures Values(Carried(params), "tab") == []
  {
    if params != [] {
      NoTab(params[1..]);
      var head := if CarriedPair(params[0]) then [params[0]] else [];
      assert Carried(params) == head + Carried(params[1..]);
      ValuesAppend(head, Carried(params[1..]), "tab");
    }
  }
}
