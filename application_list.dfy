/** The student's searchable list of applications,
    src/components/SearchableApplicationList.tsx: a keyword, a status, a date and
    three document boxes, combined by conjunction. `lower` is `toLowerCase`. */
module ApplicationList {
  import opened Js
  import opened Db

  /** The list's filter state. */
  datatype Filters = Filters(query: string, status: string, date: string, resume: bool, cv: bool, portfolio: bool)

  /** The state the list starts in: nothing typed, nothing ticked. */
  const NoFilters := Filters("", "", "", false, false, false)

  /** `x?.toLowerCase() || ""`. */
  function LowerOrEmpty(x: Option<string>, lower: string -> string): string
  {
    if x.Some? then lower(x.value) else ""
  }

  /** The keyword test: in the company or in the position (a missing position reads
      as ""), both compared in lower case. */
  predicate MatchesQuery(a: Application, query: string, lower: string -> string)
  {
    Includes(LowerOrEmpty(a.company, lower), lower(query)) || Includes(LowerOrEmpty(a.position, lower), lower(query))
  }

  /** The predicate of `filteredApplications`. */
  predicate Matches(a: Application, f: Filters, lower: string -> string)
  {
    MatchesQuery(a, f.query, lower) &&
    (f.status == "" || a.status == Some(f.status)) &&
    (f.date == "" || a.applicationDate == Some(f.date)) &&
    (!f.resume || a.resumeCreated) && (!f.cv || a.workHistoryCreated) && (!f.portfolio || a.portfolioSubmitted)
  }

  /** `filteredApplications`. The component reads `app.company.toLowerCase()`
      without a guard, so a row without a company makes the filter throw (None). */
  function Filtered(apps: seq<Application>, f: Filters, lower: string -> string): (r: Option<seq<Application>>)
    ensures r.None? <==> exists a :: a in apps && a.company.None?
    ensures r.Some? ==> |r.value| <= |apps|
  {
    if exists a :: a in apps && a.company.None? then None
    else Some(Filter(apps, a => Matches(a, f, lower)))
  }

  /** An application is shown exactly when it is in the list and passes every
      filter; the shown list keeps the input order. */
  lemma FilteredMembers(apps: seq<Application>, f: Filters, lower: string -> string, a: Application)
    requires forall x :: x in apps ==> x.company.Some?
    ensures a in Filtered(apps, f, lower).value <==> a in apps && Matches(a, f, lower)
    ensures IsSubsequence(Filtered(apps, f, lower).value, apps)
  {
    FilterMembers(apps, x => Matches(x, f, lower), a);
    FilterIsSubsequence(apps, x => Matches(x, f, lower));
  }

  /** With nothing typed and nothing ticked the whole list is shown (given that the
      lower-case form of "" is ""). */
  lemma NoFiltersShowAll(apps: seq<Application>, lower: string -> string)
    requires forall x :: x in apps ==> x.company.Some?
    requires lower("") == ""
    ensures Filtered(apps, NoFilters, lower) == Some(apps)
  {
    forall x | x in apps
      ensures Matches(x, NoFilters, lower)
    {
      IncludesEmpty(LowerOrEmpty(x.company, lower));
    }
    FilterAll(apps, x => Matches(x, NoFilters, lower));
  }

  /** `f2` is at least as strict as `f1`: each filter of `f1` is unset or kept, and
      every box ticked in `f1` is ticked in `f2`. */
  predicate AtLeastAsStrict(f2: Filters, f1: Filters)
  {
    (f1.query == "" || f2.query == f1.query) && (f1.status == "" || f2.status == f1.status) &&
    (f1.date == "" || f2.date == f1.date) &&
    (f1.resume ==> f2.resume) && (f1.cv ==> f2.cv) && (f1.portfolio ==> f2.portfolio)
  }

  /** Tightening any filter never adds an application: the stricter list is a
      sub-list of the looser one. */
  lemma TighterShowsFewer(apps: seq<Application>, f1: Filters, f2: Filters, lower: string -> string)
    requires forall x :: x in apps ==> x.company.Some?
    requires lower("") == ""
    requires AtLeastAsStrict(f2, f1)
    ensures IsSubsequence(Filtered(apps, f2, lower).value, Filtered(apps, f1, lower).value)
  {
    forall x | Matches(x, f2, lower)
      ensures Matches(x, f1, lower)
    {
      IncludesEmpty(LowerOrEmpty(x.company, lower));
    }
    FilterMonotone(apps, x => Matches(x, f2, lower), x => Matches(x, f1, lower));
  }
}
