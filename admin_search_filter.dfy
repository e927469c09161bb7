/** The admin dashboard's search bar, src/components/AdminSearchFilter.tsx: five
    filter fields initialised from the current query, a search that rewrites the
    query parameter by parameter, and a reset. */
module AdminSearchFilter {
  import opened Js
  import opened QueryParams

  /** One line of `handleSearch`: a non-empty field sets its parameter, an empty one
      deletes it. */
  function Apply(l: ParamList, name: string, field: string): ParamList
  {
    if field != "" then SetParam(l, name, field) else Deleted(l, name)
  }

  /** The values a parameter holds once its field has been applied. */
  function Expected(field: string): seq<string>
  {
    if field != "" then [field] else []
  }

  /** The query `handleSearch` builds from the current one. */
  function SearchQuery(l: ParamList, q: string, courseId: string, month: string, status: string, result: string): ParamList
  {
    Apply(Apply(Apply(Apply(Apply(l, "q", q), "course_id", courseId), "month", month), "status", status), "result", result)
  }

  /** Applying a field settles its parameter and leaves every other parameter alone;
      applying it to a parameter that is already settled changes nothing. */
  lemma ApplyValues(l: ParamList, name: string, field: string, other: string)
    ensures Values(Apply(l, name, field), name) == Expected(field)
    ensures other != name ==> Values(Apply(l, name, field), other) == Values(l, other)
    ensures Values(l, name) == Expected(field) ==> Apply(l, name, field) == l
  {
    SetValues(l, name, field, other);
    DeletedValues(l, name, other);
    if Values(l, name) == Expected(field) {
      if field == "" {
        DeletedAbsent(l, name);
      } else {
        SetSettled(l, name, field);
      }
    }
  }

  /** The values of one parameter after a search. */
  lemma SearchQueryValue(l: ParamList, q: string, courseId: string, month: string, status: string, result: string,
                         name: string)
    ensures Values(SearchQuery(l, q, courseId, month, status, result), name) ==
              if name == "result" then Expected(result)
              else if name == "status" then Expected(status)
              else if name == "month" then Expected(month)
              else if name == "course_id" then Expected(courseId)
              else if name == "q" then Expected(q)
              else Values(l, name)
  {
    var l1 := Apply(l, "q", q);
    var l2 := Apply(l1, "course_id", courseId);
    var l3 := Apply(l2, "month", month);
    var l4 := Apply(l3, "status", status);
    ApplyValues(l, "q", q, name);
    ApplyValues(l1, "course_id", courseId, name);
    ApplyValues(l2, "month", month, name);
    ApplyValues(l3, "status", status, name);
    ApplyValues(l4, "result", result, name);
  }

  /** After a search each of the five parameters holds exactly its field's value (none
      when the field is empty), and every other parameter, `tab` among them, keeps its
      values. */
  lemma SearchQueryValues(l: ParamList, q: string, courseId: string, month: string, status: string, result: string,
                          name: string)
    ensures var r := SearchQuery(l, q, courseId, month, status, result);
            Values(r, "q") == Expected(q) && Values(r, "course_id") == Expected(courseId) &&
            Values(r, "month") == Expected(month) && Values(r, "status") == Expected(status) &&
            Values(r, "result") == Expected(result) &&
            (name !in {"q", "course_id", "month", "status", "result"} ==> Values(r, name) == Values(l, name))
  {
    SearchQueryValue(l, q, courseId, month, status, result, "q");
    SearchQueryValue(l, q, courseId, month, status, result, "course_id");
    SearchQueryValue(l, q, courseId, month, status, result, "month");
    SearchQueryValue(l, q, courseId, month, status, result, "status");
    SearchQueryValue(l, q, courseId, month, status, result, "result");
    SearchQueryValue(l, q, courseId, month, status, result, name);
  }

  /** Searching again with unchanged fields gives the same query. */
  lemma SearchIdempotent(l: ParamList, q: string, courseId: string, month: string, status: string, result: string)
    ensures var r := SearchQuery(l, q, courseId, month, status, result);
            SearchQuery(r, q, courseId, month, status, result) == r
  {
    var r := SearchQuery(l, q, courseId, month, status, result);
    SearchQueryValues(l, q, courseId, month, status, result, "q");
    ApplyValues(r, "q", q, "q");
    ApplyValues(r, "course_id", courseId, "q");
    ApplyValues(r, "month", month, "q");
    ApplyValues(r, "status", status, "q");
    ApplyValues(r, "result", result, "q");
  }

  /** The component's state: the five fields and the query it was rendered with. */
  class SearchFilter {
    var q: string
    var courseId: string
    var month: string
    var status: string
    var result: string
    const current: ParamList

    /** Each field starts from its query parameter, or "" when it is absent. */
    constructor (current: ParamList)
      ensures this.current == current
      ensures q == OrElse(GetParam(current, "q"), "") && courseId == OrElse(GetParam(current, "course_id"), "")
      ensures month == OrElse(GetParam(current, "month"), "") && status == OrElse(GetParam(current, "status"), "")
      ensures result == OrElse(GetParam(current, "result"), "")
    {
      this.current := current;
      q := OrElse(GetParam(current, "q"), "");
      courseId := OrElse(GetParam(current, "course_id"), "");
      month := OrElse(GetParam(current, "month"), "");
      status := OrElse(GetParam(current, "status"), "");
      result := OrElse(GetParam(current, "result"), "");
    }

    /** `handleSearch`: copy the current query, set or delete each filter parameter,
        and navigate to the dashboard with the serialised query (`encode` is the
        percent-encoding of the form serialiser). */
    method HandleSearch(encode: string -> string) returns (url: string, params: ParamList)
      ensures params == SearchQuery(current, q, courseId, month, status, result)
      ensures url == "/admin/dashboard?" + Serialize(params, encode)
    {
      var p := new SearchParams(current);
      if q != "" { p.Set("q", q); } else { p.Delete("q"); }
      if courseId != "" { p.Set("course_id", courseId); } else { p.Delete("course_id"); }
      if month != "" { p.Set("month", month); } else { p.Delete("month"); }
      if status != "" { p.Set("status", status); } else { p.Delete("status"); }
      if result != "" { p.Set("result", result); } else { p.Delete("result"); }
      params := p.list;
      url := "/admin/dashboard?" + Serialize(params, encode);
    }

    /** `handleReset`: navigate to the current tab (by default "students"), written
        into the URL without encoding, and clear the five fields. */
    method HandleReset() returns (url: string)
      modifies this
      ensures url == "/admin/dashboard?tab=" + OrElse(GetParam(current, "tab"), "students")
      ensures q == "" && courseId == "" && month == "" && status == "" && result == ""
    {
      var tab := OrElse(GetParam(current, "tab"), "students");
      url := "/admin/dashboard?tab=" + tab;
      q := "";
      courseId := "";
      month := "";
      status := "";
      result := "";
    }
  }
}
