/** The e-mail confirmation endpoint of src/app/auth/confirm/route.ts: it checks a
    one-time token and sends the browser on, to `next` or to the login page. */
module ConfirmRoute {
  import opened Js
  import opened QueryParams

  /** The provider's verdict on a token hash and type. */
  datatype VerifyResult = Verified | VerifyFailed

  /** The query of the request without the three parameters the endpoint consumes. */
  function Stripped(q: ParamList): ParamList
  {
    Deleted(Deleted(Deleted(q, "token_hash"), "type"), "next")
  }

  /** Stripping removes `token_hash`, `type` and `next` and keeps the values of
      every other parameter, in order. */
  lemma StrippedValues(q: ParamList, name: string)
    ensures name in {"token_hash", "type", "next"} ==> Values(Stripped(q), name) == []
    ensures name !in {"token_hash", "type", "next"} ==> Values(Stripped(q), name) == Values(q, name)
  {
    var a := Deleted(q, "token_hash");
    var b := Deleted(a, "type");
    DeletedValues(q, "token_hash", name);
    DeletedValues(a, "type", name);
    DeletedValues(b, "next", name);
    DeletedValues(q, "token_hash", "type");
    DeletedValues(a, "type", "next");
    DeletedValues(q, "token_hash", "next");
  }

  /** Where `GET` sends the browser: on a verified token to `next` (by default
      "/"), otherwise to /login with an `error` parameter; the query is the request's
      without the consumed parameters. */
  function Redirection(request: Url, verify: (string, string) -> VerifyResult): Url
  {
    var token := GetParam(request.query, "token_hash");
    var kind := GetParam(request.query, "type");
    if OrElse(token, "") != "" && OrElse(kind, "") != "" then
      if verify(token.value, kind.value) == Verified
      then Url(request.origin, OrElse(GetParam(request.query, "next"), "/"), Stripped(request.query))
      else Url(request.origin, "/login", SetParam(Stripped(request.query), "error", "invalid-token"))
    else Url(request.origin, "/login", SetParam(Stripped(request.query), "error", "missing-token"))
  }

  /** `GET`, which clones the request URL and edits the clone step by step. `verify`
      stands for `verifyOtp`; `verifiedWith` is the token hash and type it was called
      with, None when it was not called. The type is handed over as it came, without
      a check against the five kinds the provider knows. */
  method Get(request: Url, verify: (string, string) -> VerifyResult)
    returns (target: Url, verifiedWith: Option<(string, string)>)
    ensures target == Redirection(request, verify)
    ensures var token := GetParam(request.query, "token_hash");
            var kind := GetParam(request.query, "type");
            verifiedWith == if OrElse(token, "") != "" && OrElse(kind, "") != "" then Some((token.value, kind.value)) else None
  {
    var token := GetParam(request.query, "token_hash");
    var kind := GetParam(request.query, "type");
    var next := OrElse(GetParam(request.query, "next"), "/");

    var pathname := next;
    var params := new SearchParams(request.query);
    params.Delete("token_hash");
    params.Delete("type");
    params.Delete("next");

    if OrElse(token, "") != "" && OrElse(kind, "") != "" {
      verifiedWith := Some((token.value, kind.value));
      if verify(token.value, kind.value) == Verified {
        return Url(request.origin, pathname, params.list), verifiedWith;
      }
      pathname := "/login";
      params.Set("error", "invalid-token");
      return Url(request.origin, pathname, params.list), verifiedWith;
    }

    verifiedWith := None;
    pathname := "/login";
    params.Set("error", "missing-token");
    target := Url(request.origin, pathname, params.list);
  }

  /** The target in terms of the request: any pathname other than /login is `next`
      (by default "/") and is reached only through a verified token; a missing token
      gives exactly one `error=missing-token`; every parameter other than the three
      consumed ones and `error` keeps its values, in order. */
  lemma ConfirmTarget(request: Url, verify: (string, string) -> VerifyResult, name: string)
    ensures var target := Redirection(request, verify);
            var token := GetParam(request.query, "token_hash");
            var kind := GetParam(request.query, "type");
            (target.pathname != "/login" ==>
               target.pathname == OrElse(GetParam(request.query, "next"), "/") &&
               OrElse(token, "") != "" && OrElse(kind, "") != "" && verify(token.value, kind.value) == Verified) &&
            (OrElse(token, "") == "" || OrElse(kind, "") == "" ==>
               target.pathname == "/login" && Values(target.query, "error") == ["missing-token"]) &&
            (OrElse(token, "") != "" && OrElse(kind, "") != "" && verify(token.value, kind.value) == VerifyFailed ==>
               target.pathname == "/login" && Values(target.query, "error") == ["invalid-token"]) &&
            (name !in {"token_hash", "type", "next", "error"} ==> Values(target.query, name) == Values(request.query, name)) &&
            (name in {"token_hash", "type", "next"} ==> Values(target.query, name) == [])
  {
    var s := Stripped(request.query);
    StrippedValues(request.query, name);
    SetValues(s, "error", "invalid-token", name);
    SetValues(s, "error", "missing-token", name);
  }
}
