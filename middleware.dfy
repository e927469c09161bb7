/** The role-based redirect decision of `updateSession` in
    src/utils/supabase/middleware.ts, run on every request. The session refresh and
    its cookie copying are not part of it. */
module Middleware {
  import opened Js
  import opened QueryParams

  /** What the middleware answers: let the request through, or redirect to a clone
      of the request URL. */
  datatype Decision = Next | RedirectTo(url: Url)

  /** Paths a visitor without a session may open. */
  predicate PublicPath(path: string)
  {
    StartsWith(path, "/login") || StartsWith(path, "/auth") || StartsWith(path, "/manual_demo")
  }

  /** A clone of the request URL with only the pathname replaced. */
  function WithPath(url: Url, path: string): (r: Url)
    ensures r.pathname == path && r.(pathname := url.pathname) == url
  {
    url.(pathname := path)
  }

  /** `updateSession`'s decision. `signedIn` is whether `getUser` found a user, and
      `role` the `role_id` of the user's profile (None when the profile or the column
      is missing); the three profile reads are taken to return the same role. */
  function UpdateSession(signedIn: bool, role: Option<string>, url: Url): (d: Decision)
    ensures d.RedirectTo? ==> d.url == WithPath(url, d.url.pathname) &&
                              d.url.pathname in {"/login", "/admin/dashboard", "/student/dashboard", "/"}
  {
    var path := url.pathname;
    if !signedIn && !PublicPath(path) then RedirectTo(WithPath(url, "/login"))
    else if !signedIn then Next
    else if (path == "/" || StartsWith(path, "/login")) && role == Some("admin") then
      RedirectTo(WithPath(url, "/admin/dashboard"))
    else if (path == "/" || StartsWith(path, "/login")) && role == Some("student") then
      RedirectTo(WithPath(url, "/student/dashboard"))
    else if StartsWith(path, "/admin") && role != Some("admin") then RedirectTo(WithPath(url, "/"))
    else if StartsWith(path, "/student") && role != Some("student") && role != Some("admin") then
      RedirectTo(WithPath(url, "/"))
    else Next
  }

  /** Without a session, every path but the public ones is sent to /login, and the
      public ones pass. */
  lemma SignedOut(url: Url)
    ensures !PublicPath(url.pathname) ==> UpdateSession(false, None, url) == RedirectTo(WithPath(url, "/login"))
    ensures PublicPath(url.pathname) ==> UpdateSession(false, None, url) == Next
    ensures forall role :: UpdateSession(false, role, url) == UpdateSession(false, None, url)
  {
  }

  /** A signed-in user on "/" or a /login path is sent to the dashboard of the role
      when it is admin or student; with any other or no role that block does not
      redirect, and the request passes. */
  lemma SignedInEntry(role: Option<string>, url: Url)
    requires url.pathname == "/" || StartsWith(url.pathname, "/login")
    ensures role == Some("admin") ==> UpdateSession(true, role, url) == RedirectTo(WithPath(url, "/admin/dashboard"))
    ensures role == Some("student") ==> UpdateSession(true, role, url) == RedirectTo(WithPath(url, "/student/dashboard"))
    ensures role != Some("admin") && role != Some("student") ==> UpdateSession(true, role, url) == Next
  {
    if StartsWith(url.pathname, "/login") {
      assert url.pathname[1] == 'l';
      assert !StartsWith(url.pathname, "/admin") by { assert "/admin"[1] == 'a'; }
      assert !StartsWith(url.pathname, "/student") by { assert "/student"[1] == 's'; }
    }
  }

  /** Only admins pass an /admin path and only students and admins a /student path;
      everyone else is sent to "/". The test is a plain prefix test. */
  lemma ProtectedPaths(role: Option<string>, url: Url)
    requires url.pathname != "/" && !StartsWith(url.pathname, "/login")
    ensures StartsWith(url.pathname, "/admin") ==>
              (UpdateSession(true, role, url) == Next <==> role == Some("admin")) &&
              (role != Some("admin") ==> UpdateSession(true, role, url) == RedirectTo(WithPath(url, "/")))
    ensures StartsWith(url.pathname, "/student") ==>
              (UpdateSession(true, role, url) == Next <==> role in {Some("student"), Some("admin")}) &&
              (role !in {Some("student"), Some("admin")} ==> UpdateSession(true, role, url) == RedirectTo(WithPath(url, "/")))
    ensures !StartsWith(url.pathname, "/admin") && !StartsWith(url.pathname, "/student") ==>
              UpdateSession(true, role, url) == Next
  {
    if StartsWith(url.pathname, "/student") {
      assert !StartsWith(url.pathname, "/admin") by { assert "/admin"[1] != "/student"[1]; }
    }
  }

  /** "/administrator" is treated as an admin path. */
  lemma PrefixNotSegment(url: Url)
    requires url.pathname == "/administrator"
    ensures UpdateSession(true, Some("student"), url) == RedirectTo(WithPath(url, "/"))
    ensures UpdateSession(true, Some("admin"), url) == Next
  {
    assert StartsWith(url.pathname, "/admin");
    assert !StartsWith(url.pathname, "/login") by { assert url.pathname[1] == 'a'; }
  }
}
