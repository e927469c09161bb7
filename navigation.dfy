/** How a browser request is answered when the middleware of
    src/utils/supabase/middleware.ts and the page gates of src/app/page.tsx,
    src/app/admin/dashboard/page.tsx and src/app/student/dashboard/page.tsx are put
    together, and where following the redirects leads. */
module Navigation {
  import Js
  import opened QueryParams
  import Middleware
  import HomePage
  import AdminDashboard
  import StudentDashboard

  /** The answer to one request: a page is rendered, or the browser is redirected. */
  datatype Response = Render(path: string) | Redirect(path: string)

  /** One request for `path` by a visitor with the given session and role: the
      middleware decides first, then the page's own gate. Paths without a gate of
      their own render. */
  function Serve(signedIn: bool, role: Js.Option<string>, path: string): (r: Response)
    ensures r.Render? ==> r.path == path
  {
    var d := Middleware.UpdateSession(signedIn, role, Url("", path, []));
    if d.RedirectTo? then Redirect(d.url.pathname)
    else if path == "/" then Redirect(HomePage.Home(signedIn, role))
    else if path == "/admin/dashboard" then
      (match AdminDashboard.Gate(signedIn, role)
       case Some(target) => Redirect(target)
       case None => Render(path))
    else if path == "/student/dashboard" then
      (match StudentDashboard.Gate(signedIn)
       case Some(target) => Redirect(target)
       case None => Render(path))
    else Render(path)
  }

  /** The answer seen after following at most `n` redirects from `path`. */
  function Visit(signedIn: bool, role: Js.Option<string>, path: string, n: nat): Response
    decreases n
  {
    match Serve(signedIn, role, path)
    case Render(p) => Render(p)
    case Redirect(p) => if n == 0 then Redirect(p) else Visit(signedIn, role, p, n - 1)
  }

  /** A signed-in user whose role is neither admin nor student (or who has no
      profile) is bounced between "/" and /student/dashboard forever: the root page
      sends every non-admin to the student dashboard, and the middleware sends every
      non-student, non-admin away from it back to "/". No page is ever rendered. */
  lemma {:induction false} RedirectLoop(role: Js.Option<string>, n: nat)
    requires role != Js.Some("admin") && role != Js.Some("student")
    ensures Visit(true, role, "/", n) == Redirect(if n % 2 == 0 then "/student/dashboard" else "/")
    ensures Visit(true, role, "/student/dashboard", n) == Redirect(if n % 2 == 0 then "/" else "/student/dashboard")
  {
    assert Serve(true, role, "/") == Redirect("/student/dashboard");
    assert Js.StartsWith("/student/dashboard", "/student");
    assert !Js.StartsWith("/student/dashboard", "/admin") by { assert "/student/dashboard"[1] != "/admin"[1]; }
    assert Serve(true, role, "/student/dashboard") == Redirect("/");
    if n > 0 {
      RedirectLoop(role, n - 1);
    }
  }

  /** The loop never settles on a page, however many redirects are followed. */
  lemma NeverRendered(role: Js.Option<string>, n: nat)
    requires role != Js.Some("admin") && role != Js.Some("student")
    ensures Visit(true, role, "/", n).Redirect?
  {
    RedirectLoop(role, n);
  }

  /** An admin arriving at "/" sees the admin dashboard after one redirect, a
      student sees the student dashboard, and a visitor without a session sees the
      login page. */
  lemma EntryPoints()
    ensures Visit(true, Js.Some("admin"), "/", 1) == Render("/admin/dashboard")
    ensures Visit(true, Js.Some("student"), "/", 1) == Render("/student/dashboard")
    ensures Visit(false, Js.None, "/", 1) == Render("/login")
  {
    assert Js.StartsWith("/admin/dashboard", "/admin");
    assert Js.StartsWith("/student/dashboard", "/student");
    assert !Js.StartsWith("/student/dashboard", "/admin") by { assert "/student/dashboard"[1] != "/admin"[1]; }
    assert Js.StartsWith("/login", "/login");
    assert Serve(true, Js.Some("admin"), "/") == Redirect("/admin/dashboard");
    assert Serve(true, Js.Some("admin"), "/admin/dashboard") == Render("/admin/dashboard");
    assert Serve(true, Js.Some("student"), "/") == Redirect("/student/dashboard");
    assert Serve(true, Js.Some("student"), "/student/dashboard") == Render("/student/dashboard");
    assert Serve(false, Js.None, "/") == Redirect("/login");
    assert Serve(false, Js.None, "/login") == Render("/login");
  }

  /** An admin may open the student dashboard; a student is kept out of the admin
      dashboard. */
  lemma CrossAccess()
    ensures Serve(true, Js.Some("admin"), "/student/dashboard") == Render("/student/dashboard")
    ensures Serve(true, Js.Some("student"), "/admin/dashboard") == Redirect("/")
  {
    assert Js.StartsWith("/student/dashboard", "/student");
    assert !Js.StartsWith("/student/dashboard", "/admin") by { assert "/student/dashboard"[1] != "/admin"[1]; }
    assert !Js.StartsWith("/student/dashboard", "/login");
    assert Js.StartsWith("/admin/dashboard", "/admin");
  }
}
