/** The root page `Home` of src/app/page.tsx: it never renders, it only redirects by role. */
module HomePage {
  import opened Js

  /** The redirect target of `Home`. `role` is the profile's `role_id` (None when
      the profile or the column is missing). */
  function Home(signedIn: bool, role: Option<string>): (target: string)
    ensures target in {"/login", "/admin/dashboard", "/student/dashboard"}
    ensures target == "/login" <==> !signedIn
    ensures target == "/admin/dashboard" <==> signedIn && role == Some("admin")
    ensures target == "/student/dashboard" <==> signedIn && role != Some("admin")
  {
    if !signedIn then "/login"
    else if role == Some("admin") then "/admin/dashboard"
    else "/student/dashboard"
  }
}
