/** The home page (src/app/page.tsx): the dashboard for a signed-in user, the login page otherwise. */
module HomePage {
  import opened Wrappers
  import opened UserProfile

  datatype PageOutcome = RedirectTo(path: string) | RenderDashboard(initialUser: DashboardUser)

  /** The page for the user the auth service reports (`None` when nobody is signed in). */
  function Page(authUser: Option<AuthUser>): (r: PageOutcome)
    ensures r.RedirectTo? <==> authUser.None?
    ensures r.RedirectTo? ==> r.path == "/login"
    ensures r.RenderDashboard? ==> r.initialUser == DisplayUser(authUser.value)
    ensures r.RenderDashboard? ==> r.initialUser.email == authUser.value.email
  {
    if authUser.None? then RedirectTo("/login")
    else RenderDashboard(DisplayUser(authUser.value))
  }
}
