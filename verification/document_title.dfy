/**
 The browser tab title: the title registered for the current path, or the
 school's name.
 */
module DocumentTitle {

  const DefaultTitle := "Sonia Public Sr. Sec. School"

  /** The titles the application registers, by path. */
  const PageTitles: map<string, string> := map[
    "/" := "Sonia Public Sr. Sec. School",
    "/login" := "Login - Sonia Public Sr. Sec. School",
    "/preboard-form" := "Preboard 2025-26 - Sonia Public Sr. Sec. School",
    "/admin/dashboard" := "Dashboard - Sonia Public Sr. Sec. School",
    "/admin/students" := "Students - Sonia Public Sr. Sec. School"
  ]

  /** The title for `path`: its registered title, unless that is missing or
      empty (`||` treats both alike), in which case the default. */
  function Title(titles: map<string, string>, path: string): (t: string)
    ensures path in titles && titles[path] != "" ==> t == titles[path]
    ensures path !in titles ==> t == DefaultTitle
    ensures path in titles && titles[path] == "" ==> t == DefaultTitle
    ensures t != ""
  {
    if path in titles && titles[path] != "" then titles[path] else DefaultTitle
  }

  /** Every title is either registered for the path or the default. */
  lemma TitleIsRegisteredOrDefault(titles: map<string, string>, path: string)
    ensures Title(titles, path) == DefaultTitle || (path in titles && Title(titles, path) == titles[path])
  {
  }

  /** With the application's table, each registered path gets its own
      title, and any other path (an unknown route, say) gets the default. */
  lemma ApplicationTitles(path: string)
    ensures path in PageTitles ==> Title(PageTitles, path) == PageTitles[path]
    ensures path !in PageTitles ==> Title(PageTitles, path) == DefaultTitle
    ensures Title(PageTitles, "/admin/students") == "Students - Sonia Public Sr. Sec. School"
  {
  }
}
