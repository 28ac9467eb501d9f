/** src/components/ConditionalLayout.tsx: which pages are rendered bare and which get the site's
    Navbar and Footer around them. */
module Layout {
  import opened Text

  /** The routes that are rendered without the site chrome, matched exactly. */
  const AuthRoutes: seq<string> := ["/auth/signup", "/auth/signin", "/auth/forgot-password", "/auth/reset-password"]

  /** The prefix of every dashboard route. */
  const DashboardPrefix := "/dashboard"

  /** The two ways a page can be laid out. */
  datatype Chrome = Bare | WithNavbarAndFooter

  /** The layout of a path: bare for an auth route or anything under the dashboard prefix, the site
      chrome for every other path. */
  function LayoutFor(pathname: string): (c: Chrome)
    ensures c == Bare <==> pathname in AuthRoutes || StartsWith(pathname, DashboardPrefix)
  {
    if pathname in AuthRoutes || StartsWith(pathname, DashboardPrefix) then Bare else WithNavbarAndFooter
  }

  /** Every route under the dashboard is bare. */
  lemma DashboardSubtreeIsBare(rest: string)
    ensures LayoutFor(DashboardPrefix + rest) == Bare
  {
    assert (DashboardPrefix + rest)[..|DashboardPrefix|] == DashboardPrefix;
  }

  /** The sign-in page and a dashboard page are bare; the home page has the chrome. */
  lemma LayoutExamples()
    ensures LayoutFor("/auth/signin") == Bare
    ensures LayoutFor("/dashboard/junior") == Bare
    ensures LayoutFor("/") == WithNavbarAndFooter
  {
    DashboardSubtreeIsBare("/junior");
    assert "/dashboard" + "/junior" == "/dashboard/junior";
  }

  /** Auth matching is exact: a trailing slash or an auth route not in the list gets the chrome. */
  lemma AuthMatchIsExact()
    ensures LayoutFor("/auth/signin/") == WithNavbarAndFooter
    ensures LayoutFor("/auth/verify-email") == WithNavbarAndFooter
  {
    assert "/auth/signin/"[..10] != DashboardPrefix by { assert "/auth/signin/"[1] == 'a'; }
    assert "/auth/verify-email"[..10] != DashboardPrefix by { assert "/auth/verify-email"[1] == 'a'; }
  }

  /** The dashboard test is a prefix test on characters, not on path segments, so a path that merely
      begins with the same letters is bare too. */
  lemma DashboardPrefixIsTextual()
    ensures LayoutFor("/dashboardx") == Bare
  {
    DashboardSubtreeIsBare("x");
    assert DashboardPrefix + "x" == "/dashboardx";
  }
}
