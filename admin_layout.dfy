/** The admin layout: the navigation entries, which one is highlighted,
    the header title taken from the path, and the login redirect. The
    path and the session are inputs. */
module AdminLayout {

  import opened Wrappers
  import Strings

  datatype NavItem = NavItem(name: string, href: string)

  const Navigation: seq<NavItem> := [
    NavItem("Orders", "/admin/orders"),
    NavItem("Products", "/admin/products"),
    NavItem("Categories", "/admin/categories"),
    NavItem("Analytics", "/admin/analytics"),
    NavItem("Settings", "/admin/settings")
  ]

  const LoginPath := "/admin/login"

  /** `pathname === item.href`; a missing path matches nothing. */
  predicate IsActive(pathname: Option<string>, item: NavItem) {
    pathname == Some(item.href)
  }

  /** No two navigation entries share an href. */
  lemma NavHrefsDistinct()
    ensures forall i, j :: 0 <= i < j < |Navigation| ==> Navigation[i].href != Navigation[j].href
  {
    forall i, j | 0 <= i < j < |Navigation|
      ensures Navigation[i].href != Navigation[j].href
    {
      assert Navigation[i].href[7] != Navigation[j].href[7] || |Navigation[i].href| != |Navigation[j].href|;
    }
  }

  /** At most one entry is highlighted for any path, and a path below an
      entry's href, such as one order's page, highlights none. */
  lemma AtMostOneActive(pathname: Option<string>, below: string)
    ensures forall i, j ::
      (0 <= i < |Navigation| && 0 <= j < |Navigation|
       && IsActive(pathname, Navigation[i]) && IsActive(pathname, Navigation[j])) ==> i == j
    ensures forall i, j :: 0 <= i < |Navigation| && 0 <= j < |Navigation| ==>
      !IsActive(Some(Navigation[i].href + "/" + below), Navigation[j])
    ensures forall i :: 0 <= i < |Navigation| ==> !IsActive(None, Navigation[i])
  {
    NavHrefsDistinct();
    forall i, j | 0 <= i < |Navigation| && 0 <= j < |Navigation|
      ensures !IsActive(Some(Navigation[i].href + "/" + below), Navigation[j])
    {
      var p := Navigation[i].href + "/" + below;
      assert p[|Navigation[i].href|] == '/';
    }
  }

  /** `pathname?.split("/")[2] || "Dashboard"` */
  function HeaderTitle(pathname: Option<string>): string {
    if pathname.None? then "Dashboard"
    else
      var segments := Strings.Split(pathname.value, '/');
      if |segments| > 2 && segments[2] != "" then segments[2] else "Dashboard"
  }

  /** Under `/admin/`, the title is the section the path names, whatever
      follows it, and "Dashboard" for the bare `/admin` paths. */
  lemma {:induction false} HeaderTitleOfSection(section: string, rest: string)
    requires '/' !in section
    requires rest == "" || rest[0] == '/'
    ensures HeaderTitle(Some("/admin/" + section + rest)) == if section == "" then "Dashboard" else section
  {
    var p := "/admin/" + section + rest;
    assert p == [] + ['/'] + ("admin" + ['/'] + (section + rest));
    Strings.SplitFirst([], '/', "admin" + ['/'] + (section + rest));
    Strings.SplitFirst("admin", '/', section + rest);
    if rest == "" {
      assert section + rest == section;
      Strings.SplitWhole(section, '/');
    } else {
      assert section + rest == section + ['/'] + rest[1..];
      Strings.SplitFirst(section, '/', rest[1..]);
    }
  }

  /** The bare admin path and a missing path show "Dashboard". */
  lemma {:induction false} HeaderTitleDefault()
    ensures HeaderTitle(Some("/admin")) == "Dashboard"
    ensures HeaderTitle(None) == "Dashboard"
  {
    assert "/admin" == [] + ['/'] + "admin";
    Strings.SplitFirst([], '/', "admin");
    Strings.SplitWhole("admin", '/');
  }

  /** What the layout renders. */
  datatype View = Loading | Nothing | Children

  /** The layout as written: it does not look at the path. */
  function LayoutView(isPending: bool, hasUser: bool): View {
    if isPending then Loading else if !hasUser then Nothing else Children
  }

  /** The redirect effect. */
  function LayoutRedirect(isPending: bool, hasUser: bool): Option<string> {
    if !isPending && !hasUser then Some(LoginPath) else None
  }

  /** The layout redirects exactly when it renders nothing. */
  lemma RedirectRule(isPending: bool, hasUser: bool)
    ensures LayoutRedirect(isPending, hasUser).Some? <==> LayoutView(isPending, hasUser) == Nothing
    ensures LayoutRedirect(isPending, hasUser).Some? ==> LayoutRedirect(isPending, hasUser).value == "/admin/login"
  {
  }

  /** The login page sits under this layout, so a signed-out visitor of
      `/admin/login`, the one page meant for them, gets nothing rendered
      and a redirect to the page already shown. */
  lemma LoginPageHidden()
    ensures LayoutView(false, false) == Nothing
    ensures LayoutRedirect(false, false) == Some(LoginPath)
  {
  }

  /** The layout with the login page left out of the guard. */
  function LayoutViewFor(pathname: string, isPending: bool, hasUser: bool): View {
    if pathname == LoginPath then Children else LayoutView(isPending, hasUser)
  }

  function LayoutRedirectFor(pathname: string, isPending: bool, hasUser: bool): Option<string> {
    if pathname == LoginPath then None else LayoutRedirect(isPending, hasUser)
  }

  /** With the exemption the login form is shown and never redirected
      from, a redirect never targets the page it leaves, and every other
      page behaves as before. */
  lemma LayoutForSpec(pathname: string, isPending: bool, hasUser: bool)
    ensures LayoutViewFor(LoginPath, isPending, hasUser) == Children
    ensures LayoutRedirectFor(pathname, isPending, hasUser).Some? ==>
              LayoutRedirectFor(pathname, isPending, hasUser).value != pathname
    ensures pathname != LoginPath ==>
              LayoutViewFor(pathname, isPending, hasUser) == LayoutView(isPending, hasUser)
              && LayoutRedirectFor(pathname, isPending, hasUser) == LayoutRedirect(isPending, hasUser)
  {
  }
}
