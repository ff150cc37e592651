/** The login session and the tenant-scoping helpers of routes.py: which project
    site's rows a session may see or change. */
module Scope {
  import opened Wrappers
  import opened Utils

  /** The keys of the Flask session. `None` stands for a key that is absent; no
      route ever stores Python's `None` under a key it later tells apart from
      an absent one, except `project_site`, where `.get` treats both alike. */
  datatype SessionView = SessionView(
    userId: Option<int>,
    userRole: Option<string>,
    userName: Option<string>,
    isGlobalAdmin: Option<bool>,
    projectSite: Option<string>,
    assignedProjectSite: Option<string>,
    sessionToken: Option<string>
  )

  /** The session after `session.clear()`. */
  const Cleared := SessionView(None, None, None, None, None, None, None)

  /** `session.get('is_global_admin')` is truthy. */
  predicate IsGlobal(v: SessionView) {
    v.isGlobalAdmin == Some(true)
  }

  /** `is_admin`: the role is 'admin' or 'project_site_admin'. */
  predicate IsAdmin(v: SessionView) {
    v.userRole == Some("admin") || v.userRole == Some("project_site_admin")
  }

  /** Python's `a or b` on optional strings. */
  function Or(a: Option<string>, b: Option<string>): Option<string> {
    if Truthy(a) then a else b
  }

  /** `get_user_project_site`: a global administrator's selected site (None for
      all sites); anyone else's assigned site, falling back to `project_site`. */
  function UserProjectSite(v: SessionView): Option<string> {
    if IsGlobal(v) then v.projectSite else Or(v.assignedProjectSite, v.projectSite)
  }

  /** `get_assigned_project_site`: None for a global administrator. */
  function AssignedProjectSite(v: SessionView): (r: Option<string>)
    ensures IsGlobal(v) ==> r == None
    ensures !IsGlobal(v) ==> r == UserProjectSite(v)
  {
    if IsGlobal(v) then None else Or(v.assignedProjectSite, v.projectSite)
  }

  /** `filter_by_project_site`, as a test on a row's `project_site` column. A
      session that is not global sees its assigned site only; one without an
      assigned site filters on `project_site == None`, which SQL turns into
      `IS NULL`, so it sees the rows that belong to no site. A global
      administrator sees the selected site, or everything when none is selected. */
  predicate InScope(v: SessionView, site: Option<string>) {
    if !IsGlobal(v) then
      var mine := AssignedProjectSite(v);
      if Truthy(mine) then site == mine else site == None
    else if Truthy(v.projectSite) then site == v.projectSite
    else true
  }

  /** Tenant isolation: a session that is not global and has an assigned site sees
      exactly that site's rows, whatever it selected in `project_site`. */
  lemma SiteAdminSeesOnlyAssigned(v: SessionView, site: Option<string>)
    requires !IsGlobal(v) && Truthy(v.assignedProjectSite)
    ensures InScope(v, site) <==> site == v.assignedProjectSite
    ensures UserProjectSite(v) == v.assignedProjectSite
  {
  }

  /** The fallback branch: no assigned site means exactly the rows of no site. */
  lemma NoAssignedSiteSeesNullRows(v: SessionView, site: Option<string>)
    requires !IsGlobal(v) && !Truthy(AssignedProjectSite(v))
    ensures InScope(v, site) <==> site == None
  {
  }

  /** A global administrator sees the selected site's rows, or all rows when no
      site is selected. */
  lemma GlobalSeesSelection(v: SessionView, site: Option<string>)
    requires IsGlobal(v)
    ensures Truthy(v.projectSite) ==> (InScope(v, site) <==> site == v.projectSite)
    ensures !Truthy(v.projectSite) ==> InScope(v, site)
  {
  }

  /** Whenever the session has a truthy scope site, the rows in scope are exactly
      that site's rows. */
  lemma ScopeIsUserSite(v: SessionView, site: Option<string>)
    requires Truthy(UserProjectSite(v))
    ensures InScope(v, site) <==> site == UserProjectSite(v)
  {
  }
}
