/** Signing in and out (app.py: `login`, `logout`, `session_info`) and the
    global administrator's site switch (routes.py: `switch_project_site`).
    Password checking is the parameter `matches`, the `uuid4` session token the
    parameter `token`, and the clock the parameter `now`. */
module Auth {
  import opened Wrappers
  import opened Models
  import opened Strings
  import opened Tables
  import opened Scope
  import State
  import Admin

  // ---------------------------------------------------------------- login

  /** What the access log keeps of a code: its first four characters and four
      stars. */
  function Mask(code: string): (r: string)
    ensures 4 <= |r| <= 8 && r[|r| - 4..] == "****"
    ensures |code| < 4 ==> r == code + "****"
    ensures |code| >= 4 ==> r[..4] == code[..4] && |r| == 8
  {
    code[..if |code| < 4 then |code| else 4] + "****"
  }

  /** The code of the site with this name exists and accepts the typed code. */
  predicate Opens(db: Db, name: string, code: string, matches: (Hash, string) -> bool) {
    var c := CodeFor(db, ProjectSiteCode, Some(name));
    c.Some? && matches(db.codes[c.value].codeHash, code)
  }

  /** The first site, in id order, whose code accepts the typed code. */
  function SiteLogin(db: Db, code: string, matches: (Hash, string) -> bool): (r: Option<int>)
    ensures r.Some? ==> r.value in db.sites && Opens(db, db.sites[r.value].name, code, matches)
    ensures KeysBelow(db.sites, db.nextSite) ==>
              (r.None? <==> forall k :: k in db.sites ==> !Opens(db, db.sites[k].name, code, matches))
    ensures KeysBelow(db.sites, db.nextSite) && r.Some? ==>
              forall k :: k in db.sites && k < r.value ==> !Opens(db, db.sites[k].name, code, matches)
  {
    First(db.sites, (s: ProjectSite) => Opens(db, s.name, code, matches), db.nextSite)
  }

  /** The session a global-code login writes into a cleared session. */
  function GlobalSession(codeId: int, token: string): SessionView {
    SessionView(Some(codeId), Some("admin"), Some("Global Administrator"), Some(true), None, None, Some(token))
  }

  /** The session a site-code login writes into a cleared session. */
  function SiteSession(codeId: int, name: string, token: string): SessionView {
    SessionView(Some(codeId), Some("project_site_admin"), Some("Admin - " + name), Some(false), Some(name), Some(name), Some(token))
  }

  /** Whom a typed code signs in as. */
  datatype Resolution =
    | AsGlobal(codeId: int)
    | AsSite(codeId: int, name: string)
    | NoMatch

  /** The global code is tried first, then the first site whose code accepts. */
  function Resolve(db: Db, code: string, matches: (Hash, string) -> bool): (r: Resolution)
    ensures r.AsSite? ==> SiteLogin(db, code, matches).Some?
                          && r.name == db.sites[SiteLogin(db, code, matches).value].name
  {
    var g := CodeFor(db, GlobalAdminCode, None);
    if g.Some? && matches(db.codes[g.value].codeHash, code) then AsGlobal(g.value)
    else match SiteLogin(db, code, matches)
      case Some(k) => AsSite(CodeFor(db, ProjectSiteCode, Some(db.sites[k].name)).value, db.sites[k].name)
      case None => NoMatch
  }

  /** The session a successful login writes into a cleared session. */
  function Entered(r: Resolution, token: string): SessionView
    requires !r.NoMatch?
  {
    match r
    case AsGlobal(c) => GlobalSession(c, token)
    case AsSite(c, name) => SiteSession(c, name, token)
  }

  /** The access-log row of an attempt. */
  function Entry(r: Resolution, code: string, now: int): AccessLog {
    match r
    case AsGlobal(_) => AccessLog(Some("Global Administrator"), Some("admin"), Some(Mask(code)), Success, now)
    case AsSite(_, name) => AccessLog(Some("Admin - " + name), Some("admin"), Some(Mask(code)), Success, now)
    case NoMatch => AccessLog(Some("Unknown"), Some("unknown"), Some(Mask(code)), Failed, now)
  }

  /** What a login leaves behind: its outcome, the database and the session. */
  datatype Login = Login(outcome: Outcome, db: Db, session: SessionView)

  /** `login`: an empty code is refused with nothing written; otherwise the
      attempt is resolved and logged once, as a success or as a failure. */
  function LoginStep(db: Db, v: SessionView, accessCode: string, matches: (Hash, string) -> bool,
                     token: string, now: int): (l: Login)
    ensures l.db == db.(logs := l.db.logs)
    ensures l.outcome != Ok ==> l.session == v
    ensures l.outcome == Ok ==> IsAdmin(l.session) && l.session.userId.Some?
    ensures |l.db.logs| == |db.logs| + (if Blank(accessCode) then 0 else 1)
  {
    if Blank(accessCode) then Login(Invalid("access_code"), db, v)
    else
      var code := Strip(accessCode);
      var r := Resolve(db, code, matches);
      var logged := db.(logs := db.logs + [Entry(r, code, now)]);
      if r.NoMatch? then Login(Unauthenticated, logged, v)
      else Login(Ok, logged, Entered(r, token))
  }

  /** An empty code after stripping: refused, no log row, the session untouched. */
  lemma LoginEmptyCode(db: Db, v: SessionView, accessCode: string, matches: (Hash, string) -> bool, token: string, now: int)
    requires Strip(accessCode) == ""
    ensures LoginStep(db, v, accessCode, matches, token, now) == Login(Invalid("access_code"), db, v)
  {
    StripBlank(accessCode);
  }

  /** Every other attempt appends exactly one access-log row holding the masked
      code: a success when the login succeeds, else a failure by 'Unknown' in
      role 'unknown'. Nothing else in the database changes. */
  lemma LoginLogsOnce(db: Db, v: SessionView, accessCode: string, matches: (Hash, string) -> bool, token: string, now: int)
    requires Strip(accessCode) != ""
    ensures var l := LoginStep(db, v, accessCode, matches, token, now);
            && l.outcome in {Ok, Unauthenticated}
            && |l.db.logs| == |db.logs| + 1 && l.db.logs[..|db.logs|] == db.logs
            && l.db == db.(logs := l.db.logs)
            && var e := l.db.logs[|db.logs|];
               && e.accessCode == Some(Mask(Strip(accessCode))) && e.createdAt == now
               && (e.status == Success <==> l.outcome == Ok)
               && (l.outcome != Ok ==> e.user == Some("Unknown") && e.role == Some("unknown") && l.session == v)
  {
    StripBlank(accessCode);
  }

  /** The global code is tried before any site code: when it accepts, the
      session is the global administrator's with all sites selected. */
  lemma LoginGlobalFirst(db: Db, v: SessionView, accessCode: string, matches: (Hash, string) -> bool, token: string, now: int)
    requires Strip(accessCode) != ""
    requires var g := CodeFor(db, GlobalAdminCode, None);
             g.Some? && matches(db.codes[g.value].codeHash, Strip(accessCode))
    ensures var l := LoginStep(db, v, accessCode, matches, token, now);
            && l.outcome == Ok && IsGlobal(l.session) && IsAdmin(l.session)
            && l.session.userRole == Some("admin") && l.session.projectSite == None
            && UserProjectSite(l.session) == None
            && forall site :: InScope(l.session, site)
  {
    StripBlank(accessCode);
    var l := LoginStep(db, v, accessCode, matches, token, now);
    forall site
      ensures InScope(l.session, site)
    {
      GlobalSeesSelection(l.session, site);
    }
  }

  /** Otherwise the first site whose code accepts signs in as that site's
      administrator, pinned to it. */
  lemma LoginSite(db: Db, v: SessionView, accessCode: string, matches: (Hash, string) -> bool, token: string, now: int)
    requires Valid(db) && Strip(accessCode) != ""
    requires var g := CodeFor(db, GlobalAdminCode, None);
             !(g.Some? && matches(db.codes[g.value].codeHash, Strip(accessCode)))
    ensures var l := LoginStep(db, v, accessCode, matches, token, now);
            var k := SiteLogin(db, Strip(accessCode), matches);
            && (l.outcome == Ok <==> exists j :: j in db.sites && Opens(db, db.sites[j].name, Strip(accessCode), matches))
            && (l.outcome == Ok ==>
                  var name := db.sites[k.value].name;
                  && l.session.userRole == Some("project_site_admin") && !IsGlobal(l.session)
                  && l.session.projectSite == Some(name) && l.session.assignedProjectSite == Some(name)
                  && UserProjectSite(l.session) == Some(name)
                  && forall j :: j in db.sites && j < k.value ==> !Opens(db, db.sites[j].name, Strip(accessCode), matches))
  {
    StripBlank(accessCode);
  }

  /** A successful login rebuilds the session from nothing: what it was before
      does not matter. */
  lemma LoginClearsSession(db: Db, v1: SessionView, v2: SessionView, accessCode: string,
                           matches: (Hash, string) -> bool, token: string, now: int)
    requires LoginStep(db, v1, accessCode, matches, token, now).outcome == Ok
    ensures LoginStep(db, v2, accessCode, matches, token, now) == LoginStep(db, v1, accessCode, matches, token, now)
  {
  }

  /** After the global administrator sets a new global code, that code signs in
      as global administrator, provided hashing and checking agree. */
  lemma RotatedGlobalCodeSignsIn(db: Db, v: SessionView, newCode: string, hashOf: string -> Hash, now: int,
                                 w: SessionView, matches: (Hash, string) -> bool, token: string, later: int)
    requires Valid(db)
    requires forall x :: matches(hashOf(x), x)
    requires Admin.UpdateGlobalCodeStep(db, v, newCode, hashOf, now).outcome == Ok
    ensures var l := LoginStep(Admin.UpdateGlobalCodeStep(db, v, newCode, hashOf, now).db, w, newCode, matches, token, later);
            l.outcome == Ok && IsGlobal(l.session)
  {
    Admin.GlobalCodeOnlyByGlobal(db, v, newCode, hashOf, now);
    StripBlank(newCode);
    var s := Admin.UpdateGlobalCodeStep(db, v, newCode, hashOf, now);
    var g := CodeFor(s.db, GlobalAdminCode, None);
    assert matches(s.db.codes[g.value].codeHash, Strip(newCode));
  }

  /** On a fresh database the default code 'admin123' signs in as global
      administrator, and no other code does. */
  lemma DefaultCodeSignsIn(defaultHash: Hash, v: SessionView, accessCode: string, matches: (Hash, string) -> bool,
                           token: string, now: int)
    requires Strip(accessCode) != ""
    ensures var l := LoginStep(InitialDb(defaultHash), v, accessCode, matches, token, now);
            (l.outcome == Ok <==> matches(defaultHash, Strip(accessCode)))
            && (l.outcome == Ok ==> IsGlobal(l.session))
  {
    var db := InitialDb(defaultHash);
    assert CodeFor(db, GlobalAdminCode, None) == Some(1);
    assert SiteLogin(db, Strip(accessCode), matches) == None;
  }

  /** `logout`: the session is emptied. */
  method Logout(session: State.Session)
    modifies session
    ensures session.View() == Cleared
    ensures SessionInfo(session.View()) == LoggedOut
  {
    session.Clear();
  }

  /** What `session_info` reports. */
  datatype Info =
    | LoggedOut
    | LoggedIn(sessionToken: Option<string>, userRole: Option<string>, isGlobalAdmin: Option<bool>, projectSite: Option<string>)

  /** `session_info`: logged out exactly when the session has no user id. */
  function SessionInfo(v: SessionView): (r: Info)
    ensures r.LoggedOut? <==> v.userId.None?
    ensures r.LoggedIn? ==> r.userRole == v.userRole && r.isGlobalAdmin == v.isGlobalAdmin
                            && r.projectSite == v.projectSite && r.sessionToken == v.sessionToken
  {
    if v.userId.None? then LoggedOut
    else LoggedIn(v.sessionToken, v.userRole, v.isGlobalAdmin, v.projectSite)
  }

  /** After a successful login the session reports itself logged in with the new
      token; after a failed one it reports what it reported before. */
  lemma LoginThenInfo(db: Db, v: SessionView, accessCode: string, matches: (Hash, string) -> bool, token: string, now: int)
    ensures var l := LoginStep(db, v, accessCode, matches, token, now);
            && (l.outcome == Ok ==> SessionInfo(l.session).LoggedIn? && SessionInfo(l.session).sessionToken == Some(token))
            && (l.outcome != Ok ==> SessionInfo(l.session) == SessionInfo(v))
  {
    if !Blank(accessCode) {
      var r := Resolve(db, Strip(accessCode), matches);
      var l := LoginStep(db, v, accessCode, matches, token, now);
      if r.NoMatch? {
        assert l.session == v;
      } else {
        assert l.session == Entered(r, token);
      }
    }
  }

  /** The walk over the sites in id order, stopping at the first whose code
      accepts the typed code. */
  method FindSite(store: State.Store, code: string, matches: (Hash, string) -> bool) returns (k: Option<int>)
    requires store.Valid()
    ensures k == SiteLogin(store.Snapshot(), code, matches)
  {
    ghost var db := store.Snapshot();
    var i := 1;
    while i < store.nextSite
      invariant 1 <= i <= store.nextSite
      invariant forall j :: j in db.sites && j < i ==> !Opens(db, db.sites[j].name, code, matches)
      decreases store.nextSite - i
    {
      if i in store.sites {
        var c := CodeFor(store.Snapshot(), ProjectSiteCode, Some(store.sites[i].name));
        if c.Some? && matches(store.codes[c.value].codeHash, code) {
          return Some(i);
        }
      }
      i := i + 1;
    }
    return None;
  }

  /** `session.clear()` followed by the keys a successful login sets. */
  method Enter(session: State.Session, r: Resolution, token: string)
    requires !r.NoMatch?
    modifies session
    ensures session.View() == Entered(r, token)
  {
    session.Clear();
    session.sessionToken := Some(token);
    match r
    case AsGlobal(c) =>
      session.userId := Some(c);
      session.userRole := Some("admin");
      session.userName := Some("Global Administrator");
      session.projectSite := None;
      session.isGlobalAdmin := Some(true);
    case AsSite(c, name) =>
      session.userId := Some(c);
      session.userRole := Some("project_site_admin");
      session.userName := Some("Admin - " + name);
      session.projectSite := Some(name);
      session.assignedProjectSite := Some(name);
      session.isGlobalAdmin := Some(false);
  }

  /** `login` on the session and the store. */
  method SignIn(store: State.Store, session: State.Session, accessCode: string, matches: (Hash, string) -> bool,
                token: string, now: int) returns (outcome: Outcome)
    requires store.Valid()
    modifies store, session
    ensures store.Valid()
    ensures Login(outcome, store.Snapshot(), session.View())
         == LoginStep(old(store.Snapshot()), old(session.View()), accessCode, matches, token, now)
  {
    if Blank(accessCode) {
      return Invalid("access_code");
    }
    var code := Strip(accessCode);
    var r: Resolution;
    var g := CodeFor(store.Snapshot(), GlobalAdminCode, None);
    if g.Some? && matches(store.codes[g.value].codeHash, code) {
      r := AsGlobal(g.value);
    } else {
      var k := FindSite(store, code, matches);
      if k.Some? {
        var name := store.sites[k.value].name;
        r := AsSite(CodeFor(store.Snapshot(), ProjectSiteCode, Some(name)).value, name);
      } else {
        r := NoMatch;
      }
    }
    assert r == Resolve(store.Snapshot(), code, matches);
    store.logs := store.logs + [Entry(r, code, now)];
    if r.NoMatch? {
      return Unauthenticated;
    }
    Enter(session, r, token);
    outcome := Ok;
  }

  // ------------------------------------------------------------ site switch

  /** What a change to the session alone leaves behind. */
  datatype SessionStep = SessionStep(outcome: Outcome, session: SessionView)

  /** `switch_project_site`: only a global administrator, and never a session in
      the project-site role; an empty selection means all sites. */
  function SwitchStep(v: SessionView, projectSite: string): (s: SessionStep)
    ensures s.outcome != Ok ==> s.session == v
    ensures s.session.userId == v.userId && s.session.userRole == v.userRole
    ensures s.session.isGlobalAdmin == v.isGlobalAdmin
  {
    if !IsGlobal(v) then SessionStep(PermissionDenied, v)
    else if v.userRole == Some("project_site_admin") then SessionStep(PermissionDenied, v)
    else SessionStep(Ok, v.(projectSite := if Blank(projectSite) then None else Some(Strip(projectSite)),
                            assignedProjectSite := None))
  }

  /** Switching succeeds exactly for a global administrator; it then scopes the
      session to the chosen site, or to every site for an empty choice. A
      refused switch changes nothing, so a site administrator stays pinned. */
  lemma SwitchEffect(v: SessionView, projectSite: string)
    ensures var s := SwitchStep(v, projectSite);
            && (s.outcome == Ok <==> IsGlobal(v) && v.userRole != Some("project_site_admin"))
            && (s.outcome != Ok ==> s.session == v && UserProjectSite(s.session) == UserProjectSite(v))
            && (s.outcome == Ok ==>
                  && IsGlobal(s.session) && s.session.assignedProjectSite == None
                  && s.session == v.(projectSite := s.session.projectSite, assignedProjectSite := None)
                  && (Blank(projectSite) ==> forall site :: InScope(s.session, site))
                  && (!Blank(projectSite) ==> forall site :: InScope(s.session, site) <==> site == Some(Strip(projectSite))))
  {
    var s := SwitchStep(v, projectSite);
    if s.outcome == Ok {
      StripBlank(projectSite);
      forall site
        ensures Blank(projectSite) ==> InScope(s.session, site)
        ensures !Blank(projectSite) ==> (InScope(s.session, site) <==> site == Some(Strip(projectSite)))
      {
        GlobalSeesSelection(s.session, site);
      }
    }
  }

  method SwitchProjectSite(session: State.Session, projectSite: string) returns (outcome: Outcome)
    modifies session
    ensures SessionStep(outcome, session.View()) == SwitchStep(old(session.View()), projectSite)
  {
    if session.isGlobalAdmin != Some(true) {
      return PermissionDenied;
    }
    if session.userRole == Some("project_site_admin") {
      return PermissionDenied;
    }
    session.projectSite := if Blank(projectSite) then None else Some(Strip(projectSite));
    session.assignedProjectSite := None;
    outcome := Ok;
  }
}
