/** Site, access-code and building-configuration administration of routes.py:
    `update_global_admin_code`, `update_project_site_code`, `add_project_site`,
    `edit_project_site`, `delete_project_site`, `save_building_config` and
    `clear_access_logs`. Password hashing is the parameter `hashOf`; the clock is
    the parameter `now`. */
module Admin {
  import opened Wrappers
  import opened Models
  import opened Strings
  import opened Utils
  import opened Tables
  import opened Scope
  import State

  // ------------------------------------------------------------- access codes

  /** A code row after a new plaintext was set: its hash, its display copy and
      its update time change. */
  function Rotated(c: AccessCode, code: string, hashOf: string -> Hash, now: int): AccessCode {
    c.(codeHash := hashOf(code), displayCode := Some(code), updatedAt := now)
  }

  /** The update-or-insert both code routes end with: the first code of that kind
      and site is rotated, or a new one is added. */
  function UpsertCode(db: Db, kind: CodeType, site: Option<string>, code: string, hashOf: string -> Hash, now: int): (r: Db)
    requires Valid(db)
    ensures Valid(r)
    ensures r == db.(codes := r.codes, nextCode := r.nextCode)
  {
    match CodeFor(db, kind, site)
    case Some(c) => db.(codes := db.codes[c := Rotated(db.codes[c], code, hashOf, now)])
    case None => InsertCode(db, AccessCode(kind, site, hashOf(code), Some(code), now))
  }

  /** The key under which the code routes look codes up. */
  function CodeKey(c: AccessCode): (CodeType, Option<string>) {
    (c.codeType, c.projectSite)
  }

  /** After the upsert the lookup of that kind and site finds a row holding the
      new code, and no other row changed. */
  lemma UpsertCodeFound(db: Db, kind: CodeType, site: Option<string>, code: string, hashOf: string -> Hash, now: int)
    requires Valid(db)
    ensures var r := UpsertCode(db, kind, site, code, hashOf, now);
            var c := CodeFor(r, kind, site);
            && c.Some? && r.codes[c.value].codeHash == hashOf(code) && r.codes[c.value].displayCode == Some(code)
            && (forall k :: k in db.codes && k != c.value ==> k in r.codes && r.codes[k] == db.codes[k])
            && (forall k :: k in r.codes && k != c.value ==> k in db.codes)
  {
    var r := UpsertCode(db, kind, site, code, hashOf, now);
    match CodeFor(db, kind, site)
    case Some(c) =>
      var c' := CodeFor(r, kind, site);
      assert c in r.codes && r.codes[c].codeType == kind && r.codes[c].projectSite == site;
      assert c' == Some(c) by {
        assert c'.value <= c;
        assert c'.value in db.codes && db.codes[c'.value].codeType == kind && db.codes[c'.value].projectSite == site;
      }
    case None =>
      var k := db.nextCode;
      var c' := CodeFor(r, kind, site);
      assert k in r.codes && r.codes[k].codeType == kind && r.codes[k].projectSite == site;
      assert c' == Some(k) by {
        assert c'.value <= k;
      }
  }

  /** If each kind and site had at most one code, it still has after the upsert. */
  lemma UpsertCodeKeepsUnique(db: Db, kind: CodeType, site: Option<string>, code: string, hashOf: string -> Hash, now: int)
    requires Valid(db) && UniqueBy(db.codes, CodeKey)
    ensures UniqueBy(UpsertCode(db, kind, site, code, hashOf, now).codes, CodeKey)
  {
    match CodeFor(db, kind, site)
    case Some(c) =>
      UpsertKeepsUnique(db.codes, c, Rotated(db.codes[c], code, hashOf, now), CodeKey);
    case None =>
      UpsertKeepsUnique(db.codes, db.nextCode, AccessCode(kind, site, hashOf(code), Some(code), now), CodeKey);
  }

  /** `update_global_admin_code` as written: any administrator, a project-site
      administrator included, may set the global code. */
  function UpdateGlobalCodeAsWritten(db: Db, v: SessionView, newCode: string, hashOf: string -> Hash, now: int): (s: Step)
    requires Valid(db)
    ensures s.outcome == Ok <==> IsAdmin(v) && !Blank(newCode)
    ensures s.outcome != Ok ==> s.db == db
    ensures s.db == db.(codes := s.db.codes, nextCode := s.db.nextCode)
  {
    if !IsAdmin(v) then Step(PermissionDenied, db)
    else if Blank(newCode) then Step(Invalid("new_code"), db)
    else Step(Ok, UpsertCode(db, GlobalAdminCode, None, Strip(newCode), hashOf, now))
  }

  /** The as-written route lets an administrator pinned to one site replace the
      code that signs in as global administrator, which lifts that account's
      restriction to its site. */
  lemma SiteAdminRotatesGlobalCode(db: Db, v: SessionView, newCode: string, hashOf: string -> Hash, now: int)
    requires Valid(db)
    requires v.userRole == Some("project_site_admin") && !IsGlobal(v)
    requires !Blank(newCode)
    ensures var s := UpdateGlobalCodeAsWritten(db, v, newCode, hashOf, now);
            var c := CodeFor(s.db, GlobalAdminCode, None);
            s.outcome == Ok && c.Some? && s.db.codes[c.value].codeHash == hashOf(Strip(newCode))
  {
    UpsertCodeFound(db, GlobalAdminCode, None, Strip(newCode), hashOf, now);
  }

  /** `update_global_admin_code` as evidently intended: only the global
      administrator may set the global code. */
  function UpdateGlobalCodeStep(db: Db, v: SessionView, newCode: string, hashOf: string -> Hash, now: int): (s: Step)
    requires Valid(db)
    ensures s.outcome == Ok ==> IsGlobal(v)
    ensures s.outcome != Ok ==> s.db == db
  {
    if !IsGlobal(v) then Step(PermissionDenied, db)
    else UpdateGlobalCodeAsWritten(db, v, newCode, hashOf, now)
  }

  /** Only a global administrator changes the global code, and then the lookup
      of the global code finds the new one; every other table is unchanged. */
  lemma GlobalCodeOnlyByGlobal(db: Db, v: SessionView, newCode: string, hashOf: string -> Hash, now: int)
    requires Valid(db)
    ensures var s := UpdateGlobalCodeStep(db, v, newCode, hashOf, now);
            && (s.outcome == Ok <==> IsGlobal(v) && IsAdmin(v) && !Blank(newCode))
            && (s.outcome != Ok ==> s.db == db)
            && (s.outcome == Ok ==> var c := CodeFor(s.db, GlobalAdminCode, None);
                                   c.Some? && s.db.codes[c.value].codeHash == hashOf(Strip(newCode))
                                   && s.db.codes[c.value].displayCode == Some(Strip(newCode)))
            && s.db == db.(codes := s.db.codes, nextCode := s.db.nextCode)
  {
    if IsGlobal(v) && IsAdmin(v) && !Blank(newCode) {
      UpsertCodeFound(db, GlobalAdminCode, None, Strip(newCode), hashOf, now);
    }
  }

  /** `update_project_site_code` as written: any administrator may set the code
      of any site, including a site other than its own. */
  function UpdateSiteCodeAsWritten(db: Db, v: SessionView, projectSite: string, newCode: string,
                                   hashOf: string -> Hash, now: int): (s: Step)
    requires Valid(db)
    ensures s.outcome == Ok <==> IsAdmin(v) && !Blank(projectSite) && !Blank(newCode)
    ensures s.outcome != Ok ==> s.db == db
    ensures s.db == db.(codes := s.db.codes, nextCode := s.db.nextCode)
  {
    if !IsAdmin(v) then Step(PermissionDenied, db)
    else if Blank(projectSite) then Step(Invalid("project_site"), db)
    else if Blank(newCode) then Step(Invalid("new_code"), db)
    else Step(Ok, UpsertCode(db, ProjectSiteCode, Some(Strip(projectSite)), Strip(newCode), hashOf, now))
  }

  /** The as-written route lets an administrator of one site set the code of
      another site, and so sign in to that site. */
  lemma SiteAdminSetsOtherSiteCode(db: Db, v: SessionView, projectSite: string, newCode: string,
                                   hashOf: string -> Hash, now: int)
    requires Valid(db)
    requires v.userRole == Some("project_site_admin") && !IsGlobal(v)
    requires !Blank(projectSite) && !Blank(newCode) && Some(Strip(projectSite)) != UserProjectSite(v)
    ensures var s := UpdateSiteCodeAsWritten(db, v, projectSite, newCode, hashOf, now);
            var c := CodeFor(s.db, ProjectSiteCode, Some(Strip(projectSite)));
            s.outcome == Ok && c.Some? && s.db.codes[c.value].codeHash == hashOf(Strip(newCode))
  {
    UpsertCodeFound(db, ProjectSiteCode, Some(Strip(projectSite)), Strip(newCode), hashOf, now);
  }

  /** `update_project_site_code` as evidently intended: an administrator pinned
      to a site may set only that site's code. */
  function UpdateSiteCodeStep(db: Db, v: SessionView, projectSite: string, newCode: string,
                              hashOf: string -> Hash, now: int): (s: Step)
    requires Valid(db)
    ensures s.outcome == Ok ==> IsGlobal(v) || Some(Strip(projectSite)) == UserProjectSite(v)
    ensures s.outcome != Ok ==> s.db == db
  {
    if IsAdmin(v) && !IsGlobal(v) && Some(Strip(projectSite)) != UserProjectSite(v) then Step(PermissionDenied, db)
    else UpdateSiteCodeAsWritten(db, v, projectSite, newCode, hashOf, now)
  }

  /** A site's code changes only through the global administrator or an
      administrator of that site, and the site's lookup then finds the new code. */
  lemma SiteCodeOnlyOwnSite(db: Db, v: SessionView, projectSite: string, newCode: string, hashOf: string -> Hash, now: int)
    requires Valid(db)
    ensures var s := UpdateSiteCodeStep(db, v, projectSite, newCode, hashOf, now);
            && (s.outcome == Ok <==>
                  IsAdmin(v) && (IsGlobal(v) || Some(Strip(projectSite)) == UserProjectSite(v))
                  && !Blank(projectSite) && !Blank(newCode))
            && (s.outcome != Ok ==> s.db == db)
            && (s.outcome == Ok ==> var c := CodeFor(s.db, ProjectSiteCode, Some(Strip(projectSite)));
                                   c.Some? && s.db.codes[c.value].codeHash == hashOf(Strip(newCode)))
            && s.db == db.(codes := s.db.codes, nextCode := s.db.nextCode)
  {
    if IsAdmin(v) && (IsGlobal(v) || Some(Strip(projectSite)) == UserProjectSite(v)) && !Blank(projectSite) && !Blank(newCode) {
      UpsertCodeFound(db, ProjectSiteCode, Some(Strip(projectSite)), Strip(newCode), hashOf, now);
    }
  }

  // ---------------------------------------------------------------- sites

  /** The site with a given name (`ProjectSite.query.filter_by(name=...).first()`). */
  function SiteNamed(db: Db, name: string): (r: Option<int>)
    ensures r.Some? ==> r.value in db.sites && db.sites[r.value].name == name
    ensures KeysBelow(db.sites, db.nextSite) ==> (r.None? <==> forall k :: k in db.sites ==> db.sites[k].name != name)
  {
    First(db.sites, (s: ProjectSite) => s.name == name, db.nextSite)
  }

  function SiteName(s: ProjectSite): string {
    s.name
  }

  /** The new site and, when a code is given, its code, as `add_project_site`
      stores them. */
  function AddSite(db: Db, name: string, description: string, code: Option<string>, hashOf: string -> Hash, now: int): (r: Db)
    requires Valid(db)
    ensures Valid(r)
    ensures r.sites == db.sites[db.nextSite := ProjectSite(name, Some(description))]
    ensures r == db.(sites := r.sites, nextSite := r.nextSite, codes := r.codes, nextCode := r.nextCode)
  {
    var added := InsertSite(db, ProjectSite(name, Some(description)));
    match code
    case None => added
    case Some(c) => InsertCode(added, AccessCode(ProjectSiteCode, Some(name), hashOf(c), Some(c), now))
  }

  /** `add_project_site`: a non-empty name not yet taken is added with its
      description, and with a site code when one is given. */
  function AddSiteStep(db: Db, v: SessionView, name: string, description: string, accessCode: string,
                       hashOf: string -> Hash, now: int): (s: Step)
    requires Valid(db)
    ensures s.outcome != Ok ==> s.db == db
    ensures s.outcome == Duplicate("name") <==> IsAdmin(v) && !Blank(name) && SiteNamed(db, Strip(name)).Some?
    ensures s.db == db.(sites := s.db.sites, nextSite := s.db.nextSite, codes := s.db.codes, nextCode := s.db.nextCode)
  {
    if !IsAdmin(v) then Step(PermissionDenied, db)
    else if Blank(name) then Step(Invalid("name"), db)
    else if SiteNamed(db, Strip(name)).Some? then Step(Duplicate("name"), db)
    else Step(Ok, AddSite(db, Strip(name), Strip(description),
                          if Blank(accessCode) then None else Some(Strip(accessCode)), hashOf, now))
  }

  /** Adding succeeds exactly for an administrator with a non-empty name no site
      holds; a refused add changes nothing. */
  lemma AddSiteOutcome(db: Db, v: SessionView, name: string, description: string, accessCode: string,
                       hashOf: string -> Hash, now: int)
    requires Valid(db)
    ensures var s := AddSiteStep(db, v, name, description, accessCode, hashOf, now);
            && (s.outcome == Ok <==> IsAdmin(v) && !Blank(name) && forall k :: k in db.sites ==> db.sites[k].name != Strip(name))
            && (s.outcome != Ok ==> s.db == db)
  {
  }

  /** After an add, the name resolves to the new site. */
  lemma AddSiteResolves(db: Db, v: SessionView, name: string, description: string, accessCode: string,
                        hashOf: string -> Hash, now: int)
    requires Valid(db)
    requires AddSiteStep(db, v, name, description, accessCode, hashOf, now).outcome == Ok
    ensures SiteNamed(AddSiteStep(db, v, name, description, accessCode, hashOf, now).db, Strip(name)) == Some(db.nextSite)
  {
    var s := AddSiteStep(db, v, name, description, accessCode, hashOf, now);
    var n := Strip(name);
    var k := db.nextSite;
    assert SiteNamed(db, n).None?;
    assert s.db.sites == db.sites[k := ProjectSite(n, Some(Strip(description)))];
    assert forall j :: j in s.db.sites && s.db.sites[j].name == n ==> j == k;
    var found := SiteNamed(s.db, n);
    assert Valid(s.db) && k in s.db.sites && s.db.sites[k].name == n;
    assert found.Some? && s.db.sites[found.value].name == n;
  }

  /** Adding keeps site names unique and leaves every site-scoped row alone. */
  lemma AddSiteKeepsNamesUnique(db: Db, v: SessionView, name: string, description: string, accessCode: string,
                                hashOf: string -> Hash, now: int)
    requires Valid(db) && UniqueBy(db.sites, SiteName)
    ensures var s := AddSiteStep(db, v, name, description, accessCode, hashOf, now);
            && UniqueBy(s.db.sites, SiteName)
            && s.db.items == db.items && s.db.requests == db.requests && s.db.actuals == db.actuals
  {
    var s := AddSiteStep(db, v, name, description, accessCode, hashOf, now);
    if s.outcome == Ok {
      var site := ProjectSite(Strip(name), Some(Strip(description)));
      assert SiteNamed(db, Strip(name)).None?;
      assert forall j :: j in db.sites ==> SiteName(db.sites[j]) != SiteName(site);
      UpsertKeepsUnique(db.sites, db.nextSite, site, SiteName);
      assert s.db.sites == db.sites[db.nextSite := site];
    }
  }

  /** The site `get_or_404` resolves `site_id` to; an id that does not parse or
      names no site is the 404 case. */
  function SiteById(db: Db, siteId: string): (r: Option<int>)
    ensures r.Some? ==> r.value in db.sites && ParseInt(siteId) == r
    ensures ParseInt(siteId).Some? && ParseInt(siteId).value in db.sites ==> r == ParseInt(siteId)
  {
    match ParseInt(siteId)
    case None => None
    case Some(id) => if id in db.sites then Some(id) else None
  }

  /** The site renamed and redescribed; on a change of name the site's first
      code follows it. */
  function RenameSite(db: Db, id: int, name: string, description: string): (r: Db)
    requires Valid(db) && id in db.sites
    ensures Valid(r)
    ensures r.sites == db.sites[id := ProjectSite(name, Some(description))]
    ensures r == db.(sites := r.sites, codes := r.codes)
  {
    var oldName := db.sites[id].name;
    var edited := db.(sites := db.sites[id := ProjectSite(name, Some(description))]);
    if name == oldName then edited
    else match CodeFor(db, ProjectSiteCode, Some(oldName))
      case None => edited
      case Some(c) => edited.(codes := db.codes[c := db.codes[c].(projectSite := Some(name))])
  }

  /** `edit_project_site`: the site given by `site_id` gets the new name and
      description unless another site already has that name. */
  function EditSiteStep(db: Db, v: SessionView, siteId: string, name: string, description: string): (s: Step)
    requires Valid(db)
    ensures s.outcome != Ok ==> s.db == db
    ensures s.db == db.(sites := s.db.sites, codes := s.db.codes)
    ensures s.db.sites.Keys == db.sites.Keys && s.db.codes.Keys == db.codes.Keys
  {
    if !IsAdmin(v) then Step(PermissionDenied, db)
    else if siteId == "" then Step(Invalid("site_id"), db)
    else match SiteById(db, siteId)
      case None => Step(NotFound, db)
      case Some(id) =>
        if Blank(name) then Step(Invalid("name"), db)
        else if Strip(name) != db.sites[id].name && SiteNamed(db, Strip(name)).Some? then Step(Duplicate("name"), db)
        else Step(Ok, RenameSite(db, id, Strip(name), Strip(description)))
  }

  /** With unique names, editing succeeds exactly for an administrator naming an
      existing site with a non-empty name no other site holds, and names stay
      unique. */
  lemma EditSiteEffect(db: Db, v: SessionView, siteId: string, id: int, name: string, description: string)
    requires Valid(db) && UniqueBy(db.sites, SiteName)
    requires ParseInt(siteId) == Some(id)
    ensures var s := EditSiteStep(db, v, siteId, name, description);
            && (s.outcome == Ok <==>
                  IsAdmin(v) && id in db.sites && !Blank(name)
                  && forall k :: k in db.sites && k != id ==> db.sites[k].name != Strip(name))
            && (s.outcome != Ok ==> s.db == db)
            && (s.outcome == Ok ==> s.db.sites == db.sites[id := ProjectSite(Strip(name), Some(Strip(description)))])
            && UniqueBy(s.db.sites, SiteName)
  {
    assert siteId != "" by {
      assert |Strip(siteId)| <= |siteId|;
    }
    var s := EditSiteStep(db, v, siteId, name, description);
    if IsAdmin(v) && id in db.sites && !Blank(name) {
      var n := Strip(name);
      if n == db.sites[id].name {
        assert forall k :: k in db.sites && k != id ==> db.sites[k].name != n by {
          forall k | k in db.sites && k != id
            ensures db.sites[k].name != n
          {
            assert SiteName(db.sites[k]) != SiteName(db.sites[id]);
          }
        }
      }
      if s.outcome == Ok {
        RekeyKeepsUnique(db.sites, id, ProjectSite(n, Some(Strip(description))), SiteName);
      }
    }
  }

  /** A rename carries the site's first code to the new name, so the new name's
      lookup finds a code, and touches no other code; the site's items,
      requests and actuals keep the old name. */
  lemma RenamePropagates(db: Db, id: int, name: string, description: string)
    requires Valid(db) && id in db.sites
    ensures var r := RenameSite(db, id, name, description);
            var code := CodeFor(db, ProjectSiteCode, Some(db.sites[id].name));
            && (name != db.sites[id].name && code.Some? ==>
                  && code.value in r.codes && r.codes[code.value].projectSite == Some(name)
                  && r.codes[code.value].codeHash == db.codes[code.value].codeHash
                  && CodeFor(r, ProjectSiteCode, Some(name)).Some?)
            && (forall k :: k in db.codes && (code.None? || k != code.value) ==> k in r.codes && r.codes[k] == db.codes[k])
            && r.codes.Keys == db.codes.Keys
            && r.items == db.items && r.requests == db.requests && r.actuals == db.actuals
  {
    var r := RenameSite(db, id, name, description);
    var code := CodeFor(db, ProjectSiteCode, Some(db.sites[id].name));
    if name != db.sites[id].name && code.Some? {
      assert r.codes[code.value].codeType == ProjectSiteCode;
      assert CodeFor(r, ProjectSiteCode, Some(name)).Some?;
    }
  }

  /** The site and its first code removed. */
  function RemoveSite(db: Db, id: int): (r: Db)
    requires Valid(db) && id in db.sites
    ensures Valid(r)
    ensures r.sites == db.sites - {id}
    ensures r == db.(sites := r.sites, codes := r.codes)
  {
    var code := CodeFor(db, ProjectSiteCode, Some(db.sites[id].name));
    db.(sites := db.sites - {id}, codes := if code.Some? then db.codes - {code.value} else db.codes)
  }

  /** `delete_project_site`: only the global administrator. */
  function DeleteSiteStep(db: Db, v: SessionView, siteId: string): (s: Step)
    requires Valid(db)
    ensures s.outcome == Ok ==> IsGlobal(v)
    ensures s.outcome != Ok ==> s.db == db
    ensures s.db == db.(sites := s.db.sites, codes := s.db.codes)
    ensures s.db.sites.Keys <= db.sites.Keys && s.db.codes.Keys <= db.codes.Keys
  {
    if !IsGlobal(v) then Step(PermissionDenied, db)
    else if siteId == "" then Step(Invalid("site_id"), db)
    else match SiteById(db, siteId)
      case None => Step(NotFound, db)
      case Some(id) => Step(Ok, RemoveSite(db, id))
  }

  /** Deleting succeeds exactly for the global administrator naming an existing
      site; the site is gone and the site-scoped rows stay. */
  lemma DeleteSiteEffect(db: Db, v: SessionView, siteId: string, id: int)
    requires Valid(db) && ParseInt(siteId) == Some(id)
    ensures var s := DeleteSiteStep(db, v, siteId);
            && (s.outcome == Ok <==> IsGlobal(v) && id in db.sites)
            && (s.outcome != Ok ==> s.db == db)
            && (s.outcome == Ok ==> s.db.sites == db.sites - {id})
            && s.db.items == db.items && s.db.requests == db.requests && s.db.actuals == db.actuals
  {
    assert siteId != "" by {
      assert |Strip(siteId)| <= |siteId|;
    }
  }

  /** Deleting a site removes its first code and no other; when each site had
      at most one code, no code is left to sign in to the deleted site with. */
  lemma DeleteSiteRevokesCode(db: Db, id: int)
    requires Valid(db) && id in db.sites
    ensures var r := RemoveSite(db, id);
            var name := db.sites[id].name;
            var code := CodeFor(db, ProjectSiteCode, Some(name));
            && (code.Some? ==> code.value !in r.codes)
            && (forall k :: k in db.codes && (code.None? || k != code.value) ==> k in r.codes && r.codes[k] == db.codes[k])
            && (UniqueBy(db.codes, CodeKey) ==> CodeFor(r, ProjectSiteCode, Some(name)).None?)
  {
    var r := RemoveSite(db, id);
    var name := db.sites[id].name;
    var code := CodeFor(db, ProjectSiteCode, Some(name));
    if UniqueBy(db.codes, CodeKey) && code.Some? {
      forall k | k in r.codes
        ensures !(r.codes[k].codeType == ProjectSiteCode && r.codes[k].projectSite == Some(name))
      {
        assert k != code.value;
        assert CodeKey(db.codes[k]) != CodeKey(db.codes[code.value]);
      }
    }
  }

  // --------------------------------------------------- building configuration

  /** `int(request.form.get(name, 0))`: 0 when absent, None where `int` raises. */
  function FormInt(x: Option<string>): (r: Option<int>)
    ensures x.None? ==> r == Some(0)
    ensures x.Some? ==> r == ParseInt(x.value)
  {
    if x.None? then Some(0) else ParseInt(x.value)
  }

  /** A count printed with `str` reads back as itself; an absent one is 0, and
      empty or blank text is the `ValueError` case. */
  lemma FormIntReadsBack(n: int, blank: string)
    requires Blank(blank)
    ensures FormInt(Some(IntToString(n))) == Some(n)
    ensures FormInt(None) == Some(0)
    ensures FormInt(Some(blank)) == None
  {
    ParseIntToString(n);
    StripBlank(blank);
  }

  /** The configuration of a building type at a site, `IS NULL` for no site. */
  function ConfigFor(db: Db, buildingType: string, site: Option<string>): (r: Option<int>)
    ensures r.Some? ==> r.value in db.configs && db.configs[r.value].buildingType == buildingType
                        && db.configs[r.value].projectSite == site
    ensures KeysBelow(db.configs, db.nextConfig) && r.Some? ==>
              forall k :: (k in db.configs && db.configs[k].buildingType == buildingType
                           && db.configs[k].projectSite == site) ==> r.value <= k
    ensures KeysBelow(db.configs, db.nextConfig) ==>
              (r.None? <==> forall k :: k in db.configs ==>
                              !(db.configs[k].buildingType == buildingType && db.configs[k].projectSite == site))
  {
    First(db.configs, (c: BuildingTypeConfig) => c.buildingType == buildingType && c.projectSite == site, db.nextConfig)
  }

  function ConfigKey(c: BuildingTypeConfig): (string, Option<string>) {
    (c.buildingType, c.projectSite)
  }

  /** The configuration row the form writes: found and updated, or new. */
  function UpsertConfig(db: Db, buildingType: string, site: Option<string>, blocks: int, units: int,
                        notes: string, now: int): (r: Db)
    requires Valid(db)
    ensures Valid(r)
    ensures r == db.(configs := r.configs, nextConfig := r.nextConfig)
  {
    match ConfigFor(db, buildingType, site)
    case Some(c) =>
      db.(configs := db.configs[c := db.configs[c].(blocks := blocks, unitsPerBlock := units, notes := Some(notes), updatedAt := now)])
    case None =>
      InsertConfig(db, BuildingTypeConfig(buildingType, blocks, units, Some(notes), site, now))
  }

  /** `save_building_config`: both counts are parsed first (an unparsable one
      aborts the handler), then the building type is required; the row is keyed
      by building type and the session's site. No role is required. */
  function SaveConfigStep(db: Db, v: SessionView, buildingType: Option<string>, blocks: Option<string>,
                          units: Option<string>, notes: Option<string>, now: int): (s: Step)
    requires Valid(db)
    ensures s.outcome != Ok ==> s.db == db
    ensures s.db == db.(configs := s.db.configs, nextConfig := s.db.nextConfig)
  {
    var b := FormInt(blocks);
    var u := FormInt(units);
    if b.None? || u.None? then Step(ServerError, db)
    else if !Truthy(buildingType) then Step(Invalid("building_type"), db)
    else Step(Ok, UpsertConfig(db, buildingType.value, UserProjectSite(v), b.value, u.value, notes.GetOr(""), now))
  }

  /** Saving succeeds exactly when both counts parse and a building type is
      given, whoever is signed in; only the configuration table changes. */
  lemma SaveConfigOutcome(db: Db, v: SessionView, buildingType: Option<string>, blocks: Option<string>,
                          units: Option<string>, notes: Option<string>, now: int)
    requires Valid(db)
    ensures var s := SaveConfigStep(db, v, buildingType, blocks, units, notes, now);
            && (s.outcome == Ok <==> FormInt(blocks).Some? && FormInt(units).Some? && Truthy(buildingType))
            && (s.outcome == ServerError <==> FormInt(blocks).None? || FormInt(units).None?)
            && (s.outcome != Ok ==> s.db == db)
            && s.db == db.(configs := s.db.configs, nextConfig := s.db.nextConfig)
  {
  }

  /** After the upsert the lookup for that building type and site finds the
      saved counts and notes, and no other row changed. */
  lemma UpsertConfigFound(db: Db, buildingType: string, site: Option<string>, blocks: int, units: int, notes: string, now: int)
    requires Valid(db)
    ensures var r := UpsertConfig(db, buildingType, site, blocks, units, notes, now);
            var c := ConfigFor(r, buildingType, site);
            && c.Some?
            && r.configs[c.value].blocks == blocks && r.configs[c.value].unitsPerBlock == units
            && r.configs[c.value].notes == Some(notes)
            && (forall k :: k in db.configs && k != c.value ==> k in r.configs && r.configs[k] == db.configs[k])
            && (forall k :: k in r.configs && k != c.value ==> k in db.configs)
  {
    var r := UpsertConfig(db, buildingType, site, blocks, units, notes, now);
    match ConfigFor(db, buildingType, site)
    case Some(c) =>
      var c' := ConfigFor(r, buildingType, site);
      assert c in r.configs && r.configs[c].buildingType == buildingType && r.configs[c].projectSite == site;
      assert c' == Some(c) by {
        assert c'.value <= c;
        assert c'.value in db.configs;
      }
    case None =>
      var k := db.nextConfig;
      var c' := ConfigFor(r, buildingType, site);
      assert k in r.configs && r.configs[k].buildingType == buildingType && r.configs[k].projectSite == site;
      assert c' == Some(k) by {
        assert c'.value <= k;
      }
  }

  /** At most one configuration per building type and site is kept. */
  lemma UpsertConfigKeepsUnique(db: Db, buildingType: string, site: Option<string>, blocks: int, units: int, notes: string, now: int)
    requires Valid(db) && UniqueBy(db.configs, ConfigKey)
    ensures UniqueBy(UpsertConfig(db, buildingType, site, blocks, units, notes, now).configs, ConfigKey)
  {
    match ConfigFor(db, buildingType, site)
    case Some(c) =>
      UpsertKeepsUnique(db.configs, c, db.configs[c].(blocks := blocks, unitsPerBlock := units, notes := Some(notes), updatedAt := now), ConfigKey);
    case None =>
      UpsertKeepsUnique(db.configs, db.nextConfig, BuildingTypeConfig(buildingType, blocks, units, Some(notes), site, now), ConfigKey);
  }

  // ---------------------------------------------------------------- handlers

  /** The code upsert on the store. */
  method StoreCode(store: State.Store, kind: CodeType, site: Option<string>, code: string, hashOf: string -> Hash, now: int)
    requires store.Valid()
    modifies store
    ensures store.Valid()
    ensures store.Snapshot() == UpsertCode(old(store.Snapshot()), kind, site, code, hashOf, now)
  {
    var c := CodeFor(store.Snapshot(), kind, site);
    if c.Some? {
      store.codes := store.codes[c.value := Rotated(store.codes[c.value], code, hashOf, now)];
    } else {
      var _ := store.AddCode(AccessCode(kind, site, hashOf(code), Some(code), now));
    }
  }

  /** `update_global_admin_code`, following the corrected step: a site
      administrator is refused, where the route as written lets it through
      (`UpdateGlobalCodeAsWritten`). */
  method UpdateGlobalAdminCode(store: State.Store, session: State.Session, newCode: string, hashOf: string -> Hash, now: int)
    returns (outcome: Outcome)
    requires store.Valid()
    modifies store
    ensures store.Valid()
    ensures Step(outcome, store.Snapshot()) == UpdateGlobalCodeStep(old(store.Snapshot()), session.View(), newCode, hashOf, now)
  {
    var v := session.View();
    if !IsGlobal(v) || !IsAdmin(v) {
      return PermissionDenied;
    }
    if Blank(newCode) {
      return Invalid("new_code");
    }
    StoreCode(store, GlobalAdminCode, None, Strip(newCode), hashOf, now);
    outcome := Ok;
  }

  /** `update_project_site_code`, following the corrected step: a site
      administrator may set only its own site's code, where the route as
      written lets it set any site's (`UpdateSiteCodeAsWritten`). */
  method UpdateProjectSiteCode(store: State.Store, session: State.Session, projectSite: string, newCode: string,
                               hashOf: string -> Hash, now: int) returns (outcome: Outcome)
    requires store.Valid()
    modifies store
    ensures store.Valid()
    ensures Step(outcome, store.Snapshot())
         == UpdateSiteCodeStep(old(store.Snapshot()), session.View(), projectSite, newCode, hashOf, now)
  {
    var v := session.View();
    if !IsAdmin(v) {
      return PermissionDenied;
    }
    var site := Strip(projectSite);
    if !IsGlobal(v) && Some(site) != UserProjectSite(v) {
      return PermissionDenied;
    }
    if Blank(projectSite) {
      return Invalid("project_site");
    } else if Blank(newCode) {
      return Invalid("new_code");
    }
    StoreCode(store, ProjectSiteCode, Some(site), Strip(newCode), hashOf, now);
    outcome := Ok;
  }

  method AddProjectSite(store: State.Store, session: State.Session, name: string, description: string,
                        accessCode: string, hashOf: string -> Hash, now: int) returns (outcome: Outcome)
    requires store.Valid()
    modifies store
    ensures store.Valid()
    ensures Step(outcome, store.Snapshot())
         == AddSiteStep(old(store.Snapshot()), session.View(), name, description, accessCode, hashOf, now)
  {
    var v := session.View();
    if !IsAdmin(v) {
      return PermissionDenied;
    }
    if Blank(name) {
      return Invalid("name");
    }
    var n := Strip(name);
    if SiteNamed(store.Snapshot(), n).Some? {
      return Duplicate("name");
    }
    var _ := store.AddSite(ProjectSite(n, Some(Strip(description))));
    if !Blank(accessCode) {
      var code := Strip(accessCode);
      var _ := store.AddCode(AccessCode(ProjectSiteCode, Some(n), hashOf(code), Some(code), now));
    }
    outcome := Ok;
  }

  /** The rename on the store, as `RenameSite` states it. */
  method StoreRename(store: State.Store, id: int, name: string, description: string)
    requires store.Valid() && id in store.sites
    modifies store
    ensures store.Valid()
    ensures store.Snapshot() == RenameSite(old(store.Snapshot()), id, name, description)
  {
    var oldName := store.sites[id].name;
    var code := CodeFor(store.Snapshot(), ProjectSiteCode, Some(oldName));
    store.sites := store.sites[id := ProjectSite(name, Some(description))];
    if name != oldName && code.Some? {
      store.codes := store.codes[code.value := store.codes[code.value].(projectSite := Some(name))];
    }
  }

  method EditProjectSite(store: State.Store, session: State.Session, siteId: string, name: string, description: string)
    returns (outcome: Outcome)
    requires store.Valid()
    modifies store
    ensures store.Valid()
    ensures Step(outcome, store.Snapshot()) == EditSiteStep(old(store.Snapshot()), session.View(), siteId, name, description)
  {
    var v := session.View();
    if !IsAdmin(v) {
      return PermissionDenied;
    }
    if siteId == "" {
      return Invalid("site_id");
    }
    var id := SiteById(store.Snapshot(), siteId);
    if id.None? {
      return NotFound;
    }
    if Blank(name) {
      return Invalid("name");
    }
    var n := Strip(name);
    if n != store.sites[id.value].name && SiteNamed(store.Snapshot(), n).Some? {
      return Duplicate("name");
    }
    StoreRename(store, id.value, n, Strip(description));
    outcome := Ok;
  }

  method DeleteProjectSite(store: State.Store, session: State.Session, siteId: string) returns (outcome: Outcome)
    requires store.Valid()
    modifies store
    ensures store.Valid()
    ensures Step(outcome, store.Snapshot()) == DeleteSiteStep(old(store.Snapshot()), session.View(), siteId)
  {
    var v := session.View();
    if !IsGlobal(v) {
      return PermissionDenied;
    }
    if siteId == "" {
      return Invalid("site_id");
    }
    var id := SiteById(store.Snapshot(), siteId);
    if id.None? {
      return NotFound;
    }
    var code := CodeFor(store.Snapshot(), ProjectSiteCode, Some(store.sites[id.value].name));
    if code.Some? {
      store.codes := store.codes - {code.value};
    }
    store.sites := store.sites - {id.value};
    outcome := Ok;
  }

  /** The configuration upsert on the store. */
  method StoreConfig(store: State.Store, buildingType: string, site: Option<string>, blocks: int, units: int,
                     notes: string, now: int)
    requires store.Valid()
    modifies store
    ensures store.Valid()
    ensures store.Snapshot() == UpsertConfig(old(store.Snapshot()), buildingType, site, blocks, units, notes, now)
  {
    var c := ConfigFor(store.Snapshot(), buildingType, site);
    if c.Some? {
      store.configs := store.configs[c.value := store.configs[c.value].(blocks := blocks, unitsPerBlock := units,
                                                                         notes := Some(notes), updatedAt := now)];
    } else {
      var _ := store.AddConfig(BuildingTypeConfig(buildingType, blocks, units, Some(notes), site, now));
    }
  }

  method SaveBuildingConfig(store: State.Store, session: State.Session, buildingType: Option<string>,
                            blocks: Option<string>, units: Option<string>, notes: Option<string>, now: int)
    returns (outcome: Outcome)
    requires store.Valid()
    modifies store
    ensures store.Valid()
    ensures Step(outcome, store.Snapshot())
         == SaveConfigStep(old(store.Snapshot()), session.View(), buildingType, blocks, units, notes, now)
  {
    var b := FormInt(blocks);
    var u := FormInt(units);
    if b.None? || u.None? {
      return ServerError;
    }
    var n := notes.GetOr("");
    var site := UserProjectSite(session.View());
    if !Truthy(buildingType) {
      return Invalid("building_type");
    }
    StoreConfig(store, buildingType.value, site, b.value, u.value, n, now);
    outcome := Ok;
  }

  /** `clear_access_logs`: an administrator empties the access log; nothing else
      changes. */
  method ClearAccessLogs(store: State.Store, session: State.Session) returns (outcome: Outcome)
    requires store.Valid()
    modifies store
    ensures store.Valid()
    ensures outcome == Ok <==> IsAdmin(session.View())
    ensures outcome != Ok ==> outcome == PermissionDenied
    ensures store.Snapshot() == old(store.Snapshot()).(logs := if outcome == Ok then [] else old(store.logs))
  {
    if !IsAdmin(session.View()) {
      return PermissionDenied;
    }
    store.logs := [];
    outcome := Ok;
  }
}
