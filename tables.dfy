/** The database as in-memory tables keyed by integer primary key, plus the form
    inputs and the outcome kinds every route handler shares. */
module Tables {
  import opened Wrappers
  import opened Models
  import opened Strings

  /** What a route handler reports back: success or the kind of refusal. The
      flash texts, redirects and HTTP status codes are abstracted to these kinds. */
  datatype Outcome =
    | Ok
    | PermissionDenied
    | NotFound
    | Invalid(field: string)    // a missing or unparsable form field
    | Duplicate(field: string)  // a unique value already taken
    | Unauthenticated           // no `user_id` in the session
    | ServerError               // an exception aborted the handler

  /** A numeric form field as `float(...)` sees it: absent from the form, present
      but empty, a number, or text that does not parse (the `ValueError` case). */
  datatype FormNumber = Absent | Empty | Number(value: real) | Malformed

  /** `float(x) if x else default`; None is the `ValueError` case. */
  function FloatOr(x: FormNumber, default: real): (r: Option<real>)
    ensures r.None? <==> x.Malformed?
    ensures x.Number? ==> r == Some(x.value)
    ensures x.Absent? || x.Empty? ==> r == Some(default)
  {
    match x
    case Absent => Some(default)
    case Empty => Some(default)
    case Number(v) => Some(v)
    case Malformed => None
  }

  /** Every table of the store. Each `next*` counter is the id the next insert
      into that table receives; ids are never reused. The access log is kept in
      insertion order. */
  datatype Db = Db(
    items: map<int, Item>, nextItem: int,
    requests: map<int, Request>, nextRequest: int,
    notifications: map<int, Notification>, nextNotification: int,
    actuals: map<int, Actual>, nextActual: int,
    sites: map<int, ProjectSite>, nextSite: int,
    codes: map<int, AccessCode>, nextCode: int,
    configs: map<int, BuildingTypeConfig>, nextConfig: int,
    logs: seq<AccessLog>
  )

  /** The keys of a table are ids handed out so far: all in [1, next). */
  predicate KeysBelow<R>(m: map<int, R>, next: int) {
    next >= 1 && forall k :: k in m ==> 1 <= k < next
  }

  predicate Valid(db: Db) {
    KeysBelow(db.items, db.nextItem) && KeysBelow(db.requests, db.nextRequest)
    && KeysBelow(db.notifications, db.nextNotification) && KeysBelow(db.actuals, db.nextActual)
    && KeysBelow(db.sites, db.nextSite) && KeysBelow(db.codes, db.nextCode)
    && KeysBelow(db.configs, db.nextConfig)
  }

  /** The row with the smallest id in [lo, hi) that satisfies the filter. */
  function FirstIn<R>(m: map<int, R>, p: R -> bool, lo: int, hi: int): (r: Option<int>)
    ensures r.Some? ==> lo <= r.value < hi && r.value in m && p(m[r.value])
    ensures r.Some? ==> forall k :: lo <= k < r.value && k in m ==> !p(m[k])
    ensures r.None? ==> forall k :: lo <= k < hi && k in m ==> !p(m[k])
    decreases hi - lo
  {
    if lo >= hi then None
    else if lo in m && p(m[lo]) then Some(lo)
    else FirstIn(m, p, lo + 1, hi)
  }

  /** `query.filter_by(...).first()`: the row with the smallest id that satisfies
      the filter, for a table whose ids lie below `next`. */
  function First<R>(m: map<int, R>, p: R -> bool, next: int): (r: Option<int>)
    ensures r.Some? ==> r.value in m && p(m[r.value])
    ensures KeysBelow(m, next) && r.Some? ==> forall k :: k in m && p(m[k]) ==> r.value <= k
    ensures KeysBelow(m, next) ==> (r.None? <==> forall k :: k in m ==> !p(m[k]))
  {
    FirstIn(m, p, 1, next)
  }

  /** The number of rows that satisfy a filter (`query.filter(...).count()`). */
  function Count<R>(m: map<int, R>, p: R -> bool): nat {
    |set k | k in m && p(m[k])|
  }

  /** Rows that satisfy a filter, with their ids. */
  function Where<R>(m: map<int, R>, p: R -> bool): (r: map<int, R>)
    ensures forall k :: k in r <==> k in m && p(m[k])
    ensures forall k :: k in r ==> r[k] == m[k]
  {
    map k | k in m && p(m[k]) :: m[k]
  }

  /** `query.filter(...).delete()`: every row that satisfies the filter removed. */
  function DeleteWhere<R>(m: map<int, R>, p: R -> bool): (r: map<int, R>)
    ensures forall k :: k in r <==> k in m && !p(m[k])
    ensures forall k :: k in r ==> r[k] == m[k]
  {
    map k | k in m && !p(m[k]) :: m[k]
  }

  /** `db.session.add(row)` followed by a commit: the row receives the next id
      of its table. */
  function InsertItem(db: Db, x: Item): Db {
    db.(items := db.items[db.nextItem := x], nextItem := db.nextItem + 1)
  }

  function InsertRequest(db: Db, x: Request): Db {
    db.(requests := db.requests[db.nextRequest := x], nextRequest := db.nextRequest + 1)
  }

  function InsertNotification(db: Db, x: Notification): Db {
    db.(notifications := db.notifications[db.nextNotification := x], nextNotification := db.nextNotification + 1)
  }

  function InsertActual(db: Db, x: Actual): Db {
    db.(actuals := db.actuals[db.nextActual := x], nextActual := db.nextActual + 1)
  }

  function InsertSite(db: Db, x: ProjectSite): Db {
    db.(sites := db.sites[db.nextSite := x], nextSite := db.nextSite + 1)
  }

  function InsertCode(db: Db, x: AccessCode): Db {
    db.(codes := db.codes[db.nextCode := x], nextCode := db.nextCode + 1)
  }

  function InsertConfig(db: Db, x: BuildingTypeConfig): Db {
    db.(configs := db.configs[db.nextConfig := x], nextConfig := db.nextConfig + 1)
  }

  /** The first access code of one kind for one site (`AccessCode.query.filter_by(
      code_type=..., project_site=...).first()`); a None site is `IS NULL`. */
  function CodeFor(db: Db, kind: CodeType, site: Option<string>): (r: Option<int>)
    ensures r.Some? ==> r.value in db.codes && db.codes[r.value].codeType == kind && db.codes[r.value].projectSite == site
    ensures KeysBelow(db.codes, db.nextCode) && r.Some? ==>
              forall k :: k in db.codes && db.codes[k].codeType == kind && db.codes[k].projectSite == site ==> r.value <= k
    ensures KeysBelow(db.codes, db.nextCode) ==>
              (r.None? <==> forall k :: k in db.codes ==> !(db.codes[k].codeType == kind && db.codes[k].projectSite == site))
  {
    First(db.codes, (c: AccessCode) => c.codeType == kind && c.projectSite == site, db.nextCode)
  }

  /** No two rows of a table share a key. */
  predicate UniqueBy<R, K(==)>(m: map<int, R>, key: R -> K) {
    forall i, j :: i in m && j in m && key(m[i]) == key(m[j]) ==> i == j
  }

  /** Overwriting the row that holds a key, or adding a row under a key no row
      holds, keeps the keys unique. */
  lemma UpsertKeepsUnique<R, K>(m: map<int, R>, k: int, x: R, key: R -> K)
    requires UniqueBy(m, key)
    requires k in m ==> key(m[k]) == key(x)
    requires k !in m ==> forall j :: j in m ==> key(m[j]) != key(x)
    ensures UniqueBy(m[k := x], key)
  {
  }

  /** Giving an existing row a key that no other row holds keeps the keys unique. */
  lemma RekeyKeepsUnique<R, K>(m: map<int, R>, k: int, x: R, key: R -> K)
    requires UniqueBy(m, key) && k in m
    requires forall j :: j in m && j != k ==> key(m[j]) != key(x)
    ensures UniqueBy(m[k := x], key)
  {
  }

  /** What a handler does: its outcome and the database it leaves behind. */
  datatype Step = Step(outcome: Outcome, db: Db)

  /** One table agrees in two states on every row whose site differs from `site`:
      such rows are neither removed, nor changed, nor added. */
  predicate SameOutside<R(==)>(m: map<int, R>, m': map<int, R>, siteOf: R -> Option<string>, site: Option<string>) {
    (forall k :: k in m && siteOf(m[k]) != site ==> k in m' && m'[k] == m[k])
    && (forall k :: k in m' && siteOf(m'[k]) != site ==> k in m && m[k] == m'[k])
  }

  /** Deleting only rows of `site` leaves every other site's rows in place. */
  lemma DeleteWhereSameOutside<R>(m: map<int, R>, p: R -> bool, siteOf: R -> Option<string>, site: Option<string>)
    requires forall x :: p(x) ==> siteOf(x) == site
    ensures SameOutside(m, DeleteWhere(m, p), siteOf, site)
  {
  }

  /** Writing a row of `site` under a key that is free or holds a row of `site`
      leaves every other site's rows in place. */
  lemma UpdateSameOutside<R>(m: map<int, R>, k: int, x: R, siteOf: R -> Option<string>, site: Option<string>)
    requires k in m ==> siteOf(m[k]) == site
    requires siteOf(x) == site
    ensures SameOutside(m, m[k := x], siteOf, site)
  {
  }

  /** The site-scoped tables (items, requests, actuals) agree in two states
      outside one site. */
  predicate Isolated(db: Db, db': Db, site: Option<string>) {
    SameOutside(db.items, db'.items, (i: Item) => i.projectSite, site)
    && SameOutside(db.requests, db'.requests, (r: Request) => r.projectSite, site)
    && SameOutside(db.actuals, db'.actuals, (a: Actual) => a.projectSite, site)
  }

  /** The state `init_db` leaves behind on an empty database: one global
      administrator code, 'admin123', under the hash `defaultHash`. */
  function InitialDb(defaultHash: Hash): (db: Db)
    ensures Valid(db)
    ensures db.codes == map[1 := AccessCode(GlobalAdminCode, None, defaultHash, Some("admin123"), 0)]
    ensures db.items == map[] && db.requests == map[] && db.notifications == map[] && db.actuals == map[]
  {
    Db(map[], 1, map[], 1, map[], 1, map[], 1, map[], 1,
       map[1 := AccessCode(GlobalAdminCode, None, defaultHash, Some("admin123"), 0)], 2,
       map[], 1, [])
  }
}
