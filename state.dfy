/** The two pieces of mutable state the handlers work on: the database session
    (one field per table) and the Flask login session (one field per key). */
module State {
  import opened Wrappers
  import opened Models
  import opened Tables
  import opened Scope

  /** The Flask session of one browser. */
  class Session {
    var userId: Option<int>
    var userRole: Option<string>
    var userName: Option<string>
    var isGlobalAdmin: Option<bool>
    var projectSite: Option<string>
    var assignedProjectSite: Option<string>
    var sessionToken: Option<string>

    function View(): SessionView
      reads this
    {
      SessionView(userId, userRole, userName, isGlobalAdmin, projectSite, assignedProjectSite, sessionToken)
    }

    /** A fresh, empty session. */
    constructor ()
      ensures View() == Cleared
    {
      userId, userRole, userName, isGlobalAdmin := None, None, None, None;
      projectSite, assignedProjectSite, sessionToken := None, None, None;
    }

    /** `session.clear()`: every key removed. */
    method Clear()
      modifies this
      ensures View() == Cleared
    {
      userId, userRole, userName, isGlobalAdmin := None, None, None, None;
      projectSite, assignedProjectSite, sessionToken := None, None, None;
    }
  }

  /** The database, table by table. */
  class Store {
    var items: map<int, Item>
    var nextItem: int
    var requests: map<int, Request>
    var nextRequest: int
    var notifications: map<int, Notification>
    var nextNotification: int
    var actuals: map<int, Actual>
    var nextActual: int
    var sites: map<int, ProjectSite>
    var nextSite: int
    var codes: map<int, AccessCode>
    var nextCode: int
    var configs: map<int, BuildingTypeConfig>
    var nextConfig: int
    var logs: seq<AccessLog>

    /** The tables as one value. */
    function Snapshot(): Db
      reads this
    {
      Db(items, nextItem, requests, nextRequest, notifications, nextNotification,
         actuals, nextActual, sites, nextSite, codes, nextCode, configs, nextConfig, logs)
    }

    ghost predicate Valid()
      reads this
    {
      Tables.Valid(Snapshot())
    }

    /** The database as `init_db` leaves it: only the default global code. */
    constructor (defaultHash: Hash)
      ensures Snapshot() == InitialDb(defaultHash) && Valid()
    {
      items, nextItem, requests, nextRequest := map[], 1, map[], 1;
      notifications, nextNotification, actuals, nextActual := map[], 1, map[], 1;
      sites, nextSite := map[], 1;
      codes := map[1 := AccessCode(GlobalAdminCode, None, defaultHash, Some("admin123"), 0)];
      nextCode := 2;
      configs, nextConfig, logs := map[], 1, [];
    }

    /** `db.session.add(...)` of a new item: it receives the next id. */
    method AddItem(item: Item) returns (id: int)
      requires Valid()
      modifies this
      ensures Valid() && id == old(nextItem)
      ensures Snapshot() == InsertItem(old(Snapshot()), item)
    {
      id := nextItem;
      items := items[id := item];
      nextItem := id + 1;
    }

    method AddRequest(req: Request) returns (id: int)
      requires Valid()
      modifies this
      ensures Valid() && id == old(nextRequest)
      ensures Snapshot() == InsertRequest(old(Snapshot()), req)
    {
      id := nextRequest;
      requests := requests[id := req];
      nextRequest := id + 1;
    }

    method AddNotification(n: Notification) returns (id: int)
      requires Valid()
      modifies this
      ensures Valid() && id == old(nextNotification)
      ensures Snapshot() == InsertNotification(old(Snapshot()), n)
    {
      id := nextNotification;
      notifications := notifications[id := n];
      nextNotification := id + 1;
    }

    method AddActual(a: Actual) returns (id: int)
      requires Valid()
      modifies this
      ensures Valid() && id == old(nextActual)
      ensures Snapshot() == InsertActual(old(Snapshot()), a)
    {
      id := nextActual;
      actuals := actuals[id := a];
      nextActual := id + 1;
    }

    method AddSite(site: ProjectSite) returns (id: int)
      requires Valid()
      modifies this
      ensures Valid() && id == old(nextSite)
      ensures Snapshot() == InsertSite(old(Snapshot()), site)
    {
      id := nextSite;
      sites := sites[id := site];
      nextSite := id + 1;
    }

    method AddCode(code: AccessCode) returns (id: int)
      requires Valid()
      modifies this
      ensures Valid() && id == old(nextCode)
      ensures Snapshot() == InsertCode(old(Snapshot()), code)
    {
      id := nextCode;
      codes := codes[id := code];
      nextCode := id + 1;
    }

    method AddConfig(config: BuildingTypeConfig) returns (id: int)
      requires Valid()
      modifies this
      ensures Valid() && id == old(nextConfig)
      ensures Snapshot() == InsertConfig(old(Snapshot()), config)
    {
      id := nextConfig;
      configs := configs[id := config];
      nextConfig := id + 1;
    }
  }
}
