/** The request lifecycle of routes.py: `make_request`, `approve_request`,
    `reject_request`, `approve_reject_by_id` and `delete_request`. */
module Workflow {
  import opened Wrappers
  import opened Models
  import opened Strings
  import opened Utils
  import opened Tables
  import opened Scope
  import State

  // ---------------------------------------------------------------- make_request

  /** The fields of the request form as the handler reads them; an absent text
      field is "". */
  datatype RequestForm = RequestForm(
    itemId: string,
    qty: FormNumber,
    currentRate: FormNumber,
    note: string,
    section: string,
    buildingType: string,
    budget: string
  )

  /** The request a valid form files against `item`: the quantity defaults to 1,
      the rate to the item's unit cost (0 when it has none), the requester is the
      session's name and the site is the session's site. */
  function RequestOf(v: SessionView, f: RequestForm, itemId: int, item: Item, now: int): Request
    requires !f.qty.Malformed? && !f.currentRate.Malformed?
  {
    Request(f.section, itemId, FloatOr(f.qty, 1.0).value, v.userName.GetOr("Unknown"), Strip(f.note),
            Pending, None, Some(FloatOr(f.currentRate, item.unitCost.GetOr(0.0)).value),
            Some(f.buildingType), Some(f.budget), UserProjectSite(v), now, now)
  }

  /** The checks `make_request` makes: the item id, the stripped note, the
      section, the building type and the budget are given; the id parses and
      names an item; the quantity and rate parse. */
  predicate RequestAccepted(db: Db, f: RequestForm) {
    f.itemId != "" && !Blank(f.note) && f.section != "" && f.buildingType != "" && f.budget != ""
    && ParseInt(f.itemId).Some? && ParseInt(f.itemId).value in db.items
    && !f.qty.Malformed? && !f.currentRate.Malformed?
  }

  /** Why `make_request` refuses a form, in the order it checks. Only an id that
      parses but names no item is NotFound; every other refusal names a field. */
  function RequestRefusal(db: Db, f: RequestForm): (o: Outcome)
    requires !RequestAccepted(db, f)
    ensures o.Invalid? || o.NotFound?
    ensures o.NotFound? <==> f.itemId != "" && !Blank(f.note) && f.section != "" && f.buildingType != ""
                             && f.budget != "" && ParseInt(f.itemId).Some? && ParseInt(f.itemId).value !in db.items
  {
    if f.itemId == "" then Invalid("item_id")
    else if Blank(f.note) then Invalid("note")
    else if f.section == "" then Invalid("section")
    else if f.buildingType == "" then Invalid("building_type")
    else if f.budget == "" then Invalid("budget")
    else if ParseInt(f.itemId).None? then Invalid("item_id")
    else if ParseInt(f.itemId).value !in db.items then NotFound
    else if f.qty.Malformed? then Invalid("qty")
    else Invalid("current_rate")
  }

  /** Files the request of an accepted form; a requester who is not a global
      administrator also leaves one unread notification, addressed to no user,
      for all global administrators. */
  function FileRequest(db: Db, v: SessionView, f: RequestForm, now: int): (r: Db)
    requires RequestAccepted(db, f)
    ensures r.requests == db.requests[db.nextRequest := RequestOf(v, f, ParseInt(f.itemId).value, db.items[ParseInt(f.itemId).value], now)]
    ensures r.items == db.items && r.actuals == db.actuals && r.codes == db.codes
  {
    var itemId := ParseInt(f.itemId).value;
    var db1 := InsertRequest(db, RequestOf(v, f, itemId, db.items[itemId], now));
    if IsGlobal(v) then db1
    else InsertNotification(db1, Notification(NewRequest, None, Some(db.nextRequest), false))
  }

  /** The POST branch of `make_request`. Anyone may file a request; the item is
      looked up by id alone, whatever its site. */
  function MakeRequestStep(db: Db, v: SessionView, f: RequestForm, now: int): (s: Step)
    ensures s.outcome != Ok ==> s.db == db
    ensures s.outcome == Ok <==> RequestAccepted(db, f)
    ensures s.db == db.(requests := s.db.requests, nextRequest := s.db.nextRequest,
                        notifications := s.db.notifications, nextNotification := s.db.nextNotification)
  {
    if !RequestAccepted(db, f) then Step(RequestRefusal(db, f), db)
    else Step(Ok, FileRequest(db, v, f, now))
  }

  /** A refused form changes nothing. */
  lemma MakeRequestRefused(db: Db, v: SessionView, f: RequestForm, now: int)
    requires !RequestAccepted(db, f)
    ensures MakeRequestStep(db, v, f, now).outcome != Ok
    ensures MakeRequestStep(db, v, f, now).db == db
  {
  }

  /** An accepted form files exactly one new request under the next id: Pending,
      undecided, on the session's site, against the item the id names, with the
      stripped note, which is not empty. A requester who is not a global
      administrator also leaves exactly one unread notification that points at
      the new request; nothing else changes. */
  lemma MakeRequestFiles(db: Db, v: SessionView, f: RequestForm, now: int)
    requires RequestAccepted(db, f)
    ensures MakeRequestStep(db, v, f, now).outcome == Ok
    ensures var db' := MakeRequestStep(db, v, f, now).db;
      var r := db'.requests[db.nextRequest];
      r.itemId == ParseInt(f.itemId).value && r.itemId in db.items
      && r.status == Pending && r.approvedBy == None && r.projectSite == UserProjectSite(v)
      && r.note == Strip(f.note) && r.note != ""
      && db'.requests == db.requests[db.nextRequest := r]
      && db'.items == db.items && db'.actuals == db.actuals && db'.codes == db.codes
    ensures var db' := MakeRequestStep(db, v, f, now).db;
      IsGlobal(v) ==> db'.notifications == db.notifications
    ensures var db' := MakeRequestStep(db, v, f, now).db;
      !IsGlobal(v) ==>
        db'.notifications == db.notifications[db.nextNotification := Notification(NewRequest, None, Some(db.nextRequest), false)]
  {
    assert MakeRequestStep(db, v, f, now).db == FileRequest(db, v, f, now);
    StripBlank(f.note);
  }

  /** The defaults of the request form: an absent or empty quantity is 1, and an
      absent or empty rate is the item's unit cost, or 0 without one. */
  lemma MakeRequestDefaults(db: Db, v: SessionView, f: RequestForm, now: int)
    requires RequestAccepted(db, f)
    requires f.qty.Absent? || f.qty.Empty?
    requires f.currentRate.Absent? || f.currentRate.Empty?
    ensures var r := MakeRequestStep(db, v, f, now).db.requests[db.nextRequest];
      r.qty == 1.0 && r.currentPrice == Some(db.items[ParseInt(f.itemId).value].unitCost.GetOr(0.0))
  {
  }

  // ---------------------------------------------------------------- approve / reject

  /** The `notes` of the actual an approval records: "Request #<id>". */
  function RecordNote(id: int): string {
    "Request #" + IntToString(id)
  }

  /** The dedup key of approvals: an actual of the request's item whose notes
      name the request. */
  predicate RecordOf(a: Actual, itemId: int, id: int) {
    a.itemId == itemId && a.notes == Some(RecordNote(id))
  }

  /** Some actual carries the dedup key. */
  predicate Recorded(actuals: map<int, Actual>, itemId: int, id: int) {
    exists k :: k in actuals && RecordOf(actuals[k], itemId, id)
  }

  /** The `existing_actual` query: the first actual with the dedup key. */
  function ExistingRecord(db: Db, itemId: int, id: int): (r: Option<int>)
    ensures r.Some? ==> r.value in db.actuals && RecordOf(db.actuals[r.value], itemId, id)
    ensures KeysBelow(db.actuals, db.nextActual) ==> (r.Some? <==> Recorded(db.actuals, itemId, id))
  {
    First(db.actuals, (a: Actual) => RecordOf(a, itemId, id), db.nextActual)
  }

  /** The requester's user id: the first project-site code of the request's
      site, looked up only when that site is a non-empty name. */
  function SiteCode(db: Db, site: Option<string>): (r: Option<int>)
    ensures r.Some? ==> Truthy(site) && r.value in db.codes
                        && db.codes[r.value].codeType == ProjectSiteCode && db.codes[r.value].projectSite == site
  {
    if Truthy(site) then
      CodeFor(db, ProjectSiteCode, site)
    else None
  }

  /** `current_price or item.unit_cost or 0`: None when the fallback needs the
      item and the item is gone, where the handler raises. */
  function ApprovalPrice(db: Db, req: Request): (r: Option<real>)
    ensures NonZero(req.currentPrice) ==> r == req.currentPrice
    ensures r.None? <==> !NonZero(req.currentPrice) && req.itemId !in db.items
  {
    if NonZero(req.currentPrice) then req.currentPrice
    else if req.itemId !in db.items then None
    else if NonZero(db.items[req.itemId].unitCost) then db.items[req.itemId].unitCost
    else Some(0.0)
  }

  /** The day of a timestamp in seconds (`strftime('%Y-%m-%d')`). */
  function Day(t: int): int {
    t / 86400
  }

  /** The actual an approval records for a decided request. */
  function ApprovalActual(req: Request, id: int, price: real): Actual {
    Actual(req.itemId, req.qty, req.qty * price, Some(Day(req.createdAt)), req.approvedBy,
           Some(RecordNote(id)), req.projectSite)
  }

  /** The checks before a decision: the request must exist, and a session that
      is not global may decide only requests of its assigned site. */
  function RequestAccess(db: Db, v: SessionView, id: int): (o: Outcome)
    ensures o == Ok <==> id in db.requests && (IsGlobal(v) || db.requests[id].projectSite == AssignedProjectSite(v))
    ensures o == Ok || o == NotFound || o == PermissionDenied
  {
    if id !in db.requests then NotFound
    else if !IsGlobal(v) && db.requests[id].projectSite != AssignedProjectSite(v) then PermissionDenied
    else Ok
  }

  /** The request with its decision set. */
  function Decided(req: Request, approve: bool, approver: string, now: int): Request {
    req.(status := if approve then Approved else Rejected, approvedBy := Some(approver), updatedAt := now)
  }

  /** The actual an approval records, unless one with the dedup key exists. */
  function Record(db: Db, id: int, price: real): (r: Db)
    requires Valid(db) && id in db.requests
    ensures Valid(r) && r.requests == db.requests && r.items == db.items && r.codes == db.codes
    ensures Recorded(r.actuals, db.requests[id].itemId, id)
    ensures Recorded(db.actuals, db.requests[id].itemId, id) ==> r == db
    ensures !Recorded(db.actuals, db.requests[id].itemId, id) ==>
              r == InsertActual(db, ApprovalActual(db.requests[id], id, price))
  {
    var req := db.requests[id];
    if ExistingRecord(db, req.itemId, id).None? then
      var r := InsertActual(db, ApprovalActual(req, id, price));
      assert RecordOf(r.actuals[db.nextActual], req.itemId, id);
      r
    else db
  }

  /** The notification of a decision, to the user id of the request's site. The
      message names the item, so a request whose item is gone fails here, after
      the decision was committed. */
  function NotifySite(db: Db, id: int, approve: bool): (r: Step)
    requires id in db.requests
    ensures r.outcome == Ok || r.outcome == ServerError
    ensures r.db.requests == db.requests && r.db.items == db.items
    ensures r.db.actuals == db.actuals && r.db.nextActual == db.nextActual
    ensures r.db.codes == db.codes && r.db.sites == db.sites
    ensures Valid(db) ==> Valid(r.db)
    ensures var code := SiteCode(db, db.requests[id].projectSite);
      code.None? || code.value == 0 ==> r == Step(Ok, db)
    ensures var code := SiteCode(db, db.requests[id].projectSite);
      code.Some? && code.value != 0 && db.requests[id].itemId !in db.items ==> r == Step(ServerError, db)
    ensures var code := SiteCode(db, db.requests[id].projectSite);
      code.Some? && code.value != 0 && db.requests[id].itemId in db.items ==>
        r.outcome == Ok
        && r.db.notifications
           == db.notifications[db.nextNotification :=
                                 Notification(if approve then Approval else Rejection, code, Some(id), false)]
        && r.db.nextNotification == db.nextNotification + 1
  {
    var req := db.requests[id];
    var code := SiteCode(db, req.projectSite);
    if code.None? || code.value == 0 then Step(Ok, db)
    else if req.itemId !in db.items then Step(ServerError, db)
    else Step(Ok, InsertNotification(db, Notification(if approve then Approval else Rejection, code, Some(id), false)))
  }

  /** Deciding a request, once it may be decided: the status, the decider and
      the update time are set; an approval records an actual unless one with
      the dedup key exists; then the site is notified. An approval whose price
      needs a missing item fails before anything is committed. */
  function Decide(db: Db, id: int, approve: bool, approver: string, now: int): (s: Step)
    requires Valid(db) && id in db.requests
    ensures s.outcome == Ok || s.outcome == ServerError
    ensures s.db.items == db.items && s.db.codes == db.codes && s.db.sites == db.sites
    ensures !approve ==> s.db.actuals == db.actuals && s.db.nextActual == db.nextActual
  {
    var price := ApprovalPrice(db, db.requests[id]);
    if approve && price.None? then Step(ServerError, db)
    else
      var db1 := db.(requests := db.requests[id := Decided(db.requests[id], approve, approver, now)]);
      NotifySite(if approve then Record(db1, id, price.value) else db1, id, approve)
  }

  /** The access check, then the decision. */
  function CheckedDecide(db: Db, v: SessionView, id: int, approve: bool, approver: string, now: int): Step
    requires Valid(db)
  {
    if RequestAccess(db, v, id) != Ok then Step(RequestAccess(db, v, id), db)
    else Decide(db, id, approve, approver, now)
  }

  /** `approve_request`: administrators only; the decider is the session's name. */
  function ApproveStep(db: Db, v: SessionView, id: int, now: int): (s: Step)
    requires Valid(db)
    ensures s.outcome == PermissionDenied || s.outcome == NotFound ==> s.db == db
    ensures s.outcome == NotFound <==> IsAdmin(v) && id !in db.requests
    ensures s.db.items == db.items && s.db.codes == db.codes && s.db.sites == db.sites
  {
    if !IsAdmin(v) then Step(PermissionDenied, db)
    else CheckedDecide(db, v, id, true, v.userName.GetOr("Unknown"), now)
  }

  /** `reject_request`: as `approve_request`, without the actual. */
  function RejectStep(db: Db, v: SessionView, id: int, now: int): (s: Step)
    requires Valid(db)
    ensures s.outcome == PermissionDenied || s.outcome == NotFound ==> s.db == db
    ensures s.outcome == NotFound <==> IsAdmin(v) && id !in db.requests
    ensures s.db.items == db.items && s.db.codes == db.codes && s.db.sites == db.sites
    ensures s.db.actuals == db.actuals && s.db.nextActual == db.nextActual
  {
    if !IsAdmin(v) then Step(PermissionDenied, db)
    else CheckedDecide(db, v, id, false, v.userName.GetOr("Unknown"), now)
  }

  /** `approve_reject_by_id`: administrators only; the id comes from the form and
      must parse; the decider is the form's `approved_by`, else the session's
      name; an action other than "approve" or "reject" changes nothing. The
      handler catches every exception and reports it as an error. */
  function ApproveRejectByIdStep(db: Db, v: SessionView, requestId: string, action: string,
                                 approvedBy: Option<string>, now: int): (s: Step)
    requires Valid(db)
    ensures s.outcome == PermissionDenied || s.outcome == NotFound || s.outcome.Invalid? ==> s.db == db
    ensures action != "approve" ==> s.db.actuals == db.actuals && s.db.nextActual == db.nextActual
    ensures s.db.items == db.items && s.db.codes == db.codes && s.db.sites == db.sites
  {
    var approver := if Truthy(approvedBy) then approvedBy.value else v.userName.GetOr("Unknown");
    if !IsAdmin(v) then Step(PermissionDenied, db)
    else if requestId == "" || ParseInt(requestId).None? then Step(Invalid("request_id"), db)
    else
      var id := ParseInt(requestId).value;
      if RequestAccess(db, v, id) != Ok then Step(RequestAccess(db, v, id), db)
      else if action == "approve" then Decide(db, id, true, approver, now)
      else if action == "reject" then Decide(db, id, false, approver, now)
      else Step(Invalid("action"), db)
  }

  /** A decision sets the request's status, decider and update time and keeps
      every other field and every other request; it never touches items or
      codes. Only an approval whose price needs a missing item fails with
      nothing changed. */
  lemma DecideEffect(db: Db, id: int, approve: bool, approver: string, now: int)
    requires Valid(db) && id in db.requests
    ensures var step := Decide(db, id, approve, approver, now);
      if approve && ApprovalPrice(db, db.requests[id]).None? then step == Step(ServerError, db)
      else step.db.requests == db.requests[id := Decided(db.requests[id], approve, approver, now)]
           && step.db.requests[id].status == (if approve then Approved else Rejected)
           && step.db.items == db.items && step.db.codes == db.codes && Valid(step.db)
           && step.db.actuals
              == if approve && !Recorded(db.actuals, db.requests[id].itemId, id)
                 then db.actuals[db.nextActual := ApprovalActual(Decided(db.requests[id], approve, approver, now), id,
                                                                 ApprovalPrice(db, db.requests[id]).value)]
                 else db.actuals
  {
  }

  /** The dedup key at work: after an approval some actual carries the key; when
      one already did, the actuals are left as they were; otherwise exactly one
      actual is added, for the request's quantity at the approval price. */
  lemma ApproveRecordsOnce(db: Db, v: SessionView, id: int, now: int)
    requires Valid(db)
    requires ApproveStep(db, v, id, now).outcome == Ok
    ensures id in db.requests
    ensures var db' := ApproveStep(db, v, id, now).db;
      var r := db.requests[id];
      Recorded(db'.actuals, r.itemId, id)
      && (Recorded(db.actuals, r.itemId, id) ==> db'.actuals == db.actuals && db'.nextActual == db.nextActual)
      && (!Recorded(db.actuals, r.itemId, id) ==>
            db'.actuals == db.actuals[db.nextActual := db'.actuals[db.nextActual]]
            && db'.nextActual == db.nextActual + 1
            && db'.actuals[db.nextActual].itemId == r.itemId
            && db'.actuals[db.nextActual].actualQty == r.qty
            && db'.actuals[db.nextActual].actualCost == r.qty * ApprovalPrice(db, r).value
            && db'.actuals[db.nextActual].projectSite == r.projectSite)
  {
    var r := db.requests[id];
    var db1 := db.(requests := db.requests[id := Decided(r, true, v.userName.GetOr("Unknown"), now)]);
    assert db1.requests[id].itemId == r.itemId;
  }

  /** Approving twice records one actual: a second approval of the same request
      leaves the actuals as the first left them. */
  lemma ReapprovalAddsNoActual(db: Db, v: SessionView, id: int, now: int, later: int)
    requires Valid(db)
    requires ApproveStep(db, v, id, now).outcome == Ok
    ensures Valid(ApproveStep(db, v, id, now).db)
    ensures var db' := ApproveStep(db, v, id, now).db;
      ApproveStep(db', v, id, later).db.actuals == db'.actuals
  {
    ApproveRecordsOnce(db, v, id, now);
    DecideEffect(db, id, true, v.userName.GetOr("Unknown"), now);
    var db' := ApproveStep(db, v, id, now).db;
    assert db'.requests[id].itemId == db.requests[id].itemId;
    if ApproveStep(db', v, id, later).outcome == Ok {
      ApproveRecordsOnce(db', v, id, later);
    } else if IsAdmin(v) && RequestAccess(db', v, id) == Ok {
      DecideEffect(db', id, true, v.userName.GetOr("Unknown"), later);
    }
  }

  /** The notification a decision leaves, once it is committed: none when the
      request's site has no code or code 0; a 500 when the item is gone; else
      exactly one unread notification to the site's code, of the decision's
      kind and naming the request. */
  lemma DecisionNotifies(db: Db, id: int, approve: bool, approver: string, now: int)
    requires Valid(db) && id in db.requests
    requires !approve || ApprovalPrice(db, db.requests[id]).Some?
    ensures var step := Decide(db, id, approve, approver, now);
      var req := db.requests[id];
      var code := SiteCode(db, req.projectSite);
      (code.None? || code.value == 0 ==> step.outcome == Ok && step.db.notifications == db.notifications)
      && (code.Some? && code.value != 0 && req.itemId !in db.items ==> step.outcome == ServerError)
      && (code.Some? && code.value != 0 && req.itemId in db.items ==>
            step.outcome == Ok
            && step.db.notifications
               == db.notifications[db.nextNotification :=
                                     Notification(if approve then Approval else Rejection, code, Some(id), false)])
  {
    var req := db.requests[id];
    var db1 := db.(requests := db.requests[id := Decided(req, approve, approver, now)]);
    assert db1.requests[id].projectSite == req.projectSite && db1.requests[id].itemId == req.itemId;
    if approve {
      var db2 := Record(db1, id, ApprovalPrice(db, req).value);
      assert SiteCode(db2, req.projectSite) == SiteCode(db, req.projectSite);
    } else {
      assert SiteCode(db1, req.projectSite) == SiteCode(db, req.projectSite);
    }
  }

  /** Approving twice notifies twice: while the site has a nonzero code and the
      item exists, a second approval of the same request succeeds again and
      adds a second Approval notification, although it records no actual. */
  lemma ReapprovalNotifiesAgain(db: Db, v: SessionView, id: int, now: int, later: int)
    requires Valid(db) && id in db.requests
    requires ApproveStep(db, v, id, now).outcome == Ok
    requires var code := SiteCode(db, db.requests[id].projectSite);
      code.Some? && code.value != 0 && db.requests[id].itemId in db.items
    ensures Valid(ApproveStep(db, v, id, now).db)
    ensures var code := SiteCode(db, db.requests[id].projectSite);
      var note := Notification(Approval, code, Some(id), false);
      var db' := ApproveStep(db, v, id, now).db;
      var again := ApproveStep(db', v, id, later);
      db'.notifications == db.notifications[db.nextNotification := note]
      && again.outcome == Ok
      && again.db.notifications == db'.notifications[db'.nextNotification := note]
      && again.db.actuals == db'.actuals
  {
    var approver := v.userName.GetOr("Unknown");
    var req := db.requests[id];
    DecideEffect(db, id, true, approver, now);
    DecisionNotifies(db, id, true, approver, now);
    ReapprovalAddsNoActual(db, v, id, now, later);
    var db' := ApproveStep(db, v, id, now).db;
    assert db'.requests[id].projectSite == req.projectSite && db'.requests[id].itemId == req.itemId;
    assert SiteCode(db', req.projectSite) == SiteCode(db, req.projectSite);
    DecisionNotifies(db', id, true, approver, later);
  }

  /** A rejection never records an actual, and a successful one sets the status
      to Rejected. */
  lemma RejectRecordsNothing(db: Db, v: SessionView, id: int, now: int)
    requires Valid(db)
    ensures RejectStep(db, v, id, now).db.actuals == db.actuals
    ensures RejectStep(db, v, id, now).outcome == Ok ==> RejectStep(db, v, id, now).db.requests[id].status == Rejected
  {
    if IsAdmin(v) && RequestAccess(db, v, id) == Ok {
      DecideEffect(db, id, false, v.userName.GetOr("Unknown"), now);
    }
  }

  /** Only administrators decide, and a session that is not global may not
      decide a request of another site: such a call is refused and leaves the
      store as it was. */
  lemma DecisionRefused(db: Db, v: SessionView, id: int, now: int)
    requires Valid(db)
    requires !IsAdmin(v) || (id in db.requests && !IsGlobal(v) && db.requests[id].projectSite != AssignedProjectSite(v))
    ensures ApproveStep(db, v, id, now) == Step(PermissionDenied, db)
    ensures RejectStep(db, v, id, now) == Step(PermissionDenied, db)
  {
  }

  /** The by-id form, given any text that parses to the id and no
      `approved_by`, approves as `approve_request` does. */
  lemma ByIdApproveAgrees(db: Db, v: SessionView, requestId: string, id: int, now: int)
    requires Valid(db) && ParseInt(requestId) == Some(id)
    ensures ApproveRejectByIdStep(db, v, requestId, "approve", None, now) == ApproveStep(db, v, id, now)
  {
  }

  /** The by-id form, given any text that parses to the id and no
      `approved_by`, rejects as `reject_request` does. */
  lemma ByIdRejectAgrees(db: Db, v: SessionView, requestId: string, id: int, now: int)
    requires Valid(db) && ParseInt(requestId) == Some(id)
    ensures ApproveRejectByIdStep(db, v, requestId, "reject", None, now) == RejectStep(db, v, id, now)
  {
  }

  /** In particular for the id as `str` prints it. */
  lemma ByIdPrintedAgrees(db: Db, v: SessionView, id: int, now: int)
    requires Valid(db)
    ensures ApproveRejectByIdStep(db, v, IntToString(id), "approve", None, now) == ApproveStep(db, v, id, now)
    ensures ApproveRejectByIdStep(db, v, IntToString(id), "reject", None, now) == RejectStep(db, v, id, now)
  {
    ParseIntToString(id);
    ByIdApproveAgrees(db, v, IntToString(id), id, now);
    ByIdRejectAgrees(db, v, IntToString(id), id, now);
  }

  /** Tenant isolation for decisions: the decision on a request of `site`
      leaves the items, requests and actuals of every other site as they were. */
  lemma DecideIsolated(db: Db, id: int, approve: bool, approver: string, now: int, site: Option<string>)
    requires Valid(db) && id in db.requests && db.requests[id].projectSite == site
    ensures Isolated(db, Decide(db, id, approve, approver, now).db, site)
  {
    var price := ApprovalPrice(db, db.requests[id]);
    DecideEffect(db, id, approve, approver, now);
    if !(approve && price.None?) {
      var decided := Decided(db.requests[id], approve, approver, now);
      UpdateSameOutside(db.requests, id, decided, (r: Request) => r.projectSite, site);
      if approve && !Recorded(db.actuals, decided.itemId, id) {
        UpdateSameOutside(db.actuals, db.nextActual, ApprovalActual(decided, id, price.value), (a: Actual) => a.projectSite, site);
      }
    }
  }

  /** A site administrator's approval or rejection leaves every other site's
      items, requests and actuals as they were. */
  lemma DecisionIsolated(db: Db, v: SessionView, id: int, now: int)
    requires Valid(db) && !IsGlobal(v) && Truthy(v.assignedProjectSite)
    ensures Isolated(db, ApproveStep(db, v, id, now).db, v.assignedProjectSite)
    ensures Isolated(db, RejectStep(db, v, id, now).db, v.assignedProjectSite)
  {
    if IsAdmin(v) && RequestAccess(db, v, id) == Ok {
      DecideIsolated(db, id, true, v.userName.GetOr("Unknown"), now, v.assignedProjectSite);
      DecideIsolated(db, id, false, v.userName.GetOr("Unknown"), now, v.assignedProjectSite);
    }
  }

  // ---------------------------------------------------------------- delete_request

  /** The notifications that do not refer to request `id`. */
  function Unrelated(m: map<int, Notification>, id: int): (r: map<int, Notification>)
    ensures forall k :: k in r <==> k in m && m[k].requestId != Some(id)
    ensures forall k :: k in r ==> r[k] == m[k]
  {
    map k | k in m && m[k].requestId != Some(id) :: m[k]
  }

  /** Who may delete a request: a global administrator any; any other session
      only one of its assigned site, and then as an administrator or as the
      requester of a decided request. */
  predicate MayDelete(v: SessionView, req: Request) {
    IsGlobal(v)
    || (req.projectSite == AssignedProjectSite(v)
        && (IsAdmin(v) || (v.userName == Some(req.requestedBy) && (req.status == Approved || req.status == Rejected))))
  }

  /** `delete_request`: no role is required. The request's notifications go with it. */
  function DeleteRequestStep(db: Db, v: SessionView, id: int): (s: Step)
    ensures s.outcome != Ok ==> s.db == db
    ensures s.outcome == NotFound <==> id !in db.requests
    ensures s.db == db.(requests := s.db.requests, notifications := s.db.notifications)
    ensures s.db.requests.Keys <= db.requests.Keys && s.db.notifications.Keys <= db.notifications.Keys
  {
    if id !in db.requests then Step(NotFound, db)
    else if !MayDelete(v, db.requests[id]) then Step(PermissionDenied, db)
    else Step(Ok, db.(notifications := Unrelated(db.notifications, id), requests := db.requests - {id}))
  }

  /** A request still pending can be deleted by its requester only when the
      requester is an administrator of its site or global; a deletion cascades:
      no notification of the request survives and every other one does, and
      nothing but the request and its notifications changes. */
  lemma DeleteRequestEffect(db: Db, v: SessionView, id: int)
    requires id in db.requests
    ensures db.requests[id].status == Pending && !IsAdmin(v) && !IsGlobal(v) ==> DeleteRequestStep(db, v, id).outcome == PermissionDenied
    ensures var db' := DeleteRequestStep(db, v, id).db;
      DeleteRequestStep(db, v, id).outcome == Ok ==>
        id !in db'.requests && db'.requests == db.requests - {id}
        && (forall k :: k in db'.notifications ==> db'.notifications[k].requestId != Some(id))
        && (forall k :: k in db.notifications && db.notifications[k].requestId != Some(id) ==>
              k in db'.notifications && db'.notifications[k] == db.notifications[k])
        && db'.items == db.items && db'.actuals == db.actuals && db'.codes == db.codes
    ensures DeleteRequestStep(db, v, id).outcome != Ok ==> DeleteRequestStep(db, v, id).db == db
  {
  }

  /** A site administrator deletes only requests of its own site. */
  lemma DeleteRequestIsolated(db: Db, v: SessionView, id: int)
    requires !IsGlobal(v) && Truthy(v.assignedProjectSite)
    ensures Isolated(db, DeleteRequestStep(db, v, id).db, v.assignedProjectSite)
  {
    var step := DeleteRequestStep(db, v, id);
    if step.outcome == Ok {
      assert db.requests[id].projectSite == v.assignedProjectSite;
      assert step.db == db.(notifications := Unrelated(db.notifications, id), requests := db.requests - {id});
    } else {
      assert step.db == db;
    }
  }

  // ---------------------------------------------------------------- handlers

  method MakeRequest(store: State.Store, session: State.Session, f: RequestForm, now: int) returns (outcome: Outcome)
    requires store.Valid()
    modifies store
    ensures store.Valid()
    ensures Step(outcome, store.Snapshot()) == MakeRequestStep(old(store.Snapshot()), session.View(), f, now)
  {
    var v := session.View();
    outcome := ValidateRequestForm(store, f);
    if outcome == Ok {
      var itemId := ParseInt(f.itemId).value;
      var reqId := store.AddRequest(RequestOf(v, f, itemId, store.items[itemId], now));
      if !IsGlobal(v) {
        var _ := store.AddNotification(Notification(NewRequest, None, Some(reqId), false));
      }
    }
  }

  /** The checks `make_request` makes, in its order. They are kept as
      statements with early returns, the way the handler runs them, and the
      contract proves that chain refuses exactly as `RequestRefusal`, the
      function `MakeRequestStep` is specified by. */
  method ValidateRequestForm(store: State.Store, f: RequestForm) returns (outcome: Outcome)
    ensures outcome == Ok <==> RequestAccepted(store.Snapshot(), f)
    ensures outcome != Ok ==> outcome == RequestRefusal(store.Snapshot(), f)
  {
    if f.itemId == "" {
      return Invalid("item_id");
    } else if Blank(f.note) {
      return Invalid("note");
    } else if f.section == "" {
      return Invalid("section");
    } else if f.buildingType == "" {
      return Invalid("building_type");
    } else if f.budget == "" {
      return Invalid("budget");
    }
    var id := ParseInt(f.itemId);
    if id.None? {
      return Invalid("item_id");
    } else if id.value !in store.items {
      return NotFound;
    } else if f.qty.Malformed? {
      return Invalid("qty");
    } else if f.currentRate.Malformed? {
      return Invalid("current_rate");
    }
    return Ok;
  }

  /** Sets the decision on the request, records the actual and notifies the
      site, as `Decide` states. */
  method ApplyDecision(store: State.Store, id: int, approve: bool, approver: string, now: int) returns (outcome: Outcome)
    requires store.Valid() && id in store.requests
    modifies store
    ensures store.Valid()
    ensures Step(outcome, store.Snapshot()) == Decide(old(store.Snapshot()), id, approve, approver, now)
  {
    var req := store.requests[id];
    var price := ApprovalPrice(store.Snapshot(), req);
    if approve && price.None? {
      return ServerError;
    }
    store.requests := store.requests[id := Decided(req, approve, approver, now)];
    if approve && ExistingRecord(store.Snapshot(), req.itemId, id).None? {
      var _ := store.AddActual(ApprovalActual(store.requests[id], id, price.value));
    }
    var code := SiteCode(store.Snapshot(), req.projectSite);
    if code.None? || code.value == 0 {
      return Ok;
    } else if req.itemId !in store.items {
      return ServerError;
    }
    var _ := store.AddNotification(Notification(if approve then Approval else Rejection, code, Some(id), false));
    outcome := Ok;
  }

  method ApproveRequest(store: State.Store, session: State.Session, id: int, now: int) returns (outcome: Outcome)
    requires store.Valid()
    modifies store
    ensures store.Valid()
    ensures Step(outcome, store.Snapshot()) == ApproveStep(old(store.Snapshot()), session.View(), id, now)
  {
    var v := session.View();
    if !IsAdmin(v) {
      return PermissionDenied;
    }
    outcome := RequestAccess(store.Snapshot(), v, id);
    if outcome == Ok {
      outcome := ApplyDecision(store, id, true, v.userName.GetOr("Unknown"), now);
    }
  }

  method RejectRequest(store: State.Store, session: State.Session, id: int, now: int) returns (outcome: Outcome)
    requires store.Valid()
    modifies store
    ensures store.Valid()
    ensures Step(outcome, store.Snapshot()) == RejectStep(old(store.Snapshot()), session.View(), id, now)
  {
    var v := session.View();
    if !IsAdmin(v) {
      return PermissionDenied;
    }
    outcome := RequestAccess(store.Snapshot(), v, id);
    if outcome == Ok {
      outcome := ApplyDecision(store, id, false, v.userName.GetOr("Unknown"), now);
    }
  }

  method ApproveRejectById(store: State.Store, session: State.Session, requestId: string, action: string,
                           approvedBy: Option<string>, now: int) returns (outcome: Outcome)
    requires store.Valid()
    modifies store
    ensures store.Valid()
    ensures Step(outcome, store.Snapshot())
         == ApproveRejectByIdStep(old(store.Snapshot()), session.View(), requestId, action, approvedBy, now)
  {
    var v := session.View();
    if !IsAdmin(v) {
      return PermissionDenied;
    }
    var approver := if Truthy(approvedBy) then approvedBy.value else v.userName.GetOr("Unknown");
    if requestId == "" {
      return Invalid("request_id");
    }
    var id := ParseInt(requestId);
    if id.None? {
      return Invalid("request_id");
    }
    outcome := RequestAccess(store.Snapshot(), v, id.value);
    if outcome != Ok {
      return;
    }
    if action == "approve" {
      outcome := ApplyDecision(store, id.value, true, approver, now);
    } else if action == "reject" {
      outcome := ApplyDecision(store, id.value, false, approver, now);
    } else {
      outcome := Invalid("action");
    }
  }

  method DeleteRequest(store: State.Store, session: State.Session, id: int) returns (outcome: Outcome)
    requires store.Valid()
    modifies store
    ensures store.Valid()
    ensures Step(outcome, store.Snapshot()) == DeleteRequestStep(old(store.Snapshot()), session.View(), id)
  {
    var v := session.View();
    if id !in store.requests {
      return NotFound;
    }
    if !MayDelete(v, store.requests[id]) {
      return PermissionDenied;
    }
    // the related notifications, one by one in id order
    ghost var before := store.notifications;
    var k := 1;
    while k < store.nextNotification
      invariant 1 <= k <= store.nextNotification
      invariant store.Snapshot() == old(store.Snapshot()).(notifications := store.notifications)
      invariant forall j :: j in before ==> j < store.nextNotification
      invariant forall j :: j in store.notifications <==> j in before && (j >= k || before[j].requestId != Some(id))
      invariant forall j :: j in store.notifications ==> store.notifications[j] == before[j]
    {
      if k in store.notifications && store.notifications[k].requestId == Some(id) {
        store.notifications := store.notifications - {k};
      }
      k := k + 1;
    }
    assert forall j :: j in store.notifications <==> j in Unrelated(before, id);
    assert store.notifications == Unrelated(before, id);
    store.requests := store.requests - {id};
    outcome := Ok;
  }
}
