/** The item handlers of routes.py: creation in `manual_entry`, `edit_item`,
    `delete_item` and `delete_all_inventory`, each checked against the session's
    project-site scope. */
module Inventory {
  import opened Wrappers
  import opened Models
  import opened Strings
  import opened Utils
  import opened Tables
  import opened Scope
  import State

  /** The fields of the manual-entry form, stripped or not as the handler does;
      an absent text field is "", except `category`, which is None when absent
      and then defaults to "Materials". */
  datatype ItemForm = ItemForm(
    name: string,
    qty: FormNumber,
    unit: string,
    unitCost: FormNumber,
    category: Option<string>,
    budget: string,
    section: string,
    buildingType: string
  )

  /** `float(request.form.get(key, current))`: an absent field keeps the current
      value, while an empty one fails to parse like any other non-number. */
  function FloatOrCurrent(x: FormNumber, current: real): Option<real> {
    match x
    case Absent => Some(current)
    case Number(v) => Some(v)
    case Empty => None
    case Malformed => None
  }

  /** The item a valid form creates. */
  function NewItem(v: SessionView, f: ItemForm, qty: real, unitCost: real): Item {
    var budget := Strip(f.budget);
    var category := f.category.GetOr("Materials");
    Item(None, Strip(f.name), Lower(category), Some(Strip(f.unit)), qty, Some(unitCost),
         Some(budget), Some(Strip(f.section)), Some(DetermineGroup(category, Some(budget))),
         Some(Strip(f.buildingType)), UserProjectSite(v))
  }

  /** An administrator's form with all four text fields filled in and both
      numbers parseable. */
  predicate FormAccepted(v: SessionView, f: ItemForm) {
    IsAdmin(v) && !Blank(f.name) && !Blank(f.budget) && !Blank(f.buildingType)
    && !Blank(f.section) && f.qty != Malformed && f.unitCost != Malformed
  }

  /** Why `manual_entry` refuses a form: only an administrator's form is
      processed; the name, budget, building type and section are checked in
      that order, then the two numbers are parsed. */
  function FormRefusal(v: SessionView, f: ItemForm): (o: Outcome)
    requires !FormAccepted(v, f)
    ensures o != Ok
    ensures o == PermissionDenied <==> !IsAdmin(v)
  {
    if !IsAdmin(v) then PermissionDenied
    else if Blank(f.name) then Invalid("name")
    else if Blank(f.budget) then Invalid("budget")
    else if Blank(f.buildingType) then Invalid("building_type")
    else if Blank(f.section) then Invalid("section")
    else if f.qty.Malformed? then Invalid("qty")
    else Invalid("unit_cost")
  }

  /** The POST branch of `manual_entry`: a refused form changes nothing; an
      accepted one adds an item on the session's project site. */
  function CreateItemStep(db: Db, v: SessionView, f: ItemForm): (s: Step)
    ensures s.outcome != Ok ==> s.db == db
    ensures s.outcome == Ok <==> FormAccepted(v, f)
    ensures s.db == db.(items := s.db.items, nextItem := s.db.nextItem)
  {
    if !FormAccepted(v, f) then Step(FormRefusal(v, f), db)
    else
      var item := NewItem(v, f, FloatOr(f.qty, 0.0).value, FloatOr(f.unitCost, 0.0).value);
      Step(Ok, InsertItem(db, item))
  }

  /** A refused form changes nothing; the refusal is PermissionDenied exactly
      for a session that is not an administrator's. */
  lemma CreateItemRefused(db: Db, v: SessionView, f: ItemForm)
    requires !FormAccepted(v, f)
    ensures CreateItemStep(db, v, f).outcome != Ok
    ensures CreateItemStep(db, v, f).db == db
    ensures CreateItemStep(db, v, f).outcome == PermissionDenied <==> !IsAdmin(v)
  {
  }

  /** An accepted form adds exactly one item, under the next id; the item
      carries the session's site, a group from the budget's subgroup or the
      category, the category in lower case ("materials" when the form has
      none), and the parsed numbers, a blank or absent one counting as 0. */
  lemma CreateItemAdds(db: Db, v: SessionView, f: ItemForm)
    requires FormAccepted(v, f)
    ensures CreateItemStep(db, v, f).outcome == Ok
    ensures var db' := CreateItemStep(db, v, f).db;
      var item := db'.items[db.nextItem];
      db' == InsertItem(db, item)
      && item.projectSite == UserProjectSite(v) && item.grp.value in Groups
      && item.name == Strip(f.name) && item.budget == Some(Strip(f.budget))
      && (f.category.Some? ==> item.category == Lower(f.category.value))
      && (f.category.None? ==> item.category == "materials")
      && (f.qty.Number? ==> item.qty == f.qty.value) && (!f.qty.Number? ==> item.qty == 0.0)
      && (f.unitCost.Number? ==> item.unitCost == Some(f.unitCost.value))
      && (!f.unitCost.Number? ==> item.unitCost == Some(0.0))
  {
    DefaultCategory();
  }

  /** The default category, lowered as the handler stores it. */
  lemma DefaultCategory()
    ensures Lower("Materials") == "materials"
  {
    var r := Lower("Materials");
    assert r[0] == LowerChar('M');
  }

  /** The creator sees the item it created, whenever its scope site is a real
      site name or no site at all. */
  lemma CreatedItemInScope(db: Db, v: SessionView, f: ItemForm)
    requires CreateItemStep(db, v, f).outcome == Ok
    requires UserProjectSite(v) != Some("")
    ensures InScope(v, CreateItemStep(db, v, f).db.items[db.nextItem].projectSite)
  {
    if !FormAccepted(v, f) {
      CreateItemRefused(db, v, f);
    } else {
      CreateItemAdds(db, v, f);
    }
  }

  /** `edit_item` (POST): administrators only; a missing id is NotFound; an item
      outside the session's truthy scope site is refused; then the quantity and
      unit cost are replaced. */
  function EditItemStep(db: Db, v: SessionView, id: int, newQty: FormNumber, newUnitCost: FormNumber): (s: Step)
    ensures s.outcome != Ok ==> s.db == db
    ensures s.outcome == NotFound <==> IsAdmin(v) && id !in db.items
    ensures s.db == db.(items := s.db.items) && s.db.items.Keys == db.items.Keys
  {
    if !IsAdmin(v) then Step(PermissionDenied, db)
    else if id !in db.items then Step(NotFound, db)
    else
      var item := db.items[id];
      var site := UserProjectSite(v);
      if Truthy(site) && item.projectSite != site then Step(PermissionDenied, db)
      else
        var q := FloatOrCurrent(newQty, item.qty);
        var c := FloatOrCurrent(newUnitCost, item.unitCost.GetOr(0.0));
        if q.None? then Step(Invalid("new_qty"), db)
        else if c.None? then Step(Invalid("new_unit_cost"), db)
        else Step(Ok, db.(items := db.items[id := item.(qty := q.value, unitCost := Some(c.value))]))
  }

  /** An edit changes only the edited item's quantity and unit cost, and the new
      amount is their product. A given number replaces the field; an absent
      quantity keeps the old one, and an absent unit cost stores the old one or
      0 when the item had none (`item.unit_cost or 0`). */
  lemma EditItemEffect(db: Db, v: SessionView, id: int, newQty: FormNumber, newUnitCost: FormNumber)
    requires EditItemStep(db, v, id, newQty, newUnitCost).outcome == Ok
    ensures var db' := EditItemStep(db, v, id, newQty, newUnitCost).db;
      var old_, new_ := db.items[id], db'.items[id];
      db' == db.(items := db.items[id := new_])
      && new_ == old_.(qty := new_.qty, unitCost := new_.unitCost)
      && (newQty.Absent? ==> new_.qty == old_.qty)
      && (newQty.Number? ==> new_.qty == newQty.value)
      && (newUnitCost.Absent? ==> new_.unitCost == Some(old_.unitCost.GetOr(0.0)))
      && (newUnitCost.Number? ==> new_.unitCost == Some(newUnitCost.value))
      && Amount(new_) == new_.qty * new_.unitCost.value
  {
    var new_ := EditItemStep(db, v, id, newQty, newUnitCost).db.items[id];
    AmountIsProduct(new_);
  }

  /** `delete_item`: administrators only; a missing id is NotFound; a session
      that is not global may delete only items of its assigned site (an item of
      no site included, when it has none); a global administrator only items of
      the selected site, if one is selected. Deleting an item that a request or
      an actual still refers to fails: the ORM clears their NOT NULL `item_id`,
      the flush raises, the handler rolls back and answers 500. */
  function DeleteItemStep(db: Db, v: SessionView, id: int): (s: Step)
    ensures s.outcome != Ok ==> s.db == db
    ensures s.db == db.(items := s.db.items) && s.db.items.Keys <= db.items.Keys
  {
    if !IsAdmin(v) then Step(PermissionDenied, db)
    else if id !in db.items then Step(NotFound, db)
    else
      var item := db.items[id];
      var allowed :=
        if !IsGlobal(v) then item.projectSite == AssignedProjectSite(v)
        else !Truthy(UserProjectSite(v)) || item.projectSite == UserProjectSite(v);
      if !allowed then Step(PermissionDenied, db)
      else if Referenced(db, id) then Step(ServerError, db)
      else Step(Ok, db.(items := db.items - {id}))
  }

  /** Some request or actual refers to the item. */
  predicate Referenced(db: Db, id: int) {
    (exists k :: k in db.requests && db.requests[k].itemId == id)
    || (exists k :: k in db.actuals && db.actuals[k].itemId == id)
  }

  /** The two failures of `delete_item` are told apart and leave the store as it
      was: NotFound exactly for a missing id; PermissionDenied for an item of
      another site. A site administrator is checked against its assigned site
      even when the item belongs to no site. */
  lemma DeleteItemOutcomes(db: Db, v: SessionView, id: int)
    requires IsAdmin(v)
    ensures DeleteItemStep(db, v, id).outcome == NotFound <==> id !in db.items
    ensures !IsGlobal(v) && id in db.items && db.items[id].projectSite != AssignedProjectSite(v)
            ==> DeleteItemStep(db, v, id).outcome == PermissionDenied
    ensures DeleteItemStep(db, v, id).outcome != Ok ==> DeleteItemStep(db, v, id).db == db
    ensures DeleteItemStep(db, v, id).outcome == Ok ==>
      DeleteItemStep(db, v, id).db == db.(items := db.items - {id}) && id in db.items
  {
  }

  /** `delete_all_inventory` (POST): administrators only. A session that is not
      global deletes its assigned site's items (and requests, when asked), and
      is refused when it has no assigned site; a global administrator deletes
      the selected site's rows, or every row when no site is selected. The bulk
      delete bypasses the ORM, so rows that referred to deleted items stay. */
  function DeleteAllStep(db: Db, v: SessionView, clearRequests: bool): (s: Step)
    ensures s.outcome != Ok ==> s.db == db
    ensures s.outcome == Ok <==> IsAdmin(v) && (IsGlobal(v) || Truthy(AssignedProjectSite(v)))
    ensures s.db == db.(items := s.db.items, requests := s.db.requests)
    ensures s.db.items.Keys <= db.items.Keys && s.db.requests.Keys <= db.requests.Keys
    ensures !clearRequests ==> s.db.requests == db.requests
  {
    if !IsAdmin(v) then Step(PermissionDenied, db)
    else
      var site := if IsGlobal(v) then UserProjectSite(v) else AssignedProjectSite(v);
      if !IsGlobal(v) && !Truthy(site) then Step(PermissionDenied, db)
      else if Truthy(site) then
        var items := DeleteWhere(db.items, (i: Item) => i.projectSite == site);
        var requests := if clearRequests then DeleteWhere(db.requests, (r: Request) => r.projectSite == site) else db.requests;
        Step(Ok, db.(items := items, requests := requests))
      else
        Step(Ok, db.(items := map[], requests := if clearRequests then map[] else db.requests))
  }

  /** A site administrator's bulk delete removes every item of its site and
      nothing of any other site. */
  lemma DeleteAllSiteAdmin(db: Db, v: SessionView, clearRequests: bool)
    requires IsAdmin(v) && !IsGlobal(v) && Truthy(v.assignedProjectSite)
    ensures var db' := DeleteAllStep(db, v, clearRequests).db;
      Isolated(db, db', v.assignedProjectSite)
      && (forall k :: k in db'.items ==> db'.items[k].projectSite != v.assignedProjectSite)
      && db'.actuals == db.actuals
  {
  }

  /** A global administrator with no site selected empties the item table, and
      the request table too when asked. */
  lemma DeleteAllEverything(db: Db, v: SessionView, clearRequests: bool)
    requires IsAdmin(v) && IsGlobal(v) && !Truthy(v.projectSite)
    ensures DeleteAllStep(db, v, clearRequests).db.items == map[]
    ensures clearRequests ==> DeleteAllStep(db, v, clearRequests).db.requests == map[]
  {
  }

  /** Tenant isolation for item creation: a site administrator's new item lands
      on its own site, so every other site's rows stay as they were. */
  lemma CreateItemIsolated(db: Db, v: SessionView, f: ItemForm)
    requires Valid(db) && !IsGlobal(v) && Truthy(v.assignedProjectSite)
    ensures Isolated(db, CreateItemStep(db, v, f).db, v.assignedProjectSite)
  {
    if !FormAccepted(v, f) {
      CreateItemRefused(db, v, f);
    } else {
      CreateItemAdds(db, v, f);
      var db' := CreateItemStep(db, v, f).db;
      InsertItemIsolated(db, db'.items[db.nextItem], v.assignedProjectSite);
    }
  }

  /** A row inserted under a fresh id, on `site`, leaves the rows of every
      other site as they were. */
  lemma InsertItemIsolated(db: Db, item: Item, site: Option<string>)
    requires Valid(db) && item.projectSite == site
    ensures Isolated(db, InsertItem(db, item), site)
  {
    assert db.nextItem !in db.items;
  }

  /** Tenant isolation for the other item handlers: a site administrator
      leaves the items, requests and actuals of every other site as they were. */
  lemma EditItemIsolated(db: Db, v: SessionView, id: int, q: FormNumber, c: FormNumber)
    requires !IsGlobal(v) && Truthy(v.assignedProjectSite)
    ensures Isolated(db, EditItemStep(db, v, id, q, c).db, v.assignedProjectSite)
  {
    var step := EditItemStep(db, v, id, q, c);
    if step.outcome == Ok {
      assert db.items[id].projectSite == v.assignedProjectSite;
      assert step.db == db.(items := db.items[id := step.db.items[id]]);
    } else {
      assert step.db == db;
    }
  }

  lemma DeleteItemIsolated(db: Db, v: SessionView, id: int)
    requires !IsGlobal(v) && Truthy(v.assignedProjectSite)
    ensures Isolated(db, DeleteItemStep(db, v, id).db, v.assignedProjectSite)
  {
    var step := DeleteItemStep(db, v, id);
    if step.outcome == Ok {
      assert db.items[id].projectSite == v.assignedProjectSite;
      assert step.db == db.(items := db.items - {id});
    } else {
      assert step.db == db;
    }
  }

  lemma DeleteAllIsolated(db: Db, v: SessionView, clear: bool)
    requires !IsGlobal(v) && Truthy(v.assignedProjectSite)
    ensures Isolated(db, DeleteAllStep(db, v, clear).db, v.assignedProjectSite)
  {
    var site := v.assignedProjectSite;
    if IsAdmin(v) {
      var inSite := (i: Item) => i.projectSite == site;
      var reqInSite := (r: Request) => r.projectSite == site;
      DeleteWhereSameOutside(db.items, inSite, (i: Item) => i.projectSite, site);
      DeleteWhereSameOutside(db.requests, reqInSite, (r: Request) => r.projectSite, site);
      var requests := if clear then DeleteWhere(db.requests, reqInSite) else db.requests;
      assert DeleteAllStep(db, v, clear).db == db.(items := DeleteWhere(db.items, inSite), requests := requests);
    }
  }

  // ---------------------------------------------------------------- handlers

  method CreateItem(store: State.Store, session: State.Session, f: ItemForm) returns (outcome: Outcome)
    requires store.Valid()
    modifies store
    ensures store.Valid()
    ensures Step(outcome, store.Snapshot()) == CreateItemStep(old(store.Snapshot()), session.View(), f)
  {
    var v := session.View();
    outcome := ValidateItemForm(v, f);
    if outcome == Ok {
      var _ := store.AddItem(NewItem(v, f, FloatOr(f.qty, 0.0).value, FloatOr(f.unitCost, 0.0).value));
    }
  }

  /** The checks `manual_entry` makes before it builds the item, in its order:
      the role, the four text fields, then the two numbers. They are kept as
      statements with early returns, the way the handler runs them, and the
      contract proves that chain refuses exactly as `FormRefusal`, the function
      `CreateItemStep` is specified by. */
  method ValidateItemForm(v: SessionView, f: ItemForm) returns (outcome: Outcome)
    ensures outcome == Ok <==> FormAccepted(v, f)
    ensures outcome != Ok ==> outcome == FormRefusal(v, f)
  {
    if !IsAdmin(v) {
      return PermissionDenied;
    }
    if Blank(f.name) {
      return Invalid("name");
    } else if Blank(f.budget) {
      return Invalid("budget");
    } else if Blank(f.buildingType) {
      return Invalid("building_type");
    } else if Blank(f.section) {
      return Invalid("section");
    }
    if FloatOr(f.qty, 0.0).None? {
      return Invalid("qty");
    }
    if FloatOr(f.unitCost, 0.0).None? {
      return Invalid("unit_cost");
    }
    return Ok;
  }

  method EditItem(store: State.Store, session: State.Session, id: int, newQty: FormNumber, newUnitCost: FormNumber)
    returns (outcome: Outcome)
    requires store.Valid()
    modifies store
    ensures store.Valid()
    ensures Step(outcome, store.Snapshot()) == EditItemStep(old(store.Snapshot()), session.View(), id, newQty, newUnitCost)
  {
    var v := session.View();
    if !IsAdmin(v) {
      return PermissionDenied;
    }
    if id !in store.items {
      return NotFound;
    }
    var item := store.items[id];
    var site := UserProjectSite(v);
    if Truthy(site) && item.projectSite != site {
      return PermissionDenied;
    }
    var qty := FloatOrCurrent(newQty, item.qty);
    if qty.None? {
      return Invalid("new_qty");
    }
    var unitCost := FloatOrCurrent(newUnitCost, item.unitCost.GetOr(0.0));
    if unitCost.None? {
      return Invalid("new_unit_cost");
    }
    store.items := store.items[id := item.(qty := qty.value, unitCost := Some(unitCost.value))];
    outcome := Ok;
  }

  method DeleteItem(store: State.Store, session: State.Session, id: int) returns (outcome: Outcome)
    requires store.Valid()
    modifies store
    ensures store.Valid()
    ensures Step(outcome, store.Snapshot()) == DeleteItemStep(old(store.Snapshot()), session.View(), id)
  {
    var v := session.View();
    if !IsAdmin(v) {
      return PermissionDenied;
    }
    if id !in store.items {
      return NotFound;
    }
    var item := store.items[id];
    if !IsGlobal(v) {
      if item.projectSite != AssignedProjectSite(v) {
        return PermissionDenied;
      }
    } else {
      var site := UserProjectSite(v);
      if Truthy(site) && item.projectSite != site {
        return PermissionDenied;
      }
    }
    if Referenced(store.Snapshot(), id) {
      return ServerError;
    }
    store.items := store.items - {id};
    outcome := Ok;
  }

  method DeleteAllInventory(store: State.Store, session: State.Session, clearRequests: bool) returns (outcome: Outcome)
    requires store.Valid()
    modifies store
    ensures store.Valid()
    ensures Step(outcome, store.Snapshot()) == DeleteAllStep(old(store.Snapshot()), session.View(), clearRequests)
  {
    var v := session.View();
    if !IsAdmin(v) {
      return PermissionDenied;
    }
    var site: Option<string>;
    if !IsGlobal(v) {
      site := AssignedProjectSite(v);
      if !Truthy(site) {
        return PermissionDenied;
      }
    } else {
      site := UserProjectSite(v);
    }
    if Truthy(site) {
      store.items := DeleteWhere(store.items, (i: Item) => i.projectSite == site);
      if clearRequests {
        store.requests := DeleteWhere(store.requests, (r: Request) => r.projectSite == site);
      }
    } else {
      store.items := map[];
      if clearRequests {
        store.requests := map[];
      }
    }
    outcome := Ok;
  }
}
