/** The two read-only reports of routes.py: `actuals`, which reconciles the
    planned items of one budget with the actuals recorded against them, and
    the budget-number by building-type table of `budget_summary`. */
module Reports {
  import opened Wrappers
  import opened Models
  import opened Strings
  import opened Utils
  import opened Tables
  import opened Scope
  import opened Workflow
  import State

  // ---------------------------------------------------------------- actuals

  /** A budget selection "Budget <n> - <building type>", read back. */
  datatype Selection = Selection(budgetNum: string, buildingType: string)

  /** `selected_budget.split(' - ')` must give exactly two parts; the number is
      the first part without "Budget ", the type the second, both stripped. */
  function ParseSelection(selected: string): (r: Option<Selection>)
    ensures r.Some? <==> |Split(selected, " - ")| == 2
  {
    var parts := Split(selected, " - ");
    if |parts| != 2 then None
    else Some(Selection(Strip(RemoveAll(parts[0], "Budget ")), Strip(parts[1])))
  }

  /** Reading back the pattern of a selection: a budget number in digits and a
      building type holding no " - " give back that number and the stripped type. */
  lemma ParseSelectionOfPattern(num: string, t: string)
    requires num != [] && AllDigits(num)
    requires Find(t, " - ").None?
    ensures ParseSelection(Pattern(Selection(num, t))) == Some(Selection(num, Strip(t)))
  {
    SplitSelection(num, t);
    RemoveBudgetWord(num);
    StripKeeps(num);
  }

  /** The first " - " of a pattern is the one after the number. */
  lemma SplitSelection(num: string, t: string)
    requires num != [] && AllDigits(num)
    requires Find(t, " - ").None?
    ensures Split(Pattern(Selection(num, t)), " - ") == ["Budget " + num, t]
  {
    var head := "Budget " + num;
    var s := head + " - " + t;
    assert s == Pattern(Selection(num, t));
    var k := |head|;
    assert s[k..k + 3] == " - ";
    forall i | 0 <= i < k
      ensures s[i] == head[i] && head[i] != '-'
    {
      if i >= 7 {
        assert head[i] == num[i - 7];
      }
    }
    assert head[k - 1] == num[|num| - 1];
    forall j | 0 <= j < k
      ensures !OccursAt(s, " - ", j)
    {
      var w := s[j..j + 3];
      if j + 1 < k {
        assert w[1] == s[j + 1] && s[j + 1] != '-';
        assert w != " - ";
      } else {
        assert w[0] == s[j] && s[j] != ' ';
        assert w != " - ";
      }
    }
    FindFirst(s, " - ", k);
    assert s[..k] == head && s[k + 3..] == t;
  }

  /** `("Budget " + num).replace("Budget ", "")` is the number. */
  lemma RemoveBudgetWord(num: string)
    requires AllDigits(num)
    ensures RemoveAll("Budget " + num, "Budget ") == num
  {
    var head := "Budget " + num;
    assert head[0..7] == "Budget ";
    FindFirst(head, "Budget ", 0);
    assert head[7..] == num;
    forall j | 0 <= j
      ensures !OccursAt(num, "Budget ", j)
    {
      if j < |num| {
        assert IsDigit(num[j]);
      }
    }
    assert Split(num, "Budget ") == [num];
    assert Split(head, "Budget ") == ["", num];
    assert Concat([num]) == num + Concat([]);
    assert Concat(["", num]) == "" + Concat([num]);
  }

  /** The prefix a planned item's label must start with. */
  function Pattern(sel: Selection): string {
    "Budget " + sel.budgetNum + " - " + sel.buildingType
  }

  /** A planned item of the selection: in the session's scope, its label starts
      with the pattern, and its building type equals the selected one up to
      surrounding spaces and case. */
  predicate Planned(v: SessionView, sel: Selection, item: Item) {
    InScope(v, item.projectSite)
    && Truthy(item.budget) && StartsWith(item.budget.value, Pattern(sel))
    && Truthy(item.buildingType) && Lower(Strip(item.buildingType.value)) == Lower(Strip(sel.buildingType))
  }

  /** The actuals the report adds up for an item: those of the item, and of the
      session's site when that is a non-empty name (all sites otherwise). */
  predicate Counted(site: Option<string>, itemId: int, a: Actual) {
    a.itemId == itemId && (Truthy(site) ==> a.projectSite == site)
  }

  datatype Totals = Totals(qty: real, cost: real)

  function Plus(a: Totals, b: Totals): Totals {
    Totals(a.qty + b.qty, a.cost + b.cost)
  }

  /** The summed quantity and cost of the counted actuals with ids below `hi`. */
  function ItemTotals(actuals: map<int, Actual>, site: Option<string>, itemId: int, hi: int): Totals
    decreases hi
  {
    if hi <= 1 then Totals(0.0, 0.0)
    else
      var rest := ItemTotals(actuals, site, itemId, hi - 1);
      var k := hi - 1;
      if k in actuals && Counted(site, itemId, actuals[k]) then Plus(rest, Totals(actuals[k].actualQty, actuals[k].actualCost))
      else rest
  }

  /** One reconciled row: the planned item, its group, and what was spent on it. */
  datatype ActualLine = ActualLine(itemId: int, grp: string, qty: real, cost: real)

  /** `item.grp or 'Materials'`. */
  function GroupOf(item: Item): string {
    if Truthy(item.grp) then item.grp.value else "Materials"
  }

  function LineOf(db: Db, v: SessionView, id: int): ActualLine
    requires id in db.items
  {
    var t := ItemTotals(db.actuals, UserProjectSite(v), id, db.nextActual);
    ActualLine(id, GroupOf(db.items[id]), t.qty, t.cost)
  }

  /** The rows for the planned items with ids below `hi`, in id order. The
      route groups them by `grp`; the rows of one group are the rows carrying it. */
  function Lines(db: Db, v: SessionView, sel: Selection, hi: int): seq<ActualLine>
    decreases hi
  {
    if hi <= 1 then []
    else
      var k := hi - 1;
      Lines(db, v, sel, k) + (if k in db.items && Planned(v, sel, db.items[k]) then [LineOf(db, v, k)] else [])
  }

  /** What the `actuals` page shows. */
  datatype ActualsPage = Unselected | BadSelection | Reconciled(lines: seq<ActualLine>)

  function ActualsReport(db: Db, v: SessionView, selected: string): (p: ActualsPage)
    ensures p.Reconciled? <==> selected != "" && |Split(selected, " - ")| == 2
    ensures p.Reconciled? ==> forall l :: l in p.lines ==>
              l.itemId in db.items && Planned(v, ParseSelection(selected).value, db.items[l.itemId])
  {
    if selected == "" then Unselected
    else
      var sel := ParseSelection(selected);
      if sel.None? then BadSelection
      else
        LinesSound(db, v, sel.value, db.nextItem);
        Reconciled(Lines(db, v, sel.value, db.nextItem))
  }

  /** Every row is a planned item's, below `hi`, with the totals of its
      counted actuals. */
  lemma {:induction false} LinesSound(db: Db, v: SessionView, sel: Selection, hi: int)
    ensures forall l :: l in Lines(db, v, sel, hi) ==>
              l.itemId < hi && l.itemId in db.items && Planned(v, sel, db.items[l.itemId]) && l == LineOf(db, v, l.itemId)
    decreases hi
  {
    if hi > 1 {
      LinesSound(db, v, sel, hi - 1);
    }
  }

  /** The rows are in strictly increasing id order, so no item appears twice. */
  lemma {:induction false} LinesSorted(db: Db, v: SessionView, sel: Selection, hi: int)
    ensures forall i, j :: 0 <= i < j < |Lines(db, v, sel, hi)| ==> Lines(db, v, sel, hi)[i].itemId < Lines(db, v, sel, hi)[j].itemId
    decreases hi
  {
    if hi > 1 {
      var prev := Lines(db, v, sel, hi - 1);
      LinesSorted(db, v, sel, hi - 1);
      LinesSound(db, v, sel, hi - 1);
      var lines := Lines(db, v, sel, hi);
      forall i, j | 0 <= i < j < |lines|
        ensures lines[i].itemId < lines[j].itemId
      {
        assert lines[i] == prev[i];
        if j < |prev| {
          assert lines[j] == prev[j];
        } else {
          assert prev[i] in prev;
          assert lines[j].itemId == hi - 1;
        }
      }
    }
  }

  /** Every planned item below `hi` has its row: the report leaves none out,
      even one with no actuals yet. */
  lemma LinesComplete(db: Db, v: SessionView, sel: Selection, hi: int, id: int)
    requires 1 <= id < hi && id in db.items && Planned(v, sel, db.items[id])
    ensures LineOf(db, v, id) in Lines(db, v, sel, hi)
  {
    LinesLast(db, v, sel, id);
    LinesMonotone(db, v, sel, id + 1, hi, LineOf(db, v, id));
  }

  lemma LinesLast(db: Db, v: SessionView, sel: Selection, id: int)
    requires 1 <= id && id in db.items && Planned(v, sel, db.items[id])
    ensures LineOf(db, v, id) in Lines(db, v, sel, id + 1)
  {
  }

  lemma {:induction false} LinesMonotone(db: Db, v: SessionView, sel: Selection, lo: int, hi: int, l: ActualLine)
    requires 1 <= lo <= hi && l in Lines(db, v, sel, lo)
    ensures l in Lines(db, v, sel, hi)
    decreases hi - lo
  {
    if lo < hi {
      LinesGrow(db, v, sel, lo, l);
      LinesMonotone(db, v, sel, lo + 1, hi, l);
    }
  }

  lemma LinesGrow(db: Db, v: SessionView, sel: Selection, hi: int, l: ActualLine)
    requires hi >= 1 && l in Lines(db, v, sel, hi)
    ensures l in Lines(db, v, sel, hi + 1)
  {
  }

  /** A planned item with no counted actual shows zero quantity and cost. */
  lemma {:induction false} NoActualsZero(actuals: map<int, Actual>, site: Option<string>, itemId: int, hi: int)
    requires forall k :: k in actuals ==> !Counted(site, itemId, actuals[k])
    ensures ItemTotals(actuals, site, itemId, hi) == Totals(0.0, 0.0)
    decreases hi
  {
    if hi > 1 {
      NoActualsZero(actuals, site, itemId, hi - 1);
    }
  }

  /** Ids at or above `hi` do not affect the totals below `hi`. */
  lemma {:induction false} TotalsBelow(actuals: map<int, Actual>, site: Option<string>, itemId: int, hi: int, k: int, a: Actual)
    requires hi <= k
    ensures ItemTotals(actuals[k := a], site, itemId, hi) == ItemTotals(actuals, site, itemId, hi)
    decreases hi
  {
    if hi > 1 {
      TotalsBelow(actuals, site, itemId, hi - 1, k, a);
    }
  }

  /** Recording one more actual under the next id adds exactly its quantity and
      cost to its item's totals when the report counts it, and nothing otherwise. */
  lemma TotalsAddActual(actuals: map<int, Actual>, next: int, a: Actual, site: Option<string>, itemId: int)
    requires next >= 1
    ensures ItemTotals(actuals[next := a], site, itemId, next + 1)
         == if Counted(site, itemId, a) then Plus(ItemTotals(actuals, site, itemId, next), Totals(a.actualQty, a.actualCost))
            else ItemTotals(actuals, site, itemId, next)
  {
    TotalsBelow(actuals, site, itemId, next, next, a);
  }

  /** Approval feeds the reconciliation: the first approval of a request adds its
      quantity and `qty * price` to its item's totals in every report that counts
      the request's site; a repeated approval changes no totals. */
  lemma ApprovalReconciles(db: Db, v: SessionView, id: int, now: int, site: Option<string>)
    requires Valid(db)
    requires ApproveStep(db, v, id, now).outcome == Ok
    requires id in db.requests ==> (Truthy(site) ==> site == db.requests[id].projectSite)
    ensures id in db.requests
    ensures var db' := ApproveStep(db, v, id, now).db;
      var r := db.requests[id];
      var before := ItemTotals(db.actuals, site, r.itemId, db.nextActual);
      var after := ItemTotals(db'.actuals, site, r.itemId, db'.nextActual);
      if Recorded(db.actuals, r.itemId, id) then after == before
      else after == Plus(before, Totals(r.qty, r.qty * ApprovalPrice(db, r).value))
  {
    ApproveRecordsOnce(db, v, id, now);
    var db' := ApproveStep(db, v, id, now).db;
    var r := db.requests[id];
    if !Recorded(db.actuals, r.itemId, id) {
      TotalsAddActual(db.actuals, db.nextActual, db'.actuals[db.nextActual], site, r.itemId);
    }
  }

  method ShowActuals(store: State.Store, session: State.Session, selected: string) returns (page: ActualsPage)
    requires store.Valid()
    ensures page == ActualsReport(store.Snapshot(), session.View(), selected)
  {
    if selected == "" {
      return Unselected;
    }
    var sel := ParseSelection(selected);
    if sel.None? {
      return BadSelection;
    }
    var lines := Reconcile(store, session.View(), sel.value);
    return Reconciled(lines);
  }

  /** The loop over the planned items, each with its own actuals query. */
  method Reconcile(store: State.Store, v: SessionView, sel: Selection) returns (lines: seq<ActualLine>)
    requires store.Valid()
    ensures lines == Lines(store.Snapshot(), v, sel, store.nextItem)
  {
    ghost var db := store.Snapshot();
    lines := [];
    var id := 1;
    while id < store.nextItem
      invariant 1 <= id <= store.nextItem
      invariant lines == Lines(db, v, sel, id)
    {
      if id in store.items && Planned(v, sel, store.items[id]) {
        var t := SumActuals(store, UserProjectSite(v), id);
        lines := lines + [ActualLine(id, GroupOf(store.items[id]), t.qty, t.cost)];
      }
      id := id + 1;
    }
  }

  /** The per-item query of the report: the counted actuals, summed. */
  method SumActuals(store: State.Store, site: Option<string>, itemId: int) returns (t: Totals)
    requires store.Valid()
    ensures t == ItemTotals(store.actuals, site, itemId, store.nextActual)
  {
    t := Totals(0.0, 0.0);
    var k := 1;
    while k < store.nextActual
      invariant 1 <= k <= store.nextActual
      invariant t == ItemTotals(store.actuals, site, itemId, k)
    {
      if k in store.actuals && Counted(site, itemId, store.actuals[k]) {
        t := Plus(t, Totals(store.actuals[k].actualQty, store.actuals[k].actualCost));
      }
      k := k + 1;
    }
  }

  // ---------------------------------------------------------------- budget_summary

  /** `budget.split(' ')[1].split(' ')[0]`, or "Unknown" when the label has no
      space (the `IndexError` case). */
  function BudgetKey(budget: string): string {
    var parts := Split(budget, " ");
    if |parts| >= 2 then Before(parts[1], " ") else "Unknown"
  }

  /** The cell key of a generated label is its budget number as printed. */
  lemma BudgetKeyOfLabel(n: nat, t: string, sg: string)
    ensures BudgetKey(Label(n, t, sg)) == IntToString(n)
  {
    var d := IntToString(n);
    var rest := "- " + t + "(" + sg + ")";
    assert Label(n, t, sg) == "Budget" + [' '] + (d + [' '] + rest);
    DigitsHaveNoSpace(n);
    SplitHead("Budget", ' ', d + [' '] + rest);
    SplitHead(d, ' ', rest);
    ContainsChar(d, ' ');
  }

  lemma DigitsHaveNoSpace(n: nat)
    ensures ' ' !in IntToString(n)
  {
    assert !IsDigit(' ');
  }

  /** The items the summary adds up: in scope, with a budget and a building type. */
  predicate Summarised(v: SessionView, item: Item) {
    InScope(v, item.projectSite) && Truthy(item.budget) && Truthy(item.buildingType)
  }

  predicate InCell(v: SessionView, item: Item, key: string, bt: string) {
    Summarised(v, item) && BudgetKey(item.budget.value) == key && item.buildingType.value == bt
  }

  /** The summed `amount` of the items with ids below `hi` in one cell. */
  function Cell(items: map<int, Item>, v: SessionView, key: string, bt: string, hi: int): real
    decreases hi
  {
    if hi <= 1 then 0.0
    else
      var k := hi - 1;
      Cell(items, v, key, bt, k) + (if k in items && InCell(v, items[k], key, bt) then Amount(items[k]) else 0.0)
  }

  /** Whether some item with id below `hi` falls in the cell. */
  predicate HasCell(items: map<int, Item>, v: SessionView, key: string, bt: string, hi: int)
    decreases hi
  {
    hi > 1 && (HasCell(items, v, key, bt, hi - 1) || (hi - 1 in items && InCell(v, items[hi - 1], key, bt)))
  }

  /** A cell exists exactly when some item falls in it. */
  lemma {:induction false} HasCellExists(items: map<int, Item>, v: SessionView, key: string, bt: string, hi: int)
    ensures HasCell(items, v, key, bt, hi) <==> exists k :: 1 <= k < hi && k in items && InCell(v, items[k], key, bt)
    decreases hi
  {
    if hi > 1 {
      HasCellExists(items, v, key, bt, hi - 1);
    }
  }

  /** An empty cell sums to zero. */
  lemma {:induction false} EmptyCellZero(items: map<int, Item>, v: SessionView, key: string, bt: string, hi: int)
    requires !HasCell(items, v, key, bt, hi)
    ensures Cell(items, v, key, bt, hi) == 0.0
    decreases hi
  {
    if hi > 1 {
      EmptyCellZero(items, v, key, bt, hi - 1);
    }
  }

  /** `summary_data[key][bt] += amount`, creating the row and the cell as needed. */
  function AddCell(summary: map<string, map<string, real>>, key: string, bt: string, x: real): map<string, map<string, real>> {
    var row := if key in summary then summary[key] else map[];
    summary[key := row[bt := (if bt in row then row[bt] else 0.0) + x]]
  }

  /** The dictionary holds exactly the non-empty cells of the items below `hi`,
      each with its sum, and no empty row. */
  ghost predicate Summarises(summary: map<string, map<string, real>>, items: map<int, Item>, v: SessionView, hi: int) {
    (forall key, bt :: key in summary && bt in summary[key] <==> HasCell(items, v, key, bt, hi))
    && (forall key, bt :: key in summary && bt in summary[key] ==> summary[key][bt] == Cell(items, v, key, bt, hi))
    && (forall key :: key in summary ==> summary[key] != map[])
  }

  /** An item outside the summary changes no cell. */
  lemma SummarySkip(summary: map<string, map<string, real>>, items: map<int, Item>, v: SessionView, id: int)
    requires id >= 1 && Summarises(summary, items, v, id)
    requires !(id in items && Summarised(v, items[id]))
    ensures Summarises(summary, items, v, id + 1)
  {
    var hi := id + 1;
    forall key, bt
      ensures key in summary && bt in summary[key] <==> HasCell(items, v, key, bt, hi)
      ensures key in summary && bt in summary[key] ==> summary[key][bt] == Cell(items, v, key, bt, hi)
    {
      assert HasCell(items, v, key, bt, hi) == HasCell(items, v, key, bt, id);
    }
  }

  /** An item in the summary adds its amount to its own cell and to no other. */
  lemma SummaryAdd(summary: map<string, map<string, real>>, items: map<int, Item>, v: SessionView, id: int)
    requires id >= 1 && Summarises(summary, items, v, id)
    requires id in items && Summarised(v, items[id])
    ensures Summarises(AddCell(summary, BudgetKey(items[id].budget.value), items[id].buildingType.value, Amount(items[id])),
                       items, v, id + 1)
  {
    var item := items[id];
    var key := BudgetKey(item.budget.value);
    var bt := item.buildingType.value;
    var s' := AddCell(summary, key, bt, Amount(item));
    var row := if key in summary then summary[key] else map[];
    var hi := id + 1;
    assert InCell(v, item, key, bt);
    forall key', bt'
      ensures key' in s' && bt' in s'[key'] <==> HasCell(items, v, key', bt', hi)
      ensures key' in s' && bt' in s'[key'] ==> s'[key'][bt'] == Cell(items, v, key', bt', hi)
    {
      if key' == key && bt' == bt {
        if bt !in row {
          EmptyCellZero(items, v, key, bt, id);
        }
      } else {
        assert !InCell(v, item, key', bt');
        assert key' in s' && bt' in s'[key'] <==> key' in summary && bt' in summary[key'];
      }
    }
    forall key' | key' in s'
      ensures s'[key'] != map[]
    {
      if key' == key {
        assert bt in s'[key'];
      }
    }
  }

  /** The `summary_data` dictionary: budget key, then building type, then the
      summed amount; a key is present only when an item falls in one of its cells. */
  method BudgetSummary(store: State.Store, session: State.Session) returns (summary: map<string, map<string, real>>)
    requires store.Valid()
    ensures forall key, bt :: key in summary && bt in summary[key] <==> HasCell(store.items, session.View(), key, bt, store.nextItem)
    ensures forall key, bt :: key in summary && bt in summary[key] ==> summary[key][bt] == Cell(store.items, session.View(), key, bt, store.nextItem)
    ensures forall key :: key in summary ==> summary[key] != map[]
  {
    var v := session.View();
    summary := map[];
    var id := 1;
    while id < store.nextItem
      invariant 1 <= id <= store.nextItem
      invariant Summarises(summary, store.items, v, id)
    {
      if id in store.items && Summarised(v, store.items[id]) {
        var item := store.items[id];
        SummaryAdd(summary, store.items, v, id);
        summary := AddCell(summary, BudgetKey(item.budget.value), item.buildingType.value, Amount(item));
      } else {
        SummarySkip(summary, store.items, v, id);
      }
      id := id + 1;
    }
  }
}
