/** The budget-label helpers (utils.py). A budget label reads
    "Budget <n> - <building type>(<subgroup>)"; the part before "(" is its base. */
module Utils {
  import opened Wrappers
  import opened Strings
  import Models

  const PropertyTypes: seq<string> := ["Flats", "Terraces", "Semi-detached", "Fully-detached"]
  const SubgroupsBase: seq<string> := ["General Materials", "Woods", "Plumbings", "Irons", "Labour"]
  const SubgroupsExtended: seq<string> := SubgroupsBase + ["Electrical", "Mechanical"]

  /** Budgets 1 and 2 have the five base subgroups, every later budget seven. */
  function Subgroups(n: int): seq<string> {
    if n >= 3 then SubgroupsExtended else SubgroupsBase
  }

  /** `f"Budget {n} - {building}"`. */
  function BaseLabel(n: int, building: string): string {
    "Budget " + IntToString(n) + " - " + building
  }

  /** `f"Budget {n} - {building}({subgroup})"`. */
  function Label(n: int, building: string, subgroup: string): string {
    BaseLabel(n, building) + "(" + subgroup + ")"
  }

  /** Python truthiness of an optional string: neither `None` nor empty. */
  predicate Truthy(s: Option<string>) {
    s.Some? && s.value != ""
  }

  // ---------------------------------------------------------------- sequences

  predicate NoDup<T(==)>(s: seq<T>) {
    forall i, j :: 0 <= i < j < |s| ==> s[i] != s[j]
  }

  lemma NoDupAppend<T>(a: seq<T>, b: seq<T>)
    requires NoDup(a) && NoDup(b)
    requires forall x :: x in a ==> x !in b
    ensures NoDup(a + b)
  {
    forall i, j | 0 <= i < j < |a + b|
      ensures (a + b)[i] != (a + b)[j]
    {
      if i < |a| && j >= |a| {
        assert (a + b)[i] in a && (a + b)[j] in b;
      }
    }
  }

  // ---------------------------------------------------------------- normalize_budget

  /** `lower().strip().replace(" ", "")` on a present label. */
  function Normalize(s: string): (r: string)
    ensures r == [] || (!IsSpace(r[0]) && !IsSpace(r[|r| - 1]))
  {
    var t := Strip(Lower(s));
    if t != [] then RemoveCharEnds(t, ' '); RemoveChar(t, ' ') else RemoveChar(t, ' ')
  }

  /** A normalized label holds neither spaces nor upper-case letters. */
  lemma NormalizeClean(s: string)
    ensures ' ' !in Normalize(s) && NoUpper(Normalize(s))
  {
    var l := Lower(s);
    NoUpperStrip(l);
    NoUpperRemoveChar(Strip(l), ' ');
    RemoveCharHas(Strip(l), ' ', ' ');
  }

  /** `normalize_budget`: "" for `None` or "", otherwise `Normalize`. */
  function NormalizeBudget(s: Option<string>): (r: string)
    ensures !Truthy(s) ==> r == ""
    ensures ' ' !in r && NoUpper(r)
  {
    if !Truthy(s) then "" else NormalizeClean(s.value); Normalize(s.value)
  }

  /** Normalizing twice is normalizing once. */
  lemma NormalizeIdempotent(s: string)
    ensures Normalize(Normalize(s)) == Normalize(s)
  {
    var r := Normalize(s);
    NormalizeClean(s);
    LowerKeeps(r);
    StripKeeps(r);
    RemoveCharAbsent(r, ' ');
  }

  /** A character that is neither whitespace nor a letter is in a label exactly when
      it is in the normalized label. */
  lemma NormalizeHas(s: string, c: char)
    requires !IsSpace(c) && !IsUpper(c) && !('a' <= c <= 'z')
    ensures c in Normalize(s) <==> c in s
  {
    LowerHas(s, c);
    StripHas(Lower(s), c);
    RemoveCharHas(Strip(Lower(s)), ' ', c);
  }

  /** `lower()` followed by deleting the spaces; it distributes over concatenation. */
  function Squash(s: string): string {
    RemoveChar(Lower(s), ' ')
  }

  lemma SquashAppend(a: string, b: string)
    ensures Squash(a + b) == Squash(a) + Squash(b)
  {
    LowerAppend(a, b);
    RemoveCharAppend(Lower(a), Lower(b), ' ');
  }

  /** A label without whitespace at its ends normalizes to its squashed form. */
  lemma NormalizeIsSquash(s: string)
    requires s != [] && !IsSpace(s[0]) && !IsSpace(s[|s| - 1])
    ensures Normalize(s) == Squash(s)
  {
    StripKeeps(Lower(s));
  }

  // ---------------------------------------------------------------- match_budget_filter

  /** `match_budget_filter(item_budget, filter_budget)`. */
  function MatchBudgetFilter(item: Option<string>, filter: Option<string>): bool {
    if !Truthy(filter) || filter.value == "All" then true
    else if NormalizeBudget(item) == NormalizeBudget(filter) then true
    else if '(' !in filter.value then
      if Truthy(item) then
        NormalizeBudget(filter) == NormalizeBudget(Some(Before(item.value, "(")))
      else false
    else false
  }

  /** An empty filter or "All" admits every label. */
  lemma MatchAll(item: Option<string>, filter: Option<string>)
    requires !Truthy(filter) || filter == Some("All")
    ensures MatchBudgetFilter(item, filter)
  {
  }

  /** Labels that normalize alike match; in particular every label matches itself. */
  lemma MatchReflexive(item: Option<string>, filter: Option<string>)
    requires NormalizeBudget(item) == NormalizeBudget(filter)
    ensures MatchBudgetFilter(item, filter)
  {
  }

  /** A base filter (no "(") admits exactly the labels whose part before the first
      "(" normalizes like the filter. */
  lemma MatchBaseFilter(item: Option<string>, filter: string)
    requires filter != "" && filter != "All" && '(' !in filter
    ensures MatchBudgetFilter(item, Some(filter))
        <==> NormalizeBudget(Some(Before(item.GetOr(""), "("))) == NormalizeBudget(Some(filter))
  {
    NormalizeHas(filter, '(');
    if item.Some? && item.value != "" {
      var v := item.value;
      NormalizeHas(v, '(');
      ContainsChar(v, '(');
      if '(' !in v {
        assert Before(v, "(") == v;
      }
    }
  }

  /** A filter naming a subgroup (with "(") admits exactly the labels that normalize
      like it. */
  lemma MatchSubgroupFilter(item: Option<string>, filter: string)
    requires filter != "All" && '(' in filter
    ensures MatchBudgetFilter(item, Some(filter)) <==> NormalizeBudget(item) == NormalizeBudget(Some(filter))
  {
  }

  // ---------------------------------------------------------------- labels are unambiguous

  lemma DigitsHaveNoParen(n: nat)
    ensures '(' !in IntToString(n) && ' ' !in IntToString(n) && '-' !in IntToString(n)
    ensures AllDigits(IntToString(n)) && NoUpper(IntToString(n))
  {
  }

  /** The base label of a building type without "(" holds no "(". */
  lemma BaseLabelHasNoParen(n: nat, building: string)
    requires '(' !in building
    ensures '(' !in BaseLabel(n, building)
  {
    DigitsHaveNoParen(n);
  }

  /** The part of a full label before its first "(" is its base label. */
  lemma BeforeParenOfLabel(n: nat, building: string, subgroup: string)
    requires '(' !in building
    ensures Before(Label(n, building, subgroup), "(") == BaseLabel(n, building)
  {
    var b := BaseLabel(n, building);
    var s := Label(n, building, subgroup);
    BaseLabelHasNoParen(n, building);
    OccursAtChar(s, '(', |b|);
    forall j | 0 <= j < |b|
      ensures !OccursAt(s, "(", j)
    {
      OccursAtChar(s, '(', j);
      assert s[j] == b[j];
    }
    FindFirst(s, "(", |b|);
  }

  /** A full label is its base label followed by the parenthesised subgroup. */
  lemma LabelShape(n: nat, b: string, s: string)
    ensures Label(n, b, s) == BaseLabel(n, b) + ("(" + s + ")")
  {
  }

  /** Different budget numbers or building types give different base labels. */
  lemma BaseLabelInjective(n: nat, b: string, n': nat, b': string)
    requires BaseLabel(n, b) == BaseLabel(n', b')
    ensures n == n' && b == b'
  {
    var d, d' := IntToString(n), IntToString(n');
    DigitsHaveNoParen(n);
    DigitsHaveNoParen(n');
    assert BaseLabel(n, b)[7..] == d + (" - " + b);
    assert BaseLabel(n', b')[7..] == d' + (" - " + b');
    SplitAtStop(d, " - " + b, d', " - " + b', c => !IsDigit(c));
    IntToStringInjective(n, n');
    assert b == (" - " + b)[3..] && b' == (" - " + b')[3..];
  }

  /** Different budget numbers, building types or subgroups give different labels. */
  lemma LabelInjective(n: nat, b: string, s: string, n': nat, b': string, s': string)
    requires '(' !in b && '(' !in b'
    requires Label(n, b, s) == Label(n', b', s')
    ensures n == n' && b == b' && s == s'
  {
    LabelShape(n, b, s);
    LabelShape(n', b', s');
    BaseLabelHasNoParen(n, b);
    BaseLabelHasNoParen(n', b');
    var base, base' := BaseLabel(n, b), BaseLabel(n', b');
    SplitAtStop(base, "(" + s + ")", base', "(" + s' + ")", c => c == '(');
    BaseLabelInjective(n, b, n', b');
    assert s == ("(" + s + ")")[1..|s| + 1];
    assert s' == ("(" + s' + ")")[1..|s'| + 1];
  }

  lemma LowerBudgetWord()
    ensures Lower("Budget ") == "budget "
  {
    LowerAppend("B", "udget ");
    LowerKeeps("udget ");
    assert "B" + "udget " == "Budget ";
    assert Lower("B") == "b";
  }

  lemma SquashBudgetWord()
    ensures Squash("Budget ") == "budget"
  {
    LowerBudgetWord();
    RemoveCharAppend("budget", " ", ' ');
    RemoveCharAbsent("budget", ' ');
    assert "budget" + " " == "budget ";
  }

  lemma SquashDash()
    ensures Squash(" - ") == "-"
  {
    LowerKeeps(" - ");
    RemoveCharAppend(" ", "- ", ' ');
    RemoveCharAppend("-", " ", ' ');
    assert " " + "- " == " - " && "-" + " " == "- ";
  }

  /** The normalized base label: "budget", the digits, "-", then the squashed type. */
  lemma NormalizeBaseLabel(n: nat, building: string)
    requires building != [] && !IsSpace(building[|building| - 1])
    ensures Normalize(BaseLabel(n, building)) == "budget" + IntToString(n) + "-" + Squash(building)
  {
    var d := IntToString(n);
    DigitsHaveNoParen(n);
    var s := BaseLabel(n, building);
    var p := "Budget " + d + " - ";
    assert s == p + building && s[0] == 'B';
    NormalizeIsSquash(s);
    SquashAppend(p, building);
    SquashAppend("Budget " + d, " - ");
    SquashAppend("Budget ", d);
    SquashBudgetWord();
    SquashDash();
    LowerKeeps(d);
    RemoveCharAbsent(d, ' ');
    assert Squash(p) == "budget" + d + "-";
  }

  /** "budget", digits, "-", rest: the digits and the rest are determined. */
  lemma BudgetDigitsSplit(d: string, x: string, d': string, x': string)
    requires AllDigits(d) && AllDigits(d')
    requires "budget" + d + "-" + x == "budget" + d' + "-" + x'
    ensures d == d' && x == x'
  {
    var u, u' := "budget" + d + "-" + x, "budget" + d' + "-" + x';
    assert u[6..] == d + ("-" + x);
    assert u'[6..] == d' + ("-" + x');
    SplitAtStop(d, "-" + x, d', "-" + x', c => !IsDigit(c));
    assert x == ("-" + x)[1..] && x' == ("-" + x')[1..];
  }

  /** Normalized base labels with different budget numbers or building types differ. */
  lemma NormalizedBaseInjective(n: nat, b: string, n': nat, b': string)
    requires b != [] && !IsSpace(b[|b| - 1]) && b' != [] && !IsSpace(b'[|b'| - 1])
    requires Normalize(BaseLabel(n, b)) == Normalize(BaseLabel(n', b'))
    ensures n == n' && Squash(b) == Squash(b')
  {
    NormalizeBaseLabel(n, b);
    NormalizeBaseLabel(n', b');
    DigitsHaveNoParen(n);
    DigitsHaveNoParen(n');
    BudgetDigitsSplit(IntToString(n), Squash(b), IntToString(n'), Squash(b'));
    IntToStringInjective(n, n');
  }

  /** A building type holds no space, so squashing only lowers it. */
  lemma SquashPropertyType(t: string)
    requires t in PropertyTypes
    ensures |Squash(t)| >= 2 && Squash(t)[0] == LowerChar(t[0]) && Squash(t)[1] == LowerChar(t[1])
  {
    assert ' ' !in t;
    LowerHas(t, ' ');
    RemoveCharAbsent(Lower(t), ' ');
  }

  /** The four building types differ in their first two letters, case aside. */
  lemma PropertyTypeInitials(b: string, b': string)
    requires b in PropertyTypes && b' in PropertyTypes
    requires LowerChar(b[0]) == LowerChar(b'[0]) && LowerChar(b[1]) == LowerChar(b'[1])
    ensures b == b'
  {
    assert b == "Flats" || b == "Terraces" || b == "Semi-detached" || b == "Fully-detached";
    assert b' == "Flats" || b' == "Terraces" || b' == "Semi-detached" || b' == "Fully-detached";
  }

  /** The four building types stay distinct once squashed. */
  lemma PropertyTypesSquashApart(b: string, b': string)
    requires b in PropertyTypes && b' in PropertyTypes
    requires Squash(b) == Squash(b')
    ensures b == b'
  {
    SquashPropertyType(b);
    SquashPropertyType(b');
    PropertyTypeInitials(b, b');
  }

  /** The hierarchical match on generated labels: the base filter "Budget m - T'"
      admits the label "Budget n - T(S)" exactly when n == m and T == T'. */
  lemma MatchBaseSelectsBudget(n: nat, b: string, s: string, m: nat, b': string)
    requires b in PropertyTypes && b' in PropertyTypes
    ensures MatchBudgetFilter(Some(Label(n, b, s)), Some(BaseLabel(m, b'))) <==> n == m && b == b'
  {
    assert '(' !in b && '(' !in b';
    assert b != [] && !IsSpace(b[|b| - 1]) && b' != [] && !IsSpace(b'[|b'| - 1]);
    BaseLabelHasNoParen(m, b');
    var f := BaseLabel(m, b');
    assert f[..6] == "Budget";
    MatchBaseFilter(Some(Label(n, b, s)), f);
    BeforeParenOfLabel(n, b, s);
    if Normalize(BaseLabel(n, b)) == Normalize(f) {
      NormalizedBaseInjective(n, b, m, b');
      PropertyTypesSquashApart(b, b');
    }
  }

  /** The examples of the hierarchical match: a base filter selects its own budget
      number only, and "All" selects everything. */
  lemma MatchExampleOwnBudget()
    ensures MatchBudgetFilter(Some("Budget 1 - Flats(General Materials)"), Some("Budget 1 - Flats"))
  {
    assert IntToString(1) == "1";
    assert Label(1, "Flats", "General Materials") == "Budget 1 - Flats(General Materials)";
    assert BaseLabel(1, "Flats") == "Budget 1 - Flats";
    MatchBaseSelectsBudget(1, "Flats", "General Materials", 1, "Flats");
  }

  lemma MatchExampleOtherBudget()
    ensures !MatchBudgetFilter(Some("Budget 2 - Flats(Woods)"), Some("Budget 1 - Flats"))
  {
    assert IntToString(1) == "1";
    assert IntToString(2) == "2";
    assert Label(2, "Flats", "Woods") == "Budget 2 - Flats(Woods)";
    assert BaseLabel(1, "Flats") == "Budget 1 - Flats";
    MatchBaseSelectsBudget(2, "Flats", "Woods", 1, "Flats");
  }

  lemma MatchExampleAll()
    ensures MatchBudgetFilter(Some("Budget 2 - Flats(Woods)"), Some("All"))
  {
  }

  // ---------------------------------------------------------------- extract_budget_parts

  /** The building type `extract_budget_parts` reads off the part before "(": the
      stripped text after its last "-", or nothing when it holds no "-". */
  function BuildingOf(buildingPart: string): Option<string> {
    if Contains(buildingPart, "-") then Some(Strip(Last(Split(buildingPart, "-")))) else None
  }

  /** `extract_budget_parts`: for a label holding both "(" and ")", the building type
      read off the part before the first "(" and the text between the first and the
      second "(" with trailing ")" dropped, stripped; `(None, None)` otherwise. */
  function ExtractBudgetParts(budget: Option<string>): (r: (Option<string>, Option<string>))
    ensures r.0.Some? <==> r.1.Some?
    ensures r.0.Some? ==> Truthy(budget) && Contains(budget.value, "(") && Contains(budget.value, ")")
  {
    if !Truthy(budget) then (None, None)
    else
      var s := budget.value;
      if Contains(s, "(") && Contains(s, ")") then
        var parts := Split(s, "(");
        var buildingType := BuildingOf(Strip(parts[0]));
        if buildingType.Some? then (buildingType, Some(Strip(RStripChar(parts[1], ')'))))
        else (None, None)
      else
        (None, None)
  }

  /** Splitting at a character that the head does not contain: the first piece is the
      head and the second is the tail up to its own first occurrence. */
  lemma SplitHead(a: string, c: char, b: string)
    requires c !in a
    ensures |Split(a + [c] + b, [c])| >= 2
    ensures Split(a + [c] + b, [c])[0] == a
    ensures Split(a + [c] + b, [c])[1] == Before(b, [c])
  {
    var s := a + [c] + b;
    OccursAtChar(s, c, |a|);
    forall j | 0 <= j < |a|
      ensures !OccursAt(s, [c], j)
    {
      OccursAtChar(s, c, j);
      assert s[j] == a[j];
    }
    FindFirst(s, [c], |a|);
    assert s[..|a|] == a;
    assert s[|a| + 1..] == b;
  }

  /** The building type as `extract_budget_parts` reads it back: the text after the
      last "-" of the type. */
  function TypeTail(t: string): string {
    if t == "Semi-detached" || t == "Fully-detached" then "detached" else t
  }

  /** `extract_budget_parts` on "<base>(<subgroup>)" with a clean subgroup: the
      subgroup, and the stripped text after the last "-" of the base. */
  lemma ExtractOfShape(base: string, sg: string)
    requires '(' !in base && base != [] && !IsSpace(base[0]) && !IsSpace(base[|base| - 1])
    requires '(' !in sg && ')' !in sg && sg != [] && !IsSpace(sg[0]) && !IsSpace(sg[|sg| - 1])
    ensures ExtractBudgetParts(Some(base + "(" + sg + ")"))
         == if BuildingOf(base).Some? then (BuildingOf(base), Some(sg)) else (None, None)
  {
    var s := base + "(" + sg + ")";
    SplitOfShape(base, sg);
    TrailingParen(sg);
    StripKeeps(sg);
    StripKeeps(base);
    ShapeHasParens(base, sg);
  }

  lemma SplitOfShape(base: string, sg: string)
    requires '(' !in base && '(' !in sg
    ensures |Split(base + "(" + sg + ")", "(")| >= 2
    ensures Split(base + "(" + sg + ")", "(")[0] == base
    ensures Split(base + "(" + sg + ")", "(")[1] == sg + ")"
  {
    var tail := sg + ")";
    assert base + "(" + sg + ")" == base + ['('] + tail;
    SplitHead(base, '(', tail);
    ContainsChar(tail, '(');
  }

  lemma TrailingParen(sg: string)
    requires ')' !in sg
    ensures RStripChar(sg + ")", ')') == sg
  {
    assert (sg + ")")[..|sg|] == sg;
  }

  lemma ShapeHasParens(base: string, sg: string)
    ensures Contains(base + "(" + sg + ")", "(") && Contains(base + "(" + sg + ")", ")")
  {
    var s := base + "(" + sg + ")";
    assert s[|base|] == '(' && s[|s| - 1] == ')';
    ContainsChar(s, '(');
    ContainsChar(s, ')');
  }

  /** The text after the last "-" of a base label is the building type's tail. */
  lemma LastDashOfBase(n: nat, t: string)
    requires t in PropertyTypes
    ensures BuildingOf(BaseLabel(n, t)) == Some(TypeTail(t))
  {
    var d := IntToString(n);
    DigitsHaveNoParen(n);
    BaseHasDash(d, t);
    assert BaseLabel(n, t) == "Budget " + d + " - " + t;
    if t == "Semi-detached" {
      assert t == "Semi" + "-detached";
      LastDashHyphenated(d, "Semi");
    } else if t == "Fully-detached" {
      assert t == "Fully" + "-detached";
      LastDashHyphenated(d, "Fully");
    } else {
      assert '-' !in t && !IsSpace(t[0]) && !IsSpace(t[|t| - 1]);
      LastDashPlain(d, t);
    }
  }

  lemma BaseHasDash(d: string, t: string)
    ensures Contains("Budget " + d + " - " + t, "-")
  {
    var base := "Budget " + d + " - " + t;
    assert base[|d| + 8] == '-';
    ContainsChar(base, '-');
  }

  lemma LastDashPlain(d: string, t: string)
    requires '-' !in t && t != [] && !IsSpace(t[0]) && !IsSpace(t[|t| - 1])
    ensures Strip(Last(Split("Budget " + d + " - " + t, "-"))) == t
  {
    var base := "Budget " + d + " - " + t;
    PlainBaseShape(d, t);
    PlainBaseLast(d, t);
    assert Last(Split(base, "-")) == " " + t;
    LeadingSpace(t);
  }

  lemma PlainBaseShape(d: string, t: string)
    ensures "Budget " + d + " - " + t == ("Budget " + d + " ") + ['-'] + (" " + t)
  {
  }

  lemma PlainBaseLast(d: string, t: string)
    requires '-' !in t
    ensures Last(Split(("Budget " + d + " ") + ['-'] + (" " + t), "-")) == " " + t
  {
    SplitLastChar("Budget " + d + " ", '-', " " + t);
  }

  lemma LeadingSpace(t: string)
    requires t != [] && !IsSpace(t[0]) && !IsSpace(t[|t| - 1])
    ensures Strip(" " + t) == t
  {
    var s := " " + t;
    assert s[1..] == t;
    assert TrimStart(s) == TrimStart(t);
    StripKeeps(t);
  }

  lemma LastDashHyphenated(d: string, head: string)
    ensures Strip(Last(Split("Budget " + d + " - " + (head + "-detached"), "-"))) == "detached"
  {
    assert "Budget " + d + " - " + (head + "-detached") == ("Budget " + d + " - " + head) + ['-'] + "detached";
    SplitLastChar("Budget " + d + " - " + head, '-', "detached");
    StripKeeps("detached");
  }

  /** On a generated label, `extract_budget_parts` returns the subgroup and the
      building type, except that "Semi-detached" and "Fully-detached" both come back
      as "detached", because the label is cut at its last "-". */
  lemma ExtractGeneratedLabel(n: nat, t: string, sg: string)
    requires t in PropertyTypes && sg in SubgroupsExtended
    ensures ExtractBudgetParts(Some(Label(n, t, sg))) == (Some(TypeTail(t)), Some(sg))
  {
    BaseClean(n, t);
    SubgroupClean(sg);
    ExtractOfShape(BaseLabel(n, t), sg);
    LastDashOfBase(n, t);
  }

  /** A base label has no "(" and no whitespace at its ends. */
  lemma BaseClean(n: nat, t: string)
    requires t in PropertyTypes
    ensures var base := BaseLabel(n, t);
      '(' !in base && base != [] && !IsSpace(base[0]) && !IsSpace(base[|base| - 1])
  {
    BaseLabelHasNoParen(n, t);
    var base := BaseLabel(n, t);
    assert base[0] == 'B' && base[|base| - 1] == t[|t| - 1];
  }

  /** A subgroup name has no parentheses and no whitespace at its ends. */
  lemma SubgroupClean(sg: string)
    requires sg in SubgroupsExtended
    ensures '(' !in sg && ')' !in sg && sg != [] && !IsSpace(sg[0]) && !IsSpace(sg[|sg| - 1])
  {
  }

  // ---------------------------------------------------------------- determine_group_from_category_and_budget

  /** The group a budget subgroup files its items under. */
  const SubgroupGroups: map<string, string> := map[
    "Plumbings" := "MATERIAL(PLUMBINGS)",
    "Woods" := "MATERIAL(WOODS)",
    "Irons" := "MATERIAL(IRONS)",
    "General Materials" := "Materials",
    "Labour" := "Labour",
    "Electrical" := "MATERIAL(ELECTRICAL)",
    "Mechanical" := "MATERIAL(MECHANICAL)"
  ]

  /** The group for a category when the budget names no known subgroup. */
  const CategoryGroups: map<string, string> := map[
    "Materials" := "Materials",
    "Labour" := "Labour",
    "Material/Labour" := "Material/Labour"
  ]

  /** Every group name the mapping can produce. */
  const Groups: set<string> := {
    "MATERIAL(PLUMBINGS)", "MATERIAL(WOODS)", "MATERIAL(IRONS)", "Materials", "Labour",
    "MATERIAL(ELECTRICAL)", "MATERIAL(MECHANICAL)", "Material/Labour"
  }

  function CategoryGroup(category: string): (g: string)
    ensures g in Groups
    ensures category in CategoryGroups ==> g == category
    ensures category !in CategoryGroups ==> g == "Materials"
  {
    if category in CategoryGroups then CategoryGroups[category] else "Materials"
  }

  /** `determine_group_from_category_and_budget`. */
  function DetermineGroup(category: string, budget: Option<string>): (g: string)
    ensures g in Groups
  {
    var sub := ExtractBudgetParts(budget).1;
    if Truthy(budget) && Truthy(sub) && sub.value in SubgroupGroups then SubgroupGroups[sub.value]
    else CategoryGroup(category)
  }

  /** The parts are found only in a label holding both "(" and ")". */
  lemma ExtractNeedsParens(budget: Option<string>)
    requires ExtractBudgetParts(budget).0.Some?
    ensures '(' in budget.value && ')' in budget.value
  {
    ContainsChar(budget.value, '(');
    ContainsChar(budget.value, ')');
  }

  /** A label naming a known subgroup decides the group, whatever the category. */
  lemma DetermineGroupOfLabel(category: string, n: nat, t: string, sg: string)
    requires t in PropertyTypes && sg in SubgroupsExtended
    ensures sg in SubgroupGroups
    ensures DetermineGroup(category, Some(Label(n, t, sg))) == SubgroupGroups[sg]
  {
    ExtractGeneratedLabel(n, t, sg);
    assert ExtractBudgetParts(Some(Label(n, t, sg))).1 == Some(sg);
    SubgroupHasGroup(sg);
  }

  lemma SubgroupHasGroup(sg: string)
    requires sg in SubgroupsExtended
    ensures sg in SubgroupGroups
  {
  }

  /** Without a parsable known subgroup the category decides, unknown categories
      falling back to "Materials". */
  lemma DetermineGroupFallback(category: string, budget: Option<string>)
    requires !Truthy(budget) || '(' !in budget.value
    ensures DetermineGroup(category, budget) == CategoryGroup(category)
  {
    if ExtractBudgetParts(budget).0.Some? {
      ExtractNeedsParens(budget);
    }
    assert ExtractBudgetParts(budget).1.None?;
  }

  // ---------------------------------------------------------------- filter_budgets_by_type

  /** The substring `f"- {building_type}("` that marks a label of that building type. */
  function TypeMarker(buildingType: string): string {
    "- " + buildingType + "("
  }

  /** `filter_budgets_by_type`: the labels holding the building type's marker, in
      their order; all of them when no building type is given. */
  function FilterBudgetsByType(budgets: seq<string>, buildingType: Option<string>): (r: seq<string>)
    ensures |r| <= |budgets|
    ensures forall x :: x in r <==> x in budgets && (Truthy(buildingType) ==> Contains(x, TypeMarker(buildingType.value)))
  {
    if !Truthy(buildingType) || budgets == [] then budgets
    else
      var rest := FilterBudgetsByType(budgets[1..], buildingType);
      assert forall x :: x in budgets <==> x == budgets[0] || x in budgets[1..];
      if Contains(budgets[0], TypeMarker(buildingType.value)) then [budgets[0]] + rest else rest
  }

  /** Filtering keeps a list free of duplicates. */
  lemma {:induction false} FilterNoDup(budgets: seq<string>, buildingType: Option<string>)
    requires NoDup(budgets)
    ensures NoDup(FilterBudgetsByType(budgets, buildingType))
  {
    if Truthy(buildingType) && budgets != [] {
      FilterNoDup(budgets[1..], buildingType);
      assert budgets[0] !in budgets[1..];
    }
  }

  /** Every generated label of a building type holds that type's marker. */
  lemma LabelHasTypeMarker(n: nat, t: string, sg: string)
    ensures Contains(Label(n, t, sg), TypeMarker(t))
  {
    var s := Label(n, t, sg);
    var k := |"Budget " + IntToString(n) + " "|;
    assert s == "Budget " + IntToString(n) + " " + TypeMarker(t) + sg + ")";
    assert OccursAt(s, TypeMarker(t), k);
  }

  // ---------------------------------------------------------------- calculate_line_amount

  /** `calculate_line_amount`: the product, a missing or zero factor counting as zero. */
  function CalculateLineAmount(qty: Option<real>, unitCost: Option<real>): (r: real)
    ensures r == qty.GetOr(0.0) * unitCost.GetOr(0.0)
  {
    (if Models.NonZero(qty) then qty.value else 0.0) * (if Models.NonZero(unitCost) then unitCost.value else 0.0)
  }

  /** The line amount of an item's quantity and unit cost is its `amount`. */
  lemma LineAmountIsItemAmount(item: Models.Item)
    ensures CalculateLineAmount(Some(item.qty), item.unitCost) == Models.Amount(item)
  {
    Models.AmountIsProduct(item);
  }

  // ---------------------------------------------------------------- ordering

  /** The number after the first "Budget " and before the following " -", or 999
      when there is none or it does not parse. */
  function BudgetNumber(x: string): int {
    match Find(x, "Budget ")
    case None => 999
    case Some(i) =>
      match ParseInt(Strip(Before(x[i + 7..], " -")))
      case Some(v) => v
      case None => 999
  }

  /** Every label opens with "Budget ". */
  lemma FindBudgetWord(n: nat, t: string, sg: string)
    ensures Find(Label(n, t, sg), "Budget ") == Some(0)
  {
    var s := Label(n, t, sg);
    assert s[..7] == "Budget ";
    assert OccursAt(s, "Budget ", 0);
    FindFirst(s, "Budget ", 0);
  }

  /** The text before the first " -" after a run of digits is that run. */
  lemma BeforeDash(d: string, y: string)
    requires AllDigits(d)
    ensures Before(d + " -" + y, " -") == d
  {
    var s := d + " -" + y;
    assert s[|d|..|d| + 2] == " -";
    assert OccursAt(s, " -", |d|);
    forall j | 0 <= j < |d|
      ensures !OccursAt(s, " -", j)
    {
      assert s[j] == d[j];
    }
    FindFirst(s, " -", |d|);
    assert s[..|d|] == d;
  }

  /** The number of a generated label reads back. */
  lemma BudgetNumberOfLabel(n: nat, t: string, sg: string)
    ensures BudgetNumber(Label(n, t, sg)) == n
  {
    var s := Label(n, t, sg);
    var d := IntToString(n);
    DigitsHaveNoParen(n);
    FindBudgetWord(n, t, sg);
    var y := " " + t + "(" + sg + ")";
    assert s[7..] == d + " -" + y;
    BeforeDash(d, y);
    assert !IsSpace(d[0]) && !IsSpace(d[|d| - 1]);
    StripKeeps(d);
    ParseIntToString(n);
  }

  /** Python's string order: code point by code point, a proper prefix first. */
  predicate StrLe(a: string, b: string) {
    if a == [] then true
    else if b == [] then false
    else if a[0] != b[0] then a[0] < b[0]
    else StrLe(a[1..], b[1..])
  }

  lemma StrLeTotal(a: string, b: string)
    ensures StrLe(a, b) || StrLe(b, a)
  {
  }

  lemma StrLeAntisymmetric(a: string, b: string)
    requires StrLe(a, b) && StrLe(b, a)
    ensures a == b
  {
    if a != [] && b != [] {
      StrLeAntisymmetric(a[1..], b[1..]);
      assert a == [a[0]] + a[1..] && b == [b[0]] + b[1..];
    }
  }

  lemma {:induction false} StrLeTransitive(a: string, b: string, c: string)
    requires StrLe(a, b) && StrLe(b, c)
    ensures StrLe(a, c)
  {
    if a != [] && b != [] && c != [] && a[0] == b[0] && b[0] == c[0] {
      StrLeTransitive(a[1..], b[1..], c[1..]);
    }
  }

  /** A label paired with its sort key, computed once per label as `sorted(..., key=...)`
      does: `(extract_budget_number(x), x)`. */
  type Keyed = (int, string)

  function Decorate(s: seq<string>): (r: seq<Keyed>)
    ensures |r| == |s|
    ensures forall i :: 0 <= i < |s| ==> r[i] == (BudgetNumber(s[i]), s[i])
  {
    seq(|s|, i requires 0 <= i < |s| => (BudgetNumber(s[i]), s[i]))
  }

  function Undecorate(p: seq<Keyed>): (r: seq<string>)
    ensures |r| == |p|
    ensures forall i :: 0 <= i < |p| ==> r[i] == p[i].1
  {
    seq(|p|, i requires 0 <= i < |p| => p[i].1)
  }

  /** Tuple order on keys: the budget number first, then the label. */
  predicate KeyLe(a: Keyed, b: Keyed) {
    a.0 < b.0 || (a.0 == b.0 && StrLe(a.1, b.1))
  }

  lemma KeyLeTotal(a: Keyed, b: Keyed)
    ensures KeyLe(a, b) || KeyLe(b, a)
  {
    StrLeTotal(a.1, b.1);
  }

  lemma KeyLeTransitive(a: Keyed, b: Keyed, c: Keyed)
    requires KeyLe(a, b) && KeyLe(b, c)
    ensures KeyLe(a, c)
  {
    if a.0 == b.0 == c.0 {
      StrLeTransitive(a.1, b.1, c.1);
    }
  }

  predicate SortedKeys(p: seq<Keyed>) {
    forall i :: 0 <= i < |p| - 1 ==> KeyLe(p[i], p[i + 1])
  }

  /** Inserting into a sorted list. */
  function Insert(x: Keyed, p: seq<Keyed>): (r: seq<Keyed>)
    requires SortedKeys(p)
    ensures SortedKeys(r)
    ensures |r| == |p| + 1
    ensures multiset(r) == multiset(p) + multiset{x}
    ensures r[0] == x || (p != [] && r[0] == p[0])
  {
    if p == [] then [x]
    else if KeyLe(x, p[0]) then [x] + p
    else
      KeyLeTotal(x, p[0]);
      var rest := Insert(x, p[1..]);
      assert p == [p[0]] + p[1..];
      [p[0]] + rest
  }

  /** A sorted permutation of the keyed labels. */
  function SortKeys(p: seq<Keyed>): (r: seq<Keyed>)
    ensures SortedKeys(r)
    ensures |r| == |p|
    ensures multiset(r) == multiset(p)
  {
    if p == [] then []
    else
      assert p == [p[0]] + p[1..];
      Insert(p[0], SortKeys(p[1..]))
  }

  /** Sorted on neighbours means sorted on every pair. */
  lemma {:induction false} SortedAllPairs(p: seq<Keyed>, i: int, j: int)
    requires SortedKeys(p) && 0 <= i < j < |p|
    ensures KeyLe(p[i], p[j])
    decreases j - i
  {
    if j > i + 1 {
      SortedAllPairs(p, i, j - 1);
      KeyLeTransitive(p[i], p[j - 1], p[j]);
    }
  }

  /** `sorted(options, key=lambda x: (extract_budget_number(x), x))`. */
  function SortByKey(s: seq<string>): (r: seq<string>)
    ensures |r| == |s|
  {
    Undecorate(SortKeys(Decorate(s)))
  }

  /** The keyed pairs of `s` are exactly its labels with their own keys. */
  lemma DecorateMembers(s: seq<string>, k: Keyed)
    ensures k in Decorate(s) <==> k.1 in s && k.0 == BudgetNumber(k.1)
  {
    if k.1 in s && k.0 == BudgetNumber(k.1) {
      var i :| 0 <= i < |s| && s[i] == k.1;
      assert Decorate(s)[i] == k;
    }
  }

  /** Position `i` of the sorted labels carries its own key. */
  lemma SortedEntry(s: seq<string>, i: int)
    requires 0 <= i < |s|
    ensures SortKeys(Decorate(s))[i] == (BudgetNumber(SortByKey(s)[i]), SortByKey(s)[i])
    ensures SortByKey(s)[i] in s
  {
    var q := SortKeys(Decorate(s));
    assert q[i] in multiset(q);
    DecorateMembers(s, q[i]);
  }

  /** The sorted options come in order of budget number, and of the label within one
      number: labels without a number (key 999) follow every label numbered below 999. */
  lemma SortByKeyOrdered(s: seq<string>, i: int, j: int)
    requires 0 <= i < j < |s|
    ensures BudgetNumber(SortByKey(s)[i]) <= BudgetNumber(SortByKey(s)[j])
    ensures BudgetNumber(SortByKey(s)[i]) == BudgetNumber(SortByKey(s)[j]) ==> StrLe(SortByKey(s)[i], SortByKey(s)[j])
  {
    SortedAllPairs(SortKeys(Decorate(s)), i, j);
    SortedEntry(s, i);
    SortedEntry(s, j);
  }

  /** Sorting keeps exactly the same labels. */
  lemma SortKeepsMembers(s: seq<string>, x: string)
    ensures x in SortByKey(s) <==> x in s
  {
    var q := SortKeys(Decorate(s));
    var k := (BudgetNumber(x), x);
    DecorateMembers(s, k);
    if x in SortByKey(s) {
      var i :| 0 <= i < |s| && SortByKey(s)[i] == x;
      SortedEntry(s, i);
    }
    if x in s {
      assert k in multiset(q);
      var i :| 0 <= i < |q| && q[i] == k;
      assert SortByKey(s)[i] == x;
    }
  }

  /** Sorting keeps a list free of duplicates. */
  lemma SortNoDup(s: seq<string>)
    requires NoDup(s)
    ensures NoDup(SortByKey(s))
  {
    var r := SortByKey(s);
    var q := SortKeys(Decorate(s));
    assert NoDup(Decorate(s));
    forall i, j | 0 <= i < j < |r|
      ensures r[i] != r[j]
    {
      SortedEntry(s, i);
      SortedEntry(s, j);
      if r[i] == r[j] {
        MultisetTwice(q, i, j);
        NoDupMultiset(Decorate(s), q[i]);
      }
    }
  }

  lemma MultisetTwice<T>(r: seq<T>, i: int, j: int)
    requires 0 <= i < j < |r| && r[i] == r[j]
    ensures multiset(r)[r[i]] >= 2
  {
    assert r == r[..i] + [r[i]] + r[i + 1..j] + [r[j]] + r[j + 1..];
  }

  lemma {:induction false} NoDupMultiset<T>(s: seq<T>, x: T)
    requires NoDup(s)
    ensures multiset(s)[x] <= 1
  {
    if s != [] {
      NoDupMultiset(s[1..], x);
      assert s == [s[0]] + s[1..];
      assert s[0] !in s[1..];
    }
  }

  // ---------------------------------------------------------------- generate_budget_options

  /** The labels of one budget number and building type, one per subgroup. */
  function Row(n: int, t: string): (r: seq<string>)
    ensures |r| == |Subgroups(n)|
  {
    seq(|Subgroups(n)|, k requires 0 <= k < |Subgroups(n)| => Label(n, t, Subgroups(n)[k]))
  }

  /** The labels of one budget number for the first `ti` building types. */
  function BlockPrefix(n: int, ti: nat): seq<string>
    requires ti <= |PropertyTypes|
  {
    if ti == 0 then [] else BlockPrefix(n, ti - 1) + Row(n, PropertyTypes[ti - 1])
  }

  /** The generated labels for budgets 1 to `m`, in generation order. */
  function Generated(m: int): seq<string>
    decreases m
  {
    if m <= 0 then [] else Generated(m - 1) + BlockPrefix(m, |PropertyTypes|)
  }

  lemma {:induction false} BlockPrefixCount(n: int, ti: nat)
    requires ti <= |PropertyTypes|
    ensures |BlockPrefix(n, ti)| == ti * |Subgroups(n)|
  {
    if ti > 0 {
      BlockPrefixCount(n, ti - 1);
    }
  }

  /** Budgets 1 and 2 give 20 labels each, every later budget 28. */
  lemma {:induction false} GeneratedCount(m: nat)
    ensures |Generated(m)| == if m <= 2 then 20 * m else 28 * m - 16
  {
    if m > 0 {
      GeneratedCount(m - 1);
      BlockPrefixCount(m, |PropertyTypes|);
    }
  }

  /** Where a label of a row comes from. */
  lemma RowIndex(n: int, t: string, x: string) returns (j: int)
    requires x in Row(n, t)
    ensures 0 <= j < |Subgroups(n)| && x == Label(n, t, Subgroups(n)[j])
  {
    j :| 0 <= j < |Row(n, t)| && Row(n, t)[j] == x;
  }

  /** Which row of a block a label comes from. */
  lemma {:induction false} BlockIndex(n: int, ti: nat, x: string) returns (k: int)
    requires ti <= |PropertyTypes| && x in BlockPrefix(n, ti)
    ensures 0 <= k < ti && x in Row(n, PropertyTypes[k])
  {
    if x in Row(n, PropertyTypes[ti - 1]) {
      k := ti - 1;
    } else {
      k := BlockIndex(n, ti - 1, x);
    }
  }

  /** Every row of a block is in the block. */
  lemma {:induction false} BlockHas(n: int, ti: nat, k: int, x: string)
    requires ti <= |PropertyTypes| && 0 <= k < ti && x in Row(n, PropertyTypes[k])
    ensures x in BlockPrefix(n, ti)
  {
    if k < ti - 1 {
      BlockHas(n, ti - 1, k, x);
    }
  }

  /** Which budget's block a generated label comes from. */
  lemma {:induction false} GeneratedIndex(m: int, x: string) returns (n: int)
    requires x in Generated(m)
    ensures 1 <= n <= m && x in BlockPrefix(n, |PropertyTypes|)
    decreases m
  {
    if x in BlockPrefix(m, |PropertyTypes|) {
      n := m;
    } else {
      n := GeneratedIndex(m - 1, x);
    }
  }

  /** Every block of budgets 1 to `m` is generated. */
  lemma {:induction false} GeneratedHas(m: int, n: int, x: string)
    requires 1 <= n <= m && x in BlockPrefix(n, |PropertyTypes|)
    ensures x in Generated(m)
    decreases m
  {
    if n < m {
      GeneratedHas(m - 1, n, x);
    }
  }

  /** `generate_budget_options` emits "Budget n - T(S)" for every budget n from 1 to
      `m`, every building type T and every subgroup S of n, and nothing else. */
  lemma GeneratedLabels(m: int, x: string)
    ensures x in Generated(m)
        <==> exists n, k, j :: 1 <= n <= m && 0 <= k < |PropertyTypes| && 0 <= j < |Subgroups(n)|
                               && x == Label(n, PropertyTypes[k], Subgroups(n)[j])
  {
    if x in Generated(m) {
      var n := GeneratedIndex(m, x);
      var k := BlockIndex(n, |PropertyTypes|, x);
      var j := RowIndex(n, PropertyTypes[k], x);
    }
    if exists n, k, j :: 1 <= n <= m && 0 <= k < |PropertyTypes| && 0 <= j < |Subgroups(n)|
                         && x == Label(n, PropertyTypes[k], Subgroups(n)[j]) {
      var n, k, j :| 1 <= n <= m && 0 <= k < |PropertyTypes| && 0 <= j < |Subgroups(n)|
                     && x == Label(n, PropertyTypes[k], Subgroups(n)[j]);
      assert Row(n, PropertyTypes[k])[j] == x;
      BlockHas(n, |PropertyTypes|, k, x);
      GeneratedHas(m, n, x);
    }
  }

  /** A generated label's budget number lies between 1 and `m`. */
  lemma GeneratedNumbers(m: int, x: string)
    requires x in Generated(m)
    ensures 1 <= BudgetNumber(x) <= m
  {
    var n := GeneratedIndex(m, x);
    BlockNumber(n, x);
  }

  lemma SubgroupsDistinct(n: int, i: int, j: int)
    requires 0 <= i < |Subgroups(n)| && 0 <= j < |Subgroups(n)|
    requires Subgroups(n)[i] == Subgroups(n)[j]
    ensures i == j
  {
  }

  lemma PropertyTypesDistinct(i: int, j: int)
    requires 0 <= i < |PropertyTypes| && 0 <= j < |PropertyTypes|
    requires PropertyTypes[i] == PropertyTypes[j]
    ensures i == j
  {
  }

  /** One row holds each subgroup once. */
  lemma RowNoDup(n: nat, k: int)
    requires 0 <= k < |PropertyTypes|
    ensures NoDup(Row(n, PropertyTypes[k]))
  {
    var t := PropertyTypes[k];
    var row := Row(n, t);
    forall p, q | 0 <= p < q < |row|
      ensures row[p] != row[q]
    {
      if row[p] == row[q] {
        LabelInjective(n, t, Subgroups(n)[p], n, t, Subgroups(n)[q]);
        SubgroupsDistinct(n, p, q);
      }
    }
  }

  /** Rows of different building types share no label. */
  lemma RowsApart(n: nat, k: int, k': int, x: string)
    requires 0 <= k < |PropertyTypes| && 0 <= k' < |PropertyTypes| && k != k'
    requires x in Row(n, PropertyTypes[k])
    ensures x !in Row(n, PropertyTypes[k'])
  {
    var j := RowIndex(n, PropertyTypes[k], x);
    if x in Row(n, PropertyTypes[k']) {
      var j' := RowIndex(n, PropertyTypes[k'], x);
      LabelInjective(n, PropertyTypes[k], Subgroups(n)[j], n, PropertyTypes[k'], Subgroups(n)[j']);
      PropertyTypesDistinct(k, k');
    }
  }

  /** Every label of budget `n`'s block carries the number `n`. */
  lemma BlockNumber(n: nat, x: string)
    requires x in BlockPrefix(n, |PropertyTypes|)
    ensures BudgetNumber(x) == n
  {
    var k := BlockIndex(n, |PropertyTypes|, x);
    var j := RowIndex(n, PropertyTypes[k], x);
    BudgetNumberOfLabel(n, PropertyTypes[k], Subgroups(n)[j]);
  }

  /** The labels of one budget number are distinct. */
  lemma {:induction false} BlockPrefixNoDup(n: nat, ti: nat)
    requires ti <= |PropertyTypes|
    ensures NoDup(BlockPrefix(n, ti))
  {
    if ti > 0 {
      BlockPrefixNoDup(n, ti - 1);
      RowNoDup(n, ti - 1);
      var t := PropertyTypes[ti - 1];
      forall x | x in BlockPrefix(n, ti - 1)
        ensures x !in Row(n, t)
      {
        var k := BlockIndex(n, ti - 1, x);
        RowsApart(n, k, ti - 1, x);
      }
      NoDupAppend(BlockPrefix(n, ti - 1), Row(n, t));
    }
  }

  /** The generated labels hold no duplicates. */
  lemma {:induction false} GeneratedNoDup(m: int)
    ensures NoDup(Generated(m))
    decreases m
  {
    if m > 0 {
      GeneratedNoDup(m - 1);
      BlockPrefixNoDup(m, |PropertyTypes|);
      forall x | x in Generated(m - 1)
        ensures x !in BlockPrefix(m, |PropertyTypes|)
      {
        GeneratedNumbers(m - 1, x);
        if x in BlockPrefix(m, |PropertyTypes|) {
          BlockNumber(m, x);
        }
      }
      NoDupAppend(Generated(m - 1), BlockPrefix(m, |PropertyTypes|));
    }
  }

  /** The loop over the existing budgets: each is appended unless already present. */
  function AppendNew(options: seq<string>, existing: seq<string>): (r: seq<string>)
    ensures |options| <= |r|
    decreases |existing|
  {
    if existing == [] then options
    else
      var prev := AppendNew(options, existing[..|existing| - 1]);
      var b := existing[|existing| - 1];
      if b in prev then prev else prev + [b]
  }

  /** Appending only absent labels yields the union, keeps the generated labels in
      front and keeps the list free of duplicates. */
  lemma {:induction false} AppendNewSpec(options: seq<string>, existing: seq<string>)
    requires NoDup(options)
    ensures NoDup(AppendNew(options, existing))
    ensures forall x :: x in AppendNew(options, existing) <==> x in options || x in existing
    ensures AppendNew(options, existing)[..|options|] == options
    decreases |existing|
  {
    if existing != [] {
      var init := existing[..|existing| - 1];
      AppendNewSpec(options, init);
      var prev := AppendNew(options, init);
      var b := existing[|existing| - 1];
      assert existing == init + [b];
      if b !in prev {
        NoDupAppend(prev, [b]);
        assert (prev + [b])[..|options|] == prev[..|options|];
      }
    }
  }

  /** What `generate_budget_options` returns. */
  function BudgetOptions(maxBudgetNum: int, buildingType: Option<string>, existing: seq<string>): seq<string> {
    SortByKey(FilterBudgetsByType(AppendNew(Generated(maxBudgetNum), existing), buildingType))
  }

  /** The options are free of duplicates and are exactly the generated and existing
      labels that carry the building type's marker. */
  lemma BudgetOptionsMembers(maxBudgetNum: int, buildingType: Option<string>, existing: seq<string>, x: string)
    ensures NoDup(BudgetOptions(maxBudgetNum, buildingType, existing))
    ensures x in BudgetOptions(maxBudgetNum, buildingType, existing)
        <==> (x in Generated(maxBudgetNum) || x in existing)
             && (Truthy(buildingType) ==> Contains(x, TypeMarker(buildingType.value)))
  {
    var g := Generated(maxBudgetNum);
    GeneratedNoDup(maxBudgetNum);
    AppendNewSpec(g, existing);
    var a := AppendNew(g, existing);
    FilterNoDup(a, buildingType);
    var f := FilterBudgetsByType(a, buildingType);
    SortNoDup(f);
    SortKeepsMembers(f, x);
  }

  /** The options come in order of budget number, then of label. */
  lemma BudgetOptionsOrdered(maxBudgetNum: int, buildingType: Option<string>, existing: seq<string>, i: int, j: int)
    requires 0 <= i < j < |BudgetOptions(maxBudgetNum, buildingType, existing)|
    ensures var r := BudgetOptions(maxBudgetNum, buildingType, existing);
      BudgetNumber(r[i]) <= BudgetNumber(r[j]) && (BudgetNumber(r[i]) == BudgetNumber(r[j]) ==> StrLe(r[i], r[j]))
  {
    SortByKeyOrdered(FilterBudgetsByType(AppendNew(Generated(maxBudgetNum), existing), buildingType), i, j);
  }

  /** The first loop of `generate_budget_options`: for every budget number, building
      type and subgroup, in that nesting, append the label. */
  method GenerateLabels(maxBudgetNum: int) returns (options: seq<string>)
    ensures options == Generated(maxBudgetNum)
  {
    options := [];
    var n := 1;
    while n <= maxBudgetNum
      invariant 1 <= n && (n == 1 || n - 1 <= maxBudgetNum)
      invariant options == Generated(n - 1)
    {
      var subgroups := if n >= 3 then SubgroupsExtended else SubgroupsBase;
      ghost var generatedBefore := options;
      for ti := 0 to |PropertyTypes|
        invariant options == generatedBefore + BlockPrefix(n, ti)
      {
        options := AppendRow(options, n, PropertyTypes[ti], subgroups);
        BlockStep(n, ti, generatedBefore, options);
      }
      GeneratedStep(n, generatedBefore, options);
      n := n + 1;
    }
  }

  /** The innermost loop: the labels of one building type for every subgroup. */
  method AppendRow(start: seq<string>, n: int, building: string, subgroups: seq<string>)
    returns (options: seq<string>)
    requires subgroups == Subgroups(n)
    ensures options == start + Row(n, building)
  {
    options := start;
    for si := 0 to |subgroups|
      invariant options == start + Row(n, building)[..si]
    {
      options := options + [Label(n, building, subgroups[si])];
      RowStep(n, building, si, start, options);
    }
    assert Row(n, building)[..|subgroups|] == Row(n, building);
  }

  /** `generate_budget_options(max_budget_num, building_type, existing_budgets)`:
      the generated labels, then each existing label not yet listed, filtered by
      building type and sorted by budget number and label. */
  method GenerateBudgetOptions(maxBudgetNum: int, buildingType: Option<string>, existing: seq<string>)
    returns (options: seq<string>)
    ensures options == BudgetOptions(maxBudgetNum, buildingType, existing)
  {
    options := GenerateLabels(maxBudgetNum);
    ghost var generated := options;
    for k := 0 to |existing|
      invariant options == AppendNew(generated, existing[..k])
    {
      assert existing[..k + 1][..k] == existing[..k];
      if existing[k] !in options {
        options := options + [existing[k]];
      }
    }
    assert existing[..|existing|] == existing;
    options := FilterBudgetsByType(options, buildingType);
    options := SortByKey(options);
  }

  lemma BlockStep(n: int, ti: nat, start: seq<string>, options: seq<string>)
    requires ti < |PropertyTypes|
    requires options == start + BlockPrefix(n, ti) + Row(n, PropertyTypes[ti])
    ensures options == start + BlockPrefix(n, ti + 1)
  {
    var b := BlockPrefix(n, ti);
    var r := Row(n, PropertyTypes[ti]);
    BlockPrefixUnfold(n, ti);
    SeqAssoc(start, b, r);
  }

  lemma GeneratedStep(n: int, before: seq<string>, options: seq<string>)
    requires n >= 1 && before == Generated(n - 1)
    requires options == before + BlockPrefix(n, |PropertyTypes|)
    ensures options == Generated(n)
  {
  }

  lemma BlockPrefixUnfold(n: int, ti: nat)
    requires ti < |PropertyTypes|
    ensures BlockPrefix(n, ti + 1) == BlockPrefix(n, ti) + Row(n, PropertyTypes[ti])
  {
  }

  lemma SeqAssoc<T>(a: seq<T>, b: seq<T>, c: seq<T>)
    ensures a + b + c == a + (b + c)
  {
  }

  lemma RowStep(n: int, t: string, si: int, start: seq<string>, options: seq<string>)
    requires 0 <= si < |Subgroups(n)|
    requires options == start + Row(n, t)[..si] + [Label(n, t, Subgroups(n)[si])]
    ensures options == start + Row(n, t)[..si + 1]
  {
    assert Row(n, t)[..si + 1] == Row(n, t)[..si] + [Row(n, t)[si]];
  }
}
