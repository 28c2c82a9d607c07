/** Cost queries and seeding of internal/service/billing/billing.go, over exact reals. */
module Costs {
  import opened Prelude
  import opened Money

  datatype CostItem = CostItem(
    service: string, sku: string, project: string, tag: string,
    cost: real, currency: string, usageStart: string, usageEnd: string)

  /** An empty text leaves a bound or a filter out. */
  datatype Query = Query(start: string, end: string, groupBy: string, service: string, project: string)

  datatype Group = Group(key: string, cost: real, currency: string)

  datatype Report = Report(groupBy: string, currency: string, total: real, groups: seq<Group>)

  /** Go's order on strings. */
  predicate Less(a: string, b: string) {
    if b == "" then false
    else if a == "" then true
    else a[0] < b[0] || (a[0] == b[0] && Less(a[1..], b[1..]))
  }

  lemma {:induction false} LessIsTotal(a: string, b: string)
    ensures (Less(a, b) || Less(b, a) || a == b) && !(Less(a, b) && Less(b, a)) && !Less(a, a)
  {
    if a != "" && b != "" {
      LessIsTotal(a[1..], b[1..]);
      if a[0] == b[0] && a[1..] == b[1..] {
        assert a == [a[0]] + a[1..] && b == [b[0]] + b[1..];
      }
    }
    if a != "" {
      LessIsTotal(a[1..], a[1..]);
    }
  }

  lemma {:induction false} LessIsTransitive(a: string, b: string, c: string)
    requires Less(a, b) && Less(b, c)
    ensures Less(a, c)
  {
    if a != "" && b != "" && c != "" && a[0] == b[0] && b[0] == c[0] {
      LessIsTransitive(a[1..], b[1..], c[1..]);
    }
  }

  ghost predicate SmallerAt(a: string, b: string, k: nat) {
    k <= |a| && k < |b| && a[..k] == b[..k] && (k == |a| || a[k] < b[k])
  }

  /** The first place where the texts differ decides; a text comes before its continuations. */
  lemma {:induction false} LessMeans(a: string, b: string)
    ensures Less(a, b) <==> exists k: nat :: SmallerAt(a, b, k)
  {
    if b != "" && a != "" {
      LessMeans(a[1..], b[1..]);
      if k: nat :| SmallerAt(a[1..], b[1..], k) {
        if a[0] == b[0] {
          assert a[..k + 1] == [a[0]] + a[1..][..k] && b[..k + 1] == [b[0]] + b[1..][..k];
          assert SmallerAt(a, b, k + 1);
        }
      }
      if k: nat :| SmallerAt(a, b, k) {
        if k > 0 {
          assert a[..k][0] == b[..k][0];
          assert a[1..][..k - 1] == a[..k][1..] && b[1..][..k - 1] == b[..k][1..];
          assert SmallerAt(a[1..], b[1..], k - 1);
        }
      }
      if a[0] < b[0] {
        assert SmallerAt(a, b, 0);
      }
    } else if b != "" {
      assert SmallerAt(a, b, 0);
    }
  }

  // What a query is about.

  predicate Passes(q: Query, c: CostItem) {
    && !(q.start != "" && Less(c.usageEnd, q.start))
    && !(q.end != "" && !Less(c.usageStart, q.end))
    && !(q.service != "" && c.service != q.service)
    && !(q.project != "" && c.project != q.project)
  }

  function KeyOf(groupBy: string, c: CostItem): string {
    if groupBy == "sku" then c.sku
    else if groupBy == "project" then c.project
    else if groupBy == "label" then c.tag
    else c.service
  }

  /** The line items the query is about, in order. */
  function Passing(items: seq<CostItem>, q: Query): seq<CostItem> {
    if items == [] then []
    else
      var init, c := Passing(items[..|items| - 1], q), items[|items| - 1];
      if Passes(q, c) then init + [c] else init
  }

  /** The line items of one group, in order. */
  function InGroup(items: seq<CostItem>, groupBy: string, key: string): seq<CostItem> {
    if items == [] then []
    else
      var init, c := InGroup(items[..|items| - 1], groupBy, key), items[|items| - 1];
      if KeyOf(groupBy, c) == key then init + [c] else init
  }

  function CostsOf(items: seq<CostItem>): seq<real> {
    seq(|items|, i requires 0 <= i < |items| => items[i].cost)
  }

  function Total(items: seq<CostItem>): real { Sum(CostsOf(items)) }

  function GroupTotals(items: seq<CostItem>, groupBy: string, keys: seq<string>): seq<real> {
    seq(|keys|, i requires 0 <= i < |keys| => Total(InGroup(items, groupBy, keys[i])))
  }

  function Currency(items: seq<CostItem>): string {
    if items == [] then "USD"
    else
      var c := items[|items| - 1];
      if c.currency != "" then c.currency else Currency(items[..|items| - 1])
  }

  predicate Sorted(keys: seq<string>) {
    forall i, j :: 0 <= i < j < |keys| ==> Less(keys[i], keys[j])
  }

  ghost predicate Covers(keys: seq<string>, items: seq<CostItem>, groupBy: string) {
    forall i :: 0 <= i < |items| ==> KeyOf(groupBy, items[i]) in keys
  }

  // Conservation.

  lemma TotalOfSnoc(items: seq<CostItem>, c: CostItem)
    ensures Total(items + [c]) == Total(items) + c.cost
  {
    assert CostsOf(items + [c])[..|items|] == CostsOf(items);
  }

  lemma TotalOfConcat(a: seq<CostItem>, b: seq<CostItem>)
    ensures Total(a + b) == Total(a) + Total(b)
  {
    assert CostsOf(a + b) == CostsOf(a) + CostsOf(b);
    SumOfConcat(CostsOf(a), CostsOf(b));
  }

  lemma GroupOfSnoc(items: seq<CostItem>, c: CostItem, groupBy: string, k: string)
    ensures Total(InGroup(items + [c], groupBy, k))
         == Total(InGroup(items, groupBy, k)) + if KeyOf(groupBy, c) == k then c.cost else 0.0
  {
    assert (items + [c])[..|items|] == items;
    TotalOfSnoc(InGroup(items, groupBy, k), c);
  }

  /** One more line item raises the sum over distinct groups by its cost, if its group is among them. */
  lemma {:induction false} OneMoreItem(items: seq<CostItem>, c: CostItem, groupBy: string, keys: seq<string>)
    requires Distinct(keys)
    ensures Sum(GroupTotals(items + [c], groupBy, keys))
         == Sum(GroupTotals(items, groupBy, keys)) + if KeyOf(groupBy, c) in keys then c.cost else 0.0
  {
    if keys != [] {
      var n := |keys| - 1;
      var key := keys[n];
      OneMoreItem(items, c, groupBy, keys[..n]);
      assert keys == keys[..n] + [key];
      GroupTotalsOfSnoc(items, groupBy, keys[..n], key);
      GroupTotalsOfSnoc(items + [c], groupBy, keys[..n], key);
      GroupOfSnoc(items, c, groupBy, key);
    }
  }

  lemma GroupTotalsOfSnoc(items: seq<CostItem>, groupBy: string, keys: seq<string>, key: string)
    ensures Sum(GroupTotals(items, groupBy, keys + [key]))
         == Sum(GroupTotals(items, groupBy, keys)) + Total(InGroup(items, groupBy, key))
  {
    assert GroupTotals(items, groupBy, keys + [key]) == GroupTotals(items, groupBy, keys) + [Total(InGroup(items, groupBy, key))];
    SumOfSnoc(GroupTotals(items, groupBy, keys), Total(InGroup(items, groupBy, key)));
  }

  /** Every line item lands in exactly one group: group sums add up to the total. */
  lemma {:induction false} GroupsAddUp(items: seq<CostItem>, groupBy: string, keys: seq<string>)
    requires Distinct(keys) && Covers(keys, items, groupBy)
    ensures Sum(GroupTotals(items, groupBy, keys)) == Total(items)
  {
    if items == [] {
      NoItems(groupBy, keys);
    } else {
      var n := |items| - 1;
      GroupsAddUp(items[..n], groupBy, keys);
      OneMoreItem(items[..n], items[n], groupBy, keys);
      TotalOfSnoc(items[..n], items[n]);
      assert items == items[..n] + [items[n]];
    }
  }

  lemma {:induction false} NoItems(groupBy: string, keys: seq<string>)
    ensures Sum(GroupTotals([], groupBy, keys)) == 0.0
  {
    if keys != [] {
      var n := |keys| - 1;
      NoItems(groupBy, keys[..n]);
      assert keys == keys[..n] + [keys[n]] && CostsOf([]) == [];
      GroupTotalsOfSnoc([], groupBy, keys[..n], keys[n]);
    }
  }

  lemma {:induction false} FilterByProject(items: seq<CostItem>, q: Query, project: string)
    requires q.project == "" && project != ""
    ensures Passing(items, q.(project := project)) == InGroup(Passing(items, q), "project", project)
  {
    if items != [] {
      var n := |items| - 1;
      FilterByProject(items[..n], q, project);
      var init := Passing(items[..n], q);
      assert (init + [items[n]])[..|init|] == init;
    }
  }

  /** The unfiltered query once for each project. */
  function ProjectTotals(items: seq<CostItem>, q: Query, projects: seq<string>): seq<real> {
    seq(|projects|, i requires 0 <= i < |projects| => Total(Passing(items, q.(project := projects[i]))))
  }

  /**
   Filtering by each project in turn misses exactly the line items that name no
   project: the totals add up to the unfiltered one if and only if the costs
   of those cancel out.
   */
  lemma ProjectsAddUp(items: seq<CostItem>, q: Query, projects: seq<string>)
    requires q.project == "" && Distinct(projects) && "" !in projects
    requires forall i :: 0 <= i < |items| && items[i].project != "" ==> items[i].project in projects
    ensures Sum(ProjectTotals(items, q, projects)) == Total(Passing(items, q))
       <==> Total(InGroup(Passing(items, q), "project", "")) == 0.0
  {
    var passing, keys := Passing(items, q), projects + [""];
    PassingAreItems(items, q);
    GroupsAddUp(passing, "project", keys);
    forall i | 0 <= i < |projects|
      ensures ProjectTotals(items, q, projects)[i] == GroupTotals(passing, "project", keys)[i]
    {
      FilterByProject(items, q, projects[i]);
    }
    assert GroupTotals(passing, "project", keys)[..|projects|] == ProjectTotals(items, q, projects);
  }

  lemma {:induction false} FilterByService(items: seq<CostItem>, q: Query, service: string)
    requires q.service == "" && service != ""
    ensures Passing(items, q.(service := service)) == InGroup(Passing(items, q), "service", service)
  {
    if items != [] {
      var n := |items| - 1;
      FilterByService(items[..n], q, service);
      var init := Passing(items[..n], q);
      assert (init + [items[n]])[..|init|] == init;
    }
  }

  /** The unfiltered query once for each service. */
  function ServiceTotals(items: seq<CostItem>, q: Query, services: seq<string>): seq<real> {
    seq(|services|, i requires 0 <= i < |services| => Total(Passing(items, q.(service := services[i]))))
  }

  /** The same for services. */
  lemma ServicesAddUp(items: seq<CostItem>, q: Query, services: seq<string>)
    requires q.service == "" && Distinct(services) && "" !in services
    requires forall i :: 0 <= i < |items| && items[i].service != "" ==> items[i].service in services
    ensures Sum(ServiceTotals(items, q, services)) == Total(Passing(items, q))
       <==> Total(InGroup(Passing(items, q), "service", "")) == 0.0
  {
    var passing, keys := Passing(items, q), services + [""];
    PassingAreItems(items, q);
    GroupsAddUp(passing, "service", keys);
    forall i | 0 <= i < |services|
      ensures ServiceTotals(items, q, services)[i] == GroupTotals(passing, "service", keys)[i]
    {
      FilterByService(items, q, services[i]);
    }
    assert GroupTotals(passing, "service", keys)[..|services|] == ServiceTotals(items, q, services);
  }

  /** A query without window and filters is about everything. */
  lemma {:induction false} NoFilter(items: seq<CostItem>, groupBy: string)
    ensures Passing(items, Query("", "", groupBy, "", "")) == items
  {
    if items != [] {
      NoFilter(items[..|items| - 1], groupBy);
      assert items == items[..|items| - 1] + [items[|items| - 1]];
    }
  }

  /** Whether an item runs across a day: it starts before it and does not end before it. */
  predicate Straddles(c: CostItem, day: string) {
    Less(c.usageStart, day) && !Less(c.usageEnd, day)
  }

  function Straddling(items: seq<CostItem>, day: string): seq<CostItem> {
    if items == [] then []
    else
      var init, c := Straddling(items[..|items| - 1], day), items[|items| - 1];
      if Straddles(c, day) then init + [c] else init
  }

  ghost predicate InWindow(q: Query, day: string) {
    day != "" && (q.start == "" || !Less(day, q.start)) && (q.end == "" || !Less(q.end, day))
  }

  lemma PassesSplit(q: Query, c: CostItem, day: string)
    requires InWindow(q, day) && !Less(c.usageEnd, c.usageStart)
    ensures Passes(q.(end := day), c) || Passes(q.(start := day), c) <==> Passes(q, c)
    ensures Passes(q.(end := day), c) && Passes(q.(start := day), c) <==> Passes(q, c) && Straddles(c, day)
  {
    OrderFacts(c.usageStart, day, q.end);
    OrderFacts(q.start, day, c.usageEnd);
    OrderFacts(day, c.usageStart, c.usageEnd);
  }

  /** From `x` below `y` and `y` not above `z`, and so on, what the order says of `x` and `z`. */
  lemma OrderFacts(x: string, y: string, z: string)
    ensures Less(x, y) && !Less(z, y) ==> Less(x, z)
    ensures !Less(y, x) && !Less(z, y) ==> !Less(z, x)
    ensures !Less(y, x) && Less(y, z) ==> Less(x, z)
  {
    LessIsTotal(x, y);
    LessIsTotal(y, z);
    LessIsTotal(x, z);
    if Less(x, y) && Less(y, z) {
      LessIsTransitive(x, y, z);
    }
    if Less(z, x) && Less(x, y) {
      LessIsTransitive(z, x, y);
    }
    if Less(y, z) && Less(z, x) {
      LessIsTransitive(y, z, x);
    }
  }

  /**
   A window cut in two at a day: the two totals together exceed the whole
   window's by exactly the items that run across the day, which both windows count.
   */
  lemma {:induction false} WindowsSplit(items: seq<CostItem>, q: Query, day: string)
    requires InWindow(q, day) && forall i :: 0 <= i < |items| ==> !Less(items[i].usageEnd, items[i].usageStart)
    ensures Total(Passing(items, q.(end := day))) + Total(Passing(items, q.(start := day)))
         == Total(Passing(items, q)) + Total(Straddling(Passing(items, q), day))
  {
    if items != [] {
      var n := |items| - 1;
      assert items == items[..n] + [items[n]];
      WindowsSplit(items[..n], q, day);
      WindowStep(items[..n], items[n], q, day);
    }
  }

  lemma WindowStep(items: seq<CostItem>, c: CostItem, q: Query, day: string)
    requires InWindow(q, day) && !Less(c.usageEnd, c.usageStart)
    requires Total(Passing(items, q.(end := day))) + Total(Passing(items, q.(start := day)))
          == Total(Passing(items, q)) + Total(Straddling(Passing(items, q), day))
    ensures var more := items + [c];
            Total(Passing(more, q.(end := day))) + Total(Passing(more, q.(start := day)))
            == Total(Passing(more, q)) + Total(Straddling(Passing(more, q), day))
  {
    PassesSplit(q, c, day);
    PassingSnoc(items, c, q);
    PassingSnoc(items, c, q.(end := day));
    PassingSnoc(items, c, q.(start := day));
    StraddlingSnoc(Passing(items, q), c, day);
  }

  lemma PassingSnoc(items: seq<CostItem>, c: CostItem, q: Query)
    ensures Passing(items + [c], q) == if Passes(q, c) then Passing(items, q) + [c] else Passing(items, q)
    ensures Total(Passing(items + [c], q)) == Total(Passing(items, q)) + if Passes(q, c) then c.cost else 0.0
  {
    assert (items + [c])[..|items|] == items;
    TotalOfSnoc(Passing(items, q), c);
  }

  lemma StraddlingSnoc(items: seq<CostItem>, c: CostItem, day: string)
    ensures Total(Straddling(items + [c], day)) == Total(Straddling(items, day)) + if Straddles(c, day) then c.cost else 0.0
  {
    assert (items + [c])[..|items|] == items;
    TotalOfSnoc(Straddling(items, day), c);
  }

  /** Each dimension groups by its own text of the item and by no other; anything else groups by service. */
  lemma KeysAreApart(groupBy: string, c: CostItem, x: string)
    ensures KeyOf("sku", c.(sku := x)) == x && (groupBy != "sku" ==> KeyOf(groupBy, c.(sku := x)) == KeyOf(groupBy, c))
    ensures KeyOf("project", c.(project := x)) == x
            && (groupBy != "project" ==> KeyOf(groupBy, c.(project := x)) == KeyOf(groupBy, c))
    ensures KeyOf("label", c.(tag := x)) == x && (groupBy != "label" ==> KeyOf(groupBy, c.(tag := x)) == KeyOf(groupBy, c))
    ensures groupBy !in ["sku", "project", "label"] ==> KeyOf(groupBy, c.(service := x)) == x
    ensures groupBy in ["sku", "project", "label"] ==> KeyOf(groupBy, c.(service := x)) == KeyOf(groupBy, c)
  {
  }

  /** The currency is that of the last item that states one, and dollars when none does. */
  lemma {:induction false} CurrencyIsLast(items: seq<CostItem>, k: nat)
    ensures (k < |items| && items[k].currency != "" && forall j :: k < j < |items| ==> items[j].currency == "")
            ==> Currency(items) == items[k].currency
    ensures (forall j :: 0 <= j < |items| ==> items[j].currency == "") ==> Currency(items) == "USD"
  {
    if items != [] {
      CurrencyIsLast(items[..|items| - 1], k);
    }
  }

  /** It does happen: the only item names no project, so there is no project to filter by. */
  lemma ItemWithoutProject()
    ensures var c, q := CostItem("Compute", "vCPU", "", "", 1.0, "USD", "2026-01-01", "2026-01-02"), Query("", "", "", "", "");
            Sum(ProjectTotals([c], q, [])) == 0.0 && Total(Passing([c], q)) == 1.0
  {
    var c, q := CostItem("Compute", "vCPU", "", "", 1.0, "USD", "2026-01-01", "2026-01-02"), Query("", "", "", "", "");
    assert [c][..0] == [];
    assert Passing([c], q) == [] + [c];
    TotalOfSnoc([], c);
    assert CostsOf([]) == [];
  }

  lemma {:induction false} PassingAreItems(items: seq<CostItem>, q: Query)
    ensures forall i :: 0 <= i < |Passing(items, q)| ==> Passing(items, q)[i] in items && Passes(q, Passing(items, q)[i])
  {
    if items != [] {
      PassingAreItems(items[..|items| - 1], q);
      assert items == items[..|items| - 1] + [items[|items| - 1]];
    }
  }

  lemma {:induction false} PassingOfConcat(a: seq<CostItem>, b: seq<CostItem>, q: Query)
    ensures Passing(a + b, q) == Passing(a, q) + Passing(b, q)
  {
    if b == [] {
      assert a + b == a;
    } else {
      assert (a + b)[..|a + b| - 1] == a + b[..|b| - 1];
      PassingOfConcat(a, b[..|b| - 1], q);
    }
  }

  lemma {:induction false} InGroupOfConcat(a: seq<CostItem>, b: seq<CostItem>, groupBy: string, key: string)
    ensures InGroup(a + b, groupBy, key) == InGroup(a, groupBy, key) + InGroup(b, groupBy, key)
  {
    if b == [] {
      assert a + b == a;
    } else {
      assert (a + b)[..|a + b| - 1] == a + b[..|b| - 1];
      InGroupOfConcat(a, b[..|b| - 1], groupBy, key);
    }
  }

  /** Seeding adds exactly what the new line items contribute, to the total and to each group. */
  lemma SeedingAdds(items: seq<CostItem>, added: seq<CostItem>, q: Query, key: string)
    ensures var before, more, after := Passing(items, q), Passing(added, q), Passing(items + Seeded(added), q);
            && Total(after) == Total(before) + Total(more)
            && Total(InGroup(after, q.groupBy, key)) == Total(InGroup(before, q.groupBy, key)) + Total(InGroup(more, q.groupBy, key))
  {
    PassingOfConcat(items, Seeded(added), q);
    TotalOfConcat(Passing(items, q), Passing(Seeded(added), q));
    InGroupOfConcat(Passing(items, q), Passing(Seeded(added), q), q.groupBy, key);
    TotalOfConcat(InGroup(Passing(items, q), q.groupBy, key), InGroup(Passing(Seeded(added), q), q.groupBy, key));
    SeededTotals(added, q, key);
  }

  function Seeded(items: seq<CostItem>): seq<CostItem> {
    seq(|items|, i requires 0 <= i < |items| =>
      if items[i].currency == "" then items[i].(currency := "USD") else items[i])
  }

  /** Seeded items are the given ones; only a missing currency becomes dollars. */
  lemma SeededItems(items: seq<CostItem>, i: nat)
    requires i < |items|
    ensures |Seeded(items)| == |items|
    ensures Seeded(items)[i].(currency := items[i].currency) == items[i]
    ensures Seeded(items)[i].currency == if items[i].currency == "" then "USD" else items[i].currency
  {
  }

  lemma {:induction false} PassingOfSeeded(items: seq<CostItem>, q: Query)
    ensures Passing(Seeded(items), q) == Seeded(Passing(items, q))
  {
    if items != [] {
      var n := |items| - 1;
      PassingOfSeeded(items[..n], q);
      assert Seeded(items)[..n] == Seeded(items[..n]);
    }
  }

  lemma {:induction false} InGroupOfSeeded(items: seq<CostItem>, groupBy: string, key: string)
    ensures InGroup(Seeded(items), groupBy, key) == Seeded(InGroup(items, groupBy, key))
  {
    if items != [] {
      var n := |items| - 1;
      InGroupOfSeeded(items[..n], groupBy, key);
      assert Seeded(items)[..n] == Seeded(items[..n]);
    }
  }

  lemma SeededTotals(items: seq<CostItem>, q: Query, key: string)
    ensures Total(Passing(Seeded(items), q)) == Total(Passing(items, q))
    ensures Total(InGroup(Passing(Seeded(items), q), q.groupBy, key)) == Total(InGroup(Passing(items, q), q.groupBy, key))
  {
    PassingOfSeeded(items, q);
    InGroupOfSeeded(Passing(items, q), q.groupBy, key);
    assert CostsOf(Seeded(Passing(items, q))) == CostsOf(Passing(items, q));
    assert CostsOf(Seeded(InGroup(Passing(items, q), q.groupBy, key))) == CostsOf(InGroup(Passing(items, q), q.groupBy, key));
  }

  // The service.

  class CostService {
    var Costs: seq<CostItem>

    constructor ()
      ensures Costs == []
    {
      Costs := [];
    }

    method SeedCost(items: seq<CostItem>) returns (added: nat, total: nat)
      modifies this
      ensures Costs == old(Costs) + Seeded(items)
      ensures added == |items| && total == |Costs|
    {
      for i := 0 to |items|
        invariant Costs == old(Costs) + Seeded(items[..i])
      {
        var it := items[i];
        if it.currency == "" {
          it := it.(currency := "USD");
        }
        assert Seeded(items[..i + 1]) == Seeded(items[..i]) + [it];
        Costs := Costs + [it];
      }
      assert items[..|items|] == items;
      return |items|, |Costs|;
    }

    method QueryCost(q: Query) returns (r: Report)
      ensures IsReport(r, Costs, q)
    {
      var groupBy := GroupBy(q);
      var groups: map<string, real> := map[];
      var currency := "USD";
      var total := 0.0;
      ghost var seen := [];
      for i := 0 to |Costs|
        invariant seen == Passing(Costs[..i], q)
        invariant Accumulated(groups, total, currency, seen, groupBy)
      {
        var c := Costs[i];
        assert Costs[..i + 1][..i] == Costs[..i];
        if !Passes(q, c) {
          continue;
        }
        Accumulate(groups, total, currency, seen, c, groupBy);
        var key := KeyOf(groupBy, c);
        groups := groups[key := Get(groups, key, 0.0) + c.cost];
        total := total + c.cost;
        if c.currency != "" {
          currency := c.currency;
        }
        seen := seen + [c];
      }
      assert Costs[..|Costs|] == Costs;
      var keys := SortKeys(groups.Keys);
      var results := Results(groups, keys, currency);
      r := Report(groupBy, currency, Round2(total), results);
      assert Keys(r) == keys;
    }
  }

  function GroupBy(q: Query): string {
    if q.groupBy == "" then "service" else q.groupBy
  }

  function Keys(r: Report): seq<string> {
    seq(|r.groups|, i requires 0 <= i < |r.groups| => r.groups[i].key)
  }

  function KeySet(items: seq<CostItem>, groupBy: string): set<string> {
    set i | 0 <= i < |items| :: KeyOf(groupBy, items[i])
  }

  /**
   The groups are the keys of the passing line items, sorted and distinct,
   each with its rounded sum; the total is the rounded sum of all of them.
   */
  ghost predicate IsReport(r: Report, items: seq<CostItem>, q: Query) {
    var passing := Passing(items, q);
    && r.groupBy == GroupBy(q)
    && r.total == Round2(Total(passing))
    && r.currency == Currency(passing)
    && Sorted(Keys(r)) && (forall k :: k in Keys(r) <==> k in KeySet(passing, r.groupBy))
    && (forall i :: 0 <= i < |r.groups| ==>
          r.groups[i] == Group(r.groups[i].key, Round2(Total(InGroup(passing, r.groupBy, r.groups[i].key))), r.currency))
  }

  /** What the loop has accumulated: one entry for each key that occurs, holding its sum. */
  ghost predicate Accumulated(groups: map<string, real>, total: real, currency: string, items: seq<CostItem>, groupBy: string) {
    && groups.Keys == KeySet(items, groupBy)
    && (forall k :: k in groups ==> groups[k] == Total(InGroup(items, groupBy, k)))
    && total == Total(items) && currency == Currency(items)
  }

  lemma KeySetOfSnoc(items: seq<CostItem>, c: CostItem, groupBy: string)
    ensures KeySet(items + [c], groupBy) == KeySet(items, groupBy) + {KeyOf(groupBy, c)}
  {
    assert (items + [c])[|items|] == c;
    forall k | k in KeySet(items, groupBy) ensures k in KeySet(items + [c], groupBy) {
      var i :| 0 <= i < |items| && KeyOf(groupBy, items[i]) == k;
      assert (items + [c])[i] == items[i];
    }
  }

  lemma {:induction false} AbsentGroup(items: seq<CostItem>, groupBy: string, key: string)
    requires key !in KeySet(items, groupBy)
    ensures InGroup(items, groupBy, key) == []
  {
    if items != [] {
      var n := |items| - 1;
      assert items == items[..n] + [items[n]];
      KeySetOfSnoc(items[..n], items[n], groupBy);
      AbsentGroup(items[..n], groupBy, key);
    }
  }

  lemma Accumulate(groups: map<string, real>, total: real, currency: string, items: seq<CostItem>, c: CostItem, groupBy: string)
    requires Accumulated(groups, total, currency, items, groupBy)
    ensures var key := KeyOf(groupBy, c);
            Accumulated(groups[key := Get(groups, key, 0.0) + c.cost], total + c.cost,
                        if c.currency != "" then c.currency else currency, items + [c], groupBy)
  {
    var key := KeyOf(groupBy, c);
    TotalOfSnoc(items, c);
    assert (items + [c])[..|items|] == items;
    KeySetOfSnoc(items, c, groupBy);
    AccumulateGroups(groups, items, c, groupBy);
  }

  lemma AccumulateGroups(groups: map<string, real>, items: seq<CostItem>, c: CostItem, groupBy: string)
    requires groups.Keys == KeySet(items, groupBy)
    requires forall k :: k in groups ==> groups[k] == Total(InGroup(items, groupBy, k))
    ensures var key := KeyOf(groupBy, c); var more := groups[key := Get(groups, key, 0.0) + c.cost];
            forall k :: k in more ==> more[k] == Total(InGroup(items + [c], groupBy, k))
  {
    var key := KeyOf(groupBy, c);
    forall k | k in groups || k == key
      ensures Total(InGroup(items + [c], groupBy, k)) == Get(groups, k, 0.0) + if key == k then c.cost else 0.0
    {
      GroupOfSnoc(items, c, groupBy, k);
      if k !in groups {
        AbsentGroup(items, groupBy, k);
        assert CostsOf([]) == [];
      }
    }
  }

  method Results(groups: map<string, real>, keys: seq<string>, currency: string) returns (results: seq<Group>)
    requires forall k :: k in keys ==> k in groups
    ensures |results| == |keys|
    ensures forall i :: 0 <= i < |keys| ==> results[i] == Group(keys[i], Round2(groups[keys[i]]), currency)
  {
    results := [];
    for i := 0 to |keys|
      invariant |results| == i
      invariant forall j :: 0 <= j < i ==> results[j] == Group(keys[j], Round2(groups[keys[j]]), currency)
    {
      results := results + [Group(keys[i], Round2(groups[keys[i]]), currency)];
    }
  }

  /** sort.Strings on the keys of a map. */
  method SortKeys(keys: set<string>) returns (sorted: seq<string>)
    ensures Sorted(sorted) && forall k :: k in sorted <==> k in keys
  {
    sorted := [];
    var rest := keys;
    while rest != {}
      invariant rest <= keys && Sorted(sorted)
      invariant forall k :: k in sorted <==> k in keys && k !in rest
      decreases rest
    {
      var k :| k in rest;
      rest := rest - {k};
      sorted := Insert(sorted, k);
    }
  }

  function Insert(sorted: seq<string>, k: string): (r: seq<string>)
    requires Sorted(sorted) && k !in sorted
    ensures Sorted(r) && forall x :: x in r <==> x in sorted || x == k
  {
    if sorted == [] then [k]
    else
      LessIsTotal(sorted[0], k);
      if Less(k, sorted[0]) then
        assert forall i :: 0 <= i < |sorted| ==> Less(k, sorted[i]) by {
          forall i | 0 < i < |sorted| ensures Less(k, sorted[i]) {
            LessIsTransitive(k, sorted[0], sorted[i]);
          }
        }
        [k] + sorted
      else
        var tail := Insert(sorted[1..], k);
        assert forall i :: 0 <= i < |tail| ==> Less(sorted[0], tail[i]) by {
          forall i | 0 <= i < |tail| ensures Less(sorted[0], tail[i]) {
            assert tail[i] in sorted[1..] || tail[i] == k;
          }
        }
        [sorted[0]] + tail
  }

  lemma SortedIsDistinct(keys: seq<string>)
    requires Sorted(keys)
    ensures Distinct(keys)
  {
    forall i, j | 0 <= i < j < |keys| ensures keys[i] != keys[j] {
      LessIsTotal(keys[i], keys[j]);
    }
  }

  function GroupCosts(r: Report): seq<real> {
    seq(|r.groups|, i requires 0 <= i < |r.groups| => r.groups[i].cost)
  }

  /** Every amount in a report is a whole number of cents. */
  lemma ReportIsInCents(r: Report, items: seq<CostItem>, q: Query)
    requires IsReport(r, items, q)
    ensures WholeCents(r.total) && forall i :: 0 <= i < |r.groups| ==> WholeCents(r.groups[i].cost)
  {
    Round2IsWholeCents(Total(Passing(items, q)));
    forall i | 0 <= i < |r.groups| ensures WholeCents(r.groups[i].cost) {
      Round2IsWholeCents(Total(InGroup(Passing(items, q), r.groupBy, r.groups[i].key)));
    }
  }

  /** A group by project or by service is what the query filtered by it would total. */
  lemma GroupsAreFilters(r: Report, items: seq<CostItem>, q: Query, i: nat)
    requires IsReport(r, items, q) && i < |r.groups| && r.groups[i].key != ""
    ensures q.groupBy == "project" && q.project == "" ==>
              r.groups[i].cost == Round2(Total(Passing(items, q.(project := r.groups[i].key))))
    ensures q.groupBy in ["", "service"] && q.service == "" ==>
              r.groups[i].cost == Round2(Total(Passing(items, q.(service := r.groups[i].key))))
  {
    if q.groupBy == "project" && q.project == "" {
      FilterByProject(items, q, r.groups[i].key);
    }
    if q.groupBy in ["", "service"] && q.service == "" {
      FilterByService(items, q, r.groups[i].key);
    }
  }

  /**
   The unrounded groups of a report add up to its unrounded total, and with k
   groups the rounded ones miss the rounded total by at most half a cent times k + 1.
   */
  lemma ReportConserves(r: Report, items: seq<CostItem>, q: Query)
    requires IsReport(r, items, q)
    ensures Distinct(Keys(r))
    ensures Sum(GroupTotals(Passing(items, q), r.groupBy, Keys(r))) == Total(Passing(items, q))
    ensures Abs(Sum(GroupCosts(r)) - r.total) <= 0.005 * (|r.groups| + 1) as real
  {
    var passing := Passing(items, q);
    var exact := GroupTotals(passing, r.groupBy, Keys(r));
    SortedIsDistinct(Keys(r));
    forall i | 0 <= i < |passing| ensures KeyOf(r.groupBy, passing[i]) in Keys(r) {
      assert KeyOf(r.groupBy, passing[i]) in KeySet(passing, r.groupBy);
    }
    GroupsAddUp(passing, r.groupBy, Keys(r));
    assert Rounded(exact) == GroupCosts(r);
    RoundError(Sum(exact));
    PartsAgainstWhole(exact, r.total);
    HalfCentsIsProduct(|exact| + 1);
  }
}
