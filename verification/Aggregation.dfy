/** Grouping rows by name: the funding categories of the statistics page and the summary CSV of
    an organization's donations. Model of mergeFundingCategoriesByName
    (frontend/server/services/statistics.service.ts) and of the summary branch of ExportOrgCSV
    (backend/internal/handler/donation_handler.go). */
module Aggregation {
  import opened Lists
  import opened Options

  /* ---- groups ---- */

  /** The sum of f over the first n elements with key k. */
  function SumOf<T>(s: seq<T>, n: nat, key: T -> string, k: string, f: T -> int): int
    requires n <= |s|
  {
    if n == 0 then 0 else SumOf(s, n - 1, key, k, f) + if key(s[n-1]) == k then f(s[n-1]) else 0
  }

  function Total<T>(s: seq<T>, n: nat, f: T -> int): int
    requires n <= |s|
  {
    if n == 0 then 0 else Total(s, n - 1, f) + f(s[n-1])
  }

  function SumOfKeys<T>(s: seq<T>, n: nat, key: T -> string, keys: seq<string>, m: nat, f: T -> int): int
    requires n <= |s| && m <= |keys|
  {
    if m == 0 then 0 else SumOfKeys(s, n, key, keys, m - 1, f) + SumOf(s, n, key, keys[m-1], f)
  }

  /** The keys, each where it first occurs. */
  function FirstSeen<T>(s: seq<T>, n: nat, key: T -> string): (keys: seq<string>)
    requires n <= |s|
  {
    if n == 0 then []
    else
      var keys := FirstSeen(s, n - 1, key);
      if key(s[n-1]) in keys then keys else keys + [key(s[n-1])]
  }

  lemma {:induction false} FirstSeenHas<T>(s: seq<T>, n: nat, key: T -> string)
    requires n <= |s|
    ensures Distinct(FirstSeen(s, n, key))
    ensures forall i :: 0 <= i < n ==> key(s[i]) in FirstSeen(s, n, key)
  {
    if n > 0 { FirstSeenHas(s, n - 1, key); }
  }

  /** Only keys that occur, in the order they first do. */
  lemma {:induction false} FirstSeenMeans<T>(s: seq<T>, n: nat, key: T -> string, a: nat)
    requires n <= |s| && a < |FirstSeen(s, n, key)|
    ensures exists i: nat :: FirstOf(s, n, key, FirstSeen(s, n, key), a, i)
  {
    var before, keys := FirstSeen(s, n - 1, key), FirstSeen(s, n, key);
    assert keys[..|before|] == before;
    if a < |before| {
      FirstSeenMeans(s, n - 1, key, a);
      var i: nat :| FirstOf(s, n - 1, key, before, a, i);
      assert keys[..a] == before[..a];
      assert FirstOf(s, n, key, keys, a, i);
    } else {
      FirstSeenHas(s, n - 1, key);
      assert FirstOf(s, n, key, keys, a, n - 1);
    }
  }

  /** Element i has the a-th key and every element before it an earlier one. */
  ghost predicate FirstOf<T>(s: seq<T>, n: nat, key: T -> string, keys: seq<string>, a: nat, i: nat)
    requires n <= |s| && a < |keys|
  {
    i < n && key(s[i]) == keys[a] && forall j :: 0 <= j < i ==> key(s[j]) in keys[..a]
  }

  /** One more element adds to one group only. */
  lemma {:induction false} OneMore<T>(s: seq<T>, n: nat, key: T -> string, keys: seq<string>, m: nat, f: T -> int)
    requires n < |s| && m <= |keys| && Distinct(keys)
    ensures SumOfKeys(s, n + 1, key, keys, m, f) ==
            SumOfKeys(s, n, key, keys, m, f) + if key(s[n]) in keys[..m] then f(s[n]) else 0
  {
    if m > 0 {
      OneMore(s, n, key, keys, m - 1, f);
      assert keys[..m] == keys[..m-1] + [keys[m-1]];
      assert keys[m-1] !in keys[..m-1];
    }
  }

  /** Nothing is lost or counted twice: over any list that has each key once, the groups add up. */
  lemma {:induction false} GroupsAddUp<T>(s: seq<T>, n: nat, key: T -> string, keys: seq<string>, f: T -> int)
    requires n <= |s| && Distinct(keys) && forall i :: 0 <= i < n ==> key(s[i]) in keys
    ensures SumOfKeys(s, n, key, keys, |keys|, f) == Total(s, n, f)
  {
    if n == 0 {
      NoElements(s, key, keys, |keys|, f);
    } else {
      GroupsAddUp(s, n - 1, key, keys, f);
      OneMore(s, n - 1, key, keys, |keys|, f);
      assert keys[..|keys|] == keys;
    }
  }

  lemma {:induction false} NoElements<T>(s: seq<T>, key: T -> string, keys: seq<string>, m: nat, f: T -> int)
    requires m <= |keys|
    ensures SumOfKeys(s, 0, key, keys, m, f) == 0
  {
    if m > 0 { NoElements(s, key, keys, m - 1, f); }
  }

  /** A table with one row for each key, in the order of its keys, whose column g holds the
      group's sum of f, has f's total in that column. */
  lemma {:induction false} ColumnIsTotal<T, R>(s: seq<T>, key: T -> string, keys: seq<string>, f: T -> int,
                                               table: seq<R>, g: R -> int, m: nat)
    requires m <= |table| == |keys|
    requires forall i :: 0 <= i < |table| ==> g(table[i]) == SumOf(s, |s|, key, keys[i], f)
    ensures Total(table, m, g) == SumOfKeys(s, |s|, key, keys, m, f)
  {
    if m > 0 { ColumnIsTotal(s, key, keys, f, table, g, m - 1); }
  }

  /* ---- funding categories ---- */

  datatype Category = Category(id: string, name: string, icon: string, raised: int, goal: int, supporters: int)

  function Raised(): Category -> int {
    (c: Category) => c.raised
  }

  function GoalCents(): Category -> int {
    (c: Category) => c.goal
  }

  function Supporters(): Category -> int {
    (c: Category) => c.supporters
  }

  /** cat.name.trim().toLowerCase() */
  function KeyOf(normalize: string -> string): Category -> string {
    (c: Category) => normalize(c.name)
  }

  /** Which of the first n categories with key k first reaches the largest amount. */
  function Largest(s: seq<Category>, n: nat, key: Category -> string, k: string): (top: Option<nat>)
    requires n <= |s|
    ensures top.Some? ==> top.value < n && key(s[top.value]) == k
  {
    if n == 0 then None
    else
      var top := Largest(s, n - 1, key, k);
      if key(s[n-1]) == k && (top.None? || s[n-1].raised > s[top.value].raised) then Some(n - 1) else top
  }

  lemma {:induction false} LargestMeans(s: seq<Category>, n: nat, key: Category -> string, k: string)
    requires n <= |s|
    ensures Largest(s, n, key, k).None? <==> forall i :: 0 <= i < n ==> key(s[i]) != k
    ensures var top := Largest(s, n, key, k);
      top.Some? ==> forall i :: 0 <= i < n && key(s[i]) == k ==>
        s[i].raised <= s[top.value].raised && (i < top.value ==> s[i].raised < s[top.value].raised)
  {
    if n > 0 { LargestMeans(s, n - 1, key, k); }
  }

  /** The first category with key k. */
  function First(s: seq<Category>, n: nat, key: Category -> string, k: string): (first: Option<nat>)
    requires n <= |s|
    ensures first.Some? ==> first.value < n && key(s[first.value]) == k
    ensures forall i :: 0 <= i < n && key(s[i]) == k ==> first.Some? && first.value <= i
  {
    if n == 0 then None
    else
      var first := First(s, n - 1, key, k);
      if first.None? && key(s[n-1]) == k then Some(n - 1) else first
  }

  /** c is the merger of the categories with key k. */
  ghost predicate Merges(s: seq<Category>, n: nat, key: Category -> string, k: string, c: Category)
    requires n <= |s|
  {
    && c.id == k
    && c.raised == SumOf(s, n, key, k, Raised())
    && c.goal == SumOf(s, n, key, k, GoalCents())
    && c.supporters == SumOf(s, n, key, k, Supporters())
    && Largest(s, n, key, k).Some? && c.name == s[Largest(s, n, key, k).value].name
    && First(s, n, key, k).Some? && c.icon == s[First(s, n, key, k).value].icon
  }

  lemma {:induction false} NoneOf<T>(s: seq<T>, n: nat, key: T -> string, k: string, f: T -> int)
    requires n <= |s| && forall i :: 0 <= i < n ==> key(s[i]) != k
    ensures SumOf(s, n, key, k, f) == 0
  {
    if n > 0 { NoneOf(s, n - 1, key, k, f); }
  }

  function CategoryIds(cats: seq<Category>): (ids: seq<string>)
    ensures |ids| == |cats| && forall i :: 0 <= i < |cats| ==> ids[i] == cats[i].id
  {
    seq(|cats|, i requires 0 <= i < |cats| => cats[i].id)
  }

  /** Sorting reorders the entries; their IDs stay the distinct keys. */
  lemma SortedIds(cats: seq<Category>, sorted: seq<Category>, order: seq<string>)
    requires Distinct(order) && CategoryIds(cats) == order
    requires |sorted| == |cats| && forall c :: c in sorted <==> c in cats
    ensures Distinct(CategoryIds(sorted)) && Elements(CategoryIds(sorted)) == Elements(order)
  {
    SameIds(cats, sorted);
    SameIds(sorted, cats);
    ElementsCount(order);
    ElementsCount(CategoryIds(sorted));
    assert Elements(CategoryIds(sorted)) == Elements(order);
  }

  lemma SameIds(from: seq<Category>, to: seq<Category>)
    requires forall c :: c in from ==> c in to
    ensures forall k :: k in CategoryIds(from) ==> k in CategoryIds(to)
  {
    forall k | k in CategoryIds(from) ensures k in CategoryIds(to) {
      var i :| 0 <= i < |from| && CategoryIds(from)[i] == k;
      assert from[i] in to;
      var j :| 0 <= j < |to| && to[j] == from[i];
      assert CategoryIds(to)[j] == k;
    }
  }

  /** A key not met before has no group yet. */
  lemma NewKey(s: seq<Category>, n: nat, key: Category -> string, k: string)
    requires n <= |s| && k !in FirstSeen(s, n, key)
    ensures SumOf(s, n, key, k, Raised()) == SumOf(s, n, key, k, GoalCents()) == SumOf(s, n, key, k, Supporters()) == 0
    ensures Largest(s, n, key, k).None? && First(s, n, key, k).None?
  {
    FirstSeenHas(s, n, key);
    NoneOf(s, n, key, k, Raised());
    NoneOf(s, n, key, k, GoalCents());
    NoneOf(s, n, key, k, Supporters());
    LargestMeans(s, n, key, k);
  }

  datatype Slot = Slot(cat: Category, topRaised: int)

  ghost predicate SlotOk(s: seq<Category>, n: nat, key: Category -> string, k: string, slot: Slot)
    requires n <= |s|
  {
    Merges(s, n, key, k, slot.cat) && slot.topRaised == s[Largest(s, n, key, k).value].raised
  }

  /** A slot with one more category of its key in it. */
  function Absorb(slot: Slot, cat: Category): Slot {
    var c := slot.cat.(raised := slot.cat.raised + cat.raised, supporters := slot.cat.supporters + cat.supporters,
                       goal := slot.cat.goal + cat.goal);
    if cat.raised > slot.topRaised then Slot(c.(name := cat.name), cat.raised) else Slot(c, slot.topRaised)
  }

  lemma SlotOpens(s: seq<Category>, n: nat, key: Category -> string)
    requires n < |s| && key(s[n]) !in FirstSeen(s, n, key)
    ensures SlotOk(s, n + 1, key, key(s[n]), Slot(s[n].(id := key(s[n])), s[n].raised))
  {
    NewKey(s, n, key, key(s[n]));
  }

  lemma SlotGrows(s: seq<Category>, n: nat, key: Category -> string, slot: Slot)
    requires n < |s| && SlotOk(s, n, key, key(s[n]), slot)
    ensures SlotOk(s, n + 1, key, key(s[n]), Absorb(slot, s[n]))
  {
  }

  lemma SlotStays(s: seq<Category>, n: nat, key: Category -> string, k: string, slot: Slot)
    requires n < |s| && key(s[n]) != k && SlotOk(s, n, key, k, slot)
    ensures SlotOk(s, n + 1, key, k, slot)
  {
  }

  /** The merged entries: one for each key, in descending order of amount. */
  ghost predicate MergedTable(s: seq<Category>, key: Category -> string, result: seq<Category>) {
    && Distinct(CategoryIds(result))
    && Elements(CategoryIds(result)) == Elements(FirstSeen(s, |s|, key))
    && (forall i :: 0 <= i < |result| ==> Merges(s, |s|, key, result[i].id, result[i]))
  }

  method AddTo(slot: Slot, cat: Category) returns (existing: Slot)
    ensures existing == Absorb(slot, cat)
  {
    existing := slot;
    existing := existing.(cat := existing.cat.(raised := existing.cat.raised + cat.raised));
    existing := existing.(cat := existing.cat.(supporters := existing.cat.supporters + cat.supporters));
    existing := existing.(cat := existing.cat.(goal := existing.cat.goal + cat.goal));
    if cat.raised > existing.topRaised {
      existing := existing.(cat := existing.cat.(name := cat.name));
      existing := existing.(topRaised := cat.raised);
    }
  }

  ghost predicate SlotsOk(s: seq<Category>, n: nat, key: Category -> string, merged: map<string, Slot>)
    requires n <= |s|
  {
    merged.Keys == Elements(FirstSeen(s, n, key)) && forall k :: k in merged ==> SlotOk(s, n, key, k, merged[k])
  }

  lemma SlotsStep(s: seq<Category>, n: nat, key: Category -> string, was: map<string, Slot>, merged: map<string, Slot>)
    requires n < |s| && SlotsOk(s, n, key, was)
    requires var k := key(s[n]);
      merged == was[k := if k in was then Absorb(was[k], s[n]) else Slot(s[n].(id := k), s[n].raised)]
    ensures SlotsOk(s, n + 1, key, merged)
  {
    var k := key(s[n]);
    if k in was { SlotGrows(s, n, key, was[k]); } else { SlotOpens(s, n, key); }
    forall other | other in merged ensures SlotOk(s, n + 1, key, other, merged[other]) {
      if other != k { SlotStays(s, n, key, other, was[other]); }
    }
  }

  /** The Map of the loop, which remembers insertion order; `order` is that. */
  method MergeIntoMap(categories: seq<Category>, normalize: string -> string)
    returns (merged: map<string, Slot>, order: seq<string>)
    ensures order == FirstSeen(categories, |categories|, KeyOf(normalize))
    ensures SlotsOk(categories, |categories|, KeyOf(normalize), merged)
  {
    ghost var key := KeyOf(normalize);
    merged, order := map[], [];
    for i := 0 to |categories|
      invariant order == FirstSeen(categories, i, key) && SlotsOk(categories, i, key, merged)
    {
      var cat := categories[i];
      var k := normalize(cat.name);
      ghost var was := merged;
      if k !in merged {
        merged := merged[k := Slot(cat.(id := k), cat.raised)];
        order := order + [k];
      } else {
        var existing := AddTo(merged[k], cat);
        merged := merged[k := existing];
      }
      SlotsStep(categories, i, key, was, merged);
    }
  }

  method InOrder(ghost s: seq<Category>, ghost key: Category -> string, order: seq<string>, merged: map<string, Slot>)
    returns (cats: seq<Category>)
    requires SlotsOk(s, |s|, key, merged) && merged.Keys == Elements(order)
    ensures CategoryIds(cats) == order
    ensures forall c :: c in cats ==> Merges(s, |s|, key, c.id, c)
  {
    cats := [];
    for i := 0 to |order|
      invariant CategoryIds(cats) == order[..i]
      invariant forall c :: c in cats ==> Merges(s, |s|, key, c.id, c)
    {
      assert order[i] in Elements(order);
      cats := cats + [merged[order[i]].cat];
    }
    assert order[..|order|] == order;
  }

  method MergeFundingCategoriesByName(categories: seq<Category>, normalize: string -> string) returns (result: seq<Category>)
    ensures MergedTable(categories, KeyOf(normalize), result)
    ensures Descending(result, Raised())
    ensures forall i, j :: 0 <= i < j < |result| ==> result[i].raised >= result[j].raised
  {
    ghost var key := KeyOf(normalize);
    var merged, order := MergeIntoMap(categories, normalize);
    var cats := InOrder(categories, key, order, merged);
    FirstSeenHas(categories, |categories|, key);
    SortedDescends(cats, Raised());
    result := Sorted(cats, Raised());
    SortedIds(cats, result, order);
    forall i | 0 <= i < |result| ensures Merges(categories, |categories|, key, result[i].id, result[i]) {
      assert result[i] in cats;
    }
  }

  /** Of two variants of one name, in numbers: everything is added up, the name is that of the
      one that raised more, or of the first, and the icon is the first's. */
  lemma TwoVariants(normalize: string -> string, a: Category, b: Category, merged: Category)
    requires normalize(a.name) == normalize(b.name)
    requires Merges([a, b], 2, KeyOf(normalize), normalize(a.name), merged)
    ensures merged == Category(normalize(a.name), if b.raised > a.raised then b.name else a.name, a.icon,
                               a.raised + b.raised, a.goal + b.goal, a.supporters + b.supporters)
  {
    var (s, key, k) := ([a, b], KeyOf(normalize), normalize(a.name));
    assert key(s[0]) == k && key(s[1]) == k;
    assert Largest(s, 1, key, k) == Some(0) && First(s, 1, key, k) == Some(0);
    assert SumOf(s, 1, key, k, Raised()) == a.raised && SumOf(s, 1, key, k, GoalCents()) == a.goal;
    assert SumOf(s, 1, key, k, Supporters()) == a.supporters;
  }

  /** Merging conserves the amounts raised, the goals and the supporters. */
  lemma MergingConserves(categories: seq<Category>, key: Category -> string, result: seq<Category>)
    requires MergedTable(categories, key, result)
    ensures Total(result, |result|, Raised()) == Total(categories, |categories|, Raised())
    ensures Total(result, |result|, GoalCents()) == Total(categories, |categories|, GoalCents())
    ensures Total(result, |result|, Supporters()) == Total(categories, |categories|, Supporters())
  {
    ColumnConserved(categories, key, result, Raised());
    ColumnConserved(categories, key, result, GoalCents());
    ColumnConserved(categories, key, result, Supporters());
  }

  lemma ColumnConserved(s: seq<Category>, key: Category -> string, result: seq<Category>, f: Category -> int)
    requires MergedTable(s, key, result)
    requires f == Raised() || f == GoalCents() || f == Supporters()
    ensures Total(result, |result|, f) == Total(s, |s|, f)
  {
    var ids := CategoryIds(result);
    FirstSeenHas(s, |s|, key);
    forall i | 0 <= i < |s| ensures key(s[i]) in ids {
      assert key(s[i]) in Elements(FirstSeen(s, |s|, key));
    }
    ColumnIsTotal(s, key, ids, f, result, f, |result|);
    GroupsAddUp(s, |s|, key, ids, f);
  }

  /* ---- the summary CSV ---- */

  datatype Donation = Donation(organizationID: string, organizationName: string, amountCents: int)
  datatype Summary = Summary(id: string, name: string, count: nat, total: int)

  function OrgName(): Donation -> string {
    (d: Donation) => d.organizationName
  }

  function Cents(): Donation -> int {
    (d: Donation) => d.amountCents
  }

  function One(): Donation -> int {
    (d: Donation) => 1
  }

  datatype OrgEntry = OrgEntry(id: string, count: nat, total: int)

  ghost predicate EntryOk(rows: seq<Donation>, n: nat, name: string, e: OrgEntry)
    requires n <= |rows|
  {
    && e.count == SumOf(rows, n, OrgName(), name, One())
    && e.total == SumOf(rows, n, OrgName(), name, Cents())
    && exists i: nat :: IsFirst(rows, n, name, i) && e.id == rows[i].organizationID
  }

  /** i is the first row with this name. */
  ghost predicate IsFirst(rows: seq<Donation>, n: nat, name: string, i: nat)
    requires n <= |rows|
  {
    i < n && rows[i].organizationName == name && forall j :: 0 <= j < i ==> rows[j].organizationName != name
  }

  lemma EntryOpens(rows: seq<Donation>, n: nat)
    requires n < |rows| && rows[n].organizationName !in FirstSeen(rows, n, OrgName())
    ensures EntryOk(rows, n + 1, rows[n].organizationName, OrgEntry(rows[n].organizationID, 1, rows[n].amountCents))
  {
    var name := rows[n].organizationName;
    FirstSeenHas(rows, n, OrgName());
    NoneOf(rows, n, OrgName(), name, One());
    NoneOf(rows, n, OrgName(), name, Cents());
    assert IsFirst(rows, n + 1, name, n);
  }

  lemma EntryGrows(rows: seq<Donation>, n: nat, name: string, e: OrgEntry)
    requires n < |rows| && EntryOk(rows, n, name, e)
    ensures EntryOk(rows, n + 1, name,
      if rows[n].organizationName == name then e.(count := e.count + 1, total := e.total + rows[n].amountCents) else e)
  {
    var i: nat :| IsFirst(rows, n, name, i) && e.id == rows[i].organizationID;
    assert IsFirst(rows, n + 1, name, i);
  }

  /** What the CSV shows: the names in first-seen order, each with the ID of its first row. */
  ghost predicate SummaryOf(rows: seq<Donation>, names: seq<string>, summary: seq<Summary>) {
    |summary| == |names| && forall i :: 0 <= i < |names| ==> SummaryRow(rows, names[i], summary[i])
  }

  ghost predicate SummaryRow(rows: seq<Donation>, name: string, s: Summary) {
    s.name == name && EntryOk(rows, |rows|, name, OrgEntry(s.id, s.count, s.total))
  }

  method SumByName(rows: seq<Donation>) returns (order: seq<string>, sumsByName: map<string, OrgEntry>)
    ensures order == FirstSeen(rows, |rows|, OrgName()) && sumsByName.Keys == Elements(order)
    ensures forall name :: name in sumsByName ==> EntryOk(rows, |rows|, name, sumsByName[name])
  {
    order, sumsByName := [], map[];
    for i := 0 to |rows|
      invariant order == FirstSeen(rows, i, OrgName()) && sumsByName.Keys == Elements(order)
      invariant forall name :: name in sumsByName ==> EntryOk(rows, i, name, sumsByName[name])
    {
      var row := rows[i];
      var name := row.organizationName;
      ghost var was := sumsByName;
      if name !in sumsByName {
        assert name !in order;
        EntryOpens(rows, i);
        sumsByName := sumsByName[name := OrgEntry(row.organizationID, 0, 0)];
        order := order + [name];
      } else {
        EntryGrows(rows, i, name, was[name]);
      }
      var e := sumsByName[name];
      sumsByName := sumsByName[name := e.(count := e.count + 1, total := e.total + row.amountCents)];
      forall other | other in sumsByName && other != name ensures EntryOk(rows, i + 1, other, sumsByName[other]) {
        EntryGrows(rows, i, other, was[other]);
      }
    }
  }

  method SummarizeByOrganization(rows: seq<Donation>) returns (summary: seq<Summary>)
    ensures SummaryOf(rows, FirstSeen(rows, |rows|, OrgName()), summary)
  {
    var order, sumsByName := SumByName(rows);
    summary := [];
    for i := 0 to |order|
      invariant |summary| == i && forall j :: 0 <= j < i ==> SummaryRow(rows, order[j], summary[j])
    {
      assert order[i] in Elements(order);
      var e := sumsByName[order[i]];
      summary := summary + [Summary(e.id, order[i], e.count, e.total)];
    }
  }

  function Counts(): Summary -> int {
    (s: Summary) => s.count
  }

  function Totals(): Summary -> int {
    (s: Summary) => s.total
  }

  /** Of an organization's two donations, in numbers. */
  lemma TwoDonations(a: Donation, b: Donation, summary: Summary)
    requires a.organizationName == b.organizationName && SummaryRow([a, b], a.organizationName, summary)
    ensures summary == Summary(a.organizationID, a.organizationName, 2, a.amountCents + b.amountCents)
  {
    var (s, name) := ([a, b], a.organizationName);
    assert SumOf(s, 1, OrgName(), name, One()) == 1 && SumOf(s, 1, OrgName(), name, Cents()) == a.amountCents;
    var i: nat :| IsFirst(s, 2, name, i) && summary.id == s[i].organizationID;
    assert s[0].organizationName == name;
  }

  /** The summary has every donation and every cent in it once. */
  lemma SummaryConserves(rows: seq<Donation>, summary: seq<Summary>)
    requires SummaryOf(rows, FirstSeen(rows, |rows|, OrgName()), summary)
    ensures Total(summary, |summary|, Counts()) == |rows|
    ensures Total(summary, |summary|, Totals()) == Total(rows, |rows|, Cents())
  {
    SummaryColumn(rows, summary, One(), Counts());
    SummaryColumn(rows, summary, Cents(), Totals());
    Ones(rows, |rows|);
  }

  lemma SummaryColumn(rows: seq<Donation>, summary: seq<Summary>, f: Donation -> int, g: Summary -> int)
    requires SummaryOf(rows, FirstSeen(rows, |rows|, OrgName()), summary)
    requires (f == One() && g == Counts()) || (f == Cents() && g == Totals())
    ensures Total(summary, |summary|, g) == Total(rows, |rows|, f)
  {
    var names := FirstSeen(rows, |rows|, OrgName());
    FirstSeenHas(rows, |rows|, OrgName());
    forall i | 0 <= i < |summary| ensures g(summary[i]) == SumOf(rows, |rows|, OrgName(), names[i], f) {
      assert SummaryRow(rows, names[i], summary[i]);
    }
    ColumnIsTotal(rows, OrgName(), names, f, summary, g, |summary|);
    GroupsAddUp(rows, |rows|, OrgName(), names, f);
  }

  lemma {:induction false} Ones(rows: seq<Donation>, n: nat)
    requires n <= |rows|
    ensures Total(rows, n, One()) == n
  {
    if n > 0 { Ones(rows, n - 1); }
  }
}
