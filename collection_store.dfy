/**
 * The state operations of the WarframeShit React store (`AppContext.jsx`):
 * loading with its migration, the status update shared by items of the same
 * name, the item filters, the statistics, category visibility and order, item
 * saving, progress groups and bulk upload. Each state update is a function
 * from the old state to the new one, as `setData` receives it.
 */
module CollectionStore {
  import opened Wrappers
  import opened Text
  import opened Sorting
  import opened CollectionData

  // ---------------------------------------------------------------- loading

  datatype ItemType = ItemType(id: string, name: string, color: string)

  const DefaultItemTypes: seq<ItemType> := [
    ItemType("prime", "Prime", "#ffd700"), ItemType("kuva", "Кува", "#e63946"),
    ItemType("tenet", "Догмат", "#2a9d8f"), ItemType("vandal", "Вандал", "#264653"),
    ItemType("wraith", "Призрак", "#7f5539"), ItemType("prisma", "Призма", "#4cc9f0"),
    ItemType("coda", "Кода", "#f77f00")]

  /** The file as read: the current `categories` object or the older `frames` and `weapons`. */
  datatype Raw = Raw(
    categories: Option<seq<Entry>>, frames: Option<seq<Item>>,
    weapons: Option<seq<(string, seq<Item>)>>, itemTypes: Option<seq<ItemType>>)

  datatype Data = Data(categories: seq<Entry>, itemTypes: seq<ItemType>)

  predicate DistinctNames(weapons: seq<(string, seq<Item>)>) {
    forall i, j :: 0 <= i < j < |weapons| ==> weapons[i].0 != weapons[j].0
  }

  function NoSubcategories(withSubcategories: bool): Option<seq<Subcategory>> {
    if withSubcategories then Some([]) else None
  }

  function WeaponCategory(key: string, items: seq<Item>, withSubcategories: bool): Category {
    Category(Some(key), Some(key), items, None, NoSubcategories(withSubcategories))
  }

  /** Each weapon list becomes a category named by its key, after the categories already there. */
  function PutWeapons(base: seq<Entry>, weapons: seq<(string, seq<Item>)>, withSubcategories: bool): seq<Entry>
    decreases |weapons|
  {
    if weapons == [] then base
    else PutWeapons(Put(base, weapons[0].0, WeaponCategory(weapons[0].0, weapons[0].1, withSubcategories)), weapons[1..], withSubcategories)
  }

  /** Every weapon key holds its list, every other key keeps what `base` held, and keys stay unique. */
  lemma {:induction false} PutWeaponsSpec(base: seq<Entry>, weapons: seq<(string, seq<Item>)>, withSubcategories: bool)
    requires DistinctNames(weapons)
    ensures UniqueKeys(base) ==> UniqueKeys(PutWeapons(base, weapons, withSubcategories))
    ensures forall k :: 0 <= k < |weapons| ==>
              Get(PutWeapons(base, weapons, withSubcategories), weapons[k].0) == Some(WeaponCategory(weapons[k].0, weapons[k].1, withSubcategories))
    ensures forall key :: (forall k :: 0 <= k < |weapons| ==> weapons[k].0 != key) ==>
              Get(PutWeapons(base, weapons, withSubcategories), key) == Get(base, key)
    decreases |weapons|
  {
    if weapons != [] {
      var first := weapons[0];
      var rest := weapons[1..];
      var next := Put(base, first.0, WeaponCategory(first.0, first.1, withSubcategories));
      assert PutWeapons(base, weapons, withSubcategories) == PutWeapons(next, rest, withSubcategories);
      hide Put, Get, WeaponCategory, PutWeapons;
      DistinctTail(weapons);
      PutWeaponsSpec(next, rest, withSubcategories);
      PutWeaponsStep(base, weapons, withSubcategories, next, PutWeapons(next, rest, withSubcategories));
    }
  }

  lemma DistinctTail(weapons: seq<(string, seq<Item>)>)
    requires DistinctNames(weapons) && weapons != []
    ensures DistinctNames(weapons[1..])
  {
    var rest := weapons[1..];
    assert forall i, j :: 0 <= i < j < |rest| ==> rest[i] == weapons[i + 1] && rest[j] == weapons[j + 1];
  }

  lemma PutWeaponsStep(base: seq<Entry>, weapons: seq<(string, seq<Item>)>, withSubcategories: bool, next: seq<Entry>, r: seq<Entry>)
    requires DistinctNames(weapons) && weapons != []
    requires next == Put(base, weapons[0].0, WeaponCategory(weapons[0].0, weapons[0].1, withSubcategories))
    requires UniqueKeys(next) ==> UniqueKeys(r)
    requires forall k :: 0 <= k < |weapons[1..]| ==>
               Get(r, weapons[1..][k].0) == Some(WeaponCategory(weapons[1..][k].0, weapons[1..][k].1, withSubcategories))
    requires forall key :: (forall k :: 0 <= k < |weapons[1..]| ==> weapons[1..][k].0 != key) ==> Get(r, key) == Get(next, key)
    ensures UniqueKeys(base) ==> UniqueKeys(r)
    ensures forall k :: 0 <= k < |weapons| ==> Get(r, weapons[k].0) == Some(WeaponCategory(weapons[k].0, weapons[k].1, withSubcategories))
    ensures forall key :: (forall k :: 0 <= k < |weapons| ==> weapons[k].0 != key) ==> Get(r, key) == Get(base, key)
  {
    hide Put, Get, WeaponCategory;
    var rest := weapons[1..];
    assert forall k :: 0 <= k < |rest| ==> rest[k] == weapons[k + 1] && rest[k].0 != weapons[0].0;
    assert Get(r, weapons[0].0) == Get(next, weapons[0].0);
    forall k | 1 <= k < |weapons|
      ensures Get(r, weapons[k].0) == Some(WeaponCategory(weapons[k].0, weapons[k].1, withSubcategories))
    {
      assert weapons[k] == rest[k - 1];
    }
    forall key | forall k :: 0 <= k < |weapons| ==> weapons[k].0 != key
      ensures Get(r, key) == Get(base, key)
    {
      assert weapons[0].0 != key;
      assert forall k :: 0 <= k < |rest| ==> rest[k].0 != key;
    }
  }

  /**
   * The categories of a file in the older format: "frames" (named "Варфреймы")
   * when there are frames, then one category per weapon key.
   */
  function FromLegacy(frames: Option<seq<Item>>, weapons: Option<seq<(string, seq<Item>)>>, withSubcategories: bool): (r: seq<Entry>)
    requires weapons.Some? ==> DistinctNames(weapons.value)
    ensures UniqueKeys(r)
    ensures weapons.Some? ==> forall k :: 0 <= k < |weapons.value| ==>
              Get(r, weapons.value[k].0) == Some(WeaponCategory(weapons.value[k].0, weapons.value[k].1, withSubcategories))
    ensures frames.Some? && (weapons.None? || forall k :: 0 <= k < |weapons.value| ==> weapons.value[k].0 != "frames") ==>
              Get(r, "frames") == Some(Category(Some("frames"), Some("Варфреймы"), frames.value, None, NoSubcategories(withSubcategories)))
    ensures forall key :: key != "frames" && (weapons.None? || forall k :: 0 <= k < |weapons.value| ==> weapons.value[k].0 != key) ==> Get(r, key).None?
  {
    var base := if frames.Some? then [Entry("frames", Category(Some("frames"), Some("Варфреймы"), frames.value, None, NoSubcategories(withSubcategories)))] else [];
    if weapons.Some? then
      PutWeaponsSpec(base, weapons.value, withSubcategories);
      PutWeapons(base, weapons.value, withSubcategories)
    else base
  }

  /** `maxOrder`: the largest numeric order, and 0 when none is larger. */
  function MaxOrder(cats: seq<Entry>): (m: int)
    ensures m >= 0
    ensures forall i :: 0 <= i < |cats| && cats[i].category.order.Some? ==> cats[i].category.order.value <= m
    ensures m == 0 || exists i :: 0 <= i < |cats| && cats[i].category.order == Some(m)
  {
    if cats == [] then 0
    else
      var m := MaxOrder(cats[..|cats| - 1]);
      var o := cats[|cats| - 1].category.order;
      assert forall i :: 0 <= i < |cats| - 1 ==> cats[..|cats| - 1][i] == cats[i];
      if o.Some? && o.value > m then o.value else m
  }

  /** A prime item without a type gets the type "prime". */
  function MigrateItem(item: Item): (r: Item)
    ensures item.isPrime && !Truthy(item.itemType) ==> r == item.(itemType := Some("prime"))
    ensures !(item.isPrime && !Truthy(item.itemType)) ==> r == item
  {
    if item.isPrime && !Truthy(item.itemType) then item.(itemType := Some("prime")) else item
  }

  function MigrateItems(items: seq<Item>): (r: seq<Item>)
    ensures |r| == |items| && forall k :: 0 <= k < |items| ==> r[k] == MigrateItem(items[k])
  {
    seq(|items|, k requires 0 <= k < |items| => MigrateItem(items[k]))
  }

  /** The category at position `index` after migration, given the largest order. */
  function MigrateCategory(c: Category, maxOrder: int, index: nat, withSubcategories: bool): Category {
    c.(order := if c.order.Some? then c.order else Some(maxOrder + index + 1),
       items := MigrateItems(c.items),
       subcategories := if withSubcategories && c.subcategories.None? then Some([]) else c.subcategories)
  }

  function Migrated(cats: seq<Entry>, withSubcategories: bool): (r: seq<Entry>)
    ensures |r| == |cats|
  {
    var m := MaxOrder(cats);
    seq(|cats|, i requires 0 <= i < |cats| => Entry(cats[i].key, MigrateCategory(cats[i].category, m, i, withSubcategories)))
  }

  /**
   * After migration every category has an order: a numeric order is kept, and a
   * missing one is above every order that was there and differs from every other new one.
   */
  lemma MigratedOrders(cats: seq<Entry>, withSubcategories: bool)
    ensures var r := Migrated(cats, withSubcategories);
            && (forall i :: 0 <= i < |r| ==> r[i].key == cats[i].key && r[i].category.order.Some?)
            && (forall i :: 0 <= i < |r| && cats[i].category.order.Some? ==> r[i].category.order == cats[i].category.order)
            && (forall i, j :: 0 <= i < |r| && 0 <= j < |r| && cats[i].category.order.None? && cats[j].category.order.Some? ==>
                  r[i].category.order.value > cats[j].category.order.value)
            && (forall i, j :: 0 <= i < j < |r| && cats[i].category.order.None? && cats[j].category.order.None? ==>
                  r[i].category.order != r[j].category.order)
  {
  }

  /** After migration no prime item lacks a type, other items are unchanged, and with subcategories on every category has a list. */
  lemma MigratedItems(cats: seq<Entry>, withSubcategories: bool, i: nat, k: nat)
    requires i < |cats| && k < |cats[i].category.items|
    ensures var r := Migrated(cats, withSubcategories)[i].category;
            && |r.items| == |cats[i].category.items|
            && (cats[i].category.items[k].isPrime ==> Truthy(r.items[k].itemType))
            && r.items[k].(itemType := cats[i].category.items[k].itemType) == cats[i].category.items[k]
            && (withSubcategories ==> r.subcategories.Some?)
            && (cats[i].category.subcategories.Some? ==> r.subcategories == cats[i].category.subcategories)
  {
  }

  /** The loop that migrates the items of one category in place. */
  method MigrateItemsLoop(items: seq<Item>) returns (r: seq<Item>)
    ensures r == MigrateItems(items)
  {
    r := items;
    for k := 0 to |items|
      invariant |r| == |items|
      invariant forall j :: 0 <= j < k ==> r[j] == MigrateItem(items[j])
      invariant forall j :: k <= j < |items| ==> r[j] == items[j]
    {
      if r[k].isPrime && !Truthy(r[k].itemType) {
        r := r[k := r[k].(itemType := Some("prime"))];
      }
    }
  }

  /** The first pass of `loadData`: the largest numeric order. */
  method MaxOrderLoop(cats: seq<Entry>) returns (maxOrder: int)
    ensures maxOrder == MaxOrder(cats)
  {
    maxOrder := 0;
    for i := 0 to |cats|
      invariant maxOrder == MaxOrder(cats[..i])
    {
      assert cats[..i + 1][..i] == cats[..i];
      var o := cats[i].category.order;
      if o.Some? && o.value > maxOrder {
        maxOrder := o.value;
      }
    }
    assert cats[..|cats|] == cats;
  }

  /** The second pass of `loadData`: the defaults of each category, in place. */
  method Migrate(cats: seq<Entry>, withSubcategories: bool) returns (r: seq<Entry>)
    ensures r == Migrated(cats, withSubcategories)
  {
    hide MaxOrder, MigrateItems;
    var maxOrder := MaxOrderLoop(cats);
    r := cats;
    for i := 0 to |cats|
      invariant |r| == |cats|
      invariant forall j :: 0 <= j < i ==> r[j] == Entry(cats[j].key, MigrateCategory(cats[j].category, maxOrder, j, withSubcategories))
      invariant forall j :: i <= j < |cats| ==> r[j] == cats[j]
    {
      var c := r[i].category;
      var subcategories := if withSubcategories && c.subcategories.None? then Some([]) else c.subcategories;
      var order := if c.order.None? then Some(maxOrder + i + 1) else c.order;
      var items := MigrateItemsLoop(c.items);
      r := r[i := Entry(r[i].key, c.(order := order, items := items, subcategories := subcategories))];
    }
  }

  /** `loadData`: the older format is converted, the default item types supplied, and the categories migrated. */
  method Load(raw: Raw, withSubcategories: bool) returns (d: Data)
    requires raw.categories.None? && raw.weapons.Some? ==> DistinctNames(raw.weapons.value)
    ensures d.categories == Migrated(
              if raw.categories.Some? then raw.categories.value else FromLegacy(raw.frames, raw.weapons, withSubcategories),
              withSubcategories)
    ensures d.itemTypes == if raw.itemTypes.Some? then raw.itemTypes.value else DefaultItemTypes
  {
    var cats := if raw.categories.Some? then raw.categories.value else FromLegacy(raw.frames, raw.weapons, withSubcategories);
    var itemTypes := if raw.itemTypes.Some? then raw.itemTypes.value else DefaultItemTypes;
    cats := Migrate(cats, withSubcategories);
    d := Data(cats, itemTypes);
  }

  // ---------------------------------------------------------------- status shared by name

  /** The fields an update sets; `None` leaves a field as it was. */
  datatype Updates = Updates(collected: Option<bool>, mastered: Option<bool>)

  /** `{ ...item, ...updates }`. */
  function Apply(item: Item, u: Updates): (r: Item)
    ensures r.collected == u.collected.GetOr(item.collected) && r.mastered == u.mastered.GetOr(item.mastered)
    ensures r.(collected := item.collected, mastered := item.mastered) == item
  {
    item.(collected := u.collected.GetOr(item.collected), mastered := u.mastered.GetOr(item.mastered))
  }

  /** `items.findIndex(i => i.name === name)`. */
  function FirstNamed(items: seq<Item>, name: string): (r: Option<nat>)
    ensures r.Some? ==> r.value < |items| && items[r.value].name == name
    ensures forall k :: 0 <= k < |items| && (r.None? || k < r.value) ==> items[k].name != name
  {
    if items == [] then None
    else if items[0].name == name then Some(0)
    else match FirstNamed(items[1..], name)
      case None => None
      case Some(k) => Some(k + 1)
  }

  /** The category with its first item of that name updated. */
  function UpdateFirst(c: Category, name: string, u: Updates): (r: Category)
    ensures r.(items := c.items) == c && |r.items| == |c.items|
    ensures forall k :: 0 <= k < |c.items| ==>
              r.items[k] == if FirstNamed(c.items, name) == Some(k) then Apply(c.items[k], u) else c.items[k]
  {
    match FirstNamed(c.items, name)
    case None => c
    case Some(k) => c.(items := c.items[k := Apply(c.items[k], u)])
  }

  function UpdatedFirsts(cats: seq<Entry>, name: string, u: Updates): (r: seq<Entry>)
    ensures |r| == |cats|
    ensures forall i :: 0 <= i < |cats| ==> r[i] == Entry(cats[i].key, UpdateFirst(cats[i].category, name, u))
  {
    seq(|cats|, i requires 0 <= i < |cats| => Entry(cats[i].key, UpdateFirst(cats[i].category, name, u)))
  }

  predicate SomeNamed(cats: seq<Entry>, name: string) {
    exists i :: 0 <= i < |cats| && FirstNamed(cats[i].category.items, name).Some?
  }

  /**
   * `updateGlobalStatus`: in every category the first item of that name takes
   * the update; the state is the old one when no item has the name.
   */
  method UpdateGlobalStatus(cats: seq<Entry>, name: string, u: Updates) returns (r: seq<Entry>, updated: bool)
    ensures updated <==> SomeNamed(cats, name)
    ensures r == if updated then UpdatedFirsts(cats, name, u) else cats
  {
    var newCategories := cats;
    updated := false;
    for i := 0 to |cats|
      invariant |newCategories| == |cats|
      invariant forall j :: 0 <= j < i ==> newCategories[j] == UpdatedFirsts(cats, name, u)[j]
      invariant forall j :: i <= j < |cats| ==> newCategories[j] == cats[j]
      invariant updated <==> exists j :: 0 <= j < i && FirstNamed(cats[j].category.items, name).Some?
    {
      var category := cats[i].category;
      var itemIndex := FirstNamed(category.items, name);
      if itemIndex.Some? {
        var k := itemIndex.value;
        var newItems := category.items[k := Apply(category.items[k], u)];
        newCategories := newCategories[i := Entry(cats[i].key, category.(items := newItems))];
        updated := true;
      }
    }
    r := if updated then newCategories else cats;
  }

  /** With no item of that name, updating every first of that name changes nothing. */
  lemma NoNameNoChange(cats: seq<Entry>, name: string, u: Updates)
    requires !SomeNamed(cats, name)
    ensures UpdatedFirsts(cats, name, u) == cats
  {
    forall i | 0 <= i < |cats| ensures UpdatedFirsts(cats, name, u)[i] == cats[i] {
      assert FirstNamed(cats[i].category.items, name).None?;
    }
  }

  /** A second item of the same name in a category keeps its status. */
  lemma LaterNamesakeKept(c: Category, name: string, u: Updates, k: nat)
    requires k < |c.items| && c.items[k].name == name
    requires exists j :: 0 <= j < k && c.items[j].name == name
    ensures UpdateFirst(c, name, u).items[k] == c.items[k]
  {
  }

  // ---------------------------------------------------------------- filters

  predicate MatchesSearch(item: Item, query: string) {
    query == "" || Contains(Lower(item.name), Lower(query))
  }

  predicate MatchesStatus(item: Item, status: string) {
    if status == "collected" then item.collected
    else if status == "not-collected" then !item.collected
    else if status == "mastered" then item.mastered
    else if status == "not-mastered" then !item.mastered
    else if status == "collected-not-mastered" then item.collected && !item.mastered
    else if status == "mastered-not-collected" then item.mastered && !item.collected
    else true
  }

  predicate MatchesType(item: Item, typeFilter: string) {
    typeFilter == "all" || item.itemType == Some(typeFilter)
  }

  /** `getFilteredItems` before its sort: the search filter, then the status filter, then the type filter. */
  function FilteredItems(items: seq<Item>, query: string, status: string, typeFilter: string): (r: seq<Item>)
    ensures |r| <= |items|
    ensures forall x :: x in r <==> x in items && MatchesSearch(x, query) && MatchesStatus(x, status) && MatchesType(x, typeFilter)
  {
    var searched := if query != "" then Filter(items, x => MatchesSearch(x, query)) else items;
    var statused := Filter(searched, x => MatchesStatus(x, status));
    if typeFilter != "all" then Filter(statused, x => MatchesType(x, typeFilter)) else statused
  }

  /** An empty search and the filters "all" keep every item. */
  lemma NoFilterKeepsAll(items: seq<Item>)
    ensures forall x :: x in FilteredItems(items, "", "all", "all") <==> x in items
  {
  }

  // ---------------------------------------------------------------- statistics

  datatype Stat = Stat(collected: nat, mastered: nat, total: nat)

  predicate IsCollected(i: Item) { i.collected }
  predicate IsMastered(i: Item) { i.mastered }

  function ItemsStat(items: seq<Item>): (s: Stat)
    ensures s.collected <= s.total && s.mastered <= s.total && s.total == |items|
  {
    Stat(Count(items, IsCollected), Count(items, IsMastered), |items|)
  }

  /** The quotient is the one multiple that brackets the dividend. */
  lemma DivideBetween(n: nat, d: nat, q: nat)
    requires d > 0 && d * q <= n < d * (q + 1)
    ensures n / d == q
  {
    var q' := n / d;
    assert d * q' <= n < d * q' + d;
    if q' < q {
      MultiplyMonotone(d, q' + 1, q);
    } else if q' > q {
      MultiplyMonotone(d, q + 1, q');
    }
  }

  /** A dividend below `d * k` has a quotient below `k`. */
  lemma DivideBelow(n: nat, d: nat, k: nat)
    requires d > 0 && n < d * k
    ensures n / d < k
  {
    var q' := n / d;
    assert d * q' <= n;
    if q' >= k {
      MultiplyMonotone(d, k, q');
    }
  }

  lemma MultiplyMonotone(d: nat, a: nat, b: nat)
    requires a <= b
    ensures d * a <= d * b
  {
    assert d * b == d * a + d * (b - a);
  }

  /** `Math.round(collected / total * 100)`, 0 for an empty category. */
  function Percentage(collected: nat, total: nat): (p: nat)
    requires collected <= total
    ensures p <= 100
    ensures total > 0 && collected == total ==> p == 100
    ensures collected == 0 ==> p == 0
  {
    if total > 0 then
      var n := 200 * collected + total;
      var d := 2 * total;
      MultiplyMonotone(200, collected, total);
      DivideBelow(n, d, 101);
      if collected == total then DivideBetween(n, d, 100); n / d
      else if collected == 0 then DivideBetween(n, d, 0); n / d
      else n / d
    else 0
  }

  /** One category's figures: its name (or id), the counts, the percentage and the order. */
  datatype CategoryStat = CategoryStat(name: Option<string>, stat: Stat, percentage: nat, order: Option<int>)

  function StatOfCategory(c: Category): (r: CategoryStat)
    ensures r.stat == ItemsStat(c.items) && r.order == c.order
    ensures r.name == if Truthy(c.name) then c.name else c.id
    ensures r.percentage <= 100
  {
    var s := ItemsStat(c.items);
    CategoryStat(if Truthy(c.name) then c.name else c.id, s, Percentage(s.collected, s.total), c.order)
  }

  function Plus(a: Stat, b: Stat): Stat { Stat(a.collected + b.collected, a.mastered + b.mastered, a.total + b.total) }

  /** A group key "weapon-x" names the category "x". */
  function CategoryKeyOf(groupKey: string): (r: string)
    ensures StartsWith(groupKey, "weapon-") ==> groupKey == "weapon-" + r
    ensures !StartsWith(groupKey, "weapon-") ==> r == groupKey
  {
    if StartsWith(groupKey, "weapon-") then
      assert groupKey == groupKey[..7] + groupKey[7..];
      groupKey[7..]
    else groupKey
  }

  /** A group's figures: the sum over its keys of the categories they name; unknown keys add nothing. */
  function GroupSum(keys: seq<string>, cats: seq<Entry>): (s: Stat)
    ensures s.collected <= s.total && s.mastered <= s.total
  {
    if keys == [] then Stat(0, 0, 0)
    else
      var init := GroupSum(keys[..|keys| - 1], cats);
      match Get(cats, CategoryKeyOf(keys[|keys| - 1]))
      case None => init
      case Some(c) => Plus(init, ItemsStat(c.items))
  }

  /** The loop over a group's keys. */
  method GroupTotals(keys: seq<string>, cats: seq<Entry>) returns (collected: nat, mastered: nat, total: nat)
    ensures Stat(collected, mastered, total) == GroupSum(keys, cats)
  {
    collected, mastered, total := 0, 0, 0;
    for i := 0 to |keys|
      invariant Stat(collected, mastered, total) == GroupSum(keys[..i], cats)
    {
      assert keys[..i + 1][..i] == keys[..i];
      var cat := Get(cats, CategoryKeyOf(keys[i]));
      if cat.Some? {
        collected := collected + Count(cat.value.items, IsCollected);
        mastered := mastered + Count(cat.value.items, IsMastered);
        total := total + |cat.value.items|;
      }
    }
    assert keys[..|keys|] == keys;
  }

  /** A key naming no category adds nothing, and "weapon-x" counts as "x". */
  lemma {:induction false} GroupKeys(keys: seq<string>, cats: seq<Entry>, k: string)
    ensures Get(cats, CategoryKeyOf(k)).None? ==> GroupSum(keys + [k], cats) == GroupSum(keys, cats)
    ensures !StartsWith(k, "weapon-") ==> GroupSum(keys + ["weapon-" + k], cats) == GroupSum(keys + [k], cats)
  {
    assert (keys + [k])[..|keys|] == keys;
    assert (keys + ["weapon-" + k])[..|keys|] == keys;
    assert StartsWith("weapon-" + k, "weapon-") by { assert ("weapon-" + k)[..7] == "weapon-"; }
    var r := CategoryKeyOf("weapon-" + k);
    assert "weapon-" + k == "weapon-" + r;
    assert r == ("weapon-" + k)[7..] == ("weapon-" + r)[7..];
  }

  /** All items of all categories, in category order. */
  function AllItems(cats: seq<Entry>): seq<Item> {
    if cats == [] then [] else AllItems(cats[..|cats| - 1]) + cats[|cats| - 1].category.items
  }

  function SumOfCategories(cats: seq<Entry>): Stat {
    if cats == [] then Stat(0, 0, 0) else Plus(SumOfCategories(cats[..|cats| - 1]), ItemsStat(cats[|cats| - 1].category.items))
  }

  /** The overall figures over all items are the sums of the categories' figures. */
  lemma {:induction false} TotalIsSum(cats: seq<Entry>)
    ensures ItemsStat(AllItems(cats)) == SumOfCategories(cats)
  {
    if cats != [] {
      TotalIsSum(cats[..|cats| - 1]);
      CountAppend(AllItems(cats[..|cats| - 1]), cats[|cats| - 1].category.items, IsCollected);
      CountAppend(AllItems(cats[..|cats| - 1]), cats[|cats| - 1].category.items, IsMastered);
    }
  }

  // ---------------------------------------------------------------- visibility

  function Without(keys: seq<string>, key: string): (r: seq<string>)
    ensures forall k :: k in r <==> k in keys && k != key
  {
    if keys == [] then [] else (if keys[0] == key then [] else [keys[0]]) + Without(keys[1..], key)
  }

  /** `toggleCategoryVisibility`: a hidden key is shown again, a shown one hidden. */
  function ToggleHidden(hidden: seq<string>, key: string): (r: seq<string>)
    ensures key in r <==> key !in hidden
    ensures forall k :: k != key ==> (k in r <==> k in hidden)
    ensures key !in hidden ==> r == hidden + [key]
  {
    if key in hidden then Without(hidden, key) else hidden + [key]
  }

  /** Toggling twice hides the same keys as before. */
  lemma ToggleTwice(hidden: seq<string>, key: string)
    ensures forall k :: k in ToggleHidden(ToggleHidden(hidden, key), key) <==> k in hidden
  {
  }

  // ---------------------------------------------------------------- category order

  /** `(c.order || 0)`: the sort key of a category. */
  function OrderKey(e: Entry): int { e.category.order.GetOr(0) }

  /** The key an object literal stores a category under: its id, and "undefined" without one. */
  function IdKey(c: Category): string { if c.id.Some? then c.id.value else "undefined" }

  /** Every category is stored under its own id, as the app writes them. */
  predicate KeysAreIds(cats: seq<Entry>) {
    forall i :: 0 <= i < |cats| ==> cats[i].category.id == Some(cats[i].key)
  }

  /** `findIndex(c => c.id === id)`. */
  function IndexOfId(s: seq<Entry>, id: string): (r: Option<nat>)
    ensures r.Some? ==> r.value < |s| && s[r.value].category.id == Some(id)
    ensures r.None? ==> forall j :: 0 <= j < |s| ==> s[j].category.id != Some(id)
  {
    if s == [] then None
    else if s[0].category.id == Some(id) then Some(0)
    else match IndexOfId(s[1..], id)
      case None => None
      case Some(i) => Some(i + 1)
  }

  /** The two assignments of `handleMoveCategory`: the neighbour takes the order of the moved category, then the reverse. */
  function SwapOrders(cats: seq<Entry>, neighbour: Category, moved: Category): seq<Entry> {
    Put(Put(cats, IdKey(neighbour), neighbour.(order := moved.order)), IdKey(moved), moved.(order := neighbour.order))
  }

  /** The positions, in the sorted list, of the neighbour a move swaps with and of the moved category. */
  function NeighbourAt(sorted: seq<Entry>, id: string, direction: string): (r: Option<(nat, nat)>)
    ensures r.Some? ==> r.value.0 < |sorted| && r.value.1 < |sorted| && sorted[r.value.1].category.id == Some(id)
    ensures r.Some? ==> r.value.0 + 1 == r.value.1 || r.value.0 == r.value.1 + 1
  {
    match IndexOfId(sorted, id)
    case None => None
    case Some(i) =>
      if direction == "up" && i > 0 then Some((i - 1, i))
      else if direction == "down" && i < |sorted| - 1 then Some((i + 1, i))
      else None
  }

  /** `handleMoveCategory`: nothing changes for an unknown id or at either end of the order. */
  function MoveCategory(cats: seq<Entry>, id: string, direction: string): (r: seq<Entry>)
    ensures (forall j :: 0 <= j < |cats| ==> cats[j].category.id != Some(id)) ==> r == cats
    ensures direction != "up" && direction != "down" ==> r == cats
    ensures direction == "up" && IndexOfId(SortBy(cats, OrderKey), id) == Some(0) ==> r == cats
    ensures direction == "down" && IndexOfId(SortBy(cats, OrderKey), id) == Some(|cats| - 1) ==> r == cats
  {
    var sorted := SortBy(cats, OrderKey);
    assert |sorted| == |multiset(sorted)| == |cats|;
    match NeighbourAt(sorted, id, direction)
    case None => cats
    case Some(p) =>
      assert sorted[p.1] in multiset(cats) by { assert sorted[p.1] in multiset(sorted); }
      SwapOrders(cats, sorted[p.0].category, sorted[p.1].category)
  }

  function OrderList(cats: seq<Entry>): (r: seq<Option<int>>)
    ensures |r| == |cats| && forall i :: 0 <= i < |cats| ==> r[i] == cats[i].category.order
  {
    seq(|cats|, i requires 0 <= i < |cats| => cats[i].category.order)
  }

  /** With unique keys no entry occurs twice. */
  lemma {:induction false} AtMostOnce(cats: seq<Entry>, x: Entry)
    requires UniqueKeys(cats)
    ensures multiset(cats)[x] <= 1
  {
    if cats != [] {
      var init := cats[..|cats| - 1];
      assert cats == init + [cats[|cats| - 1]];
      AtMostOnce(init, x);
    }
  }

  /** The category a move moves, as the sorted list holds it. */
  function Moved(cats: seq<Entry>, id: string, direction: string): Entry
    requires NeighbourAt(SortBy(cats, OrderKey), id, direction).Some?
  {
    SortBy(cats, OrderKey)[NeighbourAt(SortBy(cats, OrderKey), id, direction).value.1]
  }

  /** The neighbour a move swaps orders with. */
  function Swapped(cats: seq<Entry>, id: string, direction: string): Entry
    requires NeighbourAt(SortBy(cats, OrderKey), id, direction).Some?
  {
    SortBy(cats, OrderKey)[NeighbourAt(SortBy(cats, OrderKey), id, direction).value.0]
  }

  /** Two neighbours in a permutation of a list with unique keys have different keys. */
  lemma NeighboursDiffer(cats: seq<Entry>, sorted: seq<Entry>, i: nat, j: nat)
    requires UniqueKeys(cats) && multiset(sorted) == multiset(cats) && i < |sorted| && j < |sorted|
    requires i + 1 == j || i == j + 1
    ensures sorted[i].key != sorted[j].key
  {
    var lo := if i < j then i else j;
    assert sorted[lo] in multiset(cats) && sorted[lo + 1] in multiset(cats);
    var a :| 0 <= a < |cats| && cats[a] == sorted[lo];
    var b :| 0 <= b < |cats| && cats[b] == sorted[lo + 1];
    if sorted[lo].key == sorted[lo + 1].key {
      assert a == b;
      assert sorted == sorted[..lo + 1] + sorted[lo + 1..];
      assert sorted[lo] in multiset(sorted[..lo + 1]) && sorted[lo] in multiset(sorted[lo + 1..]);
      assert multiset(sorted)[sorted[lo]] >= 2;
      AtMostOnce(cats, sorted[lo]);
    }
  }

  /** Storing under an existing key of a list with unique keys replaces that entry in place. */
  lemma PutAt(cats: seq<Entry>, j: nat, c: Category)
    requires UniqueKeys(cats) && j < |cats|
    ensures Put(cats, cats[j].key, c) == cats[j := Entry(cats[j].key, c)]
  {
    GetAt(cats, j);
  }

  lemma OrderListUpdate(cats: seq<Entry>, j: nat, e: Entry)
    requires j < |cats|
    ensures OrderList(cats[j := e]) == OrderList(cats)[j := e.category.order]
  {
  }

  /** Exchanging two values of a list keeps its multiset. */
  lemma SwapKeepsMultiset<T>(x: seq<T>, a: nat, b: nat)
    requires a < |x| && b < |x| && a != b
    ensures multiset(x[a := x[b]][b := x[a]]) == multiset(x)
  {
  }

  /** A move rewrites two distinct positions of the list: the neighbour's and the moved category's. */
  lemma MoveIsUpdate(cats: seq<Entry>, id: string, direction: string) returns (a: nat, b: nat)
    requires UniqueKeys(cats) && KeysAreIds(cats) && NeighbourAt(SortBy(cats, OrderKey), id, direction).Some?
    ensures a < |cats| && b < |cats| && a != b
    ensures cats[a] == Swapped(cats, id, direction) && cats[b] == Moved(cats, id, direction) && cats[b].key == id
    ensures MoveCategory(cats, id, direction)
         == cats[a := Entry(cats[a].key, cats[a].category.(order := cats[b].category.order))]
                [b := Entry(cats[b].key, cats[b].category.(order := cats[a].category.order))]
  {
    var sorted := SortBy(cats, OrderKey);
    var p := NeighbourAt(sorted, id, direction).value;
    var (n, m) := (sorted[p.0], sorted[p.1]);
    NeighboursDiffer(cats, sorted, p.0, p.1);
    assert n in multiset(cats) && m in multiset(cats) by {
      assert n in multiset(sorted) && m in multiset(sorted);
    }
    a :| 0 <= a < |cats| && cats[a] == n;
    b :| 0 <= b < |cats| && cats[b] == m;
    assert IdKey(n.category) == n.key && IdKey(m.category) == m.key;
    var c1 := cats[a := Entry(n.key, n.category.(order := m.category.order))];
    PutAt(cats, a, n.category.(order := m.category.order));
    PutAt(c1, b, m.category.(order := n.category.order));
  }

  /**
   * A move in a list whose categories are stored under their ids swaps the
   * orders of the moved category and its neighbour in the sorted order, keeps
   * every other category and every key, and so keeps the multiset of orders.
   */
  lemma MoveSwapsOrders(cats: seq<Entry>, id: string, direction: string)
    requires UniqueKeys(cats) && KeysAreIds(cats) && NeighbourAt(SortBy(cats, OrderKey), id, direction).Some?
    ensures Moved(cats, id, direction).key == id && Swapped(cats, id, direction).key != id
    ensures Get(MoveCategory(cats, id, direction), id)
         == Some(Moved(cats, id, direction).category.(order := Swapped(cats, id, direction).category.order))
    ensures Get(MoveCategory(cats, id, direction), Swapped(cats, id, direction).key)
         == Some(Swapped(cats, id, direction).category.(order := Moved(cats, id, direction).category.order))
    ensures forall k :: k != id && k != Swapped(cats, id, direction).key ==> Get(MoveCategory(cats, id, direction), k) == Get(cats, k)
    ensures |MoveCategory(cats, id, direction)| == |cats|
    ensures forall j :: 0 <= j < |cats| ==> MoveCategory(cats, id, direction)[j].key == cats[j].key
    ensures multiset(OrderList(MoveCategory(cats, id, direction))) == multiset(OrderList(cats))
  {
    hide MoveCategory, SortBy, NeighbourAt, Moved, Swapped, Put, SwapOrders;
    var a, b := MoveIsUpdate(cats, id, direction);
    var c1 := cats[a := Entry(cats[a].key, cats[a].category.(order := cats[b].category.order))];
    var r := c1[b := Entry(cats[b].key, cats[b].category.(order := cats[a].category.order))];
    assert MoveCategory(cats, id, direction) == r;
    forall j | 0 <= j < |cats| ensures r[j].key == cats[j].key {
      if j != a && j != b {
        assert r[j] == cats[j];
      }
    }
    forall k | k != id && k != cats[a].key ensures Get(r, k) == Get(cats, k) {
      FindUpdate(cats, a, c1[a], k);
      FindUpdate(c1, b, r[b], k);
      var f := Find(cats, k);
      if f.Some? {
        assert f.value != a && f.value != b;
        assert r[f.value] == cats[f.value];
      }
    }
    FindUpdate(cats, a, c1[a], id);
    FindUpdate(c1, b, r[b], id);
    FindUpdate(cats, a, c1[a], cats[a].key);
    FindUpdate(c1, b, r[b], cats[a].key);
    GetAt(cats, a);
    GetAt(cats, b);
    OrderListUpdate(cats, a, c1[a]);
    OrderListUpdate(c1, b, r[b]);
    SwapKeepsMultiset(OrderList(cats), a, b);
  }

  // ---------------------------------------------------------------- saving an item

  /** The edit dialog: the category it was opened from and whether the item is new. */
  datatype EditModal = EditModal(category: string, isNew: bool)

  /** `findIndex(i => i.id === id)`. */
  function FirstWithId(items: seq<Item>, id: string): (r: Option<nat>)
    ensures r.Some? ==> r.value < |items| && items[r.value].id == id
    ensures r.None? ==> forall k :: 0 <= k < |items| ==> items[k].id != id
  {
    if items == [] then None
    else if items[0].id == id then Some(0)
    else match FirstWithId(items[1..], id)
      case None => None
      case Some(k) => Some(k + 1)
  }

  /** The item list with the first item of the same id replaced, or unchanged without one. */
  function ReplaceById(items: seq<Item>, item: Item): (r: seq<Item>)
    ensures |r| == |items|
    ensures FirstWithId(items, item.id).None? ==> r == items
    ensures FirstWithId(items, item.id).Some? ==> r[FirstWithId(items, item.id).value] == item
    ensures forall k :: 0 <= k < |items| && Some(k) != FirstWithId(items, item.id) ==> r[k] == items[k]
  {
    match FirstWithId(items, item.id)
    case None => items
    case Some(k) => items[k := item]
  }

  predicate OtherId(id: string, x: Item) { x.id != id }

  /** `targetCategory || editModal.category`. */
  function FinalCategory(modal: EditModal, target: Option<string>): string {
    if Truthy(target) then target.value else modal.category
  }

  /** The saved category once the target's items are known, common to both versions below. */
  function SaveInto(cats: seq<Entry>, modal: EditModal, item: Item, final: string, targetCat: Category): Option<seq<Entry>> {
    if modal.isNew then Some(Put(cats, final, targetCat.(items := targetCat.items + [item])))
    else if modal.category != final then
      match Get(cats, modal.category)
      case None => None
      case Some(source) =>
        var c1 := Put(cats, modal.category, source.(items := Filter(source.items, x => OtherId(item.id, x))));
        Some(Put(c1, final, targetCat.(items := targetCat.items + [item])))
    else Some(Put(cats, final, targetCat.(items := ReplaceById(targetCat.items, item))))
  }

  /**
   * `handleSaveItem` as written. Copying a missing category with `{ ...x }`
   * gives an empty object, so the "category not found" guard never fires and a
   * save into a missing category creates one; reading the items of a missing
   * source category throws (`None`: the state is left as it was).
   */
  function SaveItemAsWritten(cats: seq<Entry>, modal: EditModal, item: Item, target: Option<string>): (r: Option<seq<Entry>>)
    ensures var final := FinalCategory(modal, target);
            && (r.None? <==> !modal.isNew && modal.category != final && Get(cats, modal.category).None?)
            && (r.Some? ==>
                  var t := Get(cats, final).GetOr(EmptyCategory);
                  && Get(r.value, final).Some?
                  && Get(r.value, final).value.(items := t.items) == t
                  && (modal.isNew || modal.category != final ==> Get(r.value, final).value.items == t.items + [item])
                  && (!modal.isNew && modal.category == final ==> Get(r.value, final).value.items == ReplaceById(t.items, item))
                  && forall k :: k != final && k != modal.category ==> Get(r.value, k) == Get(cats, k))
  {
    var final := FinalCategory(modal, target);
    SaveInto(cats, modal, item, final, Get(cats, final).GetOr(EmptyCategory))
  }

  /** Saving a new item into a missing category creates a nameless category holding it instead of reporting it missing. */
  lemma SaveToMissingCategoryCreates(cats: seq<Entry>, modal: EditModal, item: Item)
    requires modal.isNew && Get(cats, modal.category).None?
    ensures SaveItemAsWritten(cats, modal, item, None) == Some(cats + [Entry(modal.category, Category(None, None, [item], None, None))])
  {
    assert Find(cats, modal.category).None?;
    assert EmptyCategory.(items := EmptyCategory.items + [item]) == Category(None, None, [item], None, None);
  }

  /** Moving an item out of a missing category throws, so the item is not saved at all. */
  lemma MoveFromMissingCategoryFails(cats: seq<Entry>, modal: EditModal, item: Item, target: string)
    requires !modal.isNew && target != "" && target != modal.category && Get(cats, modal.category).None?
    ensures SaveItemAsWritten(cats, modal, item, Some(target)).None?
  {
  }

  /**
   * `handleSaveItem` as its guards intend: a missing target category leaves
   * the state unchanged, and a missing source category is skipped.
   */
  function SaveItem(cats: seq<Entry>, modal: EditModal, item: Item, target: Option<string>): (r: seq<Entry>)
    ensures var final := FinalCategory(modal, target);
            && (Get(cats, final).None? ==> r == cats)
            && (Get(cats, final).Some? ==>
                  var t := Get(cats, final).value;
                  && Get(r, final).Some?
                  && Get(r, final).value.(items := t.items) == t
                  && (modal.isNew ==> Get(r, final).value.items == t.items + [item])
                  && (!modal.isNew && modal.category != final ==>
                        && Get(r, final).value.items == t.items + [item]
                        && (Get(cats, modal.category).Some? ==>
                              && Get(r, modal.category).Some?
                              && Get(r, modal.category).value.(items := Get(cats, modal.category).value.items) == Get(cats, modal.category).value
                              && forall x :: x in Get(r, modal.category).value.items <==>
                                   x in Get(cats, modal.category).value.items && x.id != item.id))
                  && (!modal.isNew && modal.category == final ==> Get(r, final).value.items == ReplaceById(t.items, item))
                  && forall k :: k != final && k != modal.category ==> Get(r, k) == Get(cats, k))
  {
    var final := FinalCategory(modal, target);
    match Get(cats, final)
    case None => cats
    case Some(t) =>
      if !modal.isNew && modal.category != final && Get(cats, modal.category).None? then
        Put(cats, final, t.(items := t.items + [item]))
      else
        SaveInto(cats, modal, item, final, t).value
  }

  /** When both categories exist the intended save is the one written. */
  lemma SaveItemAgrees(cats: seq<Entry>, modal: EditModal, item: Item, target: Option<string>)
    requires Get(cats, FinalCategory(modal, target)).Some? && (modal.isNew || Get(cats, modal.category).Some?)
    ensures SaveItemAsWritten(cats, modal, item, target) == Some(SaveItem(cats, modal, item, target))
  {
  }

  // ---------------------------------------------------------------- progress groups

  datatype Group = Group(id: string, name: string, categories: seq<string>)

  /** `progressGroups.filter(g => g.id !== id)`. */
  function DeleteGroup(groups: seq<Group>, id: string): (r: seq<Group>)
    ensures |r| <= |groups|
    ensures forall g :: g in r <==> g in groups && g.id != id
  {
    if groups == [] then [] else (if groups[0].id == id then [] else [groups[0]]) + DeleteGroup(groups[1..], id)
  }

  /** `findIndex(g => g.id === id)`. */
  function GroupIndex(groups: seq<Group>, id: string): (r: Option<nat>)
    ensures r.Some? ==> r.value < |groups| && groups[r.value].id == id && forall j :: 0 <= j < r.value ==> groups[j].id != id
    ensures r.None? ==> forall j :: 0 <= j < |groups| ==> groups[j].id != id
  {
    if groups == [] then None
    else if groups[0].id == id then Some(0)
    else match GroupIndex(groups[1..], id)
      case None => None
      case Some(j) => Some(j + 1)
  }

  /** `handleSaveProgressGroup`: the first group with that id is replaced, or the group appended. */
  function UpsertGroup(groups: seq<Group>, g: Group): (r: seq<Group>)
    ensures g in r
    ensures GroupIndex(groups, g.id).Some? ==> |r| == |groups| && r[GroupIndex(groups, g.id).value] == g
    ensures GroupIndex(groups, g.id).None? ==> r == groups + [g]
    ensures forall h :: h in groups && h.id != g.id ==> h in r
    ensures forall h :: h in r ==> h == g || h in groups
  {
    match GroupIndex(groups, g.id)
    case None => groups + [g]
    case Some(j) =>
      var r := groups[j := g];
      assert r[j] == g;
      assert forall h :: h in groups && h.id != g.id ==> h in r by {
        forall h | h in groups && h.id != g.id ensures h in r {
          var k :| 0 <= k < |groups| && groups[k] == h;
          assert r[k] == h;
        }
      }
      r
  }

  /** Deleting a group just saved leaves what deleting it from the old list leaves. */
  lemma {:induction false} DeleteAfterUpsert(groups: seq<Group>, g: Group)
    ensures DeleteGroup(UpsertGroup(groups, g), g.id) == DeleteGroup(groups, g.id)
  {
    match GroupIndex(groups, g.id)
    case None => DeleteAppend(groups, g, g.id);
    case Some(j) => DeleteReplace(groups, j, g);
  }

  lemma {:induction false} DeleteAppend(groups: seq<Group>, g: Group, id: string)
    requires g.id == id
    ensures DeleteGroup(groups + [g], id) == DeleteGroup(groups, id)
    decreases |groups|
  {
    if groups == [] {
      assert [g][1..] == [];
    } else {
      assert (groups + [g])[1..] == groups[1..] + [g];
      DeleteAppend(groups[1..], g, id);
    }
  }

  lemma {:induction false} DeleteReplace(groups: seq<Group>, j: nat, g: Group)
    requires j < |groups| && groups[j].id == g.id
    ensures DeleteGroup(groups[j := g], g.id) == DeleteGroup(groups, g.id)
    decreases |groups|
  {
    if j > 0 {
      assert groups[j := g][1..] == groups[1..][j - 1 := g];
      DeleteReplace(groups[1..], j - 1, g);
    } else {
      assert groups[j := g][1..] == groups[1..];
    }
  }

  // ---------------------------------------------------------------- bulk upload

  /** `addBulkItems` as written: a missing category is created without the uploaded items. */
  function AddBulkAsWritten(cats: seq<Entry>, items: seq<Item>, category: string): (r: seq<Entry>)
    ensures Get(r, category).Some?
    ensures Get(cats, category).Some? ==> Get(r, category) == Some(Get(cats, category).value.(items := Get(cats, category).value.items + items))
    ensures Get(cats, category).None? ==> Get(r, category) == Some(Category(Some(category), Some(category), [], None, None))
    ensures forall k :: k != category ==> Get(r, k) == Get(cats, k)
    ensures UniqueKeys(cats) ==> UniqueKeys(r)
  {
    match Get(cats, category)
    case None => Put(cats, category, Category(Some(category), Some(category), [], None, None))
    case Some(c) => Put(cats, category, c.(items := c.items + items))
  }

  /** Uploading into a missing category loses every uploaded item. */
  lemma BulkIntoMissingLosesItems(cats: seq<Entry>, items: seq<Item>, category: string)
    requires Get(cats, category).None? && items != []
    ensures Get(AddBulkAsWritten(cats, items, category), category).value.items == []
  {
  }

  /** `addBulkItems` as intended: the items are appended, and a missing category is created holding them. */
  function AddBulk(cats: seq<Entry>, items: seq<Item>, category: string): (r: seq<Entry>)
    ensures Get(r, category).Some?
    ensures Get(cats, category).Some? ==> Get(r, category) == Some(Get(cats, category).value.(items := Get(cats, category).value.items + items))
    ensures Get(cats, category).None? ==> Get(r, category) == Some(Category(Some(category), Some(category), items, None, None))
    ensures forall k :: k != category ==> Get(r, k) == Get(cats, k)
    ensures UniqueKeys(cats) ==> UniqueKeys(r)
  {
    match Get(cats, category)
    case None => Put(cats, category, Category(Some(category), Some(category), items, None, None))
    case Some(c) => Put(cats, category, c.(items := c.items + items))
  }

  /** For an existing category both versions append the items. */
  lemma AddBulkAgrees(cats: seq<Entry>, items: seq<Item>, category: string)
    requires Get(cats, category).Some? || items == []
    ensures AddBulkAsWritten(cats, items, category) == AddBulk(cats, items, category)
  {
  }

  /** The duplicate dialog: the uploaded items split by whether their name is already present. */
  datatype BulkModal = BulkModal(duplicates: seq<Item>, newItems: seq<Item>, category: string)

  /**
   * `resolveBulkDuplicates`: "all" adds the new items and then the duplicates,
   * "unique" only the new items, and any other answer (or no open dialog) adds nothing.
   */
  function ResolveBulk(cats: seq<Entry>, modal: Option<BulkModal>, action: string): (r: seq<Entry>)
    ensures modal.None? || (action != "all" && action != "unique") ==> r == cats
    ensures modal.Some? && action == "all" ==> r == AddBulkAsWritten(cats, modal.value.newItems + modal.value.duplicates, modal.value.category)
    ensures modal.Some? && action == "unique" ==> r == AddBulkAsWritten(cats, modal.value.newItems, modal.value.category)
  {
    match modal
    case None => cats
    case Some(m) =>
      if action == "all" then AddBulkAsWritten(cats, m.newItems + m.duplicates, m.category)
      else if action == "unique" then AddBulkAsWritten(cats, m.newItems, m.category)
      else cats
  }

  /** Resolving with "all" adds exactly the duplicates more than resolving with "unique". */
  lemma ResolveAllAddsDuplicates(cats: seq<Entry>, m: BulkModal)
    requires Get(cats, m.category).Some?
    ensures Get(ResolveBulk(cats, Some(m), "all"), m.category).value.items
         == Get(ResolveBulk(cats, Some(m), "unique"), m.category).value.items + m.duplicates
  {
  }
}
