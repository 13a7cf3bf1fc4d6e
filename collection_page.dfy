/**
 * The operations of the older single-file WarframeShit page (`app.js`): the
 * status update that reaches every item of a name, subcategories (their ids,
 * adding, deleting and the grouping of a category's items), item deletion and
 * the state class of an item card. Loading reuses the store's migration with
 * subcategory lists switched on.
 */
module CollectionPage {
  import opened Wrappers
  import opened Text
  import opened CollectionData
  import opened CollectionStore

  // ---------------------------------------------------------------- status shared by name

  predicate HasName(name: string, x: Item) { x.name == name }

  function Named(name: string): Item -> bool { x => HasName(name, x) }

  /** Every item of that name takes the update; the others stay as they were. */
  function UpdateNamed(items: seq<Item>, name: string, u: Updates): (r: seq<Item>)
    ensures |r| == |items|
    ensures forall k :: 0 <= k < |items| ==> r[k] == if items[k].name == name then Apply(items[k], u) else items[k]
  {
    seq(|items|, k requires 0 <= k < |items| => if items[k].name == name then Apply(items[k], u) else items[k])
  }

  function UpdatedAll(cats: seq<Entry>, name: string, u: Updates): (r: seq<Entry>)
    ensures |r| == |cats|
    ensures forall i :: 0 <= i < |cats| ==>
              r[i] == Entry(cats[i].key, cats[i].category.(items := UpdateNamed(cats[i].category.items, name, u)))
  {
    seq(|cats|, i requires 0 <= i < |cats| =>
      Entry(cats[i].key, cats[i].category.(items := UpdateNamed(cats[i].category.items, name, u))))
  }

  /** The number of items of that name over all categories. */
  function NamedCount(cats: seq<Entry>, name: string): nat {
    if cats == [] then 0 else NamedCount(cats[..|cats| - 1], name) + Count(cats[|cats| - 1].category.items, Named(name))
  }

  /** A list without an item of that name is left as it was. */
  lemma {:induction false} NoneNamedUnchanged(items: seq<Item>, name: string, u: Updates)
    requires Count(items, Named(name)) == 0
    ensures UpdateNamed(items, name, u) == items
  {
    assert forall k :: 0 <= k < |items| ==> items[k] !in Filter(items, Named(name));
  }

  /** No item of that name anywhere: nothing changes. */
  lemma {:induction false} NoneNamedNoChange(cats: seq<Entry>, name: string, u: Updates)
    requires NamedCount(cats, name) == 0
    ensures UpdatedAll(cats, name, u) == cats
  {
    if cats != [] {
      var init := cats[..|cats| - 1];
      NoneNamedNoChange(init, name, u);
      NoneNamedUnchanged(cats[|cats| - 1].category.items, name, u);
      forall i | 0 <= i < |cats| ensures UpdatedAll(cats, name, u)[i] == cats[i] {
        if i < |cats| - 1 {
          assert UpdatedAll(init, name, u)[i] == init[i];
        }
      }
    }
  }

  lemma CountStep(items: seq<Item>, k: nat, p: Item -> bool)
    requires k < |items|
    ensures Count(items[..k + 1], p) == Count(items[..k], p) + (if p(items[k]) then 1 else 0)
  {
    assert items[..k + 1] == items[..k] + [items[k]];
    CountAppend(items[..k], [items[k]], p);
    assert [items[k]][1..] == [];
  }

  /** The inner loop: every item of one category, counting the matches. */
  method UpdateItems(items: seq<Item>, name: string, u: Updates) returns (r: seq<Item>, count: nat)
    ensures r == UpdateNamed(items, name, u)
    ensures count == Count(items, Named(name))
  {
    r := items;
    count := 0;
    for k := 0 to |items|
      invariant |r| == |items|
      invariant forall j :: 0 <= j < k ==> r[j] == UpdateNamed(items, name, u)[j]
      invariant forall j :: k <= j < |items| ==> r[j] == items[j]
      invariant count == Count(items[..k], Named(name))
    {
      CountStep(items, k, Named(name));
      if items[k].name == name {
        r := r[k := Apply(items[k], u)];
        count := count + 1;
      }
    }
    assert items[..|items|] == items;
  }

  /**
   * `updateGlobalStatus` of the page: every item of that name, in every
   * category, takes the update; the count of updated items decides whether
   * the state is saved, and with no match nothing has changed.
   */
  method UpdateGlobalStatus(cats: seq<Entry>, name: string, u: Updates) returns (r: seq<Entry>, updatedCount: nat)
    ensures r == UpdatedAll(cats, name, u)
    ensures updatedCount == NamedCount(cats, name)
    ensures updatedCount == 0 ==> r == cats
  {
    r := cats;
    updatedCount := 0;
    for i := 0 to |cats|
      invariant |r| == |cats|
      invariant forall j :: 0 <= j < i ==> r[j] == UpdatedAll(cats, name, u)[j]
      invariant forall j :: i <= j < |cats| ==> r[j] == cats[j]
      invariant updatedCount == NamedCount(cats[..i], name)
    {
      assert cats[..i + 1][..i] == cats[..i];
      var items, n := UpdateItems(cats[i].category.items, name, u);
      r := r[i := Entry(cats[i].key, cats[i].category.(items := items))];
      updatedCount := updatedCount + n;
    }
    assert cats[..|cats|] == cats;
    if updatedCount == 0 {
      NoneNamedNoChange(cats, name, u);
    }
  }

  /** The store updates only the first item of a name in a category, the page every one: they agree when names are unique. */
  lemma {:induction false} FirstIsAllWhenUnique(c: Category, name: string, u: Updates)
    requires Count(c.items, Named(name)) <= 1
    ensures UpdateFirst(c, name, u).items == UpdateNamed(c.items, name, u)
  {
    var first := FirstNamed(c.items, name);
    forall k | 0 <= k < |c.items| ensures UpdateFirst(c, name, u).items[k] == UpdateNamed(c.items, name, u)[k] {
      if c.items[k].name == name && first != Some(k) {
        var f := first.value;
        assert c.items[f] in Filter(c.items, Named(name)) && c.items[k] in Filter(c.items, Named(name));
        TwoNamed(c.items, name, f, k);
      }
    }
  }

  /** Two positions holding items of that name count twice. */
  lemma {:induction false} TwoNamed(items: seq<Item>, name: string, a: nat, b: nat)
    requires a < b < |items| && items[a].name == name && items[b].name == name
    ensures Count(items, Named(name)) >= 2
  {
    assert items == items[..b] + items[b..];
    CountAppend(items[..b], items[b..], Named(name));
    assert items[a] == items[..b][a];
    assert items[..b][a] in Filter(items[..b], Named(name));
    assert items[b..][0] in Filter(items[b..], Named(name));
  }

  // ---------------------------------------------------------------- loading

  /** The page's migration gives every category a list of subcategories and a numeric order. */
  lemma MigrationCompletes(cats: seq<Entry>, i: nat)
    requires i < |cats|
    ensures Migrated(cats, true)[i].category.subcategories.Some?
    ensures Migrated(cats, true)[i].category.order.Some?
    ensures cats[i].category.subcategories.Some? ==> Migrated(cats, true)[i].category.subcategories == cats[i].category.subcategories
  {
    MigratedOrders(cats, true);
  }

  // ---------------------------------------------------------------- subcategories

  /** A character a subcategory id keeps: a Latin letter, a digit or a Cyrillic letter from а to я. */
  predicate IdChar(c: char) { 'a' <= c <= 'z' || '0' <= c <= '9' || 'а' <= c <= 'я' }

  function KeepIdChars(s: string): (r: string)
    ensures |r| <= |s|
    ensures forall i :: 0 <= i < |r| ==> IdChar(r[i])
    ensures forall c :: c in r <==> c in s && IdChar(c)
  {
    if s == [] then [] else (if IdChar(s[0]) then [s[0]] else []) + KeepIdChars(s[1..])
  }

  /** `name.toLowerCase().replace(/[^a-z0-9а-я]/g, '')`. */
  function SubId(name: string): (r: string)
    ensures forall i :: 0 <= i < |r| ==> IdChar(r[i])
    ensures forall c :: c in r <==> c in Lower(name) && IdChar(c)
  {
    KeepIdChars(Lower(name))
  }

  lemma {:induction false} KeepAllIdChars(s: string)
    requires forall i :: 0 <= i < |s| ==> IdChar(s[i])
    ensures KeepIdChars(s) == s
  {
    if s != [] {
      KeepAllIdChars(s[1..]);
    }
  }

  lemma {:induction false} LowerOfIdChars(s: string)
    requires forall i :: 0 <= i < |s| ==> IdChar(s[i])
    ensures Lower(s) == s
  {
    if s != [] {
      LowerOfIdChars(s[1..]);
    }
  }

  /** An id is already its own id: deriving the id of a derived id changes nothing. */
  lemma SubIdIdempotent(name: string)
    ensures SubId(SubId(name)) == SubId(name)
  {
    LowerOfIdChars(SubId(name));
    KeepAllIdChars(SubId(name));
  }

  /** The outcome of adding a subcategory: the prompt cancelled or blank, the id taken, the category missing, or the new categories. */
  datatype AddOutcome = Cancelled | Duplicate | NotFound | Added(categories: seq<Entry>)

  predicate IdTaken(subs: seq<Subcategory>, id: string) {
    exists j :: 0 <= j < |subs| && subs[j].id == id
  }

  predicate DistinctIds(subs: seq<Subcategory>) {
    forall i, j :: 0 <= i < j < |subs| ==> subs[i].id != subs[j].id
  }

  /** The category with the new subcategory appended, unless its id is taken. */
  function AddTo(cats: seq<Entry>, key: string, c: Category, name: string): AddOutcome {
    var subs := c.subcategories.GetOr([]);
    var id := SubId(name);
    if IdTaken(subs, id) then Duplicate
    else Added(Put(cats, key, c.(subcategories := Some(subs + [Subcategory(id, Trim(name))]))))
  }

  /**
   * `handleAddSubcategory` as written: copying a missing category with
   * `{ ...x }` gives an empty object, so the "category not found" guard never
   * fires and the subcategory lands in a new category holding nothing else.
   */
  function AddSubcategoryAsWritten(cats: seq<Entry>, key: string, name: Option<string>): (r: AddOutcome)
    ensures name.None? || Trim(name.value) == "" <==> r == Cancelled
    ensures r != NotFound
    ensures r == Duplicate <==>
              (name.Some? && Trim(name.value) != ""
               && IdTaken(Get(cats, key).GetOr(EmptyCategory).subcategories.GetOr([]), SubId(name.value)))
    ensures r.Added? ==>
              var c := Get(cats, key).GetOr(EmptyCategory);
              && Get(r.categories, key) == Some(c.(subcategories := Some(c.subcategories.GetOr([]) + [Subcategory(SubId(name.value), Trim(name.value))])))
              && forall k :: k != key ==> Get(r.categories, k) == Get(cats, k)
  {
    if name.None? || Trim(name.value) == "" then Cancelled
    else AddTo(cats, key, Get(cats, key).GetOr(EmptyCategory), name.value)
  }

  /** Adding a subcategory to a missing category creates a category instead of reporting it missing. */
  lemma AddToMissingCreates(cats: seq<Entry>, key: string, name: string)
    requires Get(cats, key).None? && Trim(name) != ""
    ensures AddSubcategoryAsWritten(cats, key, Some(name))
         == Added(Put(cats, key, EmptyCategory.(subcategories := Some([Subcategory(SubId(name), Trim(name))]))))
  {
    hide Trim, SubId, Lower, KeepIdChars;
    assert !IdTaken([], SubId(name));
    assert [] + [Subcategory(SubId(name), Trim(name))] == [Subcategory(SubId(name), Trim(name))];
  }

  /**
   * `handleAddSubcategory` as its guard intends: a missing category is
   * reported; otherwise a subcategory whose id is free is appended, with the
   * trimmed name, and nothing else changes.
   */
  function AddSubcategory(cats: seq<Entry>, key: string, name: Option<string>): (r: AddOutcome)
    ensures name.None? || Trim(name.value) == "" <==> r == Cancelled
    ensures r == NotFound <==> name.Some? && Trim(name.value) != "" && Get(cats, key).None?
    ensures r == Duplicate <==>
              (name.Some? && Trim(name.value) != "" && Get(cats, key).Some?
               && IdTaken(Get(cats, key).value.subcategories.GetOr([]), SubId(name.value)))
    ensures r.Added? ==>
              var c := Get(cats, key).value;
              && Get(r.categories, key) == Some(c.(subcategories := Some(c.subcategories.GetOr([]) + [Subcategory(SubId(name.value), Trim(name.value))])))
              && forall k :: k != key ==> Get(r.categories, k) == Get(cats, k)
  {
    if name.None? || Trim(name.value) == "" then Cancelled
    else match Get(cats, key)
      case None => NotFound
      case Some(c) => AddTo(cats, key, c, name.value)
  }

  /** Adding keeps the ids of a category's subcategories distinct. */
  lemma AddKeepsIdsDistinct(cats: seq<Entry>, key: string, name: Option<string>)
    requires Get(cats, key).Some? && DistinctIds(Get(cats, key).value.subcategories.GetOr([]))
    requires AddSubcategory(cats, key, name).Added?
    ensures DistinctIds(Get(AddSubcategory(cats, key, name).categories, key).value.subcategories.value)
  {
  }

  /** For an existing category the intended add is the one written. */
  lemma AddSubcategoryAgrees(cats: seq<Entry>, key: string, name: Option<string>)
    requires Get(cats, key).Some?
    ensures AddSubcategoryAsWritten(cats, key, name) == AddSubcategory(cats, key, name)
  {
  }

  function WithoutSub(subs: seq<Subcategory>, id: string): (r: seq<Subcategory>)
    ensures forall s :: s in r <==> s in subs && s.id != id
  {
    if subs == [] then [] else (if subs[0].id == id then [] else [subs[0]]) + WithoutSub(subs[1..], id)
  }

  function ClearSub(items: seq<Item>, id: string): (r: seq<Item>)
    ensures |r| == |items|
    ensures forall k :: 0 <= k < |items| ==>
              r[k] == if items[k].subcategory == Some(id) then items[k].(subcategory := None) else items[k]
  {
    seq(|items|, k requires 0 <= k < |items| =>
      if items[k].subcategory == Some(id) then items[k].(subcategory := None) else items[k])
  }

  /**
   * `handleDeleteSubcategory`: the subcategory is removed and the items that
   * referenced it lose the reference. Filtering the subcategories of a missing
   * category, or of one without a list, throws (`None`: nothing changes).
   */
  function DeleteSubcategory(cats: seq<Entry>, key: string, id: string): (r: Option<seq<Entry>>)
    ensures r.None? <==> Get(cats, key).None? || Get(cats, key).value.subcategories.None?
    ensures r.Some? ==> Get(r.value, key).Some?
    ensures r.Some? ==>
              var c := Get(cats, key).value;
              var d := Get(r.value, key).value;
              && d.(subcategories := c.subcategories, items := c.items) == c
              && d.subcategories.Some?
              && (forall s :: s in d.subcategories.value <==> s in c.subcategories.value && s.id != id)
              && |d.items| == |c.items|
              && (forall k :: 0 <= k < |c.items| ==> d.items[k].subcategory != Some(id))
              && (forall k :: 0 <= k < |c.items| && c.items[k].subcategory != Some(id) ==> d.items[k] == c.items[k])
              && (forall k :: 0 <= k < |c.items| ==> d.items[k].(subcategory := c.items[k].subcategory) == c.items[k])
              && forall k :: k != key ==> Get(r.value, k) == Get(cats, k)
  {
    match Get(cats, key)
    case None => None
    case Some(c) =>
      if c.subcategories.None? then None
      else Some(Put(cats, key, c.(subcategories := Some(WithoutSub(c.subcategories.value, id)), items := ClearSub(c.items, id))))
  }

  // ---------------------------------------------------------------- grouping

  function DeclaredIds(subs: Option<seq<Subcategory>>): (r: set<string>)
    ensures "other" in r
    ensures subs.Some? ==> forall j :: 0 <= j < |subs.value| ==> subs.value[j].id in r
    ensures forall k :: k in r ==> k == "other" || (subs.Some? && exists j :: 0 <= j < |subs.value| && subs.value[j].id == k)
  {
    {"other"} + (if subs.Some? then set j | 0 <= j < |subs.value| :: subs.value[j].id else {})
  }

  /** The group an item belongs to: its subcategory when that one is declared, and "other" otherwise. */
  function GroupOf(item: Item, declared: set<string>): (g: string)
    ensures "other" in declared ==> g in declared
    ensures g != "other" ==> item.subcategory == Some(g) && g != ""
  {
    if Truthy(item.subcategory) && item.subcategory.value in declared then item.subcategory.value else "other"
  }

  predicate InGroupOf(declared: set<string>, k: string, x: Item) { GroupOf(x, declared) == k }

  function InGroup(declared: set<string>, k: string): Item -> bool { x => InGroupOf(declared, k, x) }

  lemma FilterStep(items: seq<Item>, i: nat, p: Item -> bool)
    requires i < |items|
    ensures Filter(items[..i + 1], p) == Filter(items[..i], p) + (if p(items[i]) then [items[i]] else [])
  {
    assert items[..i + 1] == items[..i] + [items[i]];
    CountAppend(items[..i], [items[i]], p);
    assert [items[i]][1..] == [];
  }

  /**
   * `groupedItems`: one list per declared subcategory and one for "other";
   * every list holds, in order, exactly the items whose group it is, so each
   * item lands in exactly one group.
   */
  method GroupItems(items: seq<Item>, subs: Option<seq<Subcategory>>) returns (groups: map<string, seq<Item>>)
    ensures groups.Keys == DeclaredIds(subs)
    ensures forall k :: k in groups ==> groups[k] == Filter(items, InGroup(DeclaredIds(subs), k))
  {
    hide GroupOf, Filter, Truthy;
    var declared := DeclaredIds(subs);
    groups := map k | k in declared :: [];
    for i := 0 to |items|
      invariant groups.Keys == declared
      invariant forall k :: k in groups ==> groups[k] == Filter(items[..i], InGroup(declared, k))
    {
      var g := GroupOf(items[i], declared);
      var before := groups;
      groups := groups[g := groups[g] + [items[i]]];
      forall k | k in groups ensures groups[k] == Filter(items[..i + 1], InGroup(declared, k)) {
        FilterStep(items, i, InGroup(declared, k));
        if k == g {
          assert groups[k] == before[k] + [items[i]];
        } else {
          assert groups[k] == before[k];
        }
      }
    }
    assert items[..|items|] == items;
  }

  /** Each item is in the group `GroupOf` names and in no other. */
  lemma OneGroupEach(items: seq<Item>, subs: Option<seq<Subcategory>>, x: Item, k: string)
    requires x in items && k in DeclaredIds(subs)
    ensures x in Filter(items, InGroup(DeclaredIds(subs), k)) <==> k == GroupOf(x, DeclaredIds(subs))
  {
  }

  // ---------------------------------------------------------------- items

  /** `handleDelete`: only the items with that id leave that category; a missing category changes nothing. */
  function DeleteItem(cats: seq<Entry>, key: string, id: string): (r: seq<Entry>)
    ensures Get(cats, key).None? ==> r == cats
    ensures Get(cats, key).Some? ==>
              && Get(r, key).Some?
              && Get(r, key).value.(items := Get(cats, key).value.items) == Get(cats, key).value
              && forall x :: x in Get(r, key).value.items <==> x in Get(cats, key).value.items && x.id != id
    ensures forall k :: k != key ==> Get(r, k) == Get(cats, k)
  {
    match Get(cats, key)
    case None => cats
    case Some(c) => Put(cats, key, c.(items := Filter(c.items, x => OtherId(id, x))))
  }

  /** `getStateClass`: the card class for the item's two flags. */
  function StateClass(item: Item): (r: string)
    ensures r == "" <==> !item.collected && !item.mastered
    ensures r == "collected-mastered" <==> item.collected && item.mastered
    ensures r == "collected" <==> item.collected && !item.mastered
    ensures r == "mastered" <==> !item.collected && item.mastered
  {
    if item.collected && item.mastered then "collected-mastered"
    else if item.collected then "collected"
    else if item.mastered then "mastered"
    else ""
  }

  /** The class tells both flags apart: two cards with one class have the same flags. */
  lemma StateClassDistinguishes(a: Item, b: Item)
    requires StateClass(a) == StateClass(b)
    ensures a.collected == b.collected && a.mastered == b.mastered
  {
  }
}
