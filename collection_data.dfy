/**
 * The WarframeShit collection: items (frames and weapons) in categories keyed
 * by strings. A JavaScript object of categories is a list of entries in key
 * insertion order, which is the order `Object.values` and `Object.keys` visit.
 */
module CollectionData {
  import opened Wrappers

  /**
   * An item. `itemType` is `type` (null or absent is `None`); `subcategory` is
   * the optional subcategory id of the older page.
   */
  datatype Item = Item(
    id: string, name: string, collected: bool, mastered: bool,
    itemType: Option<string>, isPrime: bool, subcategory: Option<string>)

  datatype Subcategory = Subcategory(id: string, name: string)

  /** A category; a missing `items` array is the empty list, a missing `order` or `subcategories` is `None`. */
  datatype Category = Category(
    id: Option<string>, name: Option<string>, items: seq<Item>, order: Option<int>,
    subcategories: Option<seq<Subcategory>>)

  datatype Entry = Entry(key: string, category: Category)

  /** `{ ...undefined }`: the object that spreading a missing category gives. */
  const EmptyCategory: Category := Category(None, None, [], None, None)

  /** A string value JavaScript treats as true: present and non-empty. */
  predicate Truthy(s: Option<string>) { s.Some? && s.value != "" }

  predicate UniqueKeys(cats: seq<Entry>) {
    forall i, j :: 0 <= i < j < |cats| ==> cats[i].key != cats[j].key
  }

  /** The position of a key. */
  function Find(cats: seq<Entry>, key: string): (r: Option<nat>)
    ensures r.Some? ==> r.value < |cats| && cats[r.value].key == key
    ensures r.Some? ==> forall j :: 0 <= j < r.value ==> cats[j].key != key
    ensures r.None? ==> forall j :: 0 <= j < |cats| ==> cats[j].key != key
  {
    if cats == [] then None
    else if cats[0].key == key then Some(0)
    else match Find(cats[1..], key)
      case None => None
      case Some(i) => Some(i + 1)
  }

  /** `categories[key]`. */
  function Get(cats: seq<Entry>, key: string): (r: Option<Category>)
    ensures r.Some? <==> exists j :: 0 <= j < |cats| && cats[j].key == key
    ensures r.Some? ==> r.value == cats[Find(cats, key).value].category
  {
    match Find(cats, key)
    case None => None
    case Some(i) => Some(cats[i].category)
  }

  /** In a list with unique keys, the entry at a key's position is the one `Get` returns. */
  lemma GetAt(cats: seq<Entry>, j: nat)
    requires UniqueKeys(cats) && j < |cats|
    ensures Find(cats, cats[j].key) == Some(j) && Get(cats, cats[j].key) == Some(cats[j].category)
  {
  }

  /** `categories[key] = c`: the value at an existing key is replaced in place; a new key is appended. */
  function Put(cats: seq<Entry>, key: string, c: Category): (r: seq<Entry>)
    ensures Find(cats, key).Some? ==> r == cats[Find(cats, key).value := Entry(key, c)]
    ensures Find(cats, key).None? ==> r == cats + [Entry(key, c)]
    ensures Get(r, key) == Some(c)
    ensures forall k :: k != key ==> Get(r, k) == Get(cats, k)
    ensures UniqueKeys(cats) ==> UniqueKeys(r)
  {
    match Find(cats, key)
    case None =>
      var r := cats + [Entry(key, c)];
      assert Find(r, key) == Some(|cats|) by { FindAppend(cats, Entry(key, c), key); }
      forall k | k != key ensures Get(r, k) == Get(cats, k) { FindAppend(cats, Entry(key, c), k); }
      r
    case Some(i) =>
      var r := cats[i := Entry(key, c)];
      forall k | k != key ensures Get(r, k) == Get(cats, k) { FindUpdate(cats, i, Entry(key, c), k); }
      FindUpdate(cats, i, Entry(key, c), key);
      r
  }

  lemma {:induction false} FindAppend(cats: seq<Entry>, e: Entry, k: string)
    ensures Find(cats + [e], k) == if Find(cats, k).Some? then Find(cats, k) else if e.key == k then Some(|cats|) else None
    decreases |cats|
  {
    if cats != [] {
      assert (cats + [e])[1..] == cats[1..] + [e];
      FindAppend(cats[1..], e, k);
    }
  }

  /** Replacing an entry by one with the same key moves no key. */
  lemma {:induction false} FindUpdate(cats: seq<Entry>, i: nat, e: Entry, k: string)
    requires i < |cats| && cats[i].key == e.key
    ensures Find(cats[i := e], k) == Find(cats, k)
    decreases |cats|
  {
    if i > 0 {
      assert cats[i := e][1..] == cats[1..][i - 1 := e];
      FindUpdate(cats[1..], i - 1, e, k);
    }
  }

  /** `items.filter(p)`: the items satisfying `p`, in order. */
  function Filter(items: seq<Item>, p: Item -> bool): (r: seq<Item>)
    ensures |r| <= |items|
    ensures forall x :: x in r <==> x in items && p(x)
  {
    if items == [] then []
    else (if p(items[0]) then [items[0]] else []) + Filter(items[1..], p)
  }

  /** `items.filter(p).length`. */
  function Count(items: seq<Item>, p: Item -> bool): (n: nat)
    ensures n <= |items|
  {
    |Filter(items, p)|
  }

  lemma {:induction false} CountAppend(a: seq<Item>, b: seq<Item>, p: Item -> bool)
    ensures Filter(a + b, p) == Filter(a, p) + Filter(b, p)
    ensures Count(a + b, p) == Count(a, p) + Count(b, p)
    decreases |a|
  {
    if a == [] {
      assert a + b == b;
    } else {
      assert (a + b)[0] == a[0] && (a + b)[1..] == a[1..] + b;
      CountAppend(a[1..], b, p);
      var head := if p(a[0]) then [a[0]] else [];
      assert Filter(a + b, p) == head + (Filter(a[1..], p) + Filter(b, p));
      assert head + (Filter(a[1..], p) + Filter(b, p)) == (head + Filter(a[1..], p)) + Filter(b, p);
    }
  }
}
