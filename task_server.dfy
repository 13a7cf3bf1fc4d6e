/**
 * The data server of TasksManager (`server.js`): categories, tasks and settings
 * kept in one JSON file. Every handler reads the file (filling in the missing
 * parts), changes the data in place and writes it back.
 */
module TaskServer {
  import opened Wrappers

  const CompletedId: string := "system-completed"
  const DefaultId: string := "default"

  /** A category; one created through the API has no `order`. */
  datatype Category = Category(id: string, name: string, collapsed: bool, order: Option<int>)

  datatype Task = Task(
    id: string, title: string, content: string, status: string, categoryId: string,
    order: int, media: seq<string>, createdAt: string, updatedAt: string)

  const DefaultCategory: Category := Category(DefaultId, "Входящие", false, Some(0))
  const CompletedCategory: Category := Category(CompletedId, "Выполненные", false, Some(1000))
  const DefaultSettings: map<string, string> := map["uiFontSize" := "medium", "pageFormat" := "format-free"]

  /** The parsed file, each top-level field possibly missing. */
  datatype Stored = Stored(categories: Option<seq<Category>>, tasks: Option<seq<Task>>, settings: Option<map<string, string>>)

  /** The outcome of reading and parsing the file. */
  datatype Load = Unreadable | Parsed(stored: Stored)

  datatype Data = Data(categories: seq<Category>, tasks: seq<Task>, settings: map<string, string>)

  predicate HasCategory(cats: seq<Category>, id: string) {
    exists k :: 0 <= k < |cats| && cats[k].id == id
  }

  /** The category list with the "Completed" category appended when no category has its id. */
  function WithCompleted(cats: seq<Category>): (r: seq<Category>)
    ensures HasCategory(r, CompletedId)
    ensures HasCategory(cats, CompletedId) ==> r == cats
    ensures !HasCategory(cats, CompletedId) ==> r == cats + [CompletedCategory]
  {
    if HasCategory(cats, CompletedId) then cats
    else
      assert (cats + [CompletedCategory])[|cats|].id == CompletedId;
      cats + [CompletedCategory]
  }

  /** `readData`: the defaults fill what is missing; an unreadable file gives the two default categories. */
  function ReadData(load: Load): (r: Data)
    ensures HasCategory(r.categories, CompletedId)
    ensures load.Unreadable? ==> r == Data([DefaultCategory, CompletedCategory], [], DefaultSettings)
    ensures load.Parsed? && load.stored.categories.None? ==> r.categories == [DefaultCategory, CompletedCategory]
    ensures load.Parsed? && load.stored.categories.Some? ==> r.categories == WithCompleted(load.stored.categories.value)
    ensures load.Parsed? ==> r.tasks == load.stored.tasks.GetOr([]) && r.settings == load.stored.settings.GetOr(DefaultSettings)
  {
    match load
    case Unreadable =>
      assert [DefaultCategory, CompletedCategory][1].id == CompletedId;
      Data([DefaultCategory, CompletedCategory], [], DefaultSettings)
    case Parsed(s) =>
      var cats := WithCompleted(s.categories.GetOr([DefaultCategory]));
      Data(cats, s.tasks.GetOr([]), s.settings.GetOr(DefaultSettings))
  }

  /** What a write leaves in the file, read back: the same data, once the "Completed" category exists. */
  lemma ReadWritten(d: Data)
    requires HasCategory(d.categories, CompletedId)
    ensures ReadData(Parsed(Stored(Some(d.categories), Some(d.tasks), Some(d.settings)))) == d
  {
  }

  /** Reading twice reads the same data as reading once. */
  lemma ReadDataIdempotent(load: Load)
    ensures var d := ReadData(load);
            ReadData(Parsed(Stored(Some(d.categories), Some(d.tasks), Some(d.settings)))) == d
  {
    ReadWritten(ReadData(load));
  }

  // ---------------------------------------------------------------- categories

  /** The fields of a PATCH body for a category; `None` leaves a field as it was. */
  datatype CategoryPatch = CategoryPatch(name: Option<string>, collapsed: Option<bool>, order: Option<int>)

  /** `Object.assign(cat, body)`. */
  function AssignCategory(c: Category, p: CategoryPatch): (r: Category)
    ensures r.id == c.id
    ensures r.name == p.name.GetOr(c.name) && r.collapsed == p.collapsed.GetOr(c.collapsed)
    ensures r.order == if p.order.Some? then p.order else c.order
  {
    Category(c.id, p.name.GetOr(c.name), p.collapsed.GetOr(c.collapsed), if p.order.Some? then p.order else c.order)
  }

  /** `findIndex(c => c.id === id)`. */
  function IndexOfCategory(cats: seq<Category>, id: string): (r: Option<nat>)
    ensures r.None? <==> !HasCategory(cats, id)
    ensures r.Some? ==> r.value < |cats| && cats[r.value].id == id && forall k :: 0 <= k < r.value ==> cats[k].id != id
    decreases |cats|
  {
    if cats == [] then None
    else if cats[0].id == id then Some(0)
    else
      match IndexOfCategory(cats[1..], id)
      case None =>
        assert forall k :: 1 <= k < |cats| ==> cats[k] == cats[1..][k - 1];
        None
      case Some(i) => Some(i + 1)
  }

  /** `categories.filter(c => c.id !== id)`. */
  function WithoutCategory(cats: seq<Category>, id: string): (r: seq<Category>)
    ensures forall c :: c in r <==> c in cats && c.id != id
    ensures |r| <= |cats|
    decreases |cats|
  {
    if cats == [] then []
    else
      var init := WithoutCategory(cats[..|cats| - 1], id);
      var last := cats[|cats| - 1];
      assert cats == cats[..|cats| - 1] + [last];
      if last.id != id then init + [last] else init
  }

  /** The tasks of category `id` reassigned to "default"; nothing else changes. */
  function Reassigned(tasks: seq<Task>, id: string): (r: seq<Task>)
    ensures |r| == |tasks|
    ensures forall k :: 0 <= k < |tasks| ==>
              r[k] == if tasks[k].categoryId == id then tasks[k].(categoryId := DefaultId) else tasks[k]
  {
    seq(|tasks|, k requires 0 <= k < |tasks| => if tasks[k].categoryId == id then tasks[k].(categoryId := DefaultId) else tasks[k])
  }

  /** Deleting a category other than "default" leaves no task in it. */
  lemma DeletedCategoryEmpty(tasks: seq<Task>, id: string)
    requires id != DefaultId
    ensures forall t :: t in Reassigned(tasks, id) ==> t.categoryId != id
  {
    var r := Reassigned(tasks, id);
    forall t | t in r ensures t.categoryId != id {
      var k :| 0 <= k < |r| && r[k] == t;
    }
  }

  /** A deleted "Completed" category comes back at the next read, after the others. */
  lemma CompletedRestored(cats: seq<Category>)
    ensures var r := WithCompleted(WithoutCategory(cats, CompletedId));
            r == WithoutCategory(cats, CompletedId) + [CompletedCategory]
  {
  }

  // ---------------------------------------------------------------- reorder

  /** One element of a reorder request; an empty `categoryId` is absent. */
  datatype ReorderItem = ReorderItem(id: string, order: int, categoryId: string)

  /** The first category with the item's id takes the item's order. */
  function SetCategoryOrder(cats: seq<Category>, item: ReorderItem): (r: seq<Category>)
    ensures |r| == |cats|
    ensures forall k :: 0 <= k < |cats| ==> r[k].id == cats[k].id && r[k].name == cats[k].name && r[k].collapsed == cats[k].collapsed
    ensures IndexOfCategory(cats, item.id).None? ==> r == cats
    ensures IndexOfCategory(cats, item.id).Some? ==> r == cats[IndexOfCategory(cats, item.id).value := cats[IndexOfCategory(cats, item.id).value].(order := Some(item.order))]
  {
    match IndexOfCategory(cats, item.id)
    case None => cats
    case Some(i) => cats[i := cats[i].(order := Some(item.order))]
  }

  /** The items applied in turn. */
  function CategoryOrders(cats: seq<Category>, items: seq<ReorderItem>): (r: seq<Category>)
    ensures |r| == |cats|
    ensures forall k :: 0 <= k < |cats| ==> r[k].id == cats[k].id && r[k].name == cats[k].name && r[k].collapsed == cats[k].collapsed
    decreases |items|
  {
    if items == [] then cats
    else SetCategoryOrder(CategoryOrders(cats, items[..|items| - 1]), items[|items| - 1])
  }

  /** Items naming no category change nothing. */
  lemma {:induction false} UnknownCategoriesIgnored(cats: seq<Category>, items: seq<ReorderItem>)
    requires forall i :: 0 <= i < |items| ==> !HasCategory(cats, items[i].id)
    ensures CategoryOrders(cats, items) == cats
    decreases |items|
  {
    if items != [] {
      UnknownCategoriesIgnored(cats, items[..|items| - 1]);
      var r := CategoryOrders(cats, items[..|items| - 1]);
      assert !HasCategory(r, items[|items| - 1].id);
    }
  }

  /** The orders `i` for the `i`-th category, as the client sends after a drop. */
  function Positions(cats: seq<Category>): (r: seq<ReorderItem>)
    ensures |r| == |cats|
    ensures forall k :: 0 <= k < |cats| ==> r[k].id == cats[k].id && r[k].order == k && r[k].categoryId == ""
  {
    seq(|cats|, k requires 0 <= k < |cats| => ReorderItem(cats[k].id, k, ""))
  }

  predicate DistinctIds(cats: seq<Category>) {
    forall i, j :: 0 <= i < j < |cats| ==> cats[i].id != cats[j].id
  }

  /** Applying the position list of distinct categories numbers every category by its position. */
  lemma PositionsNumber(cats: seq<Category>)
    requires DistinctIds(cats)
    ensures forall k :: 0 <= k < |cats| ==> CategoryOrders(cats, Positions(cats))[k].order == Some(k)
  {
    PositionsNumberPrefix(cats, |cats|);
    assert Positions(cats)[..|cats|] == Positions(cats);
  }

  lemma {:induction false} PositionsNumberPrefix(cats: seq<Category>, n: nat)
    requires DistinctIds(cats) && n <= |cats|
    ensures var r := CategoryOrders(cats, Positions(cats)[..n]);
            forall k :: 0 <= k < |cats| ==> r[k].order == if k < n then Some(k) else cats[k].order
    decreases n
  {
    if n > 0 {
      var items := Positions(cats)[..n];
      assert items[..n - 1] == Positions(cats)[..n - 1];
      PositionsNumberPrefix(cats, n - 1);
      var r0 := CategoryOrders(cats, items[..n - 1]);
      assert items[n - 1] == ReorderItem(cats[n - 1].id, n - 1, "");
      assert IndexOfCategory(r0, cats[n - 1].id) == Some(n - 1) by {
        var i := IndexOfCategory(r0, cats[n - 1].id);
        assert r0[n - 1].id == cats[n - 1].id;
        assert i.Some? && i.value <= n - 1;
        assert cats[i.value].id == cats[n - 1].id;
      }
    }
  }

  /** The first task with the item's id takes its order and, when the item names one, its category. */
  function SetTaskOrder(tasks: seq<Task>, item: ReorderItem): (r: seq<Task>)
    ensures |r| == |tasks|
    ensures forall k :: 0 <= k < |tasks| ==> r[k].id == tasks[k].id && r[k].title == tasks[k].title && r[k].status == tasks[k].status
    ensures IndexOfTask(tasks, item.id).None? ==> r == tasks
    ensures IndexOfTask(tasks, item.id).Some? ==>
              var i := IndexOfTask(tasks, item.id).value;
              r == tasks[i := tasks[i].(order := item.order, categoryId := if item.categoryId != "" then item.categoryId else tasks[i].categoryId)]
  {
    match IndexOfTask(tasks, item.id)
    case None => tasks
    case Some(i) => tasks[i := tasks[i].(order := item.order, categoryId := if item.categoryId != "" then item.categoryId else tasks[i].categoryId)]
  }

  function TaskOrders(tasks: seq<Task>, items: seq<ReorderItem>): (r: seq<Task>)
    ensures |r| == |tasks|
    ensures forall k :: 0 <= k < |tasks| ==> r[k].id == tasks[k].id && r[k].title == tasks[k].title && r[k].status == tasks[k].status
    decreases |items|
  {
    if items == [] then tasks
    else SetTaskOrder(TaskOrders(tasks, items[..|items| - 1]), items[|items| - 1])
  }

  // ---------------------------------------------------------------- tasks

  predicate HasTask(tasks: seq<Task>, id: string) {
    exists k :: 0 <= k < |tasks| && tasks[k].id == id
  }

  /** `findIndex(t => t.id === id)`. */
  function IndexOfTask(tasks: seq<Task>, id: string): (r: Option<nat>)
    ensures r.None? <==> !HasTask(tasks, id)
    ensures r.Some? ==> r.value < |tasks| && tasks[r.value].id == id && forall k :: 0 <= k < r.value ==> tasks[k].id != id
    decreases |tasks|
  {
    if tasks == [] then None
    else if tasks[0].id == id then Some(0)
    else
      match IndexOfTask(tasks[1..], id)
      case None =>
        assert forall k :: 1 <= k < |tasks| ==> tasks[k] == tasks[1..][k - 1];
        None
      case Some(i) => Some(i + 1)
  }

  /** A new task: the given title, status and category, or the defaults for empty ones; last in order. */
  function NewTask(stamp: string, now: string, title: string, status: string, categoryId: string, count: nat): (r: Task)
    ensures r.id == stamp && r.order == count && r.content == "" && r.media == []
    ensures r.title == (if title == "" then "Новая задача" else title)
    ensures r.status == (if status == "" then "todo" else status)
    ensures r.categoryId == (if categoryId == "" then DefaultId else categoryId)
    ensures r.createdAt == now && r.updatedAt == now
  {
    Task(stamp, if title == "" then "Новая задача" else title, "", if status == "" then "todo" else status,
         if categoryId == "" then DefaultId else categoryId, count, [], now, now)
  }

  /** The fields of a PATCH body for a task; `None` leaves a field as it was. */
  datatype TaskPatch = TaskPatch(
    title: Option<string>, content: Option<string>, status: Option<string>,
    categoryId: Option<string>, order: Option<int>, media: Option<seq<string>>)

  /** `{...task, ...body, updatedAt: now}`. */
  function MergeTask(t: Task, p: TaskPatch, now: string): (r: Task)
    ensures r.id == t.id && r.createdAt == t.createdAt && r.updatedAt == now
    ensures r.title == p.title.GetOr(t.title) && r.content == p.content.GetOr(t.content)
    ensures r.status == p.status.GetOr(t.status) && r.categoryId == p.categoryId.GetOr(t.categoryId)
    ensures r.order == p.order.GetOr(t.order) && r.media == p.media.GetOr(t.media)
  {
    Task(t.id, p.title.GetOr(t.title), p.content.GetOr(t.content), p.status.GetOr(t.status),
         p.categoryId.GetOr(t.categoryId), p.order.GetOr(t.order), p.media.GetOr(t.media), t.createdAt, now)
  }

  /**
   * The PATCH of one task: the body merged, then the automatic move. The new
   * status is the body's when it is a non-empty string, else the old one.
   */
  function PatchedTask(t: Task, p: TaskPatch, now: string): (r: Task)
    ensures var m := MergeTask(t, p, now);
            r == m.(categoryId := r.categoryId)
  {
    var oldStatus := t.status;
    var newStatus := if p.status.Some? && p.status.value != "" then p.status.value else oldStatus;
    var m := MergeTask(t, p, now);
    if newStatus == "done" && oldStatus != "done" then m.(categoryId := CompletedId)
    else if newStatus == "todo" && oldStatus == "done" && m.categoryId == CompletedId then m.(categoryId := DefaultId)
    else m
  }

  /** Completing a task moves it to "Completed", whatever category the body names. */
  lemma CompletingMoves(t: Task, p: TaskPatch, now: string)
    requires p.status == Some("done") && t.status != "done"
    ensures PatchedTask(t, p, now).categoryId == CompletedId && PatchedTask(t, p, now).status == "done"
  {
  }

  /** Reopening a completed task that sits in "Completed" moves it to "default". */
  lemma ReopeningMoves(t: Task, p: TaskPatch, now: string)
    requires p.status == Some("todo") && t.status == "done"
    requires p.categoryId.GetOr(t.categoryId) == CompletedId
    ensures PatchedTask(t, p, now).categoryId == DefaultId && PatchedTask(t, p, now).status == "todo"
  {
  }

  /** A patch that does not change the status between "done" and something else keeps the category the merge gives. */
  lemma NoTransitionKeepsCategory(t: Task, p: TaskPatch, now: string)
    requires p.status.None? || p.status.value == "" || p.status.value == t.status
    ensures PatchedTask(t, p, now) == MergeTask(t, p, now)
  {
  }

  /** Completing and then reopening a task takes it to "default", not back to its category. */
  lemma CompleteThenReopen(t: Task, n1: string, n2: string)
    requires t.status == "todo"
    ensures var done := PatchedTask(t, TaskPatch(None, None, Some("done"), None, None, None), n1);
            var back := PatchedTask(done, TaskPatch(None, None, Some("todo"), None, None, None), n2);
            back.categoryId == DefaultId && back.status == "todo" && back.title == t.title && back.order == t.order
  {
  }

  /** `tasks.filter(t => t.id !== id)`. */
  function WithoutTask(tasks: seq<Task>, id: string): (r: seq<Task>)
    ensures forall t :: t in r <==> t in tasks && t.id != id
    ensures |r| <= |tasks|
    ensures !HasTask(tasks, id) ==> r == tasks
    decreases |tasks|
  {
    if tasks == [] then []
    else
      var init := WithoutTask(tasks[..|tasks| - 1], id);
      var last := tasks[|tasks| - 1];
      assert tasks == tasks[..|tasks| - 1] + [last];
      if last.id != id then init + [last] else init
  }

  /** The `forEach` of the category deletion: each task of category `id` is moved to "default". */
  method ReassignTasks(tasks: seq<Task>, id: string) returns (ts: seq<Task>)
    ensures ts == Reassigned(tasks, id)
  {
    ts := tasks;
    for i := 0 to |ts|
      invariant |ts| == |tasks|
      invariant forall k :: 0 <= k < i ==> ts[k] == if tasks[k].categoryId == id then tasks[k].(categoryId := DefaultId) else tasks[k]
      invariant forall k :: i <= k < |ts| ==> ts[k] == tasks[k]
    {
      if ts[i].categoryId == id {
        ts := ts[i := ts[i].(categoryId := DefaultId)];
      }
    }
  }

  /** The `filter` of the category deletion. */
  method FilterCategories(cats: seq<Category>, id: string) returns (kept: seq<Category>)
    ensures kept == WithoutCategory(cats, id)
  {
    kept := [];
    for i := 0 to |cats|
      invariant kept == WithoutCategory(cats[..i], id)
    {
      assert cats[..i + 1][..i] == cats[..i];
      if cats[i].id != id {
        kept := kept + [cats[i]];
      }
    }
    assert cats[..|cats|] == cats;
  }

  /** The `forEach` of a category reorder. */
  method ApplyCategoryOrders(cats: seq<Category>, items: seq<ReorderItem>) returns (r: seq<Category>)
    ensures r == CategoryOrders(cats, items)
  {
    r := cats;
    for i := 0 to |items|
      invariant r == CategoryOrders(cats, items[..i])
    {
      assert items[..i + 1][..i] == items[..i];
      r := SetCategoryOrder(r, items[i]);
    }
    assert items[..|items|] == items;
  }

  /** The `forEach` of a task reorder. */
  method ApplyTaskOrders(tasks: seq<Task>, items: seq<ReorderItem>) returns (r: seq<Task>)
    ensures r == TaskOrders(tasks, items)
  {
    r := tasks;
    for i := 0 to |items|
      invariant r == TaskOrders(tasks, items[..i])
    {
      assert items[..i + 1][..i] == items[..i];
      r := SetTaskOrder(r, items[i]);
    }
    assert items[..|items|] == items;
  }

  // ---------------------------------------------------------------- the server

  /** The contents of the data file, as the last write left them. */
  class Server {
    var categories: seq<Category>
    var tasks: seq<Task>
    var settings: map<string, string>

    /** Start-up: `writeData(readData())`. */
    constructor (load: Load)
      ensures Data(categories, tasks, settings) == ReadData(load)
    {
      var d := ReadData(load);
      categories := d.categories;
      tasks := d.tasks;
      settings := d.settings;
    }

    /** `GET /api/data`: the file read with its defaults. */
    function Current(): (r: Data)
      reads this
      ensures HasCategory(r.categories, CompletedId)
      ensures r.tasks == tasks && r.settings == settings
      ensures HasCategory(categories, CompletedId) ==> r.categories == categories
    {
      ReadData(Parsed(Stored(Some(categories), Some(tasks), Some(settings))))
    }

    /** `PATCH /api/settings`: the body's keys override the stored ones. */
    method PatchSettings(body: map<string, string>) returns (r: map<string, string>)
      modifies this
      ensures r == settings
      ensures forall k :: k in body ==> k in r && r[k] == body[k]
      ensures forall k :: k !in body ==> (k in r <==> k in old(settings)) && (k in r ==> r[k] == old(settings)[k])
      ensures categories == WithCompleted(old(categories)) && tasks == old(tasks)
    {
      categories := WithCompleted(categories);
      settings := settings + body;
      r := settings;
    }

    /** `POST /api/categories`: a new category, appended, without an order. */
    method CreateCategory(stamp: string, name: string) returns (cat: Category)
      modifies this
      ensures cat == Category(stamp, if name == "" then "Новая категория" else name, false, None)
      ensures categories == WithCompleted(old(categories)) + [cat]
      ensures tasks == old(tasks) && settings == old(settings)
    {
      var cats := WithCompleted(categories);
      cat := Category(stamp, if name == "" then "Новая категория" else name, false, None);
      categories := cats + [cat];
    }

    /** `PATCH /api/categories/:id`: the first category with the id takes the body; nothing is written when none has it. */
    method PatchCategory(id: string, patch: CategoryPatch) returns (r: Option<Category>)
      modifies this
      ensures var cats := WithCompleted(old(categories));
              match IndexOfCategory(cats, id)
              case None => r.None? && categories == old(categories)
              case Some(i) => r == Some(AssignCategory(cats[i], patch)) && categories == cats[i := r.value]
      ensures tasks == old(tasks) && settings == old(settings)
    {
      var cats := WithCompleted(categories);
      match IndexOfCategory(cats, id)
      case None =>
        r := None;
      case Some(i) =>
        var c := AssignCategory(cats[i], patch);
        categories := cats[i := c];
        r := Some(c);
    }

    /** `DELETE /api/categories/:id`: its tasks move to "default", then the category is removed. */
    method DeleteCategory(id: string)
      modifies this
      ensures tasks == Reassigned(old(tasks), id)
      ensures categories == WithoutCategory(WithCompleted(old(categories)), id)
      ensures settings == old(settings)
    {
      var cats := WithCompleted(categories);
      tasks := ReassignTasks(tasks, id);
      categories := FilterCategories(cats, id);
    }

    /** `POST /api/reorder`: the items applied in turn to the named list; another type only rewrites the file. */
    method Reorder(kind: string, items: seq<ReorderItem>)
      modifies this
      ensures kind == "categories" ==> categories == CategoryOrders(WithCompleted(old(categories)), items) && tasks == old(tasks)
      ensures kind == "tasks" ==> tasks == TaskOrders(old(tasks), items) && categories == WithCompleted(old(categories))
      ensures kind != "categories" && kind != "tasks" ==> categories == WithCompleted(old(categories)) && tasks == old(tasks)
      ensures settings == old(settings)
    {
      var cats := WithCompleted(categories);
      if kind == "categories" {
        categories := ApplyCategoryOrders(cats, items);
      } else {
        categories := cats;
        if kind == "tasks" {
          tasks := ApplyTaskOrders(tasks, items);
        }
      }
    }

    /** `POST /api/tasks`: a new task, appended, whose order is the number of tasks before it. */
    method CreateTask(stamp: string, now: string, title: string, status: string, categoryId: string) returns (t: Task)
      modifies this
      ensures t == NewTask(stamp, now, title, status, categoryId, |old(tasks)|)
      ensures tasks == old(tasks) + [t]
      ensures categories == WithCompleted(old(categories)) && settings == old(settings)
    {
      categories := WithCompleted(categories);
      t := NewTask(stamp, now, title, status, categoryId, |tasks|);
      tasks := tasks + [t];
    }

    /** `PATCH /api/tasks/:id`: the first task with the id is patched; nothing is written when none has it (404). */
    method PatchTask(id: string, patch: TaskPatch, now: string) returns (r: Option<Task>)
      modifies this
      ensures match IndexOfTask(old(tasks), id)
              case None => r.None? && tasks == old(tasks) && categories == old(categories)
              case Some(i) =>
                && r == Some(PatchedTask(old(tasks)[i], patch, now))
                && tasks == old(tasks)[i := r.value]
                && categories == WithCompleted(old(categories))
      ensures settings == old(settings)
    {
      match IndexOfTask(tasks, id)
      case None =>
        r := None;
      case Some(i) =>
        categories := WithCompleted(categories);
        var t := PatchedTask(tasks[i], patch, now);
        tasks := tasks[i := t];
        r := Some(t);
    }

    /** `DELETE /api/tasks/:id`: every task with the id is removed, the others kept in order. */
    method DeleteTask(id: string)
      modifies this
      ensures tasks == WithoutTask(old(tasks), id)
      ensures categories == WithCompleted(old(categories)) && settings == old(settings)
    {
      categories := WithCompleted(categories);
      var kept: seq<Task> := [];
      for i := 0 to |tasks|
        invariant kept == WithoutTask(tasks[..i], id)
      {
        assert tasks[..i + 1][..i] == tasks[..i];
        if tasks[i].id != id {
          kept := kept + [tasks[i]];
        }
      }
      assert tasks[..|tasks|] == tasks;
      tasks := kept;
    }
  }
}
