/**
 * The drag-and-drop reorder and the status toggle of the TasksManager client
 * (`app.js`). The drop handler splices the store's category list, or moves a
 * task object and renumbers the tasks of its new category; the toggle asks the
 * server for the other status.
 */
module TaskBoard {
  import opened Wrappers
  import opened Sorting
  import opened TaskServer

  // ---------------------------------------------------------------- categories

  /**
   * The category list after dropping category `id` on category `targetId`: the
   * moved category is removed, then inserted after the first category with the
   * target id in what remains, or at the front when none remains.
   */
  function DroppedCategories(cats: seq<Category>, id: string, targetId: string): (r: seq<Category>)
    requires HasCategory(cats, id)
    ensures |r| == |cats|
    ensures multiset(r) == multiset(cats)
  {
    var from := IndexOfCategory(cats, id).value;
    var rest := RemoveAt(cats, from);
    var to := match IndexOfCategory(rest, targetId) case None => 0 case Some(t) => t + 1;
    InsertAt(rest, to, cats[from])
  }

  /** Dropped on another category, the moved category comes right after the target. */
  lemma DroppedAfterTarget(cats: seq<Category>, id: string, targetId: string)
    requires DistinctIds(cats) && HasCategory(cats, id) && HasCategory(cats, targetId) && id != targetId
    ensures var r := DroppedCategories(cats, id, targetId);
            var t := IndexOfCategory(r, targetId);
            t.Some? && t.value + 1 < |r| && r[t.value + 1].id == id
  {
    hide RemoveAt, InsertAt, IndexOfCategory, DroppedCategories, HasCategory;
    var from := IndexOfCategory(cats, id).value;
    TargetRemains(cats, from, targetId);
    DroppedAfterFirst(cats, id, targetId);
    CategoryAfterFirst(RemoveAt(cats, from), targetId, cats[from]);
  }

  /** When the target id remains after taking the category out, the category goes in right after its first holder. */
  lemma DroppedAfterFirst(cats: seq<Category>, id: string, targetId: string)
    requires HasCategory(cats, id) && HasCategory(RemoveAt(cats, IndexOfCategory(cats, id).value), targetId)
    ensures var from := IndexOfCategory(cats, id).value;
            var rest := RemoveAt(cats, from);
            DroppedCategories(cats, id, targetId) == InsertAt(rest, IndexOfCategory(rest, targetId).value + 1, cats[from])
  {
    hide RemoveAt, InsertAt, IndexOfCategory;
  }

  /** Taking out a category with another id keeps the target id present. */
  lemma TargetRemains(cats: seq<Category>, from: nat, targetId: string)
    requires from < |cats| && HasCategory(cats, targetId) && cats[from].id != targetId
    ensures HasCategory(RemoveAt(cats, from), targetId)
  {
    var j :| 0 <= j < |cats| && cats[j].id == targetId;
    var rest := RemoveAt(cats, from);
    hide RemoveAt;
    if j < from { assert rest[j] == cats[j]; } else { assert rest[j - 1] == cats[j]; }
  }

  /** A category put in right after the first one with id `tid` leaves that one first and follows it. */
  lemma CategoryAfterFirst(rest: seq<Category>, tid: string, x: Category)
    requires HasCategory(rest, tid) && x.id != tid
    ensures var i := IndexOfCategory(rest, tid).value;
            var r := InsertAt(rest, i + 1, x);
            IndexOfCategory(r, tid) == Some(i) && i + 1 < |r| && r[i + 1] == x
  {
    var i := IndexOfCategory(rest, tid).value;
    var r := InsertAt(rest, i + 1, x);
    hide InsertAt;
    assert r[i] == rest[i];
    forall j | 0 <= j < i ensures r[j].id != tid {
      assert r[j] == rest[j];
    }
    assert IndexOfCategory(r, tid) == Some(i) by {
      var t := IndexOfCategory(r, tid);
      assert t.Some? && t.value <= i;
    }
  }

  /** Dropped on itself, a category with a unique id moves to the front; the others keep their order. */
  lemma DroppedOnItself(cats: seq<Category>, id: string)
    requires DistinctIds(cats) && HasCategory(cats, id)
    ensures var from := IndexOfCategory(cats, id).value;
            DroppedCategories(cats, id, id) == [cats[from]] + RemoveAt(cats, from)
  {
    hide RemoveAt, InsertAt, IndexOfCategory;
    var from := IndexOfCategory(cats, id).value;
    var rest := RemoveAt(cats, from);
    forall k | 0 <= k < |rest| ensures rest[k].id != id {
      if k < from { assert rest[k] == cats[k]; } else { assert rest[k] == cats[k + 1]; }
    }
    assert IndexOfCategory(rest, id).None?;
    var r := DroppedCategories(cats, id, id);
    assert r == InsertAt(rest, 0, cats[from]);
    assert |r| == |[cats[from]] + rest|;
    forall k | 0 <= k < |r| ensures r[k] == ([cats[from]] + rest)[k] {
    }
  }

  // ---------------------------------------------------------------- tasks

  /** What a task is dropped on: a category header or another task. */
  datatype Target = OnCategory(catId: string) | OnTask(taskId: string)

  predicate TargetPresent(tasks: seq<Task>, target: Target) {
    target.OnTask? ==> HasTask(tasks, target.taskId)
  }

  /** The category a dropped task goes to: the header's, or the target task's. */
  function NewCategory(tasks: seq<Task>, target: Target): (r: string)
    requires TargetPresent(tasks, target)
    ensures target.OnCategory? ==> r == target.catId
    ensures target.OnTask? ==> r == tasks[IndexOfTask(tasks, target.taskId).value].categoryId
  {
    match target
    case OnCategory(c) => c
    case OnTask(tid) => tasks[IndexOfTask(tasks, tid).value].categoryId
  }

  /** The provisional order of the dropped task: 0 on a header, one past the target task's order. */
  function TargetOrder(tasks: seq<Task>, target: Target): (r: int)
    requires TargetPresent(tasks, target)
    ensures target.OnCategory? ==> r == 0
    ensures target.OnTask? ==> r == tasks[IndexOfTask(tasks, target.taskId).value].order + 1
  {
    match target
    case OnCategory(_) => 0
    case OnTask(tid) => tasks[IndexOfTask(tasks, tid).value].order + 1
  }

  /** The dragged task object after the handler assigns its category and order. */
  function MovedTask(tasks: seq<Task>, id: string, target: Target): (r: Task)
    requires HasTask(tasks, id) && TargetPresent(tasks, target)
    ensures r == tasks[IndexOfTask(tasks, id).value].(categoryId := NewCategory(tasks, target), order := TargetOrder(tasks, target))
    ensures r.id == id
  {
    tasks[IndexOfTask(tasks, id).value].(categoryId := NewCategory(tasks, target), order := TargetOrder(tasks, target))
  }

  /** `tasks.filter(t => t.categoryId === cat && t.id !== id)`. */
  function OthersIn(tasks: seq<Task>, cat: string, id: string): (r: seq<Task>)
    ensures forall t :: t in r <==> t in tasks && t.categoryId == cat && t.id != id
    decreases |tasks|
  {
    if tasks == [] then []
    else
      var init := OthersIn(tasks[..|tasks| - 1], cat, id);
      var last := tasks[|tasks| - 1];
      assert tasks == tasks[..|tasks| - 1] + [last];
      if last.categoryId == cat && last.id != id then init + [last] else init
  }

  function OrderKey(t: Task): int { t.order }

  /** The other tasks of the new category, stably sorted by order. */
  function Siblings(tasks: seq<Task>, id: string, target: Target): (r: seq<Task>)
    requires HasTask(tasks, id) && TargetPresent(tasks, target)
    ensures SortedBy(r, OrderKey)
    ensures forall t :: t in r <==> t in tasks && t.categoryId == NewCategory(tasks, target) && t.id != id
  {
    var after := tasks[IndexOfTask(tasks, id).value := MovedTask(tasks, id, target)];
    var others := OthersIn(after, NewCategory(tasks, target), id);
    var r := SortBy(others, OrderKey);
    forall t ensures t in r <==> t in others { assert t in r <==> t in multiset(r); }
    forall t ensures t in after && t.id != id <==> t in tasks && t.id != id {
      var from := IndexOfTask(tasks, id).value;
      if t in tasks && t.id != id {
        var k :| 0 <= k < |tasks| && tasks[k] == t;
        assert after[k] == t;
      }
    }
    r
  }

  /** The new task list of the category: the dragged task first on a header, right after the target task otherwise (first when that is itself). */
  function DroppedTasks(tasks: seq<Task>, id: string, target: Target): (r: seq<Task>)
    requires HasTask(tasks, id) && TargetPresent(tasks, target)
    ensures multiset(r) == multiset(Siblings(tasks, id, target)) + multiset{MovedTask(tasks, id, target)}
  {
    var sib := Siblings(tasks, id, target);
    var at := match target
      case OnCategory(_) => 0
      case OnTask(tid) => (match IndexOfTask(sib, tid) case None => 0 case Some(i) => i + 1);
    InsertAt(sib, at, MovedTask(tasks, id, target))
  }

  /** `catTasks.map((t, i) => ({ id: t.id, order: i, categoryId }))`. */
  function TaskPositions(list: seq<Task>, cat: string): (r: seq<ReorderItem>)
    ensures |r| == |list|
    ensures forall k :: 0 <= k < |list| ==> r[k] == ReorderItem(list[k].id, k, cat)
  {
    seq(|list|, k requires 0 <= k < |list| => ReorderItem(list[k].id, k, cat))
  }

  /** Dropped on a header, the task moves into that category at the top, with order 0 in the request. */
  lemma HeaderDropFirst(tasks: seq<Task>, id: string, cat: string)
    requires HasTask(tasks, id)
    ensures var list := DroppedTasks(tasks, id, OnCategory(cat));
            list[0].id == id && list[0].categoryId == cat
            && TaskPositions(list, cat)[0] == ReorderItem(id, 0, cat)
  {
  }

  /** Dropped on another task, the dragged task comes right after it in the category's order. */
  lemma TaskDropAfterTarget(tasks: seq<Task>, id: string, tid: string)
    requires HasTask(tasks, id) && HasTask(tasks, tid) && id != tid
    ensures var list := DroppedTasks(tasks, id, OnTask(tid));
            var i := IndexOfTask(list, tid);
            i.Some? && i.value + 1 < |list| && list[i.value + 1] == MovedTask(tasks, id, OnTask(tid))
  {
    hide Siblings, MovedTask, IndexOfTask, InsertAt, DroppedTasks, NewCategory, TargetOrder, HasTask;
    TargetAmongSiblings(tasks, id, tid);
    DroppedOnTask(tasks, id, tid);
    InsertAfterFirst(Siblings(tasks, id, OnTask(tid)), tid, MovedTask(tasks, id, OnTask(tid)));
  }

  /** Dropped on a task that is among its siblings, the dragged task goes in right after the first of them with the target's id. */
  lemma DroppedOnTask(tasks: seq<Task>, id: string, tid: string)
    requires HasTask(tasks, id) && HasTask(tasks, tid) && HasTask(Siblings(tasks, id, OnTask(tid)), tid)
    ensures var sib := Siblings(tasks, id, OnTask(tid));
            DroppedTasks(tasks, id, OnTask(tid)) == InsertAt(sib, IndexOfTask(sib, tid).value + 1, MovedTask(tasks, id, OnTask(tid)))
  {
    hide Siblings, MovedTask, IndexOfTask, InsertAt;
  }

  /** The target task is among the other tasks of its own category. */
  lemma TargetAmongSiblings(tasks: seq<Task>, id: string, tid: string)
    requires HasTask(tasks, id) && HasTask(tasks, tid) && id != tid
    ensures HasTask(Siblings(tasks, id, OnTask(tid)), tid)
  {
    var target := OnTask(tid);
    var to := tasks[IndexOfTask(tasks, tid).value];
    assert to in tasks && to.categoryId == NewCategory(tasks, target);
    var sib := Siblings(tasks, id, target);
    assert to in sib;
    var k :| 0 <= k < |sib| && sib[k] == to;
  }

  /** A task put in right after the first task with id `tid` leaves that task first and follows it. */
  lemma InsertAfterFirst(sib: seq<Task>, tid: string, x: Task)
    requires HasTask(sib, tid) && x.id != tid
    ensures var i := IndexOfTask(sib, tid).value;
            var list := InsertAt(sib, i + 1, x);
            IndexOfTask(list, tid) == Some(i) && i + 1 < |list| && list[i + 1] == x
  {
    var i := IndexOfTask(sib, tid).value;
    var list := InsertAt(sib, i + 1, x);
    hide InsertAt;
    assert list[i] == sib[i];
    forall j | 0 <= j < i ensures list[j].id != tid {
      assert list[j] == sib[j];
    }
    assert IndexOfTask(list, tid) == Some(i) by {
      var t := IndexOfTask(list, tid);
      assert t.Some? && t.value <= i;
    }
  }

  /** Every task in the request is the dragged one or a task already in the new category: no other category is touched. */
  lemma OnlyNewCategory(tasks: seq<Task>, id: string, target: Target)
    requires HasTask(tasks, id) && TargetPresent(tasks, target)
    ensures forall t :: t in DroppedTasks(tasks, id, target) ==>
              t == MovedTask(tasks, id, target) || (t in tasks && t.categoryId == NewCategory(tasks, target))
  {
    var list := DroppedTasks(tasks, id, target);
    forall t | t in list
      ensures t == MovedTask(tasks, id, target) || (t in tasks && t.categoryId == NewCategory(tasks, target))
    {
      assert t in multiset(list);
    }
  }

  // ---------------------------------------------------------------- status

  /** `task.status === 'done' ? 'todo' : 'done'`. */
  function Toggled(status: string): (r: string)
    ensures r == "todo" <==> status == "done"
    ensures r == "done" <==> status != "done"
  {
    if status == "done" then "todo" else "done"
  }

  /** Toggling twice gives back "done" and "todo"; any other status becomes "done". */
  lemma ToggleTwice(status: string)
    ensures status == "done" || status == "todo" ==> Toggled(Toggled(status)) == status
    ensures status != "done" && status != "todo" ==> Toggled(Toggled(status)) == "todo"
  {
  }

  /** The request of `handleToggleTaskStatus`: nothing when the task is not in the store, else the other status. */
  function ToggleRequest(tasks: seq<Task>, id: string): (r: Option<TaskPatch>)
    ensures r.None? <==> !HasTask(tasks, id)
    ensures r.Some? ==> r.value == TaskPatch(None, None, Some(Toggled(tasks[IndexOfTask(tasks, id).value].status)), None, None, None)
  {
    match IndexOfTask(tasks, id)
    case None => None
    case Some(i) => Some(TaskPatch(None, None, Some(Toggled(tasks[i].status)), None, None, None))
  }

  /** `handleToggleActiveTaskStatus`: nothing without an active task; otherwise the same request. */
  function ToggleActiveRequest(tasks: seq<Task>, active: Option<string>): (r: Option<TaskPatch>)
    ensures active.None? || active.value == "" ==> r.None?
    ensures active.Some? && active.value != "" ==> r == ToggleRequest(tasks, active.value)
  {
    if active.None? || active.value == "" then None else ToggleRequest(tasks, active.value)
  }

  /** Through the server, toggling an open task completes it in "Completed"; toggling it back reopens it in "default". */
  lemma ToggleThroughServer(tasks: seq<Task>, id: string, n1: string, n2: string)
    requires HasTask(tasks, id) && tasks[IndexOfTask(tasks, id).value].status != "done"
    ensures var t := tasks[IndexOfTask(tasks, id).value];
            var done := PatchedTask(t, ToggleRequest(tasks, id).value, n1);
            var back := PatchedTask(done, ToggleRequest([done], id).value, n2);
            done.status == "done" && done.categoryId == CompletedId
            && back.status == "todo" && back.categoryId == DefaultId
  {
    var t := tasks[IndexOfTask(tasks, id).value];
    var done := PatchedTask(t, ToggleRequest(tasks, id).value, n1);
    assert [done][0].id == id;
  }

  // ---------------------------------------------------------------- the store

  /** The client's copy of the data, which the drop handler changes in place. */
  class Board {
    var categories: seq<Category>
    var tasks: seq<Task>

    constructor (cats: seq<Category>, ts: seq<Task>)
      ensures categories == cats && tasks == ts
    {
      categories := cats;
      tasks := ts;
    }

    /** A category dropped on a category: the two splices, then the request numbering the categories by position. */
    method DropCategory(id: string, targetId: string) returns (items: seq<ReorderItem>)
      requires HasCategory(categories, id)
      modifies this
      ensures categories == DroppedCategories(old(categories), id, targetId)
      ensures items == Positions(categories)
      ensures tasks == old(tasks)
    {
      hide RemoveAt, InsertAt, Positions;
      var from := IndexOfCategory(categories, id).value;
      var moved := categories[from];
      categories := RemoveAt(categories, from);
      var to: int := match IndexOfCategory(categories, targetId) case None => -1 case Some(t) => t;
      categories := InsertAt(categories, to + 1, moved);
      items := Positions(categories);
    }

    /** A task dropped on a header or a task: the task object takes its new category and order, then its category is renumbered. */
    method DropTask(id: string, target: Target) returns (items: seq<ReorderItem>)
      requires HasTask(tasks, id) && TargetPresent(tasks, target)
      modifies this
      ensures var from := IndexOfTask(old(tasks), id).value;
              tasks == old(tasks)[from := MovedTask(old(tasks), id, target)]
      ensures items == TaskPositions(DroppedTasks(old(tasks), id, target), NewCategory(old(tasks), target))
      ensures categories == old(categories)
    {
      var newCat := NewCategory(tasks, target);
      var list := DroppedTasks(tasks, id, target);
      var from := IndexOfTask(tasks, id).value;
      tasks := tasks[from := MovedTask(tasks, id, target)];
      items := TaskPositions(list, newCat);
    }
  }
}
