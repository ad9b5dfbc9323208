/** The kernel's tasks: a linked list with a head and a current task, updated in place. */
module Tasks {
  import opened Scheduling

  class Task {
    var next: Task?

    constructor () {
      next := null;
    }
  }

  class Scheduler {
    var head: Task?
    var current: Task?
    ghost var list: seq<Task>   // the tasks from the head on
    ghost var at: nat           // the position of the current one

    ghost predicate Linked()
      reads this, list
    {
      && (forall i, j :: 0 <= i < j < |list| ==> list[i] != list[j])
      && (forall i, j {:trigger list[i], list[j]} :: 0 <= i < |list| && j == i + 1 && j < |list| ==>
            list[i].next == list[j])
      && (list != [] ==> head == list[0] && list[|list| - 1].next == null)
    }

    ghost predicate Valid()
      reads this, list
    {
      Linked() && at < |list| && current == list[at]
    }

    ghost function Value(): Schedule<Task>
      reads this
    {
      Schedule(list, at)
    }

    constructor ()
      ensures Linked() && list == [] && head == null && current == null
    {
      head, current := null, null;
      list, at := [], 0;
    }

    // task_init; memory is what kmalloc returned.
    method TaskInit(memory: Task?) returns (ok: bool)
      modifies this, memory
      ensures ok == (memory != null)
      ensures ok ==> Valid() && list == [memory] && at == 0
      ensures !ok ==> head == null && current == old(current)
    {
      head := memory;
      if head == null {
        return false;
      }
      head.next := null;
      current := head;
      list, at := [head], 0;
      return true;
    }

    // The list part of task_create; memory is what kmalloc returned.
    method TaskCreate(memory: Task?) returns (ok: bool)
      requires Valid() && (memory != null ==> memory !in list)
      modifies this`head, this`list, this`at, memory
      ensures Valid() && current == old(current) && ok == (memory != null)
      ensures ok ==> Value() == Created(old(Value()), memory)
      ensures !ok ==> Value() == old(Value())
    {
      if memory == null {
        return false;
      }
      memory.next := head;
      head := memory;
      list, at := [memory] + list, at + 1;
      return true;
    }

    // task_next
    method TaskNext(task: Task, ghost i: nat) returns (t: Task)
      requires Linked() && i < |list| && task == list[i]
      ensures t == if i + 1 < |list| then list[i + 1] else list[0]
    {
      var n := task.next;
      assert i + 1 < |list| ==> list[i].next == list[i + 1];
      if n == null {
        return head;
      }
      return n;
    }

    method LegacySwitch()
      requires Valid()
      modifies this`current, this`at
      ensures Valid() && Value() == Switched(old(Value())) && current == Running(Value())
    {
      var newTask := TaskNext(current, at);
      current := newTask;
      at := if at + 1 < |list| then at + 1 else 0;
    }
  }
}
