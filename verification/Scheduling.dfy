/** The kernel's task list as a value: who runs next, and how long a task may have to wait for its turn. */
module Scheduling {

  // The tasks from the head of the list on, and the position of the one that runs.
  datatype Schedule<T> = Schedule(order: seq<T>, current: nat)

  ghost predicate Sound<T>(s: Schedule<T>) {
    s.current < |s.order| && forall i, j :: 0 <= i < j < |s.order| ==> s.order[i] != s.order[j]
  }

  function Running<T>(s: Schedule<T>): T
    requires s.current < |s.order|
  {
    s.order[s.current]
  }

  // task_legacy_switch: on to the next task, from the last one to the head.
  function Switched<T>(s: Schedule<T>): Schedule<T> {
    s.(current := if s.current + 1 < |s.order| then s.current + 1 else 0)
  }

  // task_create: the new task becomes the head, and its parent goes on running.
  function Created<T>(s: Schedule<T>, task: T): Schedule<T> {
    Schedule([task] + s.order, s.current + 1)
  }

  function After<T>(s: Schedule<T>, n: nat): Schedule<T> {
    if n == 0 then s else Switched(After(s, n - 1))
  }

  // The number of switches until the task at position j runs.
  function Wait<T>(s: Schedule<T>, j: nat): (n: nat)
    requires s.current < |s.order| && j < |s.order|
    ensures 1 <= n <= |s.order|
  {
    if j > s.current then j - s.current else |s.order| - s.current + j
  }

  lemma {:induction false} AfterIs<T>(s: Schedule<T>, n: nat)
    requires s.current < |s.order| && n <= |s.order|
    ensures After(s, n).order == s.order
    ensures After(s, n).current == if s.current + n < |s.order| then s.current + n else s.current + n - |s.order|
    decreases n
  {
    if n > 0 {
      AfterIs(s, n - 1);
    }
  }

  // In as many switches as there are tasks each task runs exactly once, and then the round starts again.
  lemma {:induction false} RoundRobin<T>(s: Schedule<T>, j: nat, n: nat)
    requires Sound(s) && j < |s.order| && 1 <= n <= |s.order|
    ensures After(s, n).current < |After(s, n).order| && After(s, |s.order|) == s
    ensures Running(After(s, n)) == s.order[j] <==> n == Wait(s, j)
  {
    AfterIs(s, n);
    AfterIs(s, |s.order|);
  }

  // A new task goes before all others: its parent and those behind it run to the end of the list first.
  lemma NewTaskWaits<T>(s: Schedule<T>, task: T, n: nat)
    requires Sound(s) && task !in s.order && 1 <= n <= |s.order| + 1
    ensures var t := Created(s, task);
            && |t.order| == |s.order| + 1 && t.current < |t.order| && Running(t) == Running(s)
            && After(t, n).current < |After(t, n).order|
            && (Running(After(t, n)) == task <==> n == |s.order| - s.current)
  {
    hide After;
    var t := Created(s, task);
    assert t.order[0] == task;
    RoundRobin(t, 0, n);
  }

  // ------------------------------------------------------------------------------------------
  // Switches with creations among them
  // ------------------------------------------------------------------------------------------

  datatype Op<T> = Switch | Create(task: T)

  function Apply<T>(s: Schedule<T>, op: Op<T>): Schedule<T> {
    match op
    case Switch => Switched(s)
    case Create(task) => Created(s, task)
  }

  // A created task is a new one.
  ghost predicate Allowed<T>(s: Schedule<T>, ops: seq<Op<T>>)
    decreases |ops|
  {
    ops != [] ==>
      && (ops[0].Create? ==> ops[0].task !in s.order)
      && Allowed(Apply(s, ops[0]), ops[1..])
  }

  function Creations<T>(ops: seq<Op<T>>): nat
    decreases |ops|
  {
    if ops == [] then 0 else (if ops[0].Create? then 1 else 0) + Creations(ops[1..])
  }

  // Some switch among ops makes this task run.
  ghost predicate GetsToRun<T>(s: Schedule<T>, task: T, ops: seq<Op<T>>)
    requires Sound(s) && Allowed(s, ops)
    decreases |ops|
  {
    ops != [] &&
    (ApplyIsSound(s, ops[0]);
     || (ops[0].Switch? && Running(Switched(s)) == task)
     || GetsToRun(Apply(s, ops[0]), task, ops[1..]))
  }

  lemma ApplyIsSound<T>(s: Schedule<T>, op: Op<T>)
    requires Sound(s) && (op.Create? ==> op.task !in s.order)
    ensures Sound(Apply(s, op))
  {
  }

  // A switch brings every other task one step nearer; a creation puts it off by one at most.
  lemma WaitFalls<T>(s: Schedule<T>, j: nat)
    requires Sound(s) && j < |s.order|
    ensures var t := Switched(s);
            if Wait(s, j) == 1 then Running(t) == s.order[j] else t.order == s.order && Wait(t, j) == Wait(s, j) - 1
  {
  }

  lemma WaitRises<T>(s: Schedule<T>, j: nat, task: T)
    requires Sound(s) && j < |s.order|
    ensures var t := Created(s, task);
            && t.order[j + 1] == s.order[j] && t.current < |t.order|
            && Wait(t, j + 1) == Wait(s, j) + (if j > s.current then 0 else 1)
  {
  }

  lemma {:induction false} WaitBounds<T>(s: Schedule<T>, j: nat, ops: seq<Op<T>>)
    requires Sound(s) && Allowed(s, ops) && j < |s.order|
    requires |ops| - Creations(ops) >= Wait(s, j) + Creations(ops)
    ensures GetsToRun(s, s.order[j], ops)
    decreases |ops|
  {
    hide Wait;
    ApplyIsSound(s, ops[0]);
    match ops[0] {
      case Switch =>
        WaitFalls(s, j);
        if Wait(s, j) > 1 {
          WaitBounds(Switched(s), j, ops[1..]);
        }
      case Create(task) =>
        WaitRises(s, j, task);
        WaitBounds(Created(s, task), j + 1, ops[1..]);
    }
  }

  // With n tasks at the start and k created on the way, each of the n runs within n + k switches.
  lemma {:induction false} NoTaskStarves<T>(s: Schedule<T>, ops: seq<Op<T>>)
    requires Sound(s) && Allowed(s, ops)
    requires |ops| - Creations(ops) >= |s.order| + Creations(ops)
    ensures forall j :: 0 <= j < |s.order| ==> GetsToRun(s, s.order[j], ops)
  {
    forall j | 0 <= j < |s.order| ensures GetsToRun(s, s.order[j], ops) {
      WaitBounds(s, j, ops);
    }
  }
}
