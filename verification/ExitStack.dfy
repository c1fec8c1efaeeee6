/** What the exit stack is for: registrations sorted by decreasing priority, newest first among equals. */
module ExitSpec {

  /** A registration: its number in order of registration, and its priority. */
  datatype Task = Task(id: nat, prio: int)

  /** In front of the first task whose priority is not above the new one's. */
  function Insert(list: seq<Task>, task: Task): seq<Task> {
    if list == [] || task.prio >= list[0].prio then [task] + list
    else [list[0]] + Insert(list[1..], task)
  }

  /** x is to run before y. */
  predicate Before(x: Task, y: Task) {
    x.prio > y.prio || (x.prio == y.prio && x.id > y.id)
  }

  ghost predicate Ordered(list: seq<Task>) {
    forall i, j :: 0 <= i < j < |list| ==> Before(list[i], list[j])
  }

  lemma {:induction false} InsertMembers(list: seq<Task>, task: Task)
    ensures multiset(Insert(list, task)) == multiset(list) + multiset{task}
  {
    if list == [] || task.prio >= list[0].prio {
    } else {
      InsertMembers(list[1..], task);
      assert list == [list[0]] + list[1..];
    }
  }

  /** A task newer than all others goes where the order wants it. */
  lemma {:induction false} InsertOrders(list: seq<Task>, task: Task)
    requires Ordered(list) && forall x :: x in list ==> x.id < task.id
    ensures Ordered(Insert(list, task))
  {
    if list == [] || task.prio >= list[0].prio {
      forall j | 0 <= j < |list| ensures Before(task, list[j]) {
        assert list[j] in list;
        if j > 0 { assert Before(list[0], list[j]); }
      }
    } else {
      var rest := Insert(list[1..], task);
      InsertOrders(list[1..], task);
      InsertMembers(list[1..], task);
      forall j | 0 <= j < |rest| ensures Before(list[0], rest[j]) {
        assert rest[j] in multiset(rest);
        if rest[j] != task {
          assert rest[j] in multiset(list[1..]);
          var k :| 0 <= k < |list[1..]| && list[1..][k] == rest[j];
          assert list[k + 1] == rest[j];
        }
      }
    }
  }

  /** Registering priorities one after the other; registrations are numbered from 0. */
  function Registered(prios: seq<int>): seq<Task> {
    if prios == [] then []
    else Insert(Registered(prios[..|prios| - 1]), Task(|prios| - 1, prios[|prios| - 1]))
  }

  function Tasks(prios: seq<int>): seq<Task> {
    seq(|prios|, i requires 0 <= i < |prios| => Task(i, prios[i]))
  }

  /** The list holds every registration once, by decreasing priority and newest first among equals. */
  lemma {:induction false} RegisteredIsSorted(prios: seq<int>)
    ensures multiset(Registered(prios)) == multiset(Tasks(prios))
    ensures Ordered(Registered(prios))
  {
    if prios != [] {
      var n := |prios| - 1;
      var earlier := Registered(prios[..n]);
      RegisteredIsSorted(prios[..n]);
      assert Tasks(prios) == Tasks(prios[..n]) + [Task(n, prios[n])];
      forall x | x in earlier ensures x.id < n {
        assert x in multiset(earlier);
        assert x in Tasks(prios[..n]);
      }
      InsertMembers(earlier, Task(n, prios[n]));
      InsertOrders(earlier, Task(n, prios[n]));
    }
  }

  /** There is only one such list, so the order of registration is all the list depends on. */
  lemma {:induction false} SortedIsUnique(a: seq<Task>, b: seq<Task>)
    requires Ordered(a) && Ordered(b) && multiset(a) == multiset(b)
    ensures a == b
  {
    assert |a| == |multiset(a)| == |multiset(b)| == |b|;
    if a != [] {
      FirstIsFirst(a, b);
      assert a == [a[0]] + a[1..] && b == [b[0]] + b[1..];
      assert multiset(a[1..]) == multiset(a) - multiset{a[0]};
      assert multiset(b[1..]) == multiset(b) - multiset{b[0]};
      SortedIsUnique(a[1..], b[1..]);
    }
  }

  lemma FirstIsFirst(a: seq<Task>, b: seq<Task>)
    requires Ordered(a) && Ordered(b) && multiset(a) == multiset(b) && |a| == |b| > 0
    ensures a[0] == b[0]
  {
    assert a[0] in multiset(b) && b[0] in multiset(a);
    var i :| 0 <= i < |b| && b[i] == a[0];
    var j :| 0 <= j < |a| && a[j] == b[0];
    if i > 0 {
      assert Before(b[0], a[0]);
      assert j > 0 ==> Before(a[0], b[0]);
    }
  }

  /** Where the pointer walk stops is where the task belongs. */
  lemma {:induction false} InsertAt(list: seq<Task>, task: Task, k: nat)
    requires k <= |list|
    requires forall i :: 0 <= i < k ==> task.prio < list[i].prio
    requires k < |list| ==> task.prio >= list[k].prio
    ensures Insert(list, task) == list[..k] + [task] + list[k..]
  {
    if k > 0 {
      InsertAt(list[1..], task, k - 1);
      assert list[..k] == [list[0]] + list[1..][..k - 1];
      assert list[k..] == list[1..][k - 1..];
    }
  }

  function Ids(list: seq<Task>): seq<nat> {
    seq(|list|, i requires 0 <= i < |list| => list[i].id)
  }

  /** Registrations pending, routines run so far, and how many registrations there have been. */
  datatype History = History(pending: seq<Task>, ran: seq<nat>, registered: nat)

  datatype Event = Register(prio: int) | Exec

  function After(h: History, e: Event): History {
    match e
    case Register(prio) => History(Insert(h.pending, Task(h.registered, prio)), h.ran, h.registered + 1)
    case Exec => History([], h.ran + Ids(h.pending), h.registered)
  }

  function AfterAll(h: History, events: seq<Event>): History {
    if events == [] then h else After(AfterAll(h, events[..|events| - 1]), events[|events| - 1])
  }

  function Numbers(n: nat): seq<nat> {
    seq(n, i requires 0 <= i < n => i)
  }

  ghost predicate Accounted(h: History) {
    && multiset(h.ran) + multiset(Ids(h.pending)) == multiset(Numbers(h.registered))
    && Ordered(h.pending)
    && forall x :: x in h.pending ==> x.id < h.registered
  }

  lemma {:induction false} InsertIds(list: seq<Task>, task: Task)
    ensures multiset(Ids(Insert(list, task))) == multiset(Ids(list)) + multiset{task.id}
  {
    if list == [] || task.prio >= list[0].prio {
      assert Ids([task] + list) == [task.id] + Ids(list);
    } else {
      InsertIds(list[1..], task);
      assert Ids(list) == [list[0].id] + Ids(list[1..]);
      assert Ids(Insert(list, task)) == [list[0].id] + Ids(Insert(list[1..], task));
    }
  }

  lemma InsertKeepsNumbers(list: seq<Task>, task: Task)
    requires Ordered(list) && forall x :: x in list ==> x.id < task.id
    ensures Ordered(Insert(list, task)) && forall x :: x in Insert(list, task) ==> x.id <= task.id
  {
    InsertOrders(list, task);
    InsertMembers(list, task);
    forall x | x in Insert(list, task) ensures x.id <= task.id {
      assert x in multiset(Insert(list, task));
      assert x == task || x in multiset(list);
    }
  }

  lemma AfterKeepsAccounts(h: History, e: Event)
    requires Accounted(h)
    ensures Accounted(After(h, e))
  {
    if e.Register? {
      InsertIds(h.pending, Task(h.registered, e.prio));
      InsertKeepsNumbers(h.pending, Task(h.registered, e.prio));
      assert Numbers(h.registered + 1) == Numbers(h.registered) + [h.registered];
    }
  }

  /**
   * Over any history of registrations and exec() calls, the routines run so far and those
   * pending are together the routines registered, each exactly once; what is pending is in the
   * order in which it will run.
   */
  lemma {:induction false} EveryRoutineAccountedFor(events: seq<Event>)
    ensures Accounted(AfterAll(History([], [], 0), events))
  {
    if events != [] {
      EveryRoutineAccountedFor(events[..|events| - 1]);
      AfterKeepsAccounts(AfterAll(History([], [], 0), events[..|events| - 1]), events[|events| - 1]);
    }
  }

  /** exec() is registered anew on every call: running it any number of times after the first changes nothing. */
  lemma {:induction false} ExecAgainChangesNothing(h: History, times: seq<Event>)
    requires times != [] && forall e :: e in times ==> e.Exec?
    ensures AfterAll(h, times) == After(h, Exec)
  {
    if |times| > 1 {
      ExecAgainChangesNothing(h, times[..|times| - 1]);
      assert Ids(AfterAll(h, times[..|times| - 1]).pending) == [];
    }
    assert times[|times| - 1] in times;
  }

  /** An exec() after a run of registrations runs them sorted. */
  lemma {:induction false} PendingIsRegistered(prios: seq<int>)
    ensures AfterAll(History([], [], 0), seq(|prios|, i requires 0 <= i < |prios| => Register(prios[i])))
         == History(Registered(prios), [], |prios|)
  {
    var events := seq(|prios|, i requires 0 <= i < |prios| => Register(prios[i]));
    if prios != [] {
      var earlier := prios[..|prios| - 1];
      PendingIsRegistered(earlier);
      assert events[..|prios| - 1] == seq(|earlier|, i requires 0 <= i < |earlier| => Register(earlier[i]));
    }
  }

  /** Registrations with the given priorities, and then one exec(). */
  function RegisterAndExec(prios: seq<int>): seq<Event> {
    seq(|prios|, i requires 0 <= i < |prios| => Register(prios[i])) + [Exec]
  }

  /**
   * exec() runs every registered routine once: those of higher priority first, and of equal ones
   * the later registered first.
   */
  lemma RunsInOrder(prios: seq<int>)
    ensures var ran := AfterAll(History([], [], 0), RegisterAndExec(prios)).ran;
      && multiset(ran) == multiset(Numbers(|prios|))
      && (forall i :: 0 <= i < |ran| ==> ran[i] < |prios|)
      && forall i, j :: 0 <= i < j < |ran| ==>
           prios[ran[i]] > prios[ran[j]] || (prios[ran[i]] == prios[ran[j]] && ran[i] > ran[j])
  {
    var list := Registered(prios);
    ExecRunsList(prios);
    RegisteredIsSorted(prios);
    EveryRoutineAccountedFor(RegisterAndExec(prios));
    forall i | 0 <= i < |list| ensures list[i].id < |prios| && list[i].prio == prios[list[i].id] {
      RegisteredTask(prios, i);
    }
    IdsInOrder(list, prios);
  }

  lemma ExecRunsList(prios: seq<int>)
    ensures AfterAll(History([], [], 0), RegisterAndExec(prios)) == History([], Ids(Registered(prios)), |prios|)
  {
    var events := RegisterAndExec(prios);
    assert events[..|prios|] == seq(|prios|, i requires 0 <= i < |prios| => Register(prios[i]));
    PendingIsRegistered(prios);
    assert [] + Ids(Registered(prios)) == Ids(Registered(prios));
  }

  lemma IdsInOrder(list: seq<Task>, prios: seq<int>)
    requires Ordered(list)
    requires forall i :: 0 <= i < |list| ==> list[i].id < |prios| && list[i].prio == prios[list[i].id]
    ensures var ran := Ids(list);
      && (forall i :: 0 <= i < |ran| ==> ran[i] < |prios|)
      && forall i, j :: 0 <= i < j < |ran| ==>
           prios[ran[i]] > prios[ran[j]] || (prios[ran[i]] == prios[ran[j]] && ran[i] > ran[j])
  {
    forall i, j | 0 <= i < j < |list|
      ensures prios[list[i].id] > prios[list[j].id]
           || (prios[list[i].id] == prios[list[j].id] && list[i].id > list[j].id)
    {
      assert Before(list[i], list[j]);
    }
  }

  lemma RegisteredTask(prios: seq<int>, i: nat)
    requires i < |Registered(prios)|
    ensures var task := Registered(prios)[i]; task.id < |prios| && task.prio == prios[task.id]
  {
    RegisteredIsSorted(prios);
    assert Registered(prios)[i] in multiset(Registered(prios));
    assert Registered(prios)[i] in Tasks(prios);
  }
}

/** The exit stack as it is built: a singly linked list of tasks, relinked in place. */
module ExitStack {
  import opened ExitSpec
  import opened Sequences

  /** routine stands for the routine with its argument, by number of registration. */
  class AtexitTask {
    const routine: nat
    const prio: int
    var pnext: AtexitTask?

    constructor (routine: nat, prio: int)
      ensures this.routine == routine && this.prio == prio && pnext == null
    {
      this.routine, this.prio, pnext := routine, prio, null;
    }
  }

  ghost function TasksOf(nodes: seq<AtexitTask>): seq<Task> {
    seq(|nodes|, i requires 0 <= i < |nodes| => Task(nodes[i].routine, nodes[i].prio))
  }

  ghost function NodeAt(nodes: seq<AtexitTask>, i: nat): AtexitTask? {
    if i < |nodes| then nodes[i] else null
  }

  /** The pnext links run through the nodes in order and end in null. */
  ghost predicate Linked(nodes: seq<AtexitTask>)
    reads nodes
  {
    forall i :: 0 <= i < |nodes| ==> nodes[i].pnext == NodeAt(nodes, i + 1)
  }

  ghost function Spliced(nodes: seq<AtexitTask>, k: nat, task: AtexitTask): seq<AtexitTask>
    requires k <= |nodes|
  {
    nodes[..k] + [task] + nodes[k..]
  }

  lemma SplicedDistinct(nodes: seq<AtexitTask>, k: nat, task: AtexitTask)
    requires k <= |nodes| && Distinct(nodes) && task !in nodes
    ensures Distinct(Spliced(nodes, k, task))
    ensures forall n :: n in Spliced(nodes, k, task) <==> n in nodes || n == task
  {
    var s := Spliced(nodes, k, task);
    forall n ensures n in s <==> n in nodes || n == task {
      if n in nodes {
        var i :| 0 <= i < |nodes| && nodes[i] == n;
        assert n == if i < k then s[i] else s[i + 1];
      }
      assert s[k] == task;
    }
  }

  /** Each node of a spliced list and its successor. */
  lemma SplicedAt(nodes: seq<AtexitTask>, k: nat, task: AtexitTask, i: nat)
    requires k <= |nodes| && i <= |nodes|
    ensures var s := Spliced(nodes, k, task);
      && |s| == |nodes| + 1
      && s[i] == (if i < k then nodes[i] else if i == k then task else nodes[i - 1])
      && NodeAt(s, i + 1) == (if i + 1 < k then nodes[i + 1] else if i + 1 == k then task else NodeAt(nodes, i))
  {
  }

  lemma OnlyOnce(nodes: seq<AtexitTask>, k: nat, task: AtexitTask)
    requires Distinct(nodes) && k < |nodes| && task !in nodes
    ensures task != nodes[k]
    ensures forall i :: 0 <= i < |nodes| && i != k ==> nodes[i] != nodes[k] && nodes[i] != task
  {
  }

  /** Links that lead around a new node at position k, but for those of its neighbours, make the spliced list. */
  lemma LinksSpliced(nodes: seq<AtexitTask>, k: nat, task: AtexitTask)
    requires k <= |nodes| && task.pnext == NodeAt(nodes, k)
    requires forall i :: 0 <= i < |nodes| && i + 1 != k ==> nodes[i].pnext == NodeAt(nodes, i + 1)
    requires k > 0 ==> nodes[k - 1].pnext == task
    ensures Linked(Spliced(nodes, k, task))
  {
    var s := Spliced(nodes, k, task);
    forall i | 0 <= i < |s| ensures s[i].pnext == NodeAt(s, i + 1) {
      SplicedAt(nodes, k, task, i);
    }
  }

  lemma SplicedIsInserted(nodes: seq<AtexitTask>, k: nat, task: AtexitTask)
    requires k <= |nodes|
    requires forall i :: 0 <= i < k ==> task.prio < nodes[i].prio
    requires k < |nodes| ==> task.prio >= nodes[k].prio
    ensures TasksOf(Spliced(nodes, k, task)) == Insert(TasksOf(nodes), Task(task.routine, task.prio))
    ensures forall n :: n in Spliced(nodes, k, task) ==> n in nodes || n == task
  {
    InsertAt(TasksOf(nodes), Task(task.routine, task.prio), k);
    assert TasksOf(Spliced(nodes, k, task))
        == TasksOf(nodes)[..k] + [Task(task.routine, task.prio)] + TasksOf(nodes)[k..];
  }

  class AtexitStack {
    var pstack: AtexitTask?
    const isDl: bool
    var execRegistered: bool
    var handlers: nat                    // exec() calls the C library will make at exit
    var registered: nat
    var ran: seq<nat>                    // the routines run so far, in order
    ghost var nodes: seq<AtexitTask>
    ghost var deleted: set<AtexitTask>

    ghost predicate Valid()
      reads this, nodes
    {
      && pstack == NodeAt(nodes, 0)
      && Linked(nodes) && Distinct(nodes)
      && forall n :: n in nodes ==> n !in deleted
    }

    ghost function View(): History
      reads this
    {
      History(TasksOf(nodes), ran, registered)
    }

    constructor (isDl: bool)
      ensures Valid() && View() == History([], [], 0) && this.isDl == isDl && handlers == 0 && !execRegistered
    {
      this.isDl := isDl;
      pstack, execRegistered, handlers, registered, ran := null, false, 0, 0, [];
      nodes, deleted := [], {};
    }

    /** The walk in push(): the last task whose priority is higher. */
    method Walk(prio: int) returns (p: AtexitTask, ghost k: nat)
      requires Valid() && pstack != null && prio < pstack.prio
      ensures k < |nodes| && p == nodes[k]
      ensures prio < p.prio && (p.pnext != null ==> prio >= p.pnext.prio)
      ensures forall i :: 0 <= i <= k ==> prio < nodes[i].prio
      ensures k + 1 < |nodes| ==> prio >= nodes[k + 1].prio
    {
      p, k := pstack, 0;
      while p.pnext != null && !(prio >= p.pnext.prio)
        invariant k < |nodes| && p == nodes[k]
        invariant forall i :: 0 <= i <= k ==> prio < nodes[i].prio
        decreases |nodes| - k
      {
        p := p.pnext;
        k := k + 1;
      }
    }

    /** Link a new task behind p, the k-th task of the list. */
    method LinkBehind(p: AtexitTask, ptask: AtexitTask, ghost k: nat)
      requires Valid() && k < |nodes| && p == nodes[k] && ptask !in nodes && ptask !in deleted
      modifies p`pnext, ptask`pnext, this`nodes
      ensures Valid() && nodes == Spliced(old(nodes), k + 1, ptask)
    {
      ghost var was := nodes;
      SplicedDistinct(nodes, k + 1, ptask);
      OnlyOnce(was, k, ptask);
      Relink(p, ptask, k);
      LinksSpliced(was, k + 1, ptask);
      nodes := Spliced(was, k + 1, ptask);
    }

    /** The two stores of LinkBehind: only the links of p and of the new task change. */
    method Relink(p: AtexitTask, ptask: AtexitTask, ghost k: nat)
      requires Linked(nodes) && k < |nodes| && p == nodes[k] && ptask != p
      requires forall i :: 0 <= i < |nodes| && i != k ==> nodes[i] != p && nodes[i] != ptask
      modifies p`pnext, ptask`pnext
      ensures ptask.pnext == NodeAt(nodes, k + 1) && p.pnext == ptask
      ensures forall i :: 0 <= i < |nodes| && i != k ==> nodes[i].pnext == NodeAt(nodes, i + 1)
    {
      ptask.pnext := p.pnext;
      p.pnext := ptask;
    }

    /** Link a new task in front of the list. */
    method LinkFirst(ptask: AtexitTask)
      requires Valid() && ptask !in nodes && ptask !in deleted
      modifies ptask`pnext, this`nodes, this`pstack
      ensures Valid() && nodes == Spliced(old(nodes), 0, ptask)
    {
      ghost var was := nodes;
      SplicedDistinct(nodes, 0, ptask);
      ptask.pnext := pstack;
      pstack := ptask;
      assert forall i :: 0 <= i < |was| ==> was[i].pnext == NodeAt(was, i + 1);
      LinksSpliced(was, 0, ptask);
      nodes := Spliced(was, 0, ptask);
    }

    /** The linking in push(): in front of the first task whose priority is not higher. */
    method Link(ptask: AtexitTask)
      requires Valid() && ptask !in nodes && ptask !in deleted
      modifies this`pstack, this`nodes, nodes, ptask`pnext
      ensures Valid() && TasksOf(nodes) == Insert(old(TasksOf(nodes)), Task(ptask.routine, ptask.prio))
      ensures forall n :: n in nodes ==> n in old(nodes) || n == ptask
    {
      var prio := ptask.prio;
      ghost var was, k := nodes, 0;
      if pstack == null || prio >= pstack.prio {
        LinkFirst(ptask);
      } else if pstack.pnext != null {
        var p;
        p, k := Walk(prio);
        LinkBehind(p, ptask, k);
        k := k + 1;
      } else {
        k := 1;
        LinkBehind(pstack, ptask, 0);
      }
      SplicedIsInserted(was, k, ptask);
    }

    /** push(): a new task goes where the sorted order wants it. */
    method Push(prio: int)
      requires Valid()
      modifies this`pstack, this`nodes, this`registered, nodes
      ensures Valid() && View() == After(old(View()), Register(prio))
      ensures forall n :: n in nodes ==> n in old(nodes) || fresh(n)
    {
      var ptask := new AtexitTask(registered, prio);
      Link(ptask);
      registered := registered + 1;
    }

    /** One round of exec(): run and delete the first task. */
    method ExecFirst()
      requires Valid() && pstack != null
      modifies this`pstack, this`nodes, this`ran, this`deleted
      ensures Valid() && nodes == old(nodes[1..]) && |old(nodes)| > 0
      ensures ran + Ids(TasksOf(nodes)) == old(ran) + Ids(TasksOf(old(nodes)))
      ensures deleted == old(deleted) + {old(nodes[0])}
    {
      TailStaysLinked(nodes);
      var pnext := pstack.pnext;
      ran := ran + [pstack.routine];
      deleted := deleted + {pstack};
      pstack := pnext;
      nodes := nodes[1..];
    }

    /** exec(): run and delete each task in list order. */
    method Exec()
      requires Valid()
      modifies this`pstack, this`nodes, this`ran, this`deleted
      ensures Valid() && View() == After(old(View()), ExitSpec.Exec) && nodes == []
      ensures deleted == old(deleted) + (set x | x in old(nodes))
    {
      ghost var all := nodes;
      while pstack != null
        invariant Valid() && ran + Ids(TasksOf(nodes)) == old(ran) + Ids(TasksOf(all))
        invariant deleted + (set x | x in nodes) == old(deleted) + (set x | x in all)
        decreases |nodes|
      {
        ExecFirst();
      }
    }

    /** atexit_impl(): register, and as exec_registered is never set, ask for one more exec() at exit. */
    method AtexitImpl(prio: int)
      requires Valid()
      modifies this`pstack, this`nodes, this`registered, this`handlers, nodes
      ensures Valid() && View() == After(old(View()), Register(prio))
      ensures handlers == old(handlers) + (if !execRegistered && !isDl then 1 else 0)
      ensures forall n :: n in nodes ==> n in old(nodes) || fresh(n)
    {
      Push(prio);
      if !execRegistered && !isDl {
        handlers := handlers + 1;
      }
    }

    /** At exit the C library makes its exec() calls and fini() one more; together they run each pending routine. */
    method ProcessExit()
      requires Valid()
      modifies this`pstack, this`nodes, this`ran, this`deleted, this`handlers
      ensures Valid() && View() == After(old(View()), ExitSpec.Exec) && nodes == [] && handlers == 0
      ensures deleted == old(deleted) + (set x | x in old(nodes))
    {
      ghost var all := View();
      while handlers > 0
        invariant Valid() && (View() == all || View() == After(all, ExitSpec.Exec))
        invariant (nodes == old(nodes) && deleted == old(deleted))
               || (nodes == [] && deleted == old(deleted) + (set x | x in old(nodes)))
      {
        handlers := handlers - 1;
        Exec();
      }
      Exec();
    }
  }

  lemma TailStaysLinked(nodes: seq<AtexitTask>)
    requires nodes != [] && Linked(nodes) && Distinct(nodes)
    ensures Linked(nodes[1..]) && Distinct(nodes[1..])
    ensures nodes[0].pnext == NodeAt(nodes[1..], 0) && nodes[0] !in nodes[1..]
    ensures Ids(TasksOf(nodes)) == [nodes[0].routine] + Ids(TasksOf(nodes[1..]))
  {
    forall i | 0 <= i < |nodes[1..]| ensures nodes[1..][i].pnext == NodeAt(nodes[1..], i + 1) {
      assert nodes[1..][i] == nodes[i + 1];
    }
  }
}
