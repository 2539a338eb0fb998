/** The scheduler as the object that updates its fields in place. Every method is proved equal to
    the section, or composition of sections, whose properties the other Scheduler modules prove. */
module ClusterMasterObject {
  import opened Options
  import opened SchedulerModel
  import opened Sequences
  import opened SchedulerCapacity
  import opened SchedulerQueue
  import opened SchedulerCancel

  lemma ReleasedOneMore(nodes: map<NodeId, Node>, held: seq<NodeId>, i: nat)
    requires i < |held| && Distinct(held)
    ensures var m, n := Released(nodes, held[..i]), held[i];
            Released(nodes, held[..i + 1]) ==
            if n in m then m[n := m[n].(active := if m[n].active > 0 then m[n].active - 1 else 0)] else m
  {
    assert held[..i + 1] == held[..i] + [held[i]];
    assert held[i] !in held[..i];
  }

  lemma OccupiedOneMore(nodes: map<NodeId, Node>, chosen: seq<NodeId>, i: nat)
    requires i < |chosen| && Distinct(chosen) && chosen[i] in nodes
    ensures var m, n := Occupied(nodes, chosen[..i]), chosen[i];
            Occupied(nodes, chosen[..i + 1]) == m[n := m[n].(active := m[n].active + 1)]
  {
    assert chosen[..i + 1] == chosen[..i] + [chosen[i]];
    assert chosen[i] !in chosen[..i];
  }

  lemma ExcludeOneMore(exclude: seq<NodeId>, leaving: seq<NodeId>, i: nat, keep: NodeId -> bool)
    requires i < |leaving|
    ensures var r := AddNew(exclude, Filter(leaving[..i], keep));
            AddNew(exclude, Filter(leaving[..i + 1], keep)) ==
            if keep(leaving[i]) && leaving[i] !in r then r + [leaving[i]] else r
  {
    OneMore(leaving, i);
    FilterLast(leaving[..i], leaving[i], keep);
    var f := Filter(leaving[..i], keep);
    if keep(leaving[i]) {
      AddNewLast(exclude, f, leaving[i]);
      var r := AddNew(exclude, f);
      assert r + [] == r;
    } else {
      assert f + [] == f;
    }
  }

  /** Scanning from the front for the first waiting task of lower priority. */
  lemma {:induction false} InsertAtFound(q: seq<TaskId>, tasks: map<TaskId, Task>, priority: int, k: nat)
    requires k <= |q| && (forall i :: 0 <= i < k ==> Prio(tasks, q[i]) >= priority)
    requires k < |q| ==> priority > Prio(tasks, q[k])
    ensures InsertAt(q, tasks, priority) == k
  {
    if k > 0 { InsertAtFound(q[1..], tasks, priority, k - 1); }
  }

  lemma DrainToNext(cfg: Config, s: State, cs: seq<Choice>, i: nat, before: State, after: State)
    requires i < |s.queue| == |cs| && before == DrainTo(cfg, s, cs, i) && s.queue[i] in before.tasks
    requires after == DrainOne(cfg, before, s.queue[i], cs[i])
    ensures after == DrainTo(cfg, s, cs, i + 1)
  {
  }

  /** The sweep so far has not touched the task whose turn it is. */
  lemma SweepNext(cfg: Config, s: State, order: seq<TaskId>, i: nat, late: TaskId -> bool)
    requires Distinct(order) && i < |order| && order[i] in s.tasks
    ensures var f, id := Filter(order[..i], late), order[i];
            && id in TimeoutAll(cfg, s, f).tasks && TimeoutAll(cfg, s, f).tasks[id] == s.tasks[id]
            && Filter(order[..i + 1], late) == (if late(id) then f + [id] else f)
            && TimeoutAll(cfg, s, f + [id]) == TimeoutSection(cfg, TimeoutAll(cfg, s, f), id)
  {
    var f := Filter(order[..i], late);
    OneMore(order, i);
    FilterLast(order[..i], order[i], late);
    assert f + [] == f;
    FilterDistinct(order[..i], late);
    TimeoutSweep(cfg, s, f);
    assert order[i] !in order[..i];
    assert (f + [order[i]])[..|f|] == f;
  }

  class ClusterMaster {
    const cfg: Config
    var nodes: map<NodeId, Node>
    var tasks: map<TaskId, Task>
    var pendingQueue: seq<TaskId>
    var pendingRetry: seq<TaskId>

    ghost function View(): State
      reads this
    {
      State(nodes, tasks, pendingQueue, pendingRetry)
    }

    constructor (cfg: Config)
      ensures this.cfg == cfg && View() == State(map[], map[], [], []) && Inv(View())
    {
      this.cfg := cfg;
      nodes, tasks, pendingQueue, pendingRetry := map[], map[], [], [];
    }

    method ReleaseNodes(held: seq<NodeId>)
      requires Distinct(held)
      modifies this`nodes
      ensures nodes == Released(old(nodes), held)
    {
      for i := 0 to |held|
        invariant nodes == Released(old(nodes), held[..i])
      {
        ReleasedOneMore(old(nodes), held, i);
        var n := held[i];
        if n in nodes {
          var node := nodes[n];
          nodes := nodes[n := node.(active := if node.active > 0 then node.active - 1 else 0)];
        }
      }
      assert held[..|held|] == held;
    }

    method OccupyNodes(chosen: seq<NodeId>)
      requires Distinct(chosen) && forall n :: n in chosen ==> n in nodes
      modifies this`nodes
      ensures nodes == Occupied(old(nodes), chosen)
    {
      for i := 0 to |chosen|
        invariant nodes == Occupied(old(nodes), chosen[..i])
      {
        OccupiedOneMore(old(nodes), chosen, i);
        nodes := nodes[chosen[i] := nodes[chosen[i]].(active := nodes[chosen[i]].active + 1)];
      }
      assert chosen[..|chosen|] == chosen;
    }

    method EnqueuePending(id: TaskId, task: Task, force: bool) returns (ok: bool)
      modifies this`tasks, this`pendingQueue
      ensures force ==> ok && View() == Enqueue(old(View()), id, task)
      ensures !force ==> (View(), ok) == EnqueueCapped(cfg, old(View()), id, task)
    {
      if !force && |pendingQueue| >= cfg.maxQueue {
        return false;
      }
      tasks := tasks[id := task.(status := Pending, assignedTo := [])];
      var idx := |pendingQueue|;
      for i := 0 to |pendingQueue|
        invariant idx == |pendingQueue|
        invariant forall j :: 0 <= j < i ==> Prio(tasks, pendingQueue[j]) >= task.priority
      {
        if task.priority > Prio(tasks, pendingQueue[i]) {
          idx := i;
          break;
        }
      }
      InsertAtFound(pendingQueue, tasks, task.priority, idx);
      pendingQueue := pendingQueue[..idx] + [id] + pendingQueue[idx..];
      return true;
    }

    /** The loop that excludes the nodes a task leaves, all of them or all but a pinned one. */
    method ExcludeNodes(exclude: seq<NodeId>, leaving: seq<NodeId>, pinned: Option<NodeId>) returns (r: seq<NodeId>)
      ensures r == AddNew(exclude, Filter(leaving, n => pinned != Some(n)))
    {
      r := exclude;
      ghost var keep := n => pinned != Some(n);
      for i := 0 to |leaving|
        invariant r == AddNew(exclude, Filter(leaving[..i], keep))
      {
        var n := leaving[i];
        ExcludeOneMore(exclude, leaving, i, keep);
        if pinned != Some(n) {
          if n !in r {
            r := r + [n];
          }
        }
      }
      assert leaving[..|leaving|] == leaving;
    }

    method EnqueueRetry(id: TaskId)
      requires id in tasks
      modifies this`tasks, this`pendingRetry
      ensures View() == RetrySection(cfg, old(View()), id)
    {
      var task := tasks[id];
      if task.retries >= cfg.maxRetry {
        tasks := tasks[id := task.(status := Failed)];
        return;
      }
      var exclude := ExcludeNodes(task.exclude, task.assignedTo, task.pinned);
      assert task.(exclude := exclude, retries := task.retries + 1, status := Pending, assignedTo := []) == Retried(cfg, task);
      tasks := tasks[id := task.(exclude := exclude, retries := task.retries + 1, status := Pending, assignedTo := [])];
      pendingRetry := pendingRetry + [id];
    }

    /** The confirm loop and the substitute search, on the nodes as they are now. */
    method ChooseNodes(task: Task, sel: seq<NodeId>, pool: seq<NodeId>) returns (chosen: seq<NodeId>)
      requires Distinct(sel) && Distinct(pool)
      ensures chosen == Chosen(View(), task, sel, pool)
      ensures Distinct(chosen) && forall n :: n in chosen ==> n in nodes
    {
      ghost var s := View();
      ghost var free := n => FreeIn(s, n);
      chosen := [];
      for i := 0 to |sel|
        invariant chosen == Filter(sel[..i], free)
      {
        OneMore(sel, i);
        if sel[i] in nodes && nodes[sel[i]].Free() {
          chosen := chosen + [sel[i]];
        }
      }
      assert sel[..|sel|] == sel;
      ChosenFree(s, task, sel, pool);
      if |chosen| < task.Need() && task.pinned == None {
        var extra := FindSubstitutes(chosen, task.exclude, pool);
        var short := task.Need() - |chosen|;
        chosen := chosen + (if |extra| <= short then extra else extra[..short]);
      }
    }

    method FindSubstitutes(confirmed: seq<NodeId>, exclude: seq<NodeId>, pool: seq<NodeId>) returns (extra: seq<NodeId>)
      ensures extra == Substitutes(View(), confirmed, exclude, pool)
    {
      ghost var s := View();
      ghost var fit := n => FreeIn(s, n) && n !in confirmed && n !in exclude;
      extra := [];
      for i := 0 to |pool|
        invariant extra == Filter(pool[..i], fit)
      {
        OneMore(pool, i);
        if pool[i] in nodes && nodes[pool[i]].Free() && pool[i] !in confirmed && pool[i] !in exclude {
          extra := extra + [pool[i]];
        }
      }
      assert pool[..|pool|] == pool;
    }

    method AssignTask(id: TaskId, task: Task, c: Choice) returns (ok: bool)
      requires Distinct(c.sel) && Distinct(c.pool) && (id in tasks ==> task == tasks[id])
      modifies this
      ensures (View(), ok) == SchedulerQueue.AssignTask(cfg, old(View()), id, task, c)
    {
      if c.refused {
        return false;
      }
      if id in tasks && tasks[id].status == Running {
        return true;
      }
      if c.atQuota {
        if id in pendingQueue {
          return true;
        }
        ok := EnqueuePending(id, task, false);
        return;
      }
      if c.localForce && task.preferred.Some? {
        var n := task.preferred.value;
        if n in nodes && nodes[n].Free() {
          tasks := tasks[id := task.(status := Running, assignedTo := [n])];
          OccupyNodes([n]);
          return true;
        }
      }
      if |c.sel| < task.Need() {
        if id in pendingQueue {
          return true;
        }
        ok := EnqueuePending(id, task, false);
        return;
      }
      var chosen := ChooseNodes(task, c.sel, c.pool);
      if |chosen| < task.Need() {
        ok := EnqueuePending(id, task, false);
        return;
      }
      tasks := tasks[id := task.(status := Running, assignedTo := chosen)];
      OccupyNodes(chosen);
      return true;
    }

    method DrainTask(id: TaskId, c: Choice)
      requires id in tasks && Distinct(c.sel) && Distinct(c.pool)
      modifies this
      ensures View() == DrainOne(cfg, old(View()), id, c) && tasks.Keys == old(tasks.Keys)
    {
      var ok := AssignTask(id, tasks[id], c);
      if !ok {
        var _ := EnqueuePending(id, tasks[id], true);
      }
    }

    /** cs[i] is what the i-th queued task meets; nothing else runs in between. */
    method DrainPending(cs: seq<Choice>)
      requires |cs| == |pendingQueue| && (forall i :: 0 <= i < |cs| ==> Distinct(cs[i].sel) && Distinct(cs[i].pool))
      requires forall i :: 0 <= i < |pendingQueue| ==> pendingQueue[i] in tasks
      modifies this
      ensures View() == Drain(cfg, old(View()), cs)
    {
      ghost var s := View();
      var queued := pendingQueue;
      pendingQueue := [];
      for i := 0 to |queued|
        invariant View() == DrainTo(cfg, s, cs, i)
        invariant tasks.Keys == s.tasks.Keys
      {
        ghost var before := View();
        DrainTask(queued[i], cs[i]);
        DrainToNext(cfg, s, cs, i, before, View());
      }
    }

    method FinalizeTask(id: TaskId, outcome: Outcome)
      requires id in tasks ==> Distinct(tasks[id].assignedTo)
      modifies this
      ensures View() == FinalizeSection(cfg, old(View()), id, outcome)
    {
      if id !in tasks || tasks[id].status != Running {
        return;
      }
      ReleaseNodes(tasks[id].assignedTo);
      match outcome
      case Success => tasks := tasks[id := tasks[id].(status := Completed)];
      case PartlyDone => tasks := tasks[id := tasks[id].(status := Partial)];
      case Retryable => EnqueueRetry(id);
      case Fatal => tasks := tasks[id := tasks[id].(status := Failed)];
    }

    /** migrate_task up to the assign call that follows it. */
    method ReleaseForMigration(id: TaskId) returns (ok: bool)
      requires id in tasks ==> Distinct(tasks[id].assignedTo)
      modifies this`nodes, this`tasks
      ensures (View(), ok) == MigrateSection(old(View()), id)
    {
      if id !in tasks || tasks[id].status != Running {
        return false;
      }
      var task := tasks[id];
      var exclude := task.exclude;
      for i := 0 to |task.assignedTo|
        invariant exclude == AddNew(task.exclude, task.assignedTo[..i])
        invariant nodes == Released(old(nodes), task.assignedTo[..i])
        invariant tasks == old(tasks)
      {
        var n := task.assignedTo[i];
        OneMore(task.assignedTo, i);
        AddNewLast(task.exclude, task.assignedTo[..i], n);
        ReleasedOneMore(old(nodes), task.assignedTo, i);
        if n !in exclude {
          exclude := exclude + [n];
        }
        if n in nodes {
          nodes := nodes[n := nodes[n].(active := if nodes[n].active > 0 then nodes[n].active - 1 else 0)];
        }
      }
      assert task.assignedTo[..|task.assignedTo|] == task.assignedTo;
      tasks := tasks[id := task.(status := Pending, exclude := exclude, assignedTo := [])];
      return true;
    }

    method MigrateTask(id: TaskId, c: Choice) returns (ok: bool)
      requires (id in tasks ==> Distinct(tasks[id].assignedTo)) && Distinct(c.sel) && Distinct(c.pool)
      modifies this
      ensures (View(), ok) == SchedulerQueue.MigrateTask(cfg, old(View()), id, c)
    {
      ok := ReleaseForMigration(id);
      if ok {
        ok := AssignTask(id, tasks[id], c);
        if !ok {
          EnqueueRetry(id);
        }
      }
    }

    method TimeOut(id: TaskId)
      requires id in tasks && tasks[id].status == Running
      modifies this`tasks, this`pendingRetry
      ensures View() == TimeoutSection(cfg, old(View()), id)
      ensures tasks == old(tasks)[id := Retried(cfg, old(tasks[id]))]
    {
      tasks := tasks[id := tasks[id].(status := TimedOut)];
      EnqueueRetry(id);
    }

    /** `order` lists the tasks in dictionary order, `overdue` those past their deadline. */
    method CheckTimeouts(order: seq<TaskId>, overdue: set<TaskId>) returns (timedOut: seq<TaskId>)
      requires Distinct(order) && forall i :: 0 <= i < |order| ==> order[i] in tasks
      modifies this`tasks, this`pendingRetry
      ensures View() == TimeoutAll(cfg, old(View()), timedOut)
      ensures timedOut == Filter(order, id => id in overdue && IsRunning(old(View()), id))
    {
      ghost var s := View();
      ghost var late := id => id in overdue && IsRunning(s, id);
      timedOut := [];
      for i := 0 to |order|
        invariant View() == TimeoutAll(cfg, s, timedOut) && timedOut == Filter(order[..i], late)
      {
        var id := order[i];
        SweepNext(cfg, s, order, i, late);
        if tasks[id].status == Running && id in overdue {
          TimeOut(id);
          timedOut := timedOut + [id];
        }
      }
      assert order[..|order|] == order;
    }

    method CancelTask(root: TaskId, cancelSubTasks: bool) returns (ok: bool)
      requires Inv(View())
      modifies this
      ensures View() == CancelSection(old(View()), root, cancelSubTasks) && Inv(View())
      ensures ok <==> LiveIn(old(View()), root)
    {
      ghost var s := View();
      if root !in tasks || (tasks[root].status != Pending && tasks[root].status != Running) {
        return false;
      }
      StartMidway(s, root);
      SearchStarts(s, root);
      assert TaskInv(s, tasks[root]);
      ReleaseNodes(tasks[root].assignedTo);
      tasks := tasks[root := tasks[root].(assignedTo := [])];
      pendingQueue := Without(pendingQueue, {root});
      ghost var done: set<TaskId> := {};
      if cancelSubTasks {
        done := CancelSubTasks(s, root);
        SearchEnds(s, root, done);
      } else {
        assert Doomed(s, root, false) == done + {root};
      }
      FinishMidway(s, root, done);
      tasks := tasks[root := tasks[root].(status := Cancelled)];
      NextKept(cfg, s, Cancel(root, cancelSubTasks));
      return true;
    }

    method CancelOne(id: TaskId)
      requires id in tasks && Distinct(tasks[id].assignedTo)
      modifies this
      ensures View() == old(View()).(nodes := Released(old(nodes), old(tasks[id].assignedTo)),
                                     tasks := old(tasks)[id := old(tasks[id]).(status := Cancelled, assignedTo := [])],
                                     queue := Without(old(pendingQueue), {id}))
    {
      ReleaseNodes(tasks[id].assignedTo);
      tasks := tasks[id := tasks[id].(status := Cancelled, assignedTo := [])];
      pendingQueue := Without(pendingQueue, {id});
    }

    /** One turn of the loop: a live sub-task is cancelled, and its own sub-tasks come next. */
    method CancelSub(ghost s: State, ghost root: TaskId, ghost done: set<TaskId>, ghost rest: seq<TaskId>, sub: TaskId)
      returns (more: seq<TaskId>, ghost done': set<TaskId>, ghost found: bool)
      requires View() == Midway(s, root, done) && Searching(s, root, done, rest + [sub])
      requires Inv(s) && LiveIn(s, root)
      modifies this
      ensures View() == Midway(s, root, done') && Searching(s, root, done', rest + more)
      ensures root in old(tasks) ==> root in tasks
      ensures if found then |LiveTasks(s) - done'| < |LiveTasks(s) - done| else more == [] && done' == done
    {
      StillLive(s, root, done, sub);
      if sub in tasks && (tasks[sub].status == Pending || tasks[sub].status == Running) {
        CancelTurn(s, root, done, rest, sub);
        more, done', found := tasks[sub].subTasks, done + {sub}, true;
        CancelOne(sub);
      } else {
        more, done', found := [], done, false;
        SearchSkips(s, root, done, rest, sub);
        assert rest + [] == rest;
      }
    }

    /** Takes the top of the stack and puts its sub-tasks there; every turn makes progress. */
    method CancelTop(ghost s: State, ghost root: TaskId, ghost done: set<TaskId>, stack: seq<TaskId>)
      returns (stack': seq<TaskId>, ghost done': set<TaskId>)
      requires View() == Midway(s, root, done) && Searching(s, root, done, stack)
      requires Inv(s) && LiveIn(s, root) && stack != [] && root in tasks
      modifies this
      ensures View() == Midway(s, root, done') && Searching(s, root, done', stack') && root in tasks
      ensures |LiveTasks(s) - done'| < |LiveTasks(s) - done| || (done' == done && |stack'| < |stack|)
    {
      var sub := stack[|stack| - 1];
      var rest := stack[..|stack| - 1];
      assert stack == rest + [sub];
      ghost var found;
      var more;
      more, done', found := CancelSub(s, root, done, rest, sub);
      stack' := rest + more;
    }

    /** The explicit-stack loop; sub-task lists may name unknown tasks and form cycles. */
    method CancelSubTasks(ghost s: State, root: TaskId) returns (ghost done: set<TaskId>)
      requires Inv(s) && LiveIn(s, root) && View() == Midway(s, root, {}) && root in tasks
      modifies this
      ensures View() == Midway(s, root, done) && Searching(s, root, done, []) && root in tasks
    {
      done := {};
      var stack := tasks[root].subTasks;
      assert Searching(s, root, done, stack) by {
        SearchStarts(s, root);
        StillLive(s, root, {}, root);
      }
      while stack != []
        invariant View() == Midway(s, root, done)
        invariant Searching(s, root, done, stack)
        invariant root in tasks
        decreases |LiveTasks(s) - done|, |stack|
      {
        stack, done := CancelTop(s, root, done, stack);
      }
    }
  }
}
