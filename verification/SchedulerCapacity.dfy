/** No overcommit: every interleaving of the scheduler's critical sections, with arbitrary stale
    selections, keeps the slot counters between the running tasks and the capacity. */
module SchedulerCapacity {
  import opened SchedulerModel
  import opened Sequences

  /** One critical section of one call. `t` is the new task an assign call was given. A drain
      takes the whole queue (DrainStart) and then calls assign for each task it took, with a
      Requeue for every refusal; the retry loop takes the whole retry list (RetriesTaken) and
      puts back what is not due. Any other section may run in between. */
  datatype Event =
    | Join(n: NodeId, max: nat)
    | SetStatus(n: NodeId, status: NodeStatus)
    | Quota(id: TaskId, t: Task, atQuota: bool)
    | Local(id: TaskId, t: Task, n: NodeId)
    | Shortage(id: TaskId, t: Task)
    | Confirm(id: TaskId, t: Task, sel: seq<NodeId>, pool: seq<NodeId>)
    | Requeue(id: TaskId)
    | DrainStart
    | RetriesTaken
    | RetryPutBack(id: TaskId)
    | Finalize(id: TaskId, outcome: Outcome)
    | Migrate(id: TaskId)
    | RetryRefused(id: TaskId)
    | GiveUp(id: TaskId)
    | Overdue(id: TaskId)
    | NodesOffline(id: TaskId, offline: set<NodeId>)
    | Cancel(id: TaskId, withSubs: bool)

  /** A task as a submission creates it. */
  ghost predicate New(t: Task) {
    t.status == Pending && t.assignedTo == [] && t.retries == 0
  }

  ghost predicate Enabled(s: State, e: Event) {
    match e
    case Join(n, _) => n !in s.nodes
    case SetStatus(n, _) => n in s.nodes
    case Quota(id, t, _) => id in s.tasks || New(t)
    case Local(id, t, _) => id in s.tasks || New(t)
    case Shortage(id, t) => id in s.tasks || New(t)
    case Confirm(id, t, sel, pool) => (id in s.tasks || New(t)) && Distinct(sel) && Distinct(pool)
    case Requeue(id) => id in s.tasks
    case RetryRefused(id) => id in s.tasks
    case GiveUp(id) => id in s.tasks
    case _ => true
  }

  ghost function Next(cfg: Config, s: State, e: Event): State
    requires Enabled(s, e)
  {
    match e
    case Join(n, max) => s.(nodes := s.nodes[n := Node(Online, 0, max)])
    case SetStatus(n, status) => s.(nodes := s.nodes[n := s.nodes[n].(status := status)])
    case Quota(id, t, atQuota) => QuotaSection(cfg, s, id, t, atQuota).0
    case Local(id, t, n) => LocalSection(s, id, t, n).0
    case Shortage(id, t) => ShortageSection(cfg, s, id, t).0
    case Confirm(id, t, sel, pool) => ConfirmSection(cfg, s, id, t, sel, pool).0
    case Requeue(id) => Enqueue(s, id, s.tasks[id])
    case DrainStart => s.(queue := [])
    case RetriesTaken => s.(retry := [])
    case RetryPutBack(id) => s.(retry := s.retry + [id])
    case Finalize(id, o) => FinalizeSection(cfg, s, id, o)
    case Migrate(id) => MigrateSection(s, id).0
    case RetryRefused(id) => RetrySection(cfg, s, id)
    case GiveUp(id) => s.(tasks := s.tasks[id := s.tasks[id].(status := Failed)])
    case Overdue(id) => TimeoutSection(cfg, s, id)
    case NodesOffline(id, offline) => OfflineSection(cfg, s, id, offline)
    case Cancel(id, withSubs) => CancelSection(s, id, withSubs)
  }

  /** Any sequence of sections on an empty cluster; one that is not enabled does nothing. */
  ghost function After(cfg: Config, es: seq<Event>): State
    decreases |es|
  {
    if es == [] then State(map[], map[], [], [])
    else
      var s := After(cfg, es[..|es| - 1]);
      var e := es[|es| - 1];
      if Enabled(s, e) then Next(cfg, s, e) else s
  }

  ghost function Holders(s: State, n: NodeId): set<TaskId> {
    set id | id in s.tasks && s.tasks[id].Holds(n)
  }

  /** Slots of n that are counted as taken but belong to no running task. */
  ghost function Leaked(s: State, n: NodeId): int
    requires n in s.nodes
  {
    s.nodes[n].active - |Holders(s, n)|
  }

  /** The sections that can take a task out of RUNNING without giving its slots back: timeout,
      node offline, and a late queueing or retry of a task that someone else has started. */
  ghost predicate Leaks(s: State, e: Event, n: NodeId) {
    match e
    case Shortage(id, _) => id in s.tasks && s.tasks[id].Holds(n) && id !in s.queue
    case Requeue(id) => id in s.tasks && s.tasks[id].Holds(n)
    case RetryRefused(id) => id in s.tasks && s.tasks[id].Holds(n)
    case GiveUp(id) => id in s.tasks && s.tasks[id].Holds(n)
    case Overdue(id) => id in s.tasks && s.tasks[id].Holds(n)
    case NodesOffline(id, offline) =>
      id in s.tasks && s.tasks[id].Holds(n) && exists m :: m in offline && m in s.tasks[id].assignedTo
    case _ => false
  }

  ghost predicate LeaksNow(cfg: Config, s: State, e: Event, n: NodeId) {
    Leaks(s, e, n) && (e.Shortage? ==> |s.queue| < cfg.maxQueue)
  }

  ghost predicate TaskInv(s: State, t: Task) {
    && Distinct(t.assignedTo)
    && (t.status == Running ==> forall n :: n in t.assignedTo ==> n in s.nodes)
    && (t.status == Pending ==> t.assignedTo == [])
  }

  ghost predicate NodeInv(s: State, n: NodeId)
    requires n in s.nodes
  {
    |Holders(s, n)| <= s.nodes[n].active <= s.nodes[n].max
  }

  ghost predicate Descending(tasks: map<TaskId, Task>, q: seq<TaskId>) {
    forall i, j :: 0 <= i < j < |q| ==> Prio(tasks, q[i]) >= Prio(tasks, q[j])
  }

  /** The waiting queue lists registered tasks by descending priority. */
  ghost predicate Sorted(s: State) {
    (forall id :: id in s.queue ==> id in s.tasks) && Descending(s.tasks, s.queue)
  }

  ghost predicate Inv(s: State) {
    && (forall id {:trigger TaskInv(s, s.tasks[id])} :: id in s.tasks ==> TaskInv(s, s.tasks[id]))
    && (forall n {:trigger NodeInv(s, n)} :: n in s.nodes ==> NodeInv(s, n))
    && Sorted(s)
  }

  // ---------- one task changes ----------

  ghost predicate OneTask(s: State, s': State, id: TaskId, t': Task) {
    s'.tasks == s.tasks[id := t'] && s'.nodes.Keys == s.nodes.Keys
  }

  ghost function Hold(s: State, id: TaskId, n: NodeId): int {
    if id in s.tasks && s.tasks[id].Holds(n) then 1 else 0
  }

  lemma HoldersChange(s: State, s': State, id: TaskId, t': Task, n: NodeId)
    requires OneTask(s, s', id, t')
    ensures |Holders(s', n)| == |Holders(s, n)| - Hold(s, id, n) + (if t'.Holds(n) then 1 else 0)
  {
    var rest := Holders(s, n) - {id};
    assert Holders(s', n) == if t'.Holds(n) then rest + {id} else rest;
    assert Holders(s, n) == if Hold(s, id, n) == 1 then rest + {id} else rest;
  }

  lemma HoldersAtLeast(s: State, id: TaskId, n: NodeId)
    ensures |Holders(s, n)| >= Hold(s, id, n)
  {
    if Hold(s, id, n) == 1 { assert id in Holders(s, n); }
  }

  /** The accounting rule for a section that touches one task: what it takes and gives back on
      n, against what the task held before and holds afterwards. */
  lemma OneTaskInv(s: State, s': State, id: TaskId, t': Task)
    requires Inv(s) && OneTask(s, s', id, t') && TaskInv(s', t') && Sorted(s')
    requires forall n :: n in s.nodes ==> s'.nodes[n].max == s.nodes[n].max
    requires forall n :: n in s.nodes ==>
               s'.nodes[n].active - s.nodes[n].active >= (if t'.Holds(n) then 1 else 0) - Hold(s, id, n)
    requires forall n :: n in s.nodes ==> s'.nodes[n].active <= s'.nodes[n].max
    ensures Inv(s')
    ensures forall n :: n in s.nodes ==>
              Leaked(s', n) - Leaked(s, n) ==
              s'.nodes[n].active - s.nodes[n].active - (if t'.Holds(n) then 1 else 0) + Hold(s, id, n)
  {
    forall n | n in s.nodes
      ensures NodeInv(s', n)
      ensures Leaked(s', n) - Leaked(s, n) ==
              s'.nodes[n].active - s.nodes[n].active - (if t'.Holds(n) then 1 else 0) + Hold(s, id, n)
    {
      assert NodeInv(s, n);
      HoldersChange(s, s', id, t', n);
    }
    forall k | k in s'.tasks ensures TaskInv(s', s'.tasks[k]) {
      if k != id { assert TaskInv(s, s.tasks[k]); }
    }
  }

  /** The step theorem's statement: the invariant is kept, and a node's leak grows, by one,
      exactly when the section is one of the leaking ones for it. */
  ghost predicate Kept(cfg: Config, s: State, e: Event, s': State) {
    && Inv(s')
    && s.nodes.Keys <= s'.nodes.Keys
    && (forall n :: n in s.nodes ==> Leaked(s', n) == Leaked(s, n) + (if LeaksNow(cfg, s, e, n) then 1 else 0))
    && (forall n :: n in s'.nodes && n !in s.nodes ==> Leaked(s', n) == 0)
  }

  lemma DescendingJoin(tasks: map<TaskId, Task>, a: seq<TaskId>, b: seq<TaskId>)
    requires Descending(tasks, a) && Descending(tasks, b)
    requires forall x, y :: x in a && y in b ==> Prio(tasks, x) >= Prio(tasks, y)
    ensures Descending(tasks, a + b)
  {
    forall i, j | 0 <= i < j < |a + b| ensures Prio(tasks, (a + b)[i]) >= Prio(tasks, (a + b)[j]) {
      if i < |a| <= j {
        assert a[i] in a && b[j - |a|] in b;
      }
    }
  }

  lemma DescendingSlices(tasks: map<TaskId, Task>, q: seq<TaskId>, k: nat)
    requires Descending(tasks, q) && k <= |q|
    ensures Descending(tasks, q[..k]) && Descending(tasks, q[k..])
  {
  }

  lemma DescendingInsert(tasks: map<TaskId, Task>, q: seq<TaskId>, k: nat, id: TaskId)
    requires Descending(tasks, q) && k <= |q|
    requires forall x :: x in q[..k] ==> Prio(tasks, x) >= Prio(tasks, id)
    requires forall y :: y in q[k..] ==> Prio(tasks, id) >= Prio(tasks, y)
    ensures Descending(tasks, q[..k] + [id] + q[k..])
  {
    DescendingSlices(tasks, q, k);
    DescendingJoin(tasks, q[..k], [id]);
    DescendingJoin(tasks, q[..k] + [id], q[k..]);
  }

  lemma InsertedSorted(tasks: map<TaskId, Task>, q: seq<TaskId>, id: TaskId, priority: int)
    requires Descending(tasks, q) && Prio(tasks, id) == priority
    ensures var k := InsertAt(q, tasks, priority); Descending(tasks, q[..k] + [id] + q[k..])
  {
    InsertPointFits(tasks, q, priority);
    DescendingInsert(tasks, q, InsertAt(q, tasks, priority), id);
  }

  lemma SameOrder(tasks: map<TaskId, Task>, tasks': map<TaskId, Task>, q: seq<TaskId>)
    requires Descending(tasks, q) && forall x :: x in q ==> Prio(tasks', x) == Prio(tasks, x)
    ensures Descending(tasks', q)
  {
    forall i, j | 0 <= i < j < |q| ensures Prio(tasks', q[i]) >= Prio(tasks', q[j]) {
      assert q[i] in q && q[j] in q;
    }
  }

  lemma SortedEnqueue(s: State, id: TaskId, t: Task)
    requires Sorted(s) && (id in s.tasks ==> s.tasks[id].priority == t.priority)
    ensures Sorted(Enqueue(s, id, t))
  {
    var tasks := s.tasks[id := t.(status := Pending, assignedTo := [])];
    SameOrder(s.tasks, tasks, s.queue);
    InsertedSorted(tasks, s.queue, id, t.priority);
  }

  lemma InsertPointFits(tasks: map<TaskId, Task>, q: seq<TaskId>, priority: int)
    requires Descending(tasks, q)
    ensures forall x :: x in q[..InsertAt(q, tasks, priority)] ==> Prio(tasks, x) >= priority
    ensures forall y :: y in q[InsertAt(q, tasks, priority)..] ==> priority >= Prio(tasks, y)
  {
    var k := InsertAt(q, tasks, priority);
    forall y | y in q[k..] ensures priority >= Prio(tasks, y) {
      var j :| k <= j < |q| && q[j] == y;
    }
  }

  lemma SortedSameQueue(s: State, s': State)
    requires Sorted(s) && s'.queue == s.queue && s.tasks.Keys <= s'.tasks.Keys
    requires forall id :: id in s.tasks ==> s'.tasks[id].priority == s.tasks[id].priority
    ensures Sorted(s')
  {
  }

  lemma EnqueueKept(s: State, id: TaskId, t: Task)
    requires Inv(s) && (id in s.tasks ==> t == s.tasks[id])
    ensures Inv(Enqueue(s, id, t)) && Enqueue(s, id, t).nodes == s.nodes
    ensures forall n :: n in s.nodes ==> Leaked(Enqueue(s, id, t), n) == Leaked(s, n) + Hold(s, id, n)
  {
    SortedEnqueue(s, id, t);
    assert forall n :: n in s.nodes ==> NodeInv(s, n);
    OneTaskInv(s, Enqueue(s, id, t), id, t.(status := Pending, assignedTo := []));
  }

  lemma RetryKept(cfg: Config, s: State, id: TaskId)
    requires Inv(s) && id in s.tasks
    ensures Inv(RetrySection(cfg, s, id)) && RetrySection(cfg, s, id).nodes == s.nodes
    ensures forall n :: n in s.nodes ==> Leaked(RetrySection(cfg, s, id), n) == Leaked(s, n) + Hold(s, id, n)
  {
    assert TaskInv(s, s.tasks[id]);
    SlotsForgotten(s, RetrySection(cfg, s, id), id, Retried(cfg, s.tasks[id]));
  }

  /** Starting a task on distinct free nodes takes exactly the slots it will hold. */
  lemma StartKept(s: State, s': State, id: TaskId, t: Task, chosen: seq<NodeId>)
    requires Inv(s) && !IsRunning(s, id) && Distinct(chosen) && (forall n :: n in chosen ==> FreeIn(s, n))
    requires id in s.tasks ==> t.priority == s.tasks[id].priority
    requires s' == s.(tasks := s.tasks[id := t.(status := Running, assignedTo := chosen)], nodes := Occupied(s.nodes, chosen))
    ensures Inv(s') && s'.nodes.Keys == s.nodes.Keys && forall n :: n in s.nodes ==> Leaked(s', n) == Leaked(s, n)
  {
    assert forall n :: n in s.nodes ==> NodeInv(s, n);
    SortedSameQueue(s, s');
    OneTaskInv(s, s', id, t.(status := Running, assignedTo := chosen));
  }

  /** Ending a running task with its slots released leaves no trace in the counters. */
  lemma EndKept(s: State, s': State, id: TaskId, t': Task)
    requires Inv(s) && IsRunning(s, id) && t'.status != Running && t'.priority == s.tasks[id].priority
    requires Distinct(t'.assignedTo) && (t'.status == Pending ==> t'.assignedTo == [])
    requires s'.tasks == s.tasks[id := t'] && s'.nodes == Released(s.nodes, s.tasks[id].assignedTo) && s'.queue == s.queue
    ensures Inv(s') && s'.nodes.Keys == s.nodes.Keys && forall n :: n in s.nodes ==> Leaked(s', n) == Leaked(s, n)
  {
    forall n | n in s.nodes
      ensures s'.nodes[n].active - s.nodes[n].active == -Hold(s, id, n) && s'.nodes[n].active <= s'.nodes[n].max
    {
      assert NodeInv(s, n);
      HoldersAtLeast(s, id, n);
    }
    SortedSameQueue(s, s');
    OneTaskInv(s, s', id, t');
  }

  lemma ChosenFree(s: State, t: Task, sel: seq<NodeId>, pool: seq<NodeId>)
    requires Distinct(sel) && Distinct(pool)
    ensures Distinct(Chosen(s, t, sel, pool))
    ensures forall n :: n in Chosen(s, t, sel, pool) ==> FreeIn(s, n)
  {
    FilterDistinct(sel, n => FreeIn(s, n));
    var confirmed := Confirmed(s, sel);
    FilterDistinct(pool, n => FreeIn(s, n) && n !in confirmed && n !in t.exclude);
    var extra := Substitutes(s, confirmed, t.exclude, pool);
    assert forall n :: n in extra ==> n !in confirmed;
    assert forall k :: 0 <= k < |extra| ==> extra[k] in extra;
    assert forall k :: 0 <= k < |confirmed| ==> confirmed[k] in confirmed;
  }

  lemma FinalizeKept(cfg: Config, s: State, id: TaskId, o: Outcome)
    requires Inv(s)
    ensures Kept(cfg, s, Finalize(id, o), FinalizeSection(cfg, s, id, o))
  {
    var s' := FinalizeSection(cfg, s, id, o);
    if IsRunning(s, id) {
      assert TaskInv(s, s.tasks[id]);
      EndKept(s, s', id, s'.tasks[id]);
    }
  }

  lemma MigrateKept(cfg: Config, s: State, id: TaskId)
    requires Inv(s)
    ensures Kept(cfg, s, Migrate(id), MigrateSection(s, id).0)
  {
    var s' := MigrateSection(s, id).0;
    if IsRunning(s, id) {
      EndKept(s, s', id, s'.tasks[id]);
    }
  }

  lemma OfflineKept(cfg: Config, s: State, id: TaskId, offline: set<NodeId>)
    requires Inv(s)
    ensures Kept(cfg, s, NodesOffline(id, offline), OfflineSection(cfg, s, id, offline))
  {
    var s' := OfflineSection(cfg, s, id, offline);
    if IsRunning(s, id) && exists n :: n in offline && n in s.tasks[id].assignedTo {
      assert s'.tasks == s.tasks[id := s'.tasks[id]];
      SlotsForgotten(s, s', id, s'.tasks[id]);
    }
  }

  /** A task leaves RUNNING and the counters are not told. */
  lemma SlotsForgotten(s: State, s': State, id: TaskId, t': Task)
    requires Inv(s) && id in s.tasks && t'.status != Running && t'.priority == s.tasks[id].priority
    requires Distinct(t'.assignedTo) && (t'.status == Pending ==> t'.assignedTo == [])
    requires s'.tasks == s.tasks[id := t'] && s'.nodes == s.nodes && s'.queue == s.queue
    ensures Inv(s') && forall n :: n in s.nodes ==> Leaked(s', n) == Leaked(s, n) + Hold(s, id, n)
  {
    assert forall n :: n in s.nodes ==> NodeInv(s, n);
    SortedSameQueue(s, s');
    OneTaskInv(s, s', id, t');
  }

  lemma ConfirmKept(cfg: Config, s: State, id: TaskId, t: Task, sel: seq<NodeId>, pool: seq<NodeId>)
    requires Inv(s) && Enabled(s, Confirm(id, t, sel, pool))
    ensures Kept(cfg, s, Confirm(id, t, sel, pool), ConfirmSection(cfg, s, id, t, sel, pool).0)
  {
    if !IsRunning(s, id) {
      var o := Object(s, id, t);
      ChosenFree(s, o, sel, pool);
      if |Chosen(s, o, sel, pool)| < o.Need() {
        EnqueueKept(s, id, o);
      } else {
        StartKept(s, ConfirmSection(cfg, s, id, t, sel, pool).0, id, o, Chosen(s, o, sel, pool));
      }
    }
  }

  lemma LocalKept(cfg: Config, s: State, id: TaskId, t: Task, n: NodeId)
    requires Inv(s) && Enabled(s, Local(id, t, n))
    ensures Kept(cfg, s, Local(id, t, n), LocalSection(s, id, t, n).0)
  {
    if !IsRunning(s, id) && FreeIn(s, n) {
      StartKept(s, LocalSection(s, id, t, n).0, id, Object(s, id, t), [n]);
    }
  }

  lemma QuotaKept(cfg: Config, s: State, e: Event)
    requires Inv(s) && Enabled(s, e) && e.Quota?
    ensures Kept(cfg, s, e, Next(cfg, s, e))
  {
    if Next(cfg, s, e) != s { EnqueueKept(s, e.id, Object(s, e.id, e.t)); }
  }

  lemma ShortageKept(cfg: Config, s: State, e: Event)
    requires Inv(s) && Enabled(s, e) && e.Shortage?
    ensures Kept(cfg, s, e, Next(cfg, s, e))
  {
    if Next(cfg, s, e) != s { EnqueueKept(s, e.id, Object(s, e.id, e.t)); }
  }

  lemma RequeueKept(cfg: Config, s: State, id: TaskId)
    requires Inv(s) && id in s.tasks
    ensures Kept(cfg, s, Requeue(id), Next(cfg, s, Requeue(id)))
  {
    EnqueueKept(s, id, s.tasks[id]);
  }

  /** Taking the queue or the retry list, or putting back a retry, touches no task and no node. */
  lemma ListEventKept(cfg: Config, s: State, e: Event)
    requires Inv(s) && (e.DrainStart? || e.RetriesTaken? || e.RetryPutBack?)
    ensures Kept(cfg, s, e, Next(cfg, s, e))
  {
    var s' := Next(cfg, s, e);
    assert s'.tasks == s.tasks && s'.nodes == s.nodes && Sorted(s');
    forall id | id in s.tasks ensures TaskInv(s', s'.tasks[id]) {
      assert TaskInv(s, s.tasks[id]);
    }
    forall n | n in s.nodes ensures NodeInv(s', n) && Leaked(s', n) == Leaked(s, n) {
      assert NodeInv(s, n) && Holders(s', n) == Holders(s, n);
    }
  }

  lemma NodeEventKept(cfg: Config, s: State, e: Event)
    requires Inv(s) && Enabled(s, e) && (e.Join? || e.SetStatus?)
    ensures Kept(cfg, s, e, Next(cfg, s, e))
  {
    var s' := Next(cfg, s, e);
    forall id | id in s.tasks ensures TaskInv(s', s'.tasks[id]) {
      assert TaskInv(s, s.tasks[id]);
    }
    forall n | n in s'.nodes
      ensures NodeInv(s', n) && Leaked(s', n) == if n in s.nodes then Leaked(s, n) else 0
    {
      assert Holders(s', n) == Holders(s, n);
      if n in s.nodes {
        assert NodeInv(s, n);
      } else {
        forall id | id in s.tasks ensures !s.tasks[id].Holds(n) {
          assert TaskInv(s, s.tasks[id]);
        }
        assert Holders(s, n) == {};
      }
    }
  }

  // ---------- cancelling ----------

  lemma CancelledSlots(s: State, ids: set<TaskId>, n: NodeId)
    requires Inv(s) && n in s.nodes && forall id :: id in ids ==> id in s.tasks && s.tasks[id].Live()
    ensures NodeInv(CancelAll(s, ids), n) && Leaked(CancelAll(s, ids), n) == Leaked(s, n)
  {
    assert NodeInv(s, n);
    forall id | id in ids ensures s.tasks[id].Holds(n) <==> n in s.tasks[id].assignedTo {
      assert TaskInv(s, s.tasks[id]);
    }
    assert On(s, ids, n) <= Holders(s, n);
    assert Holders(CancelAll(s, ids), n) == Holders(s, n) - On(s, ids, n);
  }

  lemma CancelKept(s: State, ids: set<TaskId>)
    requires Inv(s) && forall id :: id in ids ==> id in s.tasks && s.tasks[id].Live()
    ensures Inv(CancelAll(s, ids)) && CancelAll(s, ids).nodes.Keys == s.nodes.Keys
    ensures forall n :: n in s.nodes ==> Leaked(CancelAll(s, ids), n) == Leaked(s, n)
  {
    var s' := CancelAll(s, ids);
    forall n | n in s.nodes ensures NodeInv(s', n) && Leaked(s', n) == Leaked(s, n) {
      CancelledSlots(s, ids, n);
    }
    forall id | id in s'.tasks ensures TaskInv(s', s'.tasks[id]) {
      assert TaskInv(s, s.tasks[id]);
    }
    assert forall id :: id in s.tasks ==> Prio(s'.tasks, id) == Prio(s.tasks, id);
    DescendingWithout(s.tasks, s'.tasks, s.queue, ids);
  }

  /** Taking tasks out of a sorted queue leaves it sorted. */
  lemma {:induction false} DescendingWithout(tasks: map<TaskId, Task>, tasks': map<TaskId, Task>, q: seq<TaskId>, out: set<TaskId>)
    requires Descending(tasks, q) && forall id :: id in q ==> Prio(tasks', id) == Prio(tasks, id)
    ensures Descending(tasks', Without(q, out))
  {
    if q != [] {
      var past, last := q[..|q| - 1], q[|q| - 1];
      DescendingWithout(tasks, tasks', past, out);
      if last !in out {
        forall y | y in Without(past, out) ensures Prio(tasks', y) >= Prio(tasks', last) {
          var k :| 0 <= k < |past| && past[k] == y;
        }
        DescendingJoin(tasks', Without(past, out), [last]);
      }
    }
  }

  // ---------- every step, every run ----------

  lemma NextKept(cfg: Config, s: State, e: Event)
    requires Inv(s) && Enabled(s, e)
    ensures Kept(cfg, s, e, Next(cfg, s, e))
  {
    match e
    case Join(_, _) => NodeEventKept(cfg, s, e);
    case SetStatus(_, _) => NodeEventKept(cfg, s, e);
    case Quota(_, _, _) => QuotaKept(cfg, s, e);
    case Local(id, t, n) => LocalKept(cfg, s, id, t, n);
    case Shortage(_, _) => ShortageKept(cfg, s, e);
    case Confirm(id, t, sel, pool) => ConfirmKept(cfg, s, id, t, sel, pool);
    case Requeue(id) => RequeueKept(cfg, s, id);
    case DrainStart => ListEventKept(cfg, s, e);
    case RetriesTaken => ListEventKept(cfg, s, e);
    case RetryPutBack(_) => ListEventKept(cfg, s, e);
    case Finalize(id, o) => FinalizeKept(cfg, s, id, o);
    case Migrate(id) => MigrateKept(cfg, s, id);
    case RetryRefused(id) => RetryKept(cfg, s, id);
    case GiveUp(id) =>
      var s' := Next(cfg, s, e);
      assert TaskInv(s, s.tasks[id]);
      SlotsForgotten(s, s', id, s'.tasks[id]);
    case Overdue(id) => if IsRunning(s, id) { RetryKept(cfg, s, id); }
    case NodesOffline(id, offline) => OfflineKept(cfg, s, id, offline);
    case Cancel(id, withSubs) =>
      if id in s.tasks && s.tasks[id].Live() {
        var ids := Doomed(s, id, withSubs);
        forall k | k in ids ensures s.tasks[k].Live() {
          if withSubs {
            var p :| LivePath(s, p) && p[0] == id && p[|p| - 1] == k;
          }
        }
        CancelKept(s, ids);
      }
  }

  /** No overcommit, and the waiting queue in order, after any interleaving. */
  lemma {:induction false} NoOvercommit(cfg: Config, es: seq<Event>)
    ensures Inv(After(cfg, es))
    ensures forall n :: n in After(cfg, es).nodes ==>
              |Holders(After(cfg, es), n)| <= After(cfg, es).nodes[n].active <= After(cfg, es).nodes[n].max
    ensures Sorted(After(cfg, es))
    decreases |es|
  {
    var s := After(cfg, es);
    if es != [] {
      var past := es[..|es| - 1];
      NoOvercommit(cfg, past);
      if Enabled(After(cfg, past), es[|es| - 1]) {
        NextKept(cfg, After(cfg, past), es[|es| - 1]);
      }
    }
    forall n | n in s.nodes ensures |Holders(s, n)| <= s.nodes[n].active <= s.nodes[n].max {
      assert NodeInv(s, n);
    }
  }

  /** How many sections of the run leaked a slot of n. */
  ghost function LeakCount(cfg: Config, es: seq<Event>, n: NodeId): nat
    decreases |es|
  {
    if es == [] then 0
    else
      var past := es[..|es| - 1];
      var s := After(cfg, past);
      var e := es[|es| - 1];
      LeakCount(cfg, past, n) + (if n in s.nodes && Enabled(s, e) && LeaksNow(cfg, s, e, n) then 1 else 0)
  }

  /** The counter, exactly: the running tasks on the node plus the leaks so far. In particular
      counter and running tasks agree if and only if no section of the run leaked on n. */
  lemma {:induction false} CounterExact(cfg: Config, es: seq<Event>, n: NodeId)
    requires n in After(cfg, es).nodes
    ensures After(cfg, es).nodes[n].active == |Holders(After(cfg, es), n)| + LeakCount(cfg, es, n)
    decreases |es|
  {
    var past := es[..|es| - 1];
    var s := After(cfg, past);
    NoOvercommit(cfg, past);
    if Enabled(s, es[|es| - 1]) {
      NextKept(cfg, s, es[|es| - 1]);
    }
    if n in s.nodes {
      CounterExact(cfg, past, n);
    } else {
      NeverSeenNeverLeaked(cfg, past, n);
    }
  }

  lemma {:induction false} NeverSeenNeverLeaked(cfg: Config, es: seq<Event>, n: NodeId)
    requires n !in After(cfg, es).nodes
    ensures LeakCount(cfg, es, n) == 0
    decreases |es|
  {
    if es != [] {
      var past := es[..|es| - 1];
      NoOvercommit(cfg, past);
      if Enabled(After(cfg, past), es[|es| - 1]) {
        NextKept(cfg, After(cfg, past), es[|es| - 1]);
      }
      NeverSeenNeverLeaked(cfg, past, n);
    }
  }

  // ---------- runs that leak ----------

  lemma AfterOneMore(cfg: Config, es: seq<Event>, e: Event)
    requires Enabled(After(cfg, es), e)
    ensures After(cfg, es + [e]) == Next(cfg, After(cfg, es), e)
  {
    assert (es + [e])[..|es|] == es;
  }

  lemma ChosenOne(s: State, t: Task, n: NodeId)
    requires FreeIn(s, n) && t.shards <= 1
    ensures Chosen(s, t, [n], []) == [n]
  {
    assert [n][..0] == [];
    assert Filter([n], m => FreeIn(s, m)) == [n];
  }

  /** One node with one slot, one task that runs on it. */
  lemma OneNodeFull(cfg: Config, n: NodeId, id: TaskId, t: Task) returns (es: seq<Event>)
    requires New(t) && t.shards <= 1
    ensures var s := After(cfg, es);
            && s.nodes == map[n := Node(Online, 1, 1)] && s.queue == []
            && s.tasks == map[id := t.(status := Running, assignedTo := [n])]
  {
    AfterOneMore(cfg, [], Join(n, 1));
    es := [] + [Join(n, 1)];
    es := StartOnIt(cfg, es, n, id, t);
  }

  lemma StartOnIt(cfg: Config, es: seq<Event>, n: NodeId, id: TaskId, t: Task) returns (es': seq<Event>)
    requires New(t) && t.shards <= 1 && After(cfg, es) == State(map[n := Node(Online, 0, 1)], map[], [], [])
    ensures var s := After(cfg, es');
            && s.nodes == map[n := Node(Online, 1, 1)] && s.queue == []
            && s.tasks == map[id := t.(status := Running, assignedTo := [n])]
  {
    ChosenOne(After(cfg, es), t, n);
    AfterOneMore(cfg, es, Confirm(id, t, [n], []));
    es' := es + [Confirm(id, t, [n], [])];
  }

  /** Leaks happen: when the only task on a node times out, or is queued by a late shortage, the
      node stays full with nothing running on it. */
  lemma LeakReachable(cfg: Config, n: NodeId, id: TaskId, t: Task, late: Event) returns (es: seq<Event>)
    requires New(t) && t.shards <= 1 && cfg.maxQueue > 0
    requires late == Overdue(id) || late == Shortage(id, t)
    ensures var s := After(cfg, es);
            n in s.nodes && s.nodes[n].active == s.nodes[n].max == 1 && Holders(s, n) == {}
  {
    var two := OneNodeFull(cfg, n, id, t);
    AfterOneMore(cfg, two, late);
    es := two + [late];
  }
}
