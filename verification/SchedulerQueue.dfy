/** A whole assign_task call, and draining the waiting queue through it. */
module SchedulerQueue {
  import opened Options
  import opened SchedulerModel
  import opened Sequences
  import opened SchedulerCapacity

  /** What a call of assign_task meets outside the locks: a refusal by the leader and owner
      guards, the tenant's quota, the local-force rule, the selection and the substitutes. */
  datatype Choice = Choice(refused: bool, atQuota: bool, localForce: bool, sel: seq<NodeId>, pool: seq<NodeId>)

  function AssignTask(cfg: Config, s: State, id: TaskId, t0: Task, c: Choice): (State, bool) {
    if c.refused then (s, false)
    else
      var t := Object(s, id, t0);
      match QuotaSection(cfg, s, id, t, c.atQuota)
      case (s1, Some(ok)) => (s1, ok)
      case (_, None) =>
        match if c.localForce && t.preferred.Some? then LocalSection(s, id, t, t.preferred.value) else (s, None)
        case (s1, Some(ok)) => (s1, ok)
        case (_, None) =>
          if |c.sel| < t.Need() then ShortageSection(cfg, s, id, t)
          else ConfirmSection(cfg, s, id, t, c.sel, c.pool)
  }

  /** The drain's turn for one task: assign it, and queue it again if the call said no. */
  function DrainOne(cfg: Config, s: State, id: TaskId, c: Choice): State
    requires id in s.tasks
  {
    var (s', ok) := AssignTask(cfg, s, id, s.tasks[id], c);
    if ok || id !in s'.tasks then s' else Enqueue(s', id, s'.tasks[id])
  }

  /** The drain after its first k tasks; it starts by emptying the queue. */
  function DrainTo(cfg: Config, s: State, cs: seq<Choice>, k: nat): State
    requires k <= |s.queue| == |cs|
  {
    if k == 0 then s.(queue := [])
    else
      var s' := DrainTo(cfg, s, cs, k - 1);
      if s.queue[k - 1] in s'.tasks then DrainOne(cfg, s', s.queue[k - 1], cs[k - 1]) else s'
  }

  function Drain(cfg: Config, s: State, cs: seq<Choice>): State
    requires |s.queue| == |cs|
  {
    DrainTo(cfg, s, cs, |cs|)
  }

  // ---------- what one turn does ----------

  ghost predicate OnlyTask(s: State, s': State, id: TaskId) {
    && s'.tasks.Keys == s.tasks.Keys + {id} && s'.retry == s.retry
    && forall k :: k in s.tasks && k != id ==> s'.tasks[k] == s.tasks[k]
  }

  /** The task, registered or as it was handed in, has been started. */
  ghost predicate StartedIt(s: State, s': State, id: TaskId, t: Task) {
    && IsRunning(s', id) && s'.queue == s.queue && OnlyTask(s, s', id)
    && s'.tasks[id].priority == Object(s, id, t).priority
  }

  lemma LocalOutcome(s: State, id: TaskId, t: Task, n: NodeId)
    ensures var (s', r) := LocalSection(s, id, t, n);
            if r == Some(true) then StartedIt(s, s', id, t) else r == None
  {
    if IsRunning(s, id) { assert s.tasks.Keys == s.tasks.Keys + {id}; }
  }

  lemma ConfirmOutcome(cfg: Config, s: State, id: TaskId, t: Task, sel: seq<NodeId>, pool: seq<NodeId>)
    ensures var (s', ok) := ConfirmSection(cfg, s, id, t, sel, pool);
            (ok && StartedIt(s, s', id, t)) || (s', ok) == EnqueueCapped(cfg, s, id, Object(s, id, t))
  {
    if IsRunning(s, id) { assert s.tasks.Keys == s.tasks.Keys + {id}; }
  }

  lemma CappedOutcome(cfg: Config, s: State, id: TaskId, t: Task)
    ensures var (s', ok) := EnqueueCapped(cfg, s, id, t);
            if ok then s' == Enqueue(s, id, t) else s' == s
  {
  }

  /** A call, for a registered task or a new one, starts the task, queues it, finds it running or
      queued already, or says no and does nothing. */
  lemma AssignOutcomes(cfg: Config, s: State, id: TaskId, t: Task, c: Choice)
    ensures var (s', ok) := AssignTask(cfg, s, id, t, c);
            || (ok && StartedIt(s, s', id, t))
            || (ok && s' == Enqueue(s, id, Object(s, id, t)))
            || (ok && s' == s && id in s.queue)
            || (!ok && s' == s)
  {
    var t' := Object(s, id, t);
    CappedOutcome(cfg, s, id, t');
    if t'.preferred.Some? { LocalOutcome(s, id, t', t'.preferred.value); }
    ConfirmOutcome(cfg, s, id, t', c.sel, c.pool);
    if IsRunning(s, id) { assert s.tasks.Keys == s.tasks.Keys + {id}; }
  }

  lemma {:induction false} InsertAtEnd(q: seq<TaskId>, tasks: map<TaskId, Task>, priority: int)
    requires forall x :: x in q ==> Prio(tasks, x) >= priority
    ensures InsertAt(q, tasks, priority) == |q|
  {
    if q != [] {
      assert q[0] in q;
      InsertAtEnd(q[1..], tasks, priority);
    }
  }

  // ---------- the drain ----------

  /** The places of q that are marked to stay. */
  ghost function Pick(q: seq<TaskId>, keep: seq<bool>): seq<TaskId>
    requires |q| == |keep|
  {
    if q == [] then []
    else Pick(q[..|q| - 1], keep[..|q| - 1]) + if keep[|q| - 1] then [q[|q| - 1]] else []
  }

  predicate IsPending(s: State, id: TaskId) {
    id in s.tasks && s.tasks[id].status == Pending
  }

  /** What every turn of a drain keeps: the queue is what was kept of the turns taken so far, and
      the task of every other turn is running or in the queue at another place. */
  ghost predicate Drained(s: State, s': State, q: seq<TaskId>, keep: seq<bool>) {
    && |q| == |keep| && s'.queue == Pick(q, keep)
    && s'.tasks.Keys == s.tasks.Keys
    && (forall id :: id in s.tasks ==> s'.tasks[id].priority == s.tasks[id].priority)
    && (forall id :: id in s.tasks && id !in q ==> s'.tasks[id] == s.tasks[id])
    && (forall id :: id in q ==> IsRunning(s', id) || id in s'.queue)
    && (forall id :: id in s'.queue ==> id in q)
    && (Distinct(q) ==> forall id :: id in s'.queue ==> IsPending(s', id))
  }

  lemma PickMore(q: seq<TaskId>, keep: seq<bool>, id: TaskId, stays: bool)
    requires |q| == |keep|
    ensures Pick(q + [id], keep + [stays]) == Pick(q, keep) + if stays then [id] else []
  {
    assert (q + [id])[..|q|] == q && (keep + [stays])[..|q|] == keep;
  }

  lemma EnqueueLast(s': State, id: TaskId, t: Task)
    requires (id in s'.tasks ==> s'.tasks[id].priority == t.priority)
    requires forall x :: x in s'.queue ==> Prio(s'.tasks, x) >= t.priority
    ensures Enqueue(s', id, t).queue == s'.queue + [id]
  {
    var tasks := s'.tasks[id := t.(status := Pending, assignedTo := [])];
    assert forall x :: x in s'.queue ==> Prio(tasks, x) == Prio(s'.tasks, x) || x == id;
    InsertAtEnd(s'.queue, tasks, t.priority);
  }

  lemma DistinctFront(q: seq<TaskId>, id: TaskId)
    requires Distinct(q + [id])
    ensures Distinct(q) && id !in q
  {
    assert forall i :: 0 <= i < |q| ==> q[i] == (q + [id])[i] && (q + [id])[i] != (q + [id])[|q|];
  }

  /** What one turn does to the state: one task changes, and the queue grows by it or not. */
  ghost predicate TurnEffect(s: State, s': State, id: TaskId, stays: bool) {
    && OnlyTask(s, s', id) && id in s.tasks && s'.tasks[id].priority == s.tasks[id].priority
    && s'.queue == s.queue + (if stays then [id] else [])
    && (IsRunning(s', id) || id in s'.queue)
    && (stays ==> IsPending(s', id))
  }

  /** A turn keeps the task's place, or the task is running or queued at another place already. */
  lemma DrainTurn(cfg: Config, s: State, id: TaskId, c: Choice) returns (stays: bool)
    requires id in s.tasks && forall x :: x in s.queue ==> Prio(s.tasks, x) >= Prio(s.tasks, id)
    ensures TurnEffect(s, DrainOne(cfg, s, id, c), id, stays)
  {
    var t := s.tasks[id];
    var (s1, ok) := AssignTask(cfg, s, id, t, c);
    AssignOutcomes(cfg, s, id, t, c);
    assert s.queue + [] == s.queue;
    stays := !(ok && (StartedIt(s, s1, id, t) || s1 == s));
    if stays { EnqueueLast(s, id, t); }
  }

  /** The turn's effect extends the invariant by this place of the queue. */
  lemma TurnTaken(s: State, s': State, s'': State, q: seq<TaskId>, keep: seq<bool>, id: TaskId, stays: bool)
    requires id in s.tasks && Drained(s, s', q, keep) && TurnEffect(s', s'', id, stays)
    ensures Drained(s, s'', q + [id], keep + [stays])
  {
    PickMore(q, keep, id, stays);
    forall x | x in q + [id] ensures IsRunning(s'', x) || x in s''.queue {
      if x != id { assert x in q; }
    }
    if Distinct(q + [id]) { DistinctFront(q, id); }
  }

  lemma EarlierIsNoLess(s: State, k: nat)
    requires Sorted(s) && k < |s.queue|
    ensures s.queue[k] in s.tasks
    ensures forall x :: x in s.queue[..k] ==> x in s.tasks && Prio(s.tasks, x) >= Prio(s.tasks, s.queue[k])
  {
    assert s.queue[k] in s.queue;
    forall x | x in s.queue[..k] ensures x in s.tasks && Prio(s.tasks, x) >= Prio(s.tasks, s.queue[k]) {
      var i :| 0 <= i < k && s.queue[i] == x;
    }
  }

  /** From a queue of tasks of no lower priority, some turn's effect leads from s to s'. */
  ghost predicate CanTurn(s: State, s': State, id: TaskId) {
    id in s.tasks && (forall x :: x in s.queue ==> Prio(s.tasks, x) >= Prio(s.tasks, id)) ==>
      exists stays :: TurnEffect(s, s', id, stays)
  }

  lemma DrainTurns(cfg: Config, s: State, cs: seq<Choice>, k: nat)
    requires k < |s.queue| == |cs|
    ensures CanTurn(DrainTo(cfg, s, cs, k), DrainTo(cfg, s, cs, k + 1), s.queue[k])
  {
    var before, id := DrainTo(cfg, s, cs, k), s.queue[k];
    if id in before.tasks && forall x :: x in before.queue ==> Prio(before.tasks, x) >= Prio(before.tasks, id) {
      var stays := DrainTurn(cfg, before, id, cs[k]);
    }
  }

  lemma OneTurn(s: State, before: State, after: State, q: seq<TaskId>, earlier: seq<bool>, id: TaskId)
    returns (keep: seq<bool>)
    requires Drained(s, before, q, earlier) && CanTurn(before, after, id) && id in s.tasks
    requires forall x :: x in q ==> x in s.tasks && Prio(s.tasks, x) >= Prio(s.tasks, id)
    ensures Drained(s, after, q + [id], keep)
  {
    assert forall x :: x in before.queue ==> Prio(before.tasks, x) >= Prio(before.tasks, id);
    var stays :| TurnEffect(before, after, id, stays);
    TurnTaken(s, before, after, q, earlier, id, stays);
    keep := earlier + [stays];
  }

  lemma NextPlace(s: State, before: State, after: State, k: nat, earlier: seq<bool>) returns (keep: seq<bool>)
    requires Sorted(s) && k < |s.queue| && Drained(s, before, s.queue[..k], earlier)
    requires CanTurn(before, after, s.queue[k])
    ensures Drained(s, after, s.queue[..k + 1], keep)
  {
    OneMore(s.queue, k);
    EarlierIsNoLess(s, k);
    keep := OneTurn(s, before, after, s.queue[..k], earlier, s.queue[k]);
  }

  ghost predicate DrainedSoFar(s: State, s': State, i: nat, keep: seq<bool>) {
    i <= |s.queue| && Drained(s, s', s.queue[..i], keep)
  }

  lemma TurnCarriesOver(cfg: Config, s: State, cs: seq<Choice>, i: nat, keep: seq<bool>) returns (keep': seq<bool>)
    requires i < |s.queue| == |cs| && Sorted(s) && DrainedSoFar(s, DrainTo(cfg, s, cs, i), i, keep)
    ensures DrainedSoFar(s, DrainTo(cfg, s, cs, i + 1), i + 1, keep')
  {
    DrainTurns(cfg, s, cs, i);
    keep' := NextPlace(s, DrainTo(cfg, s, cs, i), DrainTo(cfg, s, cs, i + 1), i, keep);
  }

  lemma NothingDrained(s: State)
    ensures DrainedSoFar(s, s.(queue := []), 0, [])
  {
  }

  lemma AllDrained(s: State, s': State, keep: seq<bool>)
    requires DrainedSoFar(s, s', |s.queue|, keep)
    ensures Drained(s, s', s.queue, keep)
  {
    assert s.queue[..|s.queue|] == s.queue;
  }

  lemma {:induction false} DrainPrefix(cfg: Config, s: State, cs: seq<Choice>, k: nat) returns (keep: seq<bool>)
    requires k <= |s.queue| == |cs| && Sorted(s)
    ensures DrainedSoFar(s, DrainTo(cfg, s, cs, k), k, keep)
  {
    if k == 0 {
      NothingDrained(s);
      keep := [];
    } else {
      var earlier := DrainPrefix(cfg, s, cs, k - 1);
      keep := TurnCarriesOver(cfg, s, cs, k - 1, earlier);
    }
  }

  /** An undisturbed drain loses no task, even if the queue lists one twice: what remains are
      places of the old queue in their old order; a task that was queued is then running or still
      queued; every other task is untouched. */
  lemma DrainLosesNothing(cfg: Config, s: State, cs: seq<Choice>) returns (keep: seq<bool>)
    requires |s.queue| == |cs| && Sorted(s)
    ensures var s' := Drain(cfg, s, cs);
            && |keep| == |s.queue| && s'.queue == Pick(s.queue, keep)
            && (forall id :: id in s.queue ==> IsRunning(s', id) || id in s'.queue)
            && s'.tasks.Keys == s.tasks.Keys
            && (forall id :: id in s.tasks && id !in s.queue ==> s'.tasks[id] == s.tasks[id])
  {
    keep := DrainPrefix(cfg, s, cs, |cs|);
    AllDrained(s, Drain(cfg, s, cs), keep);
  }

  lemma {:induction false} PickIsWithout(q: seq<TaskId>, keep: seq<bool>, out: set<TaskId>)
    requires |q| == |keep| && forall i :: 0 <= i < |q| ==> (keep[i] <==> q[i] !in out)
    ensures Pick(q, keep) == Without(q, out)
  {
    if q != [] { PickIsWithout(q[..|q| - 1], keep[..|q| - 1], out); }
  }

  lemma {:induction false} PickHolds(q: seq<TaskId>, keep: seq<bool>, id: TaskId)
    requires |q| == |keep|
    ensures id in Pick(q, keep) <==> exists i :: 0 <= i < |q| && q[i] == id && keep[i]
  {
    if q != [] {
      var k := |q| - 1;
      PickHolds(q[..k], keep[..k], id);
      if exists i :: 0 <= i < |q| && q[i] == id && keep[i] {
        var i :| 0 <= i < |q| && q[i] == id && keep[i];
        assert i < k ==> q[..k][i] == id && keep[..k][i];
      }
      if exists i :: 0 <= i < k && q[..k][i] == id && keep[..k][i] {
        var i :| 0 <= i < k && q[..k][i] == id && keep[..k][i];
        assert q[i] == id && keep[i];
      }
    }
  }

  lemma DistinctDrained(s: State, s': State, keep: seq<bool>)
    requires Drained(s, s', s.queue, keep) && Distinct(s.queue)
    ensures s'.queue == Without(s.queue, set id | id in s.queue && IsRunning(s', id))
  {
    var q := s.queue;
    var running := set id | id in q && IsRunning(s', id);
    forall i | 0 <= i < |q| ensures keep[i] <==> q[i] !in running {
      assert q[i] in q;
      PickHolds(q, keep, q[i]);
    }
    PickIsWithout(q, keep, running);
  }

  /** If no task is queued twice, what remains is the old queue, in its old order, minus the tasks
      now running, and all of it is pending. */
  lemma DrainKeepsOrder(cfg: Config, s: State, cs: seq<Choice>)
    requires |s.queue| == |cs| && Sorted(s) && Distinct(s.queue)
    ensures var s' := Drain(cfg, s, cs);
            && s'.queue == Without(s.queue, set id | id in s.queue && IsRunning(s', id))
            && (forall id :: id in s'.queue ==> IsPending(s', id))
  {
    var keep := DrainPrefix(cfg, s, cs, |cs|);
    AllDrained(s, Drain(cfg, s, cs), keep);
    DistinctDrained(s, Drain(cfg, s, cs), keep);
  }

  /** Queueing a task puts it behind all waiting tasks of its priority or higher and before all
      of lower priority: equal priorities are served first come, first served. */
  lemma EnqueueIsStable(s: State, id: TaskId, t: Task) returns (k: nat)
    requires Sorted(s) && (id in s.tasks ==> s.tasks[id].priority == t.priority)
    ensures k <= |s.queue| && Enqueue(s, id, t).queue == s.queue[..k] + [id] + s.queue[k..]
    ensures forall i :: 0 <= i < k ==> Prio(s.tasks, s.queue[i]) >= t.priority
    ensures forall i :: k <= i < |s.queue| ==> Prio(s.tasks, s.queue[i]) < t.priority
  {
    var tasks := s.tasks[id := t.(status := Pending, assignedTo := [])];
    k := InsertAt(s.queue, tasks, t.priority);
    assert forall i :: 0 <= i < |s.queue| ==> s.queue[i] in s.queue && Prio(tasks, s.queue[i]) == Prio(s.tasks, s.queue[i]);
  }

  /** migrate_task, undisturbed: release, assign again, and retry if the call said no. */
  function MigrateTask(cfg: Config, s: State, id: TaskId, c: Choice): (State, bool) {
    var (s1, running) := MigrateSection(s, id);
    if !running then (s1, false)
    else
      var (s2, ok) := AssignTask(cfg, s1, id, s1.tasks[id], c);
      (if ok || id !in s2.tasks then s2 else RetrySection(cfg, s2, id), ok)
  }

  /** check_timeouts over the tasks of `ids`, which are the overdue ones in dictionary order. */
  function TimeoutAll(cfg: Config, s: State, ids: seq<TaskId>): State {
    if ids == [] then s else TimeoutSection(cfg, TimeoutAll(cfg, s, ids[..|ids| - 1]), ids[|ids| - 1])
  }

  /** One sweep puts every overdue running task through the retry rule once and touches nothing
      else; no counter moves. */
  lemma {:induction false} TimeoutSweep(cfg: Config, s: State, ids: seq<TaskId>)
    requires Distinct(ids)
    ensures var s' := TimeoutAll(cfg, s, ids);
            && s'.nodes == s.nodes && s'.queue == s.queue && s'.tasks.Keys == s.tasks.Keys
            && (forall id :: id in s.tasks ==>
                  s'.tasks[id] == if id in ids && IsRunning(s, id) then Retried(cfg, s.tasks[id]) else s.tasks[id])
  {
    if ids != [] {
      var past, last := ids[..|ids| - 1], ids[|ids| - 1];
      TimeoutSweep(cfg, s, past);
      assert ids == past + [last] && last !in past;
    }
  }
}
