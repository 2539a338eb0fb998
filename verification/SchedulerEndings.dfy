/** How a work item comes by its status, and who waits for a retry, over every interleaving: a
    table of what each section gives, and theorems that a run's end is the last thing given. */
module SchedulerEndings {
  import opened Options
  import opened SchedulerModel
  import opened Sequences
  import opened SchedulerCapacity
  import opened SchedulerQueue
  import opened SchedulerOutcomes

  // ---------- what the retry rule and the outcomes do ----------

  predicate Spent(cfg: Config, s: State, id: TaskId) {
    id in s.tasks && s.tasks[id].retries >= cfg.maxRetry
  }

  /** The retry rule: a spent task fails where it is; any other leaves its nodes, avoids them from
      now on unless it is pinned to them, has one retry less, and waits. */
  ghost predicate SentToRetry(cfg: Config, t: Task, t': Task) {
    if t.retries >= cfg.maxRetry then t' == t.(status := Failed)
    else
      && t' == t.(status := Pending, assignedTo := [], retries := t.retries + 1, exclude := t'.exclude)
      && t.exclude <= t'.exclude
      && forall n :: n in t'.exclude <==> n in t.exclude || (n in t.assignedTo && t.pinned != Some(n))
  }

  lemma RetriedIsSent(cfg: Config, t: Task)
    ensures SentToRetry(cfg, t, Retried(cfg, t))
  {
    AddNewExtends(t.exclude, Filter(t.assignedTo, n => t.pinned != Some(n)));
  }

  /** Every node of `held` gives back a slot, if it has any out. */
  ghost predicate SlotsBack(s: State, s': State, held: seq<NodeId>) {
    && s'.nodes.Keys == s.nodes.Keys
    && forall n :: n in s.nodes ==>
         s'.nodes[n] == s.nodes[n].(active := if n in held && s.nodes[n].active > 0 then s.nodes[n].active - 1
                                              else if n in held then 0 else s.nodes[n].active)
  }

  /** Finalizing a running task gives its slots back and ends it as the outcome says: success
      completes it, a part of the nodes done makes it partly done, a fatal error fails it, any
      other error sends it to the retry rule, which lists it last. */
  lemma FinalizeGives(cfg: Config, s: State, id: TaskId, o: Outcome)
    ensures var s' := FinalizeSection(cfg, s, id, o);
            if Waits(s, id) then s' == s
            else
              var t := s.tasks[id];
              && id in s'.tasks && s'.tasks == s.tasks[id := s'.tasks[id]]
              && SlotsBack(s, s', t.assignedTo) && s'.queue == s.queue
              && s'.retry == s.retry + (if o == Retryable && t.retries < cfg.maxRetry then [id] else [])
              && match o
                 case Success => s'.tasks[id] == t.(status := Completed)
                 case PartlyDone => s'.tasks[id] == t.(status := Partial)
                 case Fatal => s'.tasks[id] == t.(status := Failed)
                 case Retryable => SentToRetry(cfg, t, s'.tasks[id])
  {
    if !Waits(s, id) { RetriedIsSent(cfg, s.tasks[id]); }
  }

  /** Migrating a running task gives its slots back and excludes every node it was on. */
  lemma MigrateGives(s: State, id: TaskId)
    ensures var (s', ok) := MigrateSection(s, id);
            if Waits(s, id) then !ok && s' == s
            else
              var t := s.tasks[id];
              && ok && id in s'.tasks && s'.tasks == s.tasks[id := s'.tasks[id]]
              && SlotsBack(s, s', t.assignedTo) && s'.queue == s.queue && s'.retry == s.retry
              && s'.tasks[id] == t.(status := Pending, assignedTo := [], exclude := s'.tasks[id].exclude)
              && t.exclude <= s'.tasks[id].exclude
              && forall n :: n in s'.tasks[id].exclude <==> n in t.exclude || n in t.assignedTo
  {
    if !Waits(s, id) { AddNewExtends(s.tasks[id].exclude, s.tasks[id].assignedTo); }
  }

  /** A whole migration of a running task. It is taken off its nodes, which it avoids from now on, and
      assigned again; if that call says no, it goes to the retry rule instead. */
  lemma MigrateTaskGives(cfg: Config, s: State, id: TaskId, c: Choice)
    requires Distinct(c.sel) && Distinct(c.pool)
    ensures var (s', ok) := MigrateTask(cfg, s, id, c);
            if Waits(s, id) then !ok && s' == s
            else
              var s1 := MigrateSection(s, id).0;
              && id in s1.tasks && id in s'.tasks && Waits(s1, id)
              && var t := s1.tasks[id];
                 if Starts(s1, t, c) then ok && !Waits(s', id) && s'.retry == s.retry
                 else if !c.refused && FindsQueued(s1, id, t, c) then ok && s' == s1
                 else if !c.refused && |s.queue| < cfg.maxQueue then ok && Queued(s1, s', id, t)
                 else !ok && s'.nodes == s1.nodes && s'.queue == s.queue && SentToRetry(cfg, t, s'.tasks[id])
                      && s'.retry == s.retry + (if t.retries < cfg.maxRetry then [id] else [])
  {
    MigrateGives(s, id);
    if !Waits(s, id) {
      var s1 := MigrateSection(s, id).0;
      var t := s1.tasks[id];
      AssignIff(cfg, s1, id, t, c);
      AssignOutcomes(cfg, s1, id, t, c);
      RetriedIsSent(cfg, t);
    }
  }

  /** Nodes going offline take a running task off all its nodes; it avoids the offline ones from now
      on and is retried or, when spent, fails. No slot is given back. */
  lemma OfflineGives(cfg: Config, s: State, id: TaskId, offline: set<NodeId>)
    ensures var s' := OfflineSection(cfg, s, id, offline);
            if Waits(s, id) || (forall n :: n in s.tasks[id].assignedTo ==> n !in offline) then s' == s
            else
              var t := s.tasks[id];
              && id in s'.tasks && s'.tasks == s.tasks[id := s'.tasks[id]] && s'.nodes == s.nodes && s'.queue == s.queue
              && var t' := s'.tasks[id];
                 && t' == t.(assignedTo := [], exclude := t'.exclude,
                             status := if t.retries < cfg.maxRetry then Pending else Failed,
                             retries := if t.retries < cfg.maxRetry then t.retries + 1 else t.retries)
                 && (forall n :: n in t'.exclude <==> n in t.exclude || (n in t.assignedTo && n in offline))
                 && s'.retry == s.retry + (if t.retries < cfg.maxRetry then [id] else [])
  {
    if !Waits(s, id) && exists n :: n in offline && n in s.tasks[id].assignedTo {
      var t := s.tasks[id];
      var gone := AddNew(t.exclude, Filter(t.assignedTo, n => n in offline));
      RetriedIsSent(cfg, t.(exclude := gone, assignedTo := []));
    }
  }

  // ---------- the status after a section ----------

  ghost function StatusOf(s: State, id: TaskId): Option<TaskStatus> {
    if id in s.tasks then Some(s.tasks[id].status) else None
  }

  ghost predicate HasRoom(cfg: Config, s: State) {
    |s.queue| < cfg.maxQueue
  }

  /** The sections that send the task to the retry rule: a late refusal, whatever it does, or, for
      a running one, a retryable error, a timeout, or one of its nodes going offline. */
  ghost predicate ToRetry(s: State, e: Event, id: TaskId) {
    match e
    case RetryRefused(k) => k == id
    case Finalize(k, o) => k == id && !Waits(s, id) && o == Retryable
    case Overdue(k) => k == id && !Waits(s, id)
    case NodesOffline(k, offline) => k == id && !Waits(s, id) && exists n :: n in offline && n in s.tasks[id].assignedTo
    case _ => false
  }

  /** A live task is cancelled as the root, or through live sub-tasks. */
  ghost predicate Cancels(s: State, e: Event, id: TaskId) {
    && e.Cancel? && e.id in s.tasks && s.tasks[e.id].status in {Pending, Running}
    && id in s.tasks && (if e.withSubs then Reaches(s, e.id, id) else id == e.id)
  }

  /** The table: the status a section gives the task, if any. */
  ghost function Given(cfg: Config, s: State, e: Event, id: TaskId): Option<TaskStatus> {
    if ToRetry(s, e, id) then Some(if Spent(cfg, s, id) then Failed else Pending)
    else if Cancels(s, e, id) then Some(Cancelled)
    else if e.Join? || e.SetStatus? || e.DrainStart? || e.RetriesTaken? || e.RetryPutBack? || e.id != id then None
    else GivenTo(cfg, s, e)
  }

  ghost function GivenTo(cfg: Config, s: State, e: Event): Option<TaskStatus>
    requires !(e.Join? || e.SetStatus? || e.DrainStart? || e.RetriesTaken? || e.RetryPutBack?)
  {
    match e
    case Quota(id, _, atQuota) => if Waits(s, id) && atQuota && id !in s.queue && HasRoom(cfg, s) then Some(Pending) else None
    case Local(id, _, n) => if Waits(s, id) && n in FreeAmong(s, [n]) then Some(Running) else None
    case Shortage(id, _) => if id !in s.queue && HasRoom(cfg, s) then Some(Pending) else None
    case Confirm(id, t, sel, pool) =>
      if !Waits(s, id) then None
      else if EnoughFree(s, Object(s, id, t), sel, pool) then Some(Running)
      else if HasRoom(cfg, s) then Some(Pending) else None
    case Requeue(_) => Some(Pending)
    case Finalize(id, o) =>
      if Waits(s, id) then None
      else (match o case Success => Some(Completed) case PartlyDone => Some(Partial) case Fatal => Some(Failed) case Retryable => None)
    case Migrate(id) => if Waits(s, id) then None else Some(Pending)
    case GiveUp(_) => Some(Failed)
    case _ => None
  }

  ghost predicate AsGiven(cfg: Config, s: State, e: Event, id: TaskId, s': State) {
    StatusOf(s', id) == if Given(cfg, s, e, id).Some? then Given(cfg, s, e, id) else StatusOf(s, id)
  }

  lemma ConfirmAsGiven(cfg: Config, s: State, e: Event, id: TaskId)
    requires Enabled(s, e) && e.Confirm?
    ensures AsGiven(cfg, s, e, id, Next(cfg, s, e))
  {
    if Waits(s, e.id) { ConfirmIff(cfg, s, e.id, e.t, e.sel, e.pool); }
  }

  lemma RetryAsGiven(cfg: Config, s: State, e: Event, id: TaskId)
    requires Enabled(s, e) && (e.RetryRefused? || e.Finalize? || e.Overdue? || e.NodesOffline?)
    ensures AsGiven(cfg, s, e, id, Next(cfg, s, e))
  {
  }

  lemma CancelAsGiven(cfg: Config, s: State, e: Event, id: TaskId)
    requires e.Cancel?
    ensures AsGiven(cfg, s, e, id, Next(cfg, s, e))
  {
  }

  /** The status after a section is the one it gives, if any, else the one before. */
  lemma StatusStep(cfg: Config, s: State, e: Event, id: TaskId)
    requires Enabled(s, e)
    ensures AsGiven(cfg, s, e, id, Next(cfg, s, e))
  {
    if e.Confirm? {
      ConfirmAsGiven(cfg, s, e, id);
    } else if e.Cancel? {
      CancelAsGiven(cfg, s, e, id);
    } else if e.RetryRefused? || e.Finalize? || e.Overdue? || e.NodesOffline? {
      RetryAsGiven(cfg, s, e, id);
    }
  }

  /** What the i-th event of a run gives. */
  ghost function GivenAt(cfg: Config, es: seq<Event>, i: nat, id: TaskId): Option<TaskStatus>
    requires i < |es|
  {
    var s := After(cfg, es[..i]);
    if Enabled(s, es[i]) then Given(cfg, s, es[i], id) else None
  }

  /** The last event that gives the task a status gives it x. */
  ghost predicate LastGiven(cfg: Config, es: seq<Event>, id: TaskId, i: nat, x: TaskStatus) {
    && i < |es| && GivenAt(cfg, es, i, id) == Some(x)
    && forall j :: i < j < |es| ==> GivenAt(cfg, es, j, id) == None
  }

  lemma GivenLast(cfg: Config, es: seq<Event>, id: TaskId)
    requires es != []
    ensures StatusOf(After(cfg, es), id) ==
            if GivenAt(cfg, es, |es| - 1, id).Some? then GivenAt(cfg, es, |es| - 1, id)
            else StatusOf(After(cfg, es[..|es| - 1]), id)
  {
    var s, e := After(cfg, es[..|es| - 1]), es[|es| - 1];
    if Enabled(s, e) { StatusStep(cfg, s, e, id); }
  }

  lemma SameGiven(cfg: Config, es: seq<Event>, i: nat, id: TaskId)
    requires i < |es| - 1
    ensures GivenAt(cfg, es, i, id) == GivenAt(cfg, es[..|es| - 1], i, id)
  {
    assert es[..|es| - 1][..i] == es[..i];
  }

  ghost predicate EndsWith(cfg: Config, es: seq<Event>, id: TaskId, x: TaskStatus) {
    exists i :: LastGiven(cfg, es, id, i, x)
  }

  /** A task has the status x at the end of a run exactly if the last section that gave it any
      status gave it x. */
  lemma {:induction false} StatusIff(cfg: Config, es: seq<Event>, id: TaskId, x: TaskStatus)
    ensures StatusOf(After(cfg, es), id) == Some(x) <==> EndsWith(cfg, es, id, x)
    decreases |es|
  {
    if es != [] {
      StatusIff(cfg, es[..|es| - 1], id, x);
      GivenLast(cfg, es, id);
      EndsWithLast(cfg, es, id, x);
    }
  }

  lemma EndsWithLast(cfg: Config, es: seq<Event>, id: TaskId, x: TaskStatus)
    requires es != []
    ensures EndsWith(cfg, es, id, x) <==>
            if GivenAt(cfg, es, |es| - 1, id).Some? then GivenAt(cfg, es, |es| - 1, id) == Some(x)
            else EndsWith(cfg, es[..|es| - 1], id, x)
  {
    var k := |es| - 1;
    if GivenAt(cfg, es, k, id).Some? {
      assert GivenAt(cfg, es, k, id) == Some(x) ==> LastGiven(cfg, es, id, k, x);
    } else {
      forall i: nat ensures LastGiven(cfg, es, id, i, x) <==> LastGiven(cfg, es[..k], id, i, x) {
        LastGivenBefore(cfg, es, id, i, x);
      }
    }
  }

  lemma LastGivenBefore(cfg: Config, es: seq<Event>, id: TaskId, i: nat, x: TaskStatus)
    requires es != [] && GivenAt(cfg, es, |es| - 1, id) == None
    ensures LastGiven(cfg, es, id, i, x) <==> LastGiven(cfg, es[..|es| - 1], id, i, x)
  {
    var past := es[..|es| - 1];
    if i < |past| {
      SameGiven(cfg, es, i, id);
      if LastGiven(cfg, past, id, i, x) {
        forall j | i < j < |es| ensures GivenAt(cfg, es, j, id) == None {
          if j < |past| { SameGiven(cfg, es, j, id); }
        }
      }
      if LastGiven(cfg, es, id, i, x) {
        forall j | i < j < |past| ensures GivenAt(cfg, past, j, id) == None {
          SameGiven(cfg, es, j, id);
        }
      }
    }
  }

  /** How a task ended: completed or partly done by a result that met it running, failed by a
      fatal error, a given-up call or a spent retry, cancelled from itself or a task above it;
      and nothing stays timed out or moving. */
  lemma HowItEnded(cfg: Config, es: seq<Event>, id: TaskId) returns (i: nat)
    requires id in After(cfg, es).tasks
    ensures i < |es| && LastGiven(cfg, es, id, i, After(cfg, es).tasks[id].status)
    ensures var s, e := After(cfg, es[..i]), es[i];
            match After(cfg, es).tasks[id].status
            case Completed => e == Finalize(id, Success) && !Waits(s, id)
            case Partial => e == Finalize(id, PartlyDone) && !Waits(s, id)
            case Failed => (e == Finalize(id, Fatal) && !Waits(s, id)) || e == GiveUp(id) || (ToRetry(s, e, id) && Spent(cfg, s, id))
            case Cancelled => Cancels(s, e, id)
            case Running => e.Local? || e.Confirm?
            case Pending => true
            case TimedOut => false
            case Migrated => false
  {
    StatusIff(cfg, es, id, After(cfg, es).tasks[id].status);
    i :| LastGiven(cfg, es, id, i, After(cfg, es).tasks[id].status);
  }

  // ---------- the retry list ----------

  lemma RetryListStep(cfg: Config, s: State, e: Event)
    requires Enabled(s, e)
    ensures Next(cfg, s, e).retry ==
            if e.RetriesTaken? then []
            else if e.RetryPutBack? then s.retry + [e.id]
            else if ListsNow(cfg, s, e) then s.retry + [e.id]
            else s.retry
  {
  }

  /** The section sends a task with retries left to the retry rule. */
  ghost predicate ListsNow(cfg: Config, s: State, e: Event) {
    (e.RetryRefused? || e.Finalize? || e.Overdue? || e.NodesOffline?) && ToRetry(s, e, e.id) && !Spent(cfg, s, e.id)
  }

  /** The i-th event lists the task, and the list is not taken afterwards. */
  ghost predicate ListedSince(cfg: Config, es: seq<Event>, id: TaskId, i: nat) {
    && i < |es| && Enabled(After(cfg, es[..i]), es[i])
    && (es[i] == RetryPutBack(id) || (ListsNow(cfg, After(cfg, es[..i]), es[i]) && es[i].id == id))
    && forall j :: i < j < |es| ==> !es[j].RetriesTaken?
  }

  /** A task waits for its retry exactly if, since the list was last taken, it was put there. */
  lemma {:induction false} RetryListIff(cfg: Config, es: seq<Event>, id: TaskId)
    ensures id in After(cfg, es).retry <==> exists i :: ListedSince(cfg, es, id, i)
    decreases |es|
  {
    if es != [] {
      var past, k := es[..|es| - 1], |es| - 1;
      RetryListIff(cfg, past, id);
      if Enabled(After(cfg, past), es[k]) { RetryListStep(cfg, After(cfg, past), es[k]); }
      if exists i :: ListedSince(cfg, past, id, i) && !es[k].RetriesTaken? {
        var i :| ListedSince(cfg, past, id, i);
        ListedBefore(cfg, es, id, i);
      }
      if exists i: nat :: ListedSince(cfg, es, id, i) && i < k {
        var i: nat :| ListedSince(cfg, es, id, i) && i < k;
        ListedBefore(cfg, es, id, i);
      }
      assert ListedSince(cfg, es, id, k) <==>
             Enabled(After(cfg, past), es[k]) && (es[k] == RetryPutBack(id) || (ListsNow(cfg, After(cfg, past), es[k]) && es[k].id == id));
    }
  }

  lemma ListedBefore(cfg: Config, es: seq<Event>, id: TaskId, i: nat)
    requires i < |es| - 1
    ensures ListedSince(cfg, es, id, i) <==> ListedSince(cfg, es[..|es| - 1], id, i) && !es[|es| - 1].RetriesTaken?
  {
    var past := es[..|es| - 1];
    assert past[..i] == es[..i];
    if ListedSince(cfg, es, id, i) {
      assert forall j :: i < j < |past| ==> past[j] == es[j];
    }
  }
}
