/** Retry makes progress: a task that failed, timed out or was migrated away does not come back
    to a node it was on, and its retry budget bounds how often it is started. */
module SchedulerRetry {
  import opened Options
  import opened SchedulerModel
  import opened SchedulerCapacity

  ghost predicate AllOrNone(t: Task, offline: set<NodeId>) {
    (forall n :: n in t.assignedTo ==> n in offline) || (forall n :: n in t.assignedTo ==> n !in offline)
  }

  /** What the theorem asks of the events of an unpinned task's own life: a selection, or the
      node of the local-force rule, avoids the task's present exclusions; no late call takes it
      out of RUNNING; if its nodes go offline under it, all of them do. Anything may happen to
      other tasks. */
  ghost predicate Careful(s: State, e: Event, id: TaskId) {
    match e
    case Local(k, t, n) => k == id ==> IsRunning(s, id) || (Waiting(s, id, t) && n !in Object(s, id, t).exclude)
    case Quota(k, t, _) => k == id ==> Waiting(s, id, t) || IsRunning(s, id)
    case Shortage(k, t) => k == id ==> Waiting(s, id, t) || id in s.queue
    case Confirm(k, t, sel, _) =>
      k == id ==> IsRunning(s, id) || (Waiting(s, id, t) && forall n :: n in sel ==> n !in Object(s, id, t).exclude)
    case Requeue(k) => k == id && id in s.tasks ==> s.tasks[id].status == Pending
    case RetryRefused(k) => k == id && id in s.tasks ==> s.tasks[id].status == Pending
    case GiveUp(k) => k == id && id in s.tasks ==> s.tasks[id].status == Pending
    case NodesOffline(k, offline) => k == id && IsRunning(s, id) ==> AllOrNone(s.tasks[id], offline)
    case _ => true
  }

  ghost predicate Waiting(s: State, id: TaskId, t: Task) {
    if id in s.tasks then s.tasks[id].status == Pending else t.pinned == None
  }

  ghost predicate CarefulRun(cfg: Config, es: seq<Event>, id: TaskId)
    decreases |es|
  {
    es == [] ||
    (var past, e := es[..|es| - 1], es[|es| - 1];
     CarefulRun(cfg, past, id) && (Enabled(After(cfg, past), e) ==> Careful(After(cfg, past), e, id)))
  }

  /** The node lists the task was started on, in order. */
  ghost function Starts(cfg: Config, es: seq<Event>, id: TaskId): seq<seq<NodeId>>
    decreases |es|
  {
    if es == [] then []
    else
      var past := es[..|es| - 1];
      Starts(cfg, past, id) +
      (if !IsRunning(After(cfg, past), id) && IsRunning(After(cfg, es), id)
       then [After(cfg, es).tasks[id].assignedTo] else [])
  }

  ghost function Migrations(cfg: Config, es: seq<Event>, id: TaskId): nat
    decreases |es|
  {
    if es == [] then 0
    else
      var past := es[..|es| - 1];
      Migrations(cfg, past, id) + (if es[|es| - 1] == Migrate(id) && IsRunning(After(cfg, past), id) then 1 else 0)
  }

  ghost predicate NoTask(e: Event) {
    e.Join? || e.SetStatus? || e.DrainStart? || e.RetriesTaken? || e.RetryPutBack?
  }

  ghost predicate Apart(a: seq<NodeId>, b: seq<NodeId>) {
    forall n :: n in a ==> n !in b
  }

  ghost predicate AllApart(h: seq<seq<NodeId>>) {
    forall i, j :: 0 <= i < j < |h| ==> Apart(h[i], h[j])
  }

  ghost predicate AllIn(h: seq<seq<NodeId>>, exclude: seq<NodeId>) {
    forall i, n :: 0 <= i < |h| && n in h[i] ==> n in exclude
  }

  /** What a task's state says about where it has been. */
  ghost predicate TaskHistory(cfg: Config, t: Task, h: seq<seq<NodeId>>, migrations: nat) {
    && t.pinned == None && AllApart(h) && t.retries <= cfg.maxRetry
    && |h| <= t.retries + migrations + (if t.status == Pending then 0 else 1)
    && (t.status == Pending ==> AllIn(h, t.exclude))
    && (t.status == Running ==>
          && |h| > 0 && h[|h| - 1] == t.assignedTo
          && AllIn(h[..|h| - 1], t.exclude) && Apart(t.assignedTo, t.exclude))
  }

  ghost predicate History(cfg: Config, s: State, id: TaskId, h: seq<seq<NodeId>>, migrations: nat) {
    if id in s.tasks then TaskHistory(cfg, s.tasks[id], h, migrations) else h == []
  }

  lemma AllInMore(h: seq<seq<NodeId>>, x: seq<NodeId>, exclude: seq<NodeId>, exclude': seq<NodeId>)
    requires AllIn(h, exclude) && (forall n :: n in exclude || n in x ==> n in exclude')
    ensures AllIn(h + [x], exclude')
  {
  }

  /** After a start, everything the task was on is its node list or its exclusions; leaving the
      nodes adds the list to the exclusions. */
  lemma LeavingExcludes(cfg: Config, t: Task, h: seq<seq<NodeId>>, migrations: nat, exclude': seq<NodeId>)
    requires TaskHistory(cfg, t, h, migrations) && t.status == Running
    requires forall n :: n in t.exclude || n in t.assignedTo ==> n in exclude'
    ensures AllIn(h, exclude')
  {
    AllInMore(h[..|h| - 1], t.assignedTo, t.exclude, exclude');
    assert h[..|h| - 1] + [t.assignedTo] == h;
  }

  lemma RetriedHistory(cfg: Config, t: Task, h: seq<seq<NodeId>>, migrations: nat)
    requires TaskHistory(cfg, t, h, migrations) && (t.status == Running || (t.status == Pending && t.assignedTo == []))
    ensures TaskHistory(cfg, Retried(cfg, t), h, migrations)
  {
    if t.retries < cfg.maxRetry && t.status == Running {
      LeavingExcludes(cfg, t, h, migrations, Retried(cfg, t).exclude);
    }
  }

  /** Substitutes always respect the exclusions, so a start avoids them exactly when the still
      free part of the selection does. */
  lemma StartAvoidsExclusionsIff(s: State, t: Task, sel: seq<NodeId>, pool: seq<NodeId>)
    ensures Apart(Chosen(s, t, sel, pool), t.exclude) <==> forall n :: n in sel && FreeIn(s, n) ==> n !in t.exclude
  {
    var confirmed := Confirmed(s, sel);
    var chosen := Chosen(s, t, sel, pool);
    assert forall n :: n in confirmed <==> n in sel && FreeIn(s, n);
    assert forall n :: n in confirmed ==> n in chosen;
    if |confirmed| < t.Need() && t.pinned == None {
      var extra := Substitutes(s, confirmed, t.exclude, pool);
      assert forall n :: n in chosen ==> n in confirmed || n in extra;
    }
  }

  lemma StartHistory(cfg: Config, t: Task, h: seq<seq<NodeId>>, migrations: nat, chosen: seq<NodeId>)
    requires TaskHistory(cfg, t, h, migrations) && t.status == Pending && Apart(chosen, t.exclude)
    ensures TaskHistory(cfg, t.(status := Running, assignedTo := chosen), h + [chosen], migrations)
  {
    var h' := h + [chosen];
    assert h'[..|h'| - 1] == h;
    forall i, j | 0 <= i < j < |h'| ensures Apart(h'[i], h'[j]) {
      if j == |h| { assert forall n :: n in h[i] ==> n in t.exclude; }
    }
  }

  /** The offline section excludes all the nodes the task leaves exactly when all are offline. */
  lemma OfflineExcludesIff(cfg: Config, s: State, id: TaskId, offline: set<NodeId>)
    requires IsRunning(s, id) && Apart(s.tasks[id].assignedTo, s.tasks[id].exclude)
    requires exists n :: n in offline && n in s.tasks[id].assignedTo
    ensures var t, t' := s.tasks[id], OfflineSection(cfg, s, id, offline).tasks[id];
            && t'.assignedTo == []
            && ((forall n :: n in t.assignedTo ==> n in t'.exclude) <==> forall n :: n in t.assignedTo ==> n in offline)
  {
    var t := s.tasks[id];
    var gone := Filter(t.assignedTo, n => n in offline);
    assert AddNew(AddNew(t.exclude, gone), []) == AddNew(t.exclude, gone);
    assert Filter([], n => t.pinned != Some(n)) == [];
  }

  lemma OfflineHistory(cfg: Config, s: State, id: TaskId, offline: set<NodeId>, h: seq<seq<NodeId>>, m: nat)
    requires IsRunning(s, id) && TaskHistory(cfg, s.tasks[id], h, m) && AllOrNone(s.tasks[id], offline)
    ensures TaskHistory(cfg, OfflineSection(cfg, s, id, offline).tasks[id], h, m)
    ensures OfflineSection(cfg, s, id, offline) != s ==> !IsRunning(OfflineSection(cfg, s, id, offline), id)
  {
    var t := s.tasks[id];
    if exists n :: n in offline && n in t.assignedTo {
      OfflineExcludesIff(cfg, s, id, offline);
      var t' := OfflineSection(cfg, s, id, offline).tasks[id];
      if t'.status == Pending {
        LeavingExcludes(cfg, t, h, m, t'.exclude);
      }
    }
  }

  /** An event of another task leaves this one alone, or cancels it. */
  lemma OtherTask(cfg: Config, s: State, e: Event, id: TaskId)
    requires Enabled(s, e) && (NoTask(e) || e.Cancel? || e.id != id)
    ensures var s' := Next(cfg, s, e);
            && (id in s'.tasks <==> id in s.tasks)
            && (id in s.tasks ==> (s'.tasks[id] == s.tasks[id] ||
                  (e.Cancel? && s'.tasks[id] == s.tasks[id].(status := Cancelled, assignedTo := []))))
  {
  }

  lemma ConfirmHistory(cfg: Config, s: State, e: Event, id: TaskId, h: seq<seq<NodeId>>, migrations: nat)
    requires Inv(s) && Enabled(s, e) && e.Confirm? && e.id == id && Careful(s, e, id) && History(cfg, s, id, h, migrations)
    ensures var s' := Next(cfg, s, e);
            History(cfg, s', id, if !IsRunning(s, id) && IsRunning(s', id) then h + [s'.tasks[id].assignedTo] else h, migrations)
  {
    if !IsRunning(s, id) {
      var t := Object(s, id, e.t);
      var chosen := Chosen(s, t, e.sel, e.pool);
      assert TaskHistory(cfg, t, h, migrations);
      StartAvoidsExclusionsIff(s, t, e.sel, e.pool);
      if |chosen| >= t.Need() {
        StartHistory(cfg, t, h, migrations, chosen);
      }
    }
  }

  lemma LocalHistory(cfg: Config, s: State, e: Event, id: TaskId, h: seq<seq<NodeId>>, migrations: nat)
    requires Inv(s) && Enabled(s, e) && e.Local? && e.id == id && Careful(s, e, id) && History(cfg, s, id, h, migrations)
    ensures var s' := Next(cfg, s, e);
            History(cfg, s', id, if !IsRunning(s, id) && IsRunning(s', id) then h + [s'.tasks[id].assignedTo] else h, migrations)
  {
    if !IsRunning(s, id) && FreeIn(s, e.n) {
      var t := Object(s, id, e.t);
      assert TaskHistory(cfg, t, h, migrations);
      StartHistory(cfg, t, h, migrations, [e.n]);
    }
  }

  /** Leaving by failure or timeout goes through the retry section, by migration it does not. */
  lemma RetryHistory(cfg: Config, s: State, e: Event, id: TaskId, h: seq<seq<NodeId>>, m: nat)
    requires IsRunning(s, id) && ((e.Finalize? && e.outcome == Retryable) || e.Overdue?) && e.id == id
    requires TaskHistory(cfg, s.tasks[id], h, m)
    ensures var s' := Next(cfg, s, e);
            id in s'.tasks && !IsRunning(s', id) && TaskHistory(cfg, s'.tasks[id], h, m)
  {
    RetriedHistory(cfg, s.tasks[id], h, m);
  }

  lemma EndHistory(cfg: Config, s: State, e: Event, id: TaskId, h: seq<seq<NodeId>>, m: nat)
    requires IsRunning(s, id) && e.Finalize? && e.outcome != Retryable && e.id == id
    requires TaskHistory(cfg, s.tasks[id], h, m)
    ensures var s' := Next(cfg, s, e);
            id in s'.tasks && !IsRunning(s', id) && TaskHistory(cfg, s'.tasks[id], h, m)
  {
  }

  lemma MigrateHistory(cfg: Config, s: State, id: TaskId, h: seq<seq<NodeId>>, m: nat)
    requires IsRunning(s, id) && TaskHistory(cfg, s.tasks[id], h, m)
    ensures var s' := Next(cfg, s, Migrate(id));
            id in s'.tasks && !IsRunning(s', id) && TaskHistory(cfg, s'.tasks[id], h, m + 1)
  {
    var t := s.tasks[id];
    LeavingExcludes(cfg, t, h, m, AddNew(t.exclude, t.assignedTo));
  }

  /** Queueing, refused retries and giving up concern a waiting task. */
  lemma WaitingHistory(cfg: Config, s: State, e: Event, id: TaskId, h: seq<seq<NodeId>>, m: nat)
    requires Inv(s) && Enabled(s, e) && Careful(s, e, id) && History(cfg, s, id, h, m)
    requires (e.Quota? || e.Shortage? || e.Requeue? || e.RetryRefused? || e.GiveUp?) && e.id == id
    ensures var s' := Next(cfg, s, e);
            !(!IsRunning(s, id) && IsRunning(s', id)) && History(cfg, s', id, h, m)
  {
    if id in s.tasks {
      assert TaskInv(s, s.tasks[id]);
      if s.tasks[id].status == Pending { RetriedHistory(cfg, s.tasks[id], h, m); }
    }
  }

  /** The history after an event: one more start if the task was started, one more migration if
      it was migrated. */
  ghost predicate Carried(cfg: Config, s: State, e: Event, s': State, id: TaskId, h: seq<seq<NodeId>>, m: nat) {
    History(cfg, s', id,
            h + (if !IsRunning(s, id) && IsRunning(s', id) then [s'.tasks[id].assignedTo] else []),
            m + (if e == Migrate(id) && IsRunning(s, id) then 1 else 0))
  }

  lemma SameHistory(cfg: Config, s: State, e: Event, s': State, id: TaskId, h: seq<seq<NodeId>>, m: nat)
    requires History(cfg, s', id, h, m) && (IsRunning(s', id) ==> IsRunning(s, id))
    requires e != Migrate(id) || !IsRunning(s, id)
    ensures Carried(cfg, s, e, s', id, h, m)
  {
    assert h + [] == h;
  }

  lemma OtherStep(cfg: Config, s: State, e: Event, id: TaskId, h: seq<seq<NodeId>>, m: nat)
    requires Enabled(s, e) && History(cfg, s, id, h, m) && (NoTask(e) || e.Cancel? || e.id != id)
    ensures Carried(cfg, s, e, Next(cfg, s, e), id, h, m)
  {
    OtherTask(cfg, s, e, id);
    SameHistory(cfg, s, e, Next(cfg, s, e), id, h, m);
  }

  lemma StartStep(cfg: Config, s: State, e: Event, id: TaskId, h: seq<seq<NodeId>>, m: nat)
    requires Inv(s) && Enabled(s, e) && Careful(s, e, id) && History(cfg, s, id, h, m)
    requires (e.Confirm? || e.Local?) && e.id == id
    ensures Carried(cfg, s, e, Next(cfg, s, e), id, h, m)
  {
    assert h + [] == h;
    if e.Confirm? {
      ConfirmHistory(cfg, s, e, id, h, m);
    } else {
      LocalHistory(cfg, s, e, id, h, m);
    }
  }

  lemma LeavingStep(cfg: Config, s: State, e: Event, id: TaskId, h: seq<seq<NodeId>>, m: nat)
    requires IsRunning(s, id) && Careful(s, e, id) && TaskHistory(cfg, s.tasks[id], h, m)
    requires (e.Finalize? || e.Overdue? || e.Migrate? || e.NodesOffline?) && e.id == id
    ensures Carried(cfg, s, e, Next(cfg, s, e), id, h, m)
  {
    assert h + [] == h;
    if e.Migrate? {
      MigrateHistory(cfg, s, id, h, m);
    } else if e.NodesOffline? {
      OfflineHistory(cfg, s, id, e.offline, h, m);
    } else if e.Overdue? || e.outcome == Retryable {
      RetryHistory(cfg, s, e, id, h, m);
    } else {
      EndHistory(cfg, s, e, id, h, m);
    }
  }

  lemma WaitingStep(cfg: Config, s: State, e: Event, id: TaskId, h: seq<seq<NodeId>>, m: nat)
    requires Inv(s) && Enabled(s, e) && Careful(s, e, id) && History(cfg, s, id, h, m)
    requires (e.Quota? || e.Shortage? || e.Requeue? || e.RetryRefused? || e.GiveUp?) && e.id == id
    ensures Carried(cfg, s, e, Next(cfg, s, e), id, h, m)
  {
    WaitingHistory(cfg, s, e, id, h, m);
    SameHistory(cfg, s, e, Next(cfg, s, e), id, h, m);
  }

  lemma IdleStep(cfg: Config, s: State, e: Event, id: TaskId, h: seq<seq<NodeId>>, m: nat)
    requires !IsRunning(s, id) && History(cfg, s, id, h, m)
    requires (e.Finalize? || e.Overdue? || e.Migrate? || e.NodesOffline?) && e.id == id
    ensures Carried(cfg, s, e, Next(cfg, s, e), id, h, m)
  {
    assert Next(cfg, s, e) == s;
    SameHistory(cfg, s, e, s, id, h, m);
  }

  lemma HistoryStep(cfg: Config, s: State, e: Event, id: TaskId, h: seq<seq<NodeId>>, m: nat)
    requires Inv(s) && Enabled(s, e) && Careful(s, e, id) && History(cfg, s, id, h, m)
    ensures Carried(cfg, s, e, Next(cfg, s, e), id, h, m)
  {
    if NoTask(e) || e.Cancel? || e.id != id {
      OtherStep(cfg, s, e, id, h, m);
    } else if e.Confirm? || e.Local? {
      StartStep(cfg, s, e, id, h, m);
    } else if e.Quota? || e.Shortage? || e.Requeue? || e.RetryRefused? || e.GiveUp? {
      WaitingStep(cfg, s, e, id, h, m);
    } else if IsRunning(s, id) {
      LeavingStep(cfg, s, e, id, h, m);
    } else {
      IdleStep(cfg, s, e, id, h, m);
    }
  }

  lemma RunOneMore(cfg: Config, past: seq<Event>, e: Event, id: TaskId)
    requires Carried(cfg, After(cfg, past), e, After(cfg, past + [e]), id, Starts(cfg, past, id), Migrations(cfg, past, id))
    ensures var es := past + [e]; History(cfg, After(cfg, es), id, Starts(cfg, es, id), Migrations(cfg, es, id))
  {
    var es := past + [e];
    assert es[..|es| - 1] == past && es[|es| - 1] == e;
  }

  lemma {:induction false} RunHistory(cfg: Config, es: seq<Event>, id: TaskId)
    requires CarefulRun(cfg, es, id)
    ensures History(cfg, After(cfg, es), id, Starts(cfg, es, id), Migrations(cfg, es, id))
    decreases |es|
  {
    if es != [] {
      var past, e := es[..|es| - 1], es[|es| - 1];
      var s, h, m := After(cfg, past), Starts(cfg, past, id), Migrations(cfg, past, id);
      assert es == past + [e];
      RunHistory(cfg, past, id);
      NoOvercommit(cfg, past);
      if Enabled(s, e) {
        HistoryStep(cfg, s, e, id, h, m);
      } else {
        SameHistory(cfg, s, e, s, id, h, m);
      }
      RunOneMore(cfg, past, e, id);
    }
  }

  lemma HistoryBounds(cfg: Config, s: State, id: TaskId, h: seq<seq<NodeId>>, m: nat)
    requires History(cfg, s, id, h, m)
    ensures AllApart(h) && |h| <= 1 + cfg.maxRetry + m
  {
  }

  /** For an unpinned task, successive node lists are pairwise disjoint, and it is started at most
      once plus its retry budget plus the migrations. */
  lemma RetryMakesProgress(cfg: Config, es: seq<Event>, id: TaskId)
    requires CarefulRun(cfg, es, id)
    ensures AllApart(Starts(cfg, es, id))
    ensures |Starts(cfg, es, id)| <= 1 + cfg.maxRetry + Migrations(cfg, es, id)
  {
    RunHistory(cfg, es, id);
    HistoryBounds(cfg, After(cfg, es), id, Starts(cfg, es, id), Migrations(cfg, es, id));
  }

  /** A task does come back: it runs on n, fails, and is started on n again from a selection made
      before it failed, although n is excluded by then. */
  lemma ReturnsToANode(cfg: Config, n: NodeId, id: TaskId, t: Task) returns (es: seq<Event>)
    requires New(t) && t.shards <= 1 && t.pinned == None && cfg.maxRetry > 0
    ensures var s := After(cfg, es);
            IsRunning(s, id) && s.tasks[id].assignedTo == [n] && n in s.tasks[id].exclude
  {
    es := OneNodeFull(cfg, n, id, t);
    AfterOneMore(cfg, es, Finalize(id, Retryable));
    FailedOnOnlyNode(cfg, After(cfg, es), n, id, t);
    es := es + [Finalize(id, Retryable)];
    es := StartedAgain(cfg, es, n, id, t);
  }

  lemma FailedOnOnlyNode(cfg: Config, s: State, n: NodeId, id: TaskId, t: Task)
    requires New(t) && t.pinned == None && cfg.maxRetry > 0
    requires s.nodes == map[n := Node(Online, 1, 1)] && s.tasks == map[id := t.(status := Running, assignedTo := [n])]
    ensures var s' := FinalizeSection(cfg, s, id, Retryable);
            && FreeIn(s', n) && id in s'.tasks && s'.tasks[id].status == Pending && s'.tasks[id].shards == t.shards
            && s'.tasks[id].pinned == None && n in s'.tasks[id].exclude
  {
    assert Released(s.nodes, [n])[n] == Node(Online, 0, 1);
    assert n in Filter([n], m => t.pinned != Some(m));
  }

  lemma ConfirmedOnOne(cfg: Config, s: State, n: NodeId, id: TaskId, t: Task)
    requires FreeIn(s, n) && id in s.tasks && s.tasks[id].status == Pending && s.tasks[id].shards <= 1
    ensures ConfirmSection(cfg, s, id, t, [n], []).0.tasks == s.tasks[id := s.tasks[id].(status := Running, assignedTo := [n])]
  {
    ChosenOne(s, s.tasks[id], n);
  }

  lemma StartedAgain(cfg: Config, es: seq<Event>, n: NodeId, id: TaskId, t: Task) returns (es': seq<Event>)
    requires New(t) && FreeIn(After(cfg, es), n) && id in After(cfg, es).tasks
    requires var t' := After(cfg, es).tasks[id]; t'.status == Pending && t'.shards <= 1 && n in t'.exclude
    ensures var s := After(cfg, es');
            IsRunning(s, id) && s.tasks[id].assignedTo == [n] && n in s.tasks[id].exclude
  {
    var s := After(cfg, es);
    ConfirmedOnOne(cfg, s, n, id, t);
    es' := es + [Confirm(id, t, [n], [])];
    OneMoreConfirm(cfg, es, n, id, t);
  }

  lemma OneMoreConfirm(cfg: Config, es: seq<Event>, n: NodeId, id: TaskId, t: Task)
    requires id in After(cfg, es).tasks
    ensures After(cfg, es + [Confirm(id, t, [n], [])]) == ConfirmSection(cfg, After(cfg, es), id, t, [n], []).0
  {
    AfterOneMore(cfg, es, Confirm(id, t, [n], []));
  }
}
