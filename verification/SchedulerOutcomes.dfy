/** What the calls achieve: which calls start an item and on what, which status every section
    gives, how an item came by the status it has, and who waits for a retry. The statements speak
    of nodes, slots, selections and exclusions, and not of the sections' own helpers. */
module SchedulerOutcomes {
  import opened Options
  import opened SchedulerModel
  import opened Sequences
  import opened SchedulerCapacity
  import opened SchedulerQueue

  /** The nodes of a list that are online with a slot to spare. */
  ghost function FreeAmong(s: State, ns: seq<NodeId>): set<NodeId> {
    set n | n in ns && n in s.nodes && s.nodes[n].status == Online && s.nodes[n].active < s.nodes[n].max
  }

  /** The stand-ins for busy nodes: free, not excluded, not selected. A pinned task has none. */
  ghost function StandIns(s: State, t: Task, sel: seq<NodeId>, pool: seq<NodeId>): set<NodeId> {
    if t.pinned.Some? then {} else set n | n in FreeAmong(s, pool) && n !in t.exclude && n !in FreeAmong(s, sel)
  }

  ghost function Needed(t: Task): nat {
    if t.shards > 0 then t.shards else 1
  }

  ghost predicate EnoughFree(s: State, t: Task, sel: seq<NodeId>, pool: seq<NodeId>) {
    |FreeAmong(s, sel)| + |StandIns(s, t, sel, pool)| >= Needed(t)
  }

  ghost predicate Waits(s: State, id: TaskId) {
    id !in s.tasks || s.tasks[id].status != Running
  }

  /** t runs on ns: one slot more on each of its nodes, nothing else changed. */
  ghost predicate RunsOn(s: State, s': State, id: TaskId, t: Task, ns: seq<NodeId>) {
    && s'.tasks == s.tasks[id := t.(status := Running, assignedTo := ns)]
    && s'.queue == s.queue && s'.retry == s.retry && s'.nodes.Keys == s.nodes.Keys
    && forall n :: n in s.nodes ==>
         s'.nodes[n] == s.nodes[n].(active := s.nodes[n].active + (if n in ns then 1 else 0))
  }

  /** First the free selected nodes, then as many stand-ins as are missing, the best ones. */
  ghost predicate ChosenFrom(s: State, t: Task, sel: seq<NodeId>, pool: seq<NodeId>, ns: seq<NodeId>) {
    var free, spare := FreeAmong(s, sel), StandIns(s, t, sel, pool);
    && Distinct(ns) && (forall n :: n in free ==> n in ns) && (forall n :: n in ns ==> n in free || n in spare)
    && |ns| == (if |free| >= Needed(t) then |free| else Needed(t))
    && (forall i :: 0 <= i < |free| ==> ns[i] in free)
    && BestFirst(pool, spare, ns)
  }

  /** Of the candidates, those used come first in the list. */
  ghost predicate BestFirst(list: seq<NodeId>, candidates: set<NodeId>, used: seq<NodeId>) {
    forall i, j :: 0 <= i < j < |list| && list[i] in candidates && list[j] in candidates && list[j] in used ==> list[i] in used
  }

  lemma {:induction false} FilterPrefix<T(!new)>(s: seq<T>, keep: T -> bool, k: nat, i: nat, j: nat)
    requires Distinct(s) && k <= |Filter(s, keep)| && i < j < |s| && keep(s[i]) && s[j] in Filter(s, keep)[..k]
    ensures s[i] in Filter(s, keep)[..k]
  {
    var front := s[..|s| - 1];
    if j == |s| - 1 {
      assert s[j] !in Filter(front, keep);
      assert k == |Filter(s, keep)|;
      assert Filter(s, keep)[..k] == Filter(s, keep);
    } else if k > |Filter(front, keep)| {
      assert Filter(s, keep)[..k] == Filter(s, keep);
    } else {
      assert Filter(s, keep)[..k] == Filter(front, keep)[..k];
      FilterPrefix(front, keep, k, i, j);
    }
  }

  /** t waits in the queue behind its equals; no node changes. */
  ghost predicate QueuedAt(s: State, s': State, id: TaskId, t: Task, k: nat) {
    && s'.tasks == s.tasks[id := t.(status := Pending, assignedTo := [])]
    && k <= |s.queue| && s'.queue == s.queue[..k] + [id] + s.queue[k..]
    && (forall i :: 0 <= i < k ==> Prio(s'.tasks, s.queue[i]) >= t.priority)
    && (k < |s.queue| ==> Prio(s'.tasks, s.queue[k]) < t.priority)
    && s'.nodes == s.nodes && s'.retry == s.retry
  }

  ghost predicate Queued(s: State, s': State, id: TaskId, t: Task) {
    exists k: nat :: QueuedAt(s, s', id, t, k)
  }

  lemma EnqueueQueues(s: State, id: TaskId, t: Task)
    ensures Queued(s, Enqueue(s, id, t), id, t)
  {
    var s' := Enqueue(s, id, t);
    assert QueuedAt(s, s', id, t, InsertAt(s.queue, s'.tasks, t.priority));
  }

  /** ns lists exactly the nodes of the set, once each. */
  ghost predicate Lists(ns: seq<NodeId>, nodes: set<NodeId>) {
    Distinct(ns) && |ns| == |nodes| && forall n :: n in ns <==> n in nodes
  }

  lemma FilterLists(ns: seq<NodeId>, keep: NodeId -> bool, nodes: set<NodeId>)
    requires Distinct(ns) && forall n :: n in nodes <==> n in ns && keep(n)
    ensures Lists(Filter(ns, keep), nodes)
  {
    FilterDistinct(ns, keep);
    DistinctSize(Filter(ns, keep));
    assert (set n | n in Filter(ns, keep)) == nodes;
  }

  /** The first search of the confirm section finds the free selected nodes. */
  lemma ConfirmedAre(s: State, sel: seq<NodeId>)
    requires Distinct(sel)
    ensures Lists(Confirmed(s, sel), FreeAmong(s, sel))
  {
    FilterLists(sel, n => FreeIn(s, n), FreeAmong(s, sel));
  }

  /** The second one finds the stand-ins. */
  lemma SubstitutesAre(s: State, t: Task, sel: seq<NodeId>, pool: seq<NodeId>, confirmed: seq<NodeId>)
    requires Distinct(pool) && t.pinned == None && Lists(confirmed, FreeAmong(s, sel))
    ensures Lists(Substitutes(s, confirmed, t.exclude, pool), StandIns(s, t, sel, pool))
  {
    FilterLists(pool, n => FreeIn(s, n) && n !in confirmed && n !in t.exclude, StandIns(s, t, sel, pool));
  }

  /** The best come first. */
  lemma SubstitutesBest(s: State, t: Task, sel: seq<NodeId>, pool: seq<NodeId>, confirmed: seq<NodeId>, k: nat)
    requires Distinct(pool) && t.pinned == None && Lists(confirmed, FreeAmong(s, sel))
    requires k <= |Substitutes(s, confirmed, t.exclude, pool)|
    ensures BestFirst(pool, StandIns(s, t, sel, pool), Substitutes(s, confirmed, t.exclude, pool)[..k])
  {
    var fit := n => FreeIn(s, n) && n !in confirmed && n !in t.exclude;
    forall i, j | 0 <= i < j < |pool| && pool[i] in StandIns(s, t, sel, pool) && pool[j] in Filter(pool, fit)[..k]
      ensures pool[i] in Filter(pool, fit)[..k]
    {
      FilterPrefix(pool, fit, k, i, j);
    }
  }

  /** A list of nodes joined from the free selected ones and the first stand-ins. */
  lemma JoinedChosen(s: State, t: Task, sel: seq<NodeId>, pool: seq<NodeId>, confirmed: seq<NodeId>, extra: seq<NodeId>)
    requires Lists(confirmed, FreeAmong(s, sel)) && Distinct(extra)
    requires forall n :: n in extra ==> n in StandIns(s, t, sel, pool)
    requires BestFirst(pool, StandIns(s, t, sel, pool), extra)
    requires |confirmed + extra| == if |confirmed| >= Needed(t) then |confirmed| else Needed(t)
    ensures ChosenFrom(s, t, sel, pool, confirmed + extra)
  {
    var ns := confirmed + extra;
    forall i, j | 0 <= i < j < |ns| ensures ns[i] != ns[j] {
      if i < |confirmed| <= j { assert ns[j] in extra && ns[i] in confirmed; }
    }
    assert forall n :: n in ns <==> n in confirmed || n in extra;
    forall i | 0 <= i < |confirmed| ensures ns[i] in FreeAmong(s, sel) {
      assert ns[i] in confirmed;
    }
  }

  ghost predicate ChosenRight(s: State, t: Task, sel: seq<NodeId>, pool: seq<NodeId>, ns: seq<NodeId>) {
    && (|ns| >= Needed(t) <==> EnoughFree(s, t, sel, pool))
    && (|ns| >= Needed(t) ==> ChosenFrom(s, t, sel, pool, ns))
  }

  lemma ConfirmedRight(s: State, t: Task, sel: seq<NodeId>, pool: seq<NodeId>, confirmed: seq<NodeId>)
    requires Lists(confirmed, FreeAmong(s, sel)) && (|confirmed| >= Needed(t) || t.pinned.Some?)
    ensures ChosenRight(s, t, sel, pool, confirmed)
  {
    if |confirmed| >= Needed(t) {
      JoinedChosen(s, t, sel, pool, confirmed, []);
      assert confirmed + [] == confirmed;
    }
  }

  lemma StandInsRight(s: State, t: Task, sel: seq<NodeId>, pool: seq<NodeId>, confirmed: seq<NodeId>, extra: seq<NodeId>)
    requires |confirmed| < Needed(t) && Lists(confirmed, FreeAmong(s, sel)) && Lists(extra, StandIns(s, t, sel, pool))
    requires |confirmed| + |extra| >= Needed(t) ==> BestFirst(pool, StandIns(s, t, sel, pool), extra[..Needed(t) - |confirmed|])
    ensures var short := Needed(t) - |confirmed|;
            ChosenRight(s, t, sel, pool, confirmed + if |extra| <= short then extra else extra[..short])
  {
    var short := Needed(t) - |confirmed|;
    if |extra| >= short {
      assert extra[..|extra|] == extra;
      JoinedChosen(s, t, sel, pool, confirmed, extra[..short]);
    }
  }

  lemma ChosenWithStandIns(s: State, t: Task, sel: seq<NodeId>, pool: seq<NodeId>)
    requires Distinct(pool) && t.pinned == None && |Confirmed(s, sel)| < Needed(t)
    requires Lists(Confirmed(s, sel), FreeAmong(s, sel))
    ensures ChosenRight(s, t, sel, pool, Chosen(s, t, sel, pool))
  {
    var confirmed := Confirmed(s, sel);
    var extra := Substitutes(s, confirmed, t.exclude, pool);
    SubstitutesAre(s, t, sel, pool, confirmed);
    if |confirmed| + |extra| >= Needed(t) { SubstitutesBest(s, t, sel, pool, confirmed, Needed(t) - |confirmed|); }
    StandInsRight(s, t, sel, pool, confirmed, extra);
  }

  /** What is chosen: enough exactly if enough are free, and then the nodes named by ChosenFrom. */
  lemma ChosenIs(s: State, t: Task, sel: seq<NodeId>, pool: seq<NodeId>)
    requires Distinct(sel) && Distinct(pool)
    ensures ChosenRight(s, t, sel, pool, Chosen(s, t, sel, pool))
  {
    ConfirmedAre(s, sel);
    if |Confirmed(s, sel)| >= Needed(t) || t.pinned.Some? {
      ConfirmedRight(s, t, sel, pool, Confirmed(s, sel));
    } else {
      ChosenWithStandIns(s, t, sel, pool);
    }
  }

  /** The confirm section starts a task exactly when enough nodes are free; otherwise it queues it
      if the queue has room. */
  lemma ConfirmIff(cfg: Config, s: State, id: TaskId, t0: Task, sel: seq<NodeId>, pool: seq<NodeId>)
    requires Distinct(sel) && Distinct(pool) && Waits(s, id)
    ensures var (s', ok) := ConfirmSection(cfg, s, id, t0, sel, pool);
            var t := Object(s, id, t0);
            if EnoughFree(s, t, sel, pool)
            then ok && exists ns :: RunsOn(s, s', id, t, ns) && ChosenFrom(s, t, sel, pool, ns)
            else if |s.queue| < cfg.maxQueue then ok && Queued(s, s', id, t)
            else !ok && s' == s
  {
    var t := Object(s, id, t0);
    ChosenIs(s, t, sel, pool);
    EnqueueQueues(s, id, t);
    var ns := Chosen(s, t, sel, pool);
    if EnoughFree(s, t, sel, pool) {
      assert RunsOn(s, ConfirmSection(cfg, s, id, t0, sel, pool).0, id, t, ns);
    }
  }

  /** The local-force rule applies and its node is free. */
  ghost predicate LocalStart(s: State, t: Task, c: Choice) {
    c.localForce && t.preferred.Some? && t.preferred.value in FreeAmong(s, [t.preferred.value])
  }

  ghost predicate NodesSuffice(s: State, t: Task, c: Choice) {
    |c.sel| >= Needed(t) && EnoughFree(s, t, c.sel, c.pool)
  }

  /** The calls that start a waiting task. */
  ghost predicate Starts(s: State, t: Task, c: Choice) {
    !c.refused && !c.atQuota && (LocalStart(s, t, c) || NodesSuffice(s, t, c))
  }

  /** The calls that find the task in the queue and leave it there: the confirm section does not look. */
  ghost predicate FindsQueued(s: State, id: TaskId, t: Task, c: Choice) {
    id in s.queue && (c.atQuota || |c.sel| < Needed(t))
  }

  ghost predicate StartsOn(s: State, t: Task, c: Choice, ns: seq<NodeId>) {
    if LocalStart(s, t, c) then ns == [t.preferred.value] else ChosenFrom(s, t, c.sel, c.pool, ns)
  }

  lemma StartedLocally(cfg: Config, s: State, id: TaskId, t0: Task, c: Choice)
    requires Waits(s, id) && Starts(s, Object(s, id, t0), c) && LocalStart(s, Object(s, id, t0), c)
    ensures var (s', ok) := AssignTask(cfg, s, id, t0, c);
            var t := Object(s, id, t0);
            ok && RunsOn(s, s', id, t, [t.preferred.value])
  {
  }

  lemma NotStartedLocally(cfg: Config, s: State, id: TaskId, t0: Task, c: Choice)
    requires Waits(s, id) && !c.refused && !c.atQuota && !LocalStart(s, Object(s, id, t0), c)
    ensures AssignTask(cfg, s, id, t0, c) ==
            if |c.sel| < Needed(Object(s, id, t0)) then ShortageSection(cfg, s, id, Object(s, id, t0))
            else ConfirmSection(cfg, s, id, Object(s, id, t0), c.sel, c.pool)
  {
  }

  /** The outcome of a whole call on a waiting task, registered or new. It starts the task, on the
      preferred node or on what is free, exactly when Starts holds; otherwise the task is queued,
      unless the call was refused, found it queued already, or found the queue full, and then
      nothing changes. */
  lemma AssignIff(cfg: Config, s: State, id: TaskId, t0: Task, c: Choice)
    requires Distinct(c.sel) && Distinct(c.pool) && Waits(s, id)
    ensures var (s', ok) := AssignTask(cfg, s, id, t0, c);
            var t := Object(s, id, t0);
            if Starts(s, t, c) then
              && ok
              && (exists ns :: RunsOn(s, s', id, t, ns) && StartsOn(s, t, c, ns))
            else if c.refused then !ok && s' == s
            else if FindsQueued(s, id, t, c) then ok && s' == s
            else if |s.queue| >= cfg.maxQueue then !ok && s' == s
            else ok && Queued(s, s', id, t)
  {
    var t := Object(s, id, t0);
    EnqueueQueues(s, id, t);
    if !c.refused && !c.atQuota {
      if LocalStart(s, t, c) {
        StartedLocally(cfg, s, id, t0, c);
      } else {
        NotStartedLocally(cfg, s, id, t0, c);
        ConfirmIff(cfg, s, id, t, c.sel, c.pool);
      }
    }
  }

  /** A call on a running task changes nothing, and says yes unless it is refused. */
  lemma AssignRunning(cfg: Config, s: State, id: TaskId, t0: Task, c: Choice)
    requires !Waits(s, id)
    ensures AssignTask(cfg, s, id, t0, c) == (s, !c.refused)
  {
  }

  // ---------- the drain ----------

  /** After its turn the task runs: it could be started, or someone had started it already. */
  ghost predicate TurnRuns(s: State, id: TaskId, c: Choice)
    requires id in s.tasks
  {
    if Waits(s, id) then Starts(s, s.tasks[id], c) else !c.refused
  }

  lemma TurnIff(cfg: Config, s: State, id: TaskId, c: Choice)
    requires id in s.tasks && Distinct(c.sel) && Distinct(c.pool)
    ensures Waits(DrainOne(cfg, s, id, c), id) <==> !TurnRuns(s, id, c)
  {
    if Waits(s, id) {
      AssignIff(cfg, s, id, s.tasks[id], c);
    } else {
      AssignRunning(cfg, s, id, s.tasks[id], c);
    }
  }

  lemma OtherTurn(cfg: Config, s: State, id: TaskId, other: TaskId, c: Choice)
    requires id in s.tasks && other != id && other in s.tasks
    ensures other in DrainOne(cfg, s, id, c).tasks && DrainOne(cfg, s, id, c).tasks[other] == s.tasks[other]
  {
    AssignOutcomes(cfg, s, id, s.tasks[id], c);
  }

  lemma {:induction false} LaterTurns(cfg: Config, s: State, cs: seq<Choice>, k: nat, m: nat, id: TaskId)
    requires k <= m <= |s.queue| == |cs| && id in DrainTo(cfg, s, cs, k).tasks
    requires forall j :: k <= j < m ==> s.queue[j] != id
    ensures id in DrainTo(cfg, s, cs, m).tasks && DrainTo(cfg, s, cs, m).tasks[id] == DrainTo(cfg, s, cs, k).tasks[id]
  {
    if k < m {
      LaterTurns(cfg, s, cs, k, m - 1, id);
      var before := DrainTo(cfg, s, cs, m - 1);
      if s.queue[m - 1] in before.tasks { OtherTurn(cfg, before, s.queue[m - 1], id, cs[m - 1]); }
    }
  }

  /** An undisturbed drain leaves a queued task running exactly if its turn, its last one if it is
      queued several times, met enough free nodes or found it running. */
  lemma DrainRunsIff(cfg: Config, s: State, cs: seq<Choice>, k: nat)
    requires |s.queue| == |cs| && Sorted(s) && k < |s.queue| && Distinct(cs[k].sel) && Distinct(cs[k].pool)
    requires forall j :: k < j < |s.queue| ==> s.queue[j] != s.queue[k]
    ensures var before := DrainTo(cfg, s, cs, k);
            s.queue[k] in before.tasks && (Waits(Drain(cfg, s, cs), s.queue[k]) <==> !TurnRuns(before, s.queue[k], cs[k]))
  {
    var keep := DrainPrefix(cfg, s, cs, k);
    var before, id := DrainTo(cfg, s, cs, k), s.queue[k];
    EarlierIsNoLess(s, k);
    TurnIff(cfg, before, id, cs[k]);
    DrainToOne(cfg, s, cs, k);
    LaterTurns(cfg, s, cs, k + 1, |cs|, id);
  }

  lemma DrainToOne(cfg: Config, s: State, cs: seq<Choice>, k: nat)
    requires k < |s.queue| == |cs| && s.queue[k] in DrainTo(cfg, s, cs, k).tasks
    ensures DrainTo(cfg, s, cs, k + 1) == DrainOne(cfg, DrainTo(cfg, s, cs, k), s.queue[k], cs[k])
    ensures s.queue[k] in DrainTo(cfg, s, cs, k + 1).tasks
  {
    AssignOutcomes(cfg, DrainTo(cfg, s, cs, k), s.queue[k], DrainTo(cfg, s, cs, k).tasks[s.queue[k]], cs[k]);
  }
}
