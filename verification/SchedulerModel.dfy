/** The scheduler core of ClusterMaster (fusion_multi_node/master/cluster_master.py): its state
    and what each critical section does to it. Node selection runs outside the locks, so its
    result is an arbitrary, possibly stale, list; the sections below re-check it. */
module SchedulerModel {
  import opened Options
  import opened Sequences

  type NodeId(==, !new)
  type TaskId(==, !new)

  datatype NodeStatus = Online | Offline | Busy | Fault | Error

  datatype Node = Node(status: NodeStatus, active: int, max: int) {
    predicate Free() {
      status == Online && active < max
    }
  }

  datatype TaskStatus = Pending | Running | Completed | Failed | Cancelled | Migrated | TimedOut | Partial

  /** `shards` is the number of model shards; the task needs one node per shard, at least one. */
  datatype Task = Task(
    status: TaskStatus,
    assignedTo: seq<NodeId>,
    exclude: seq<NodeId>,
    pinned: Option<NodeId>,
    preferred: Option<NodeId>,
    priority: int,
    shards: nat,
    retries: nat,
    subTasks: seq<TaskId>)
  {
    function Need(): nat { if shards == 0 then 1 else shards }

    predicate Holds(n: NodeId) { status == Running && n in assignedTo }

    predicate Live() { status == Pending || status == Running }
  }

  datatype State = State(nodes: map<NodeId, Node>, tasks: map<TaskId, Task>, queue: seq<TaskId>, retry: seq<TaskId>)

  datatype Config = Config(maxQueue: nat, maxRetry: nat)

  // ---------- sequences ----------

  function Filter<T(!new)>(s: seq<T>, keep: T -> bool): (r: seq<T>)
    ensures forall x :: x in r <==> x in s && keep(x)
    ensures |r| <= |s|
  {
    if s == [] then []
    else Filter(s[..|s| - 1], keep) + (if keep(s[|s| - 1]) then [s[|s| - 1]] else [])
  }

  lemma {:induction false} FilterDistinct<T(!new)>(s: seq<T>, keep: T -> bool)
    requires Distinct(s)
    ensures Distinct(Filter(s, keep))
  {
    if s != [] { FilterDistinct(s[..|s| - 1], keep); }
  }

  /** s without the elements of `out`, in the same order. */
  function Without<T(==, !new)>(s: seq<T>, out: set<T>): (r: seq<T>)
    ensures forall x :: x in r <==> x in s && x !in out
  {
    if s == [] then []
    else Without(s[..|s| - 1], out) + (if s[|s| - 1] in out then [] else [s[|s| - 1]])
  }

  /** Appends the nodes that are not yet listed, in order, as _enqueue_retry and migrate_task exclude nodes. */
  function AddNew<T(==, !new)>(listed: seq<T>, more: seq<T>): (r: seq<T>)
    ensures forall x :: x in r <==> x in listed || x in more
  {
    if more == [] then listed
    else
      var r := AddNew(listed, more[..|more| - 1]);
      if more[|more| - 1] in r then r else r + [more[|more| - 1]]
  }

  lemma {:induction false} AddNewExtends<T(!new)>(listed: seq<T>, more: seq<T>)
    ensures listed <= AddNew(listed, more)
  {
    if more != [] { AddNewExtends(listed, more[..|more| - 1]); }
  }

  lemma FilterLast<T(!new)>(s: seq<T>, x: T, keep: T -> bool)
    ensures Filter(s + [x], keep) == Filter(s, keep) + (if keep(x) then [x] else [])
  {
    assert (s + [x])[..|s|] == s;
  }

  lemma WithoutLast<T(!new)>(s: seq<T>, x: T, out: set<T>)
    ensures Without(s + [x], out) == Without(s, out) + (if x in out then [] else [x])
  {
    assert (s + [x])[..|s|] == s;
  }

  lemma AddNewLast<T(!new)>(listed: seq<T>, more: seq<T>, x: T)
    ensures AddNew(listed, more + [x]) == AddNew(listed, more) + (if x in AddNew(listed, more) then [] else [x])
  {
    assert (more + [x])[..|more|] == more;
  }

  // ---------- slots ----------

  function Released(nodes: map<NodeId, Node>, held: seq<NodeId>): map<NodeId, Node> {
    map n | n in nodes ::
      if n in held then nodes[n].(active := if nodes[n].active > 0 then nodes[n].active - 1 else 0) else nodes[n]
  }

  function Occupied(nodes: map<NodeId, Node>, chosen: seq<NodeId>): map<NodeId, Node> {
    map n | n in nodes :: if n in chosen then nodes[n].(active := nodes[n].active + 1) else nodes[n]
  }

  // ---------- the queue ----------

  function Prio(tasks: map<TaskId, Task>, id: TaskId): int {
    if id in tasks then tasks[id].priority else 0
  }

  /** Behind every waiting task of at least this priority that comes before a lower one. */
  function InsertAt(q: seq<TaskId>, tasks: map<TaskId, Task>, priority: int): (k: nat)
    ensures k <= |q|
    ensures forall i :: 0 <= i < k ==> Prio(tasks, q[i]) >= priority
    ensures k < |q| ==> Prio(tasks, q[k]) < priority
  {
    if q == [] || priority > Prio(tasks, q[0]) then 0 else 1 + InsertAt(q[1..], tasks, priority)
  }

  /** Registers the task as pending and unassigned, whatever it was, and queues it. */
  function Enqueue(s: State, id: TaskId, t: Task): State {
    var tasks := s.tasks[id := t.(status := Pending, assignedTo := [])];
    var k := InsertAt(s.queue, tasks, t.priority);
    s.(tasks := tasks, queue := s.queue[..k] + [id] + s.queue[k..])
  }

  function EnqueueCapped(cfg: Config, s: State, id: TaskId, t: Task): (State, bool) {
    if |s.queue| >= cfg.maxQueue then (s, false) else (Enqueue(s, id, t), true)
  }

  // ---------- the critical sections ----------

  /** The task object a call works on: the registered one, or the new one it was given. */
  function Object(s: State, id: TaskId, t: Task): Task {
    if id in s.tasks then s.tasks[id] else t
  }

  predicate IsRunning(s: State, id: TaskId) {
    id in s.tasks && s.tasks[id].status == Running
  }

  /** First section of assign_task: nothing for a running task, the queue for a tenant at quota.
      The flag says whether the call ends here, and with which answer. */
  function QuotaSection(cfg: Config, s: State, id: TaskId, t: Task, atQuota: bool): (State, Option<bool>) {
    if IsRunning(s, id) then (s, Some(true))
    else if !atQuota then (s, None)
    else if id in s.queue then (s, Some(true))
    else
      var (s', ok) := EnqueueCapped(cfg, s, id, Object(s, id, t));
      (s', Some(ok))
  }

  /** The locked part of the local-force path, for the task's preferred node. */
  function LocalSection(s: State, id: TaskId, t: Task, n: NodeId): (State, Option<bool>) {
    if IsRunning(s, id) then (s, Some(true))
    else if n !in s.nodes || !s.nodes[n].Free() then (s, None)
    else (s.(tasks := s.tasks[id := Object(s, id, t).(status := Running, assignedTo := [n])],
             nodes := Occupied(s.nodes, [n])), Some(true))
  }

  /** Selection came back short. This section does not look at the task's status. */
  function ShortageSection(cfg: Config, s: State, id: TaskId, t: Task): (State, bool) {
    if id in s.queue then (s, true) else EnqueueCapped(cfg, s, id, Object(s, id, t))
  }

  predicate FreeIn(s: State, n: NodeId) {
    n in s.nodes && s.nodes[n].Free()
  }

  function Confirmed(s: State, sel: seq<NodeId>): seq<NodeId> {
    Filter(sel, n => FreeIn(s, n))
  }

  /** Free nodes of the pool that are neither confirmed already nor excluded. */
  function Substitutes(s: State, confirmed: seq<NodeId>, exclude: seq<NodeId>, pool: seq<NodeId>): seq<NodeId> {
    Filter(pool, n => FreeIn(s, n) && n !in confirmed && n !in exclude)
  }

  /** The selected nodes that are still free, then, for an unpinned task, substitutes for the
      missing ones: `pool` lists the nodes the substitute search may use, best first. */
  function Chosen(s: State, t: Task, sel: seq<NodeId>, pool: seq<NodeId>): seq<NodeId> {
    var confirmed := Confirmed(s, sel);
    if |confirmed| >= t.Need() || t.pinned.Some? then confirmed
    else
      var extra := Substitutes(s, confirmed, t.exclude, pool);
      var short := t.Need() - |confirmed|;
      confirmed + (if |extra| <= short then extra else extra[..short])
  }

  /** The confirm section: run on the chosen nodes if they suffice, else queue. */
  function ConfirmSection(cfg: Config, s: State, id: TaskId, t0: Task, sel: seq<NodeId>, pool: seq<NodeId>): (State, bool) {
    if IsRunning(s, id) then (s, true)
    else
      var t := Object(s, id, t0);
      var chosen := Chosen(s, t, sel, pool);
      if |chosen| < t.Need() then EnqueueCapped(cfg, s, id, t)
      else (s.(tasks := s.tasks[id := t.(status := Running, assignedTo := chosen)],
               nodes := Occupied(s.nodes, chosen)), true)
  }

  /** What _enqueue_retry makes of a task: spent tasks fail and keep their node list; the others
      exclude the nodes they were on, except a pinned one, and wait. */
  function Retried(cfg: Config, t: Task): Task {
    if t.retries >= cfg.maxRetry then t.(status := Failed)
    else t.(exclude := AddNew(t.exclude, Filter(t.assignedTo, n => t.pinned != Some(n))),
            retries := t.retries + 1, status := Pending, assignedTo := [])
  }

  function RetrySection(cfg: Config, s: State, id: TaskId): State
    requires id in s.tasks
  {
    var t := s.tasks[id];
    s.(tasks := s.tasks[id := Retried(cfg, t)],
       retry := if t.retries >= cfg.maxRetry then s.retry else s.retry + [id])
  }

  datatype Outcome = Success | PartlyDone | Retryable | Fatal

  function FinalizeSection(cfg: Config, s: State, id: TaskId, o: Outcome): State {
    if !IsRunning(s, id) then s
    else
      var s1 := s.(nodes := Released(s.nodes, s.tasks[id].assignedTo));
      match o
      case Success => s1.(tasks := s1.tasks[id := s1.tasks[id].(status := Completed)])
      case PartlyDone => s1.(tasks := s1.tasks[id := s1.tasks[id].(status := Partial)])
      case Retryable => RetrySection(cfg, s1, id)
      case Fatal => s1.(tasks := s1.tasks[id := s1.tasks[id].(status := Failed)])
  }

  /** The locked part of migrate_task; a pinned node is excluded here as well. */
  function MigrateSection(s: State, id: TaskId): (State, bool) {
    if !IsRunning(s, id) then (s, false)
    else
      var t := s.tasks[id];
      (s.(nodes := Released(s.nodes, t.assignedTo),
          tasks := s.tasks[id := t.(status := Pending, exclude := AddNew(t.exclude, t.assignedTo), assignedTo := [])]), true)
  }

  /** check_timeouts on one overdue task: no slot is given back. */
  function TimeoutSection(cfg: Config, s: State, id: TaskId): State {
    if IsRunning(s, id) then RetrySection(cfg, s, id) else s
  }

  /** _refresh_node_statuses on one task: only its offline nodes are excluded, no slot is given back. */
  function OfflineSection(cfg: Config, s: State, id: TaskId, offline: set<NodeId>): State {
    if IsRunning(s, id) && exists n :: n in offline && n in s.tasks[id].assignedTo then
      var t := s.tasks[id];
      RetrySection(cfg, s.(tasks := s.tasks[id :=
        t.(exclude := AddNew(t.exclude, Filter(t.assignedTo, n => n in offline)), assignedTo := [])]), id)
    else s
  }

  // ---------- cancelling ----------

  /** A path of live tasks, each listing the next as a sub-task. */
  ghost predicate LivePath(s: State, p: seq<TaskId>) {
    && p != []
    && (forall i :: 0 <= i < |p| ==> p[i] in s.tasks && s.tasks[p[i]].Live())
    && (forall i :: 0 < i < |p| ==> p[i] in s.tasks[p[i - 1]].subTasks)
  }

  ghost predicate Reaches(s: State, root: TaskId, id: TaskId) {
    exists p :: LivePath(s, p) && p[0] == root && p[|p| - 1] == id
  }

  ghost function Doomed(s: State, root: TaskId, withSubs: bool): set<TaskId> {
    set id | id in s.tasks && (if withSubs then Reaches(s, root, id) else id == root)
  }

  /** The tasks of `ids` that list n as assigned. */
  ghost function On(s: State, ids: set<TaskId>, n: NodeId): set<TaskId> {
    set id | id in ids && id in s.tasks && n in s.tasks[id].assignedTo
  }

  /** All of `ids` cancelled at once, out of the queue, every slot they hold given back. */
  ghost function CancelAll(s: State, ids: set<TaskId>): State {
    State(map n | n in s.nodes :: s.nodes[n].(active := s.nodes[n].active - |On(s, ids, n)|),
          map id | id in s.tasks :: if id in ids then s.tasks[id].(status := Cancelled, assignedTo := []) else s.tasks[id],
          Without(s.queue, ids),
          s.retry)
  }

  ghost function CancelSection(s: State, root: TaskId, withSubs: bool): State {
    if root in s.tasks && s.tasks[root].Live() then CancelAll(s, Doomed(s, root, withSubs)) else s
  }
}
