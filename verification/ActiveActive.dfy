/** Active-active masters (fusion_multi_node/master/cluster_master.py): every master keeps a table
    of its own tasks and of mirrors of its peers' tasks, and peers exchange snapshots. */
module ActiveActive {
  import opened Options
  import opened SchedulerModel

  type MasterId(==, !new)

  /** `owner` is the owner_master field; None is its empty string. `succeeded` lists the nodes
      named in the outputs of a partial result, in the order the code visits them. */
  datatype OwnedTask = OwnedTask(
    status: TaskStatus, owner: Option<MasterId>,
    assignedTo: seq<NodeId>, exclude: seq<NodeId>, pinned: Option<NodeId>, succeeded: seq<NodeId>)

  type Table = map<TaskId, OwnedTask>

  /** An element of a received snapshot; one that does not parse is skipped. */
  datatype Entry = Malformed | Entry(id: TaskId, task: OwnedTask)

  /** _task_from_dict: a task that was running or moving is pending again, off its nodes. With
      partial recovery switched on, so is a partly done one, to be sent to the other nodes. */
  function FromDict(recovery: bool, t: OwnedTask): OwnedTask {
    if t.status == Running || t.status == TaskStatus.Migrated
    then t.(status := Pending, assignedTo := [], exclude := AddNew(t.exclude, Filter(t.assignedTo, n => t.pinned != Some(n))))
    else if t.status == Partial && recovery
    then t.(status := Pending, assignedTo := [], exclude := AddNew(t.exclude, t.succeeded))
    else t
  }

  /** Entries that are written to disk: those that have not ended, and, with partial recovery
      switched on, the partly done ones. */
  predicate Written(recovery: bool, t: OwnedTask) {
    t.status !in {Completed, Failed, Cancelled, TimedOut} && (t.status == Partial ==> recovery)
  }

  /** Entries a received snapshot must not replace: completed, failed, cancelled and timed-out
      ones, and the master's own. A partly done one of another master is not protected. */
  predicate Locked(me: MasterId, t: OwnedTask) {
    t.status in {Completed, Failed, Cancelled, TimedOut} || t.owner == Some(me)
  }

  function ReceiveOne(me: MasterId, recovery: bool, tasks: Table, e: Entry): Table {
    if e.Malformed? || (e.id in tasks && Locked(me, tasks[e.id])) then tasks else tasks[e.id := FromDict(recovery, e.task)]
  }

  function Receive(me: MasterId, recovery: bool, tasks: Table, es: seq<Entry>): Table {
    if es == [] then tasks else ReceiveOne(me, recovery, Receive(me, recovery, tasks, es[..|es| - 1]), es[|es| - 1])
  }

  class Master {
    const haNodeId: MasterId
    const partialRecovery: bool
    var tasks: Table

    constructor (haNodeId: MasterId, partialRecovery: bool)
      ensures this.haNodeId == haNodeId && this.partialRecovery == partialRecovery && tasks == map[]
    {
      this.haNodeId, this.partialRecovery := haNodeId, partialRecovery;
      tasks := map[];
    }

    method ReceiveSyncedTasks(es: seq<Entry>) returns (merged: nat)
      modifies this
      ensures tasks == Receive(haNodeId, partialRecovery, old(tasks), es)
      ensures merged == 0 ==> tasks == old(tasks)
    {
      merged := 0;
      for i := 0 to |es|
        invariant tasks == Receive(haNodeId, partialRecovery, old(tasks), es[..i])
        invariant merged == 0 ==> tasks == old(tasks)
      {
        assert es[..i + 1][..i] == es[..i];
        match es[i]
        case Malformed =>
        case Entry(id, d) =>
          var task := FromDict(partialRecovery, d);
          if id in tasks && tasks[id].status in {Completed, Failed, Cancelled, TimedOut} {
            continue;
          }
          if id in tasks && tasks[id].owner == Some(haNodeId) {
            continue;
          }
          tasks := tasks[id := task];
          merged := merged + 1;
      }
      assert es[..|es|] == es;
    }
  }

  // ---------- receiving ----------

  /** What receiving does to one task id. */
  ghost function Seen(me: MasterId, recovery: bool, e0: Option<OwnedTask>, es: seq<Entry>, id: TaskId): Option<OwnedTask> {
    if es == [] then e0
    else
      var e, last := Seen(me, recovery, e0, es[..|es| - 1], id), es[|es| - 1];
      if last.Malformed? || last.id != id || (e.Some? && Locked(me, e.value)) then e else Some(FromDict(recovery, last.task))
  }

  /** What becomes of a listed entry: one that was running or moving is pending again, off its
      nodes, and avoids those it was on except a pinned one; with partial recovery a partly done
      one is pending again and avoids the nodes that have succeeded; any other is kept as it is. */
  ghost predicate StoredAs(recovery: bool, t: OwnedTask, stored: OwnedTask) {
    var stopped, partly := t.status in {Running, TaskStatus.Migrated}, t.status == Partial && recovery;
    if stopped || partly then
      && stored == t.(status := Pending, assignedTo := [], exclude := stored.exclude)
      && t.exclude <= stored.exclude
      && forall n :: n in stored.exclude <==>
                     n in t.exclude || (if stopped then n in t.assignedTo && t.pinned != Some(n) else n in t.succeeded)
    else stored == t
  }

  lemma FromDictStores(recovery: bool, t: OwnedTask)
    ensures StoredAs(recovery, t, FromDict(recovery, t))
  {
    AddNewExtends(t.exclude, Filter(t.assignedTo, n => t.pinned != Some(n)));
    AddNewExtends(t.exclude, t.succeeded);
  }

  ghost function Get(tasks: Table, id: TaskId): Option<OwnedTask> {
    if id in tasks then Some(tasks[id]) else None
  }

  lemma {:induction false} ReceiveIsPointwise(me: MasterId, recovery: bool, tasks: Table, es: seq<Entry>, id: TaskId)
    ensures Get(Receive(me, recovery, tasks, es), id) == Seen(me, recovery, Get(tasks, id), es, id)
  {
    if es != [] { ReceiveIsPointwise(me, recovery, tasks, es[..|es| - 1], id); }
  }

  lemma {:induction false} SeenLocked(me: MasterId, recovery: bool, e: OwnedTask, es: seq<Entry>, id: TaskId)
    requires Locked(me, e)
    ensures Seen(me, recovery, Some(e), es, id) == Some(e)
  {
    if es != [] { SeenLocked(me, recovery, e, es[..|es| - 1], id); }
  }

  ghost predicate Open(me: MasterId, e: Option<OwnedTask>) {
    e.Some? ==> !Locked(me, e.value)
  }

  /** From replaceable entries a snapshot leads to one and the same result, unless it says
      nothing about the task. */
  lemma {:induction false} SeenForgets(me: MasterId, recovery: bool, e: Option<OwnedTask>, f: Option<OwnedTask>,
                                       es: seq<Entry>, id: TaskId)
    requires Open(me, e) && Open(me, f)
    ensures var e', f' := Seen(me, recovery, e, es, id), Seen(me, recovery, f, es, id);
            e' == f' || (e' == e && f' == f)
  {
    if es != [] { SeenForgets(me, recovery, e, f, es[..|es| - 1], id); }
  }

  /** Receiving the same snapshot twice equals receiving it once, whatever the snapshot. */
  lemma ReceiveIdempotent(me: MasterId, recovery: bool, tasks: Table, es: seq<Entry>)
    ensures Receive(me, recovery, Receive(me, recovery, tasks, es), es) == Receive(me, recovery, tasks, es)
  {
    var once := Receive(me, recovery, tasks, es);
    var twice := Receive(me, recovery, once, es);
    forall id ensures Get(twice, id) == Get(once, id) {
      var e := Get(tasks, id);
      ReceiveIsPointwise(me, recovery, tasks, es, id);
      ReceiveIsPointwise(me, recovery, once, es, id);
      var f := Seen(me, recovery, e, es, id);
      if f.Some? && Locked(me, f.value) {
        SeenLocked(me, recovery, f.value, es, id);
      } else {
        if e.Some? && Locked(me, e.value) { SeenLocked(me, recovery, e.value, es, id); }
        SeenForgets(me, recovery, e, f, es, id);
      }
    }
    forall id ensures id in twice <==> id in once {
      assert Get(twice, id) == Get(once, id);
    }
    forall id | id in once ensures twice[id] == once[id] {
      assert Get(twice, id) == Get(once, id);
    }
  }

  /** The owner's entry, live or finished, is never changed by a received snapshot, and neither
      is an entry that is completed, failed, cancelled or timed out. */
  lemma {:induction false} OwnerWins(me: MasterId, recovery: bool, tasks: Table, es: seq<Entry>, id: TaskId)
    requires id in tasks && (tasks[id].status in {Completed, Failed, Cancelled, TimedOut} || tasks[id].owner == Some(me))
    ensures id in Receive(me, recovery, tasks, es) && Receive(me, recovery, tasks, es)[id] == tasks[id]
  {
    ReceiveIsPointwise(me, recovery, tasks, es, id);
    SeenLocked(me, recovery, tasks[id], es, id);
  }

  ghost predicate Mentions(e: Entry, id: TaskId) {
    e.Entry? && e.id == id
  }

  /** An entry that ends the matter: no later one of the snapshot replaces it. */
  ghost predicate Settles(me: MasterId, t: OwnedTask) {
    t.status in {Completed, Failed, Cancelled, TimedOut} || t.owner == Some(me)
  }

  /** The k-th entry decides about the task: it is the first that settles it, or, if none does, the last
      one to mention it. */
  ghost predicate Decides(me: MasterId, es: seq<Entry>, id: TaskId, k: nat) {
    && k < |es| && Mentions(es[k], id)
    && (forall j :: 0 <= j < k && Mentions(es[j], id) ==> !Settles(me, es[j].task))
    && (Settles(me, es[k].task) || forall j :: k < j < |es| ==> !Mentions(es[j], id))
  }

  ghost predicate Untouched(me: MasterId, tasks: Table, es: seq<Entry>, id: TaskId) {
    (id in tasks && Settles(me, tasks[id])) || forall j :: 0 <= j < |es| ==> !Mentions(es[j], id)
  }

  /** What a snapshot does to each task: nothing if it does not mention it or the master's own entry
      has settled it; otherwise the entry is the stored form of the one that decides. */
  lemma {:induction false} ReceivedFrom(me: MasterId, recovery: bool, tasks: Table, es: seq<Entry>, id: TaskId) returns (k: nat)
    ensures if Untouched(me, tasks, es, id) then Get(Receive(me, recovery, tasks, es), id) == Get(tasks, id)
            else Decides(me, es, id, k) && id in Receive(me, recovery, tasks, es)
                 && StoredAs(recovery, es[k].task, Receive(me, recovery, tasks, es)[id])
  {
    k := 0;
    if es != [] {
      var past, last := es[..|es| - 1], es[|es| - 1];
      k := ReceivedFrom(me, recovery, tasks, past, id);
      assert forall j :: 0 <= j < |past| ==> past[j] == es[j];
      if Mentions(last, id) && (Untouched(me, tasks, past, id) || !Settles(me, past[k].task)) {
        FromDictStores(recovery, last.task);
        k := |past|;
      }
    }
  }

  /** A partly done entry of another master is replaced by what a snapshot says of it. */
  lemma PartlyDoneIsReplaced(me: MasterId, recovery: bool, id: TaskId, mine: OwnedTask, theirs: OwnedTask)
    requires mine.status == Partial && mine.owner != Some(me) && !StoredAs(recovery, theirs, mine)
    ensures var tasks := map[id := mine];
            var tasks' := Receive(me, recovery, tasks, [Entry(id, theirs)]);
            tasks'.Keys == {id} && StoredAs(recovery, theirs, tasks'[id]) && tasks'[id] != mine
  {
    var es := [Entry(id, theirs)];
    assert es[..0] == [];
    FromDictStores(recovery, theirs);
  }

  // ---------- the masters together ----------

  /** `issued` is history: which master each task id was submitted to; `recovering` are the masters
      with partial recovery switched on; `disk` is what each master has on disk. */
  datatype World = World(
    masters: map<MasterId, Table>, disk: map<MasterId, Table>, recovering: set<MasterId>,
    snapshots: set<seq<Entry>>, issued: map<TaskId, MasterId>)

  /** Local is any change the scheduler of a master makes to one of its entries. Persist writes the
      entries to disk; Restart reloads what was written last, however old. */
  datatype Event =
    | Submit(m: MasterId, id: TaskId, task: OwnedTask)
    | Local(m: MasterId, id: TaskId, task: OwnedTask)
    | Persist(m: MasterId)
    | Restart(m: MasterId)
    | Send(m: MasterId, es: seq<Entry>)
    | Deliver(m: MasterId, es: seq<Entry>)

  /** The guard of assign_task: mirrors are not dispatched. */
  predicate MayDispatch(m: MasterId, t: OwnedTask) {
    t.owner == None || t.owner == Some(m)
  }

  ghost predicate IsSnapshot(tasks: Table, es: seq<Entry>) {
    forall i :: 0 <= i < |es| ==>
      es[i].Entry? && es[i].id in tasks && es[i].task == tasks[es[i].id] &&
      es[i].task.status !in {Completed, Failed, Cancelled, TimedOut, Partial}
  }

  ghost predicate Enabled(w: World, e: Event) {
    e.m in w.masters && e.m in w.disk &&
    match e
    case Submit(m, id, t) => id !in w.issued && t.owner == Some(m) && t.status == Pending
    case Local(m, id, t) =>
      && id in w.masters[m] && t.owner == w.masters[m][id].owner
      && (t.status == Running ==> w.masters[m][id].status == Running || MayDispatch(m, w.masters[m][id]))
    case Persist(_) => true
    case Restart(_) => true
    case Send(m, es) => IsSnapshot(w.masters[m], es)
    case Deliver(_, es) => es in w.snapshots
  }

  ghost function Next(w: World, e: Event): World
    requires Enabled(w, e)
  {
    var tasks := w.masters[e.m];
    match e
    case Submit(m, id, t) => w.(masters := w.masters[m := tasks[id := t]], issued := w.issued[id := m])
    case Local(m, id, t) => w.(masters := w.masters[m := tasks[id := t]])
    case Persist(m) => w.(disk := w.disk[m := map id | id in tasks && Written(m in w.recovering, tasks[id]) :: tasks[id]])
    case Restart(m) =>
      w.(masters := w.masters[m := map id | id in w.disk[m] :: FromDict(m in w.recovering, w.disk[m][id])])
    case Send(m, es) => w.(snapshots := w.snapshots + {es})
    case Deliver(m, es) => w.(masters := w.masters[m := Receive(m, m in w.recovering, tasks, es)])
  }

  ghost function After(ids: set<MasterId>, recovering: set<MasterId>, es: seq<Event>): World {
    if es == [] then World(map m | m in ids :: map[], map m | m in ids :: map[], recovering, {}, map[])
    else
      var w := After(ids, recovering, es[..|es| - 1]);
      if Enabled(w, es[|es| - 1]) then Next(w, es[|es| - 1]) else w
  }

  ghost predicate TrueOwner(w: World, id: TaskId, t: OwnedTask) {
    id in w.issued && t.owner == Some(w.issued[id])
  }

  ghost predicate TableInv(w: World, m: MasterId, tasks: Table) {
    forall id :: id in tasks ==> TrueOwner(w, id, tasks[id]) && (tasks[id].status == Running ==> tasks[id].owner == Some(m))
  }

  ghost predicate SnapshotInv(w: World, es: seq<Entry>) {
    forall i :: 0 <= i < |es| ==> es[i].Entry? ==> TrueOwner(w, es[i].id, es[i].task)
  }

  ghost predicate Inv(w: World) {
    && (forall m {:trigger w.masters[m]} :: m in w.masters ==> TableInv(w, m, w.masters[m]))
    && (forall m {:trigger w.disk[m]} :: m in w.disk ==> TableInv(w, m, w.disk[m]))
    && (forall es :: es in w.snapshots ==> SnapshotInv(w, es))
  }

  lemma DeliverInv(w: World, m: MasterId, es: seq<Entry>)
    requires Inv(w) && m in w.masters && es in w.snapshots
    ensures TableInv(w, m, Receive(m, m in w.recovering, w.masters[m], es))
  {
    var tasks := w.masters[m];
    var tasks' := Receive(m, m in w.recovering, tasks, es);
    assert SnapshotInv(w, es) && TableInv(w, m, tasks);
    forall id | id in tasks'
      ensures TrueOwner(w, id, tasks'[id]) && (tasks'[id].status == Running ==> tasks'[id].owner == Some(m))
    {
      var k := ReceivedFrom(m, m in w.recovering, tasks, es, id);
      assert Get(tasks', id) == Some(tasks'[id]);
    }
  }

  lemma NextInv(w: World, e: Event)
    requires Inv(w) && Enabled(w, e)
    ensures Inv(Next(w, e))
  {
    var w' := Next(w, e);
    assert TableInv(w, e.m, w.masters[e.m]) && TableInv(w, e.m, w.disk[e.m]);
    if e.Deliver? { DeliverInv(w, e.m, e.es); }
    forall m | m in w'.masters ensures TableInv(w', m, w'.masters[m]) {
      assert TableInv(w, m, w.masters[m]);
    }
    forall m | m in w'.disk ensures TableInv(w', m, w'.disk[m]) {
      assert TableInv(w, m, w.disk[m]);
    }
    forall es | es in w'.snapshots ensures SnapshotInv(w', es) {
      if es in w.snapshots { assert SnapshotInv(w, es); }
    }
  }

  lemma {:induction false} RunInv(ids: set<MasterId>, recovering: set<MasterId>, es: seq<Event>)
    ensures Inv(After(ids, recovering, es))
  {
    if es != [] {
      var past := es[..|es| - 1];
      RunInv(ids, recovering, past);
      if Enabled(After(ids, recovering, past), es[|es| - 1]) { NextInv(After(ids, recovering, past), es[|es| - 1]); }
    }
  }

  /** Exclusivity: whatever the masters do and whichever snapshots arrive, late, repeated or not
      at all, a task runs only at its owner, so never at two masters; and all tables agree on
      who that is. */
  lemma RunsOnlyAtOwner(ids: set<MasterId>, recovering: set<MasterId>, es: seq<Event>, m: MasterId, k: MasterId, id: TaskId)
    requires m in After(ids, recovering, es).masters && id in After(ids, recovering, es).masters[m]
    requires k in After(ids, recovering, es).masters && id in After(ids, recovering, es).masters[k]
    ensures var atM, atK := After(ids, recovering, es).masters[m][id], After(ids, recovering, es).masters[k][id];
            && atM.owner == atK.owner
            && (atM.status == Running ==> atM.owner == Some(m))
            && (atM.status == Running && atK.status == Running ==> m == k)
  {
    RunInv(ids, recovering, es);
    var w := After(ids, recovering, es);
    assert TableInv(w, m, w.masters[m]) && TableInv(w, k, w.masters[k]);
  }

  // ---------- what a restart finds, and where an entry comes from ----------

  lemma {:induction false} RecoveringStays(ids: set<MasterId>, recovering: set<MasterId>, es: seq<Event>)
    ensures After(ids, recovering, es).recovering == recovering
    ensures After(ids, recovering, es).masters.Keys == After(ids, recovering, es).disk.Keys == ids
  {
    if es != [] { RecoveringStays(ids, recovering, es[..|es| - 1]); }
  }

  lemma {:induction false} DiskStays(ids: set<MasterId>, recovering: set<MasterId>, es: seq<Event>, i: nat, m: MasterId)
    requires i <= |es| && m in ids && forall j :: i <= j < |es| ==> es[j] != Persist(m)
    ensures m in After(ids, recovering, es).disk && m in After(ids, recovering, es[..i]).disk
    ensures After(ids, recovering, es).disk[m] == After(ids, recovering, es[..i]).disk[m]
  {
    RecoveringStays(ids, recovering, es);
    if i == |es| {
      assert es[..i] == es;
    } else {
      var past := es[..|es| - 1];
      DiskStays(ids, recovering, past, i, m);
      assert past[..i] == es[..i];
    }
  }

  /** What a restart finds, whatever happened since the last write: every entry that had not ended
      then, in its stored form, and no other. */
  lemma RestartFindsWritten(ids: set<MasterId>, recovering: set<MasterId>, es: seq<Event>, i: nat, j: nat, m: MasterId)
    requires i < j < |es| && m in ids && es[i] == Persist(m) && es[j] == Restart(m)
    requires forall k :: i < k < j ==> es[k] != Persist(m)
    ensures m in After(ids, recovering, es[..i]).masters && m in After(ids, recovering, es[..j + 1]).masters
    ensures var before, after := After(ids, recovering, es[..i]).masters[m], After(ids, recovering, es[..j + 1]).masters[m];
            && (forall id :: id in after <==>
                  && id in before && before[id].status !in {Completed, Failed, Cancelled, TimedOut}
                  && (before[id].status == Partial ==> m in recovering))
            && (forall id :: id in after ==> StoredAs(m in recovering, before[id], after[id]))
  {
    RecoveringStays(ids, recovering, es[..i]);
    RecoveringStays(ids, recovering, es[..j]);
    assert es[..i + 1][..i] == es[..i] && es[..j + 1][..j] == es[..j] && es[..j][..i + 1] == es[..i + 1];
    DiskStays(ids, recovering, es[..j], i + 1, m);
    var before := After(ids, recovering, es[..i]).masters[m];
    forall id | id in before ensures StoredAs(m in recovering, before[id], FromDict(m in recovering, before[id])) {
      FromDictStores(m in recovering, before[id]);
    }
  }

  /** The masters, and those with partial recovery switched on. */
  datatype Run = Run(ids: set<MasterId>, recovering: set<MasterId>)

  /** Some master's scheduler made this entry. */
  ghost predicate Made(r: Run, es: seq<Event>, id: TaskId, t: OwnedTask) {
    exists i: nat :: MadeAt(r, es, id, t, i)
  }

  ghost predicate MadeAt(r: Run, es: seq<Event>, id: TaskId, t: OwnedTask, i: nat) {
    i < |es| && es[i].Local? && es[i].id == id && es[i].task == t && Enabled(After(r.ids, r.recovering, es[..i]), es[i])
  }

  ghost predicate FromLocal(r: Run, es: seq<Event>, id: TaskId, t: OwnedTask) {
    t.status == Pending || Made(r, es, id, t)
  }

  ghost predicate TableFrom(r: Run, es: seq<Event>, tasks: Table) {
    forall id :: id in tasks ==> FromLocal(r, es, id, tasks[id])
  }

  ghost predicate SnapshotFrom(r: Run, es: seq<Event>, entries: seq<Entry>) {
    forall i :: 0 <= i < |entries| ==> entries[i].Entry? ==> FromLocal(r, es, entries[i].id, entries[i].task)
  }

  ghost predicate AllFrom(r: Run, es: seq<Event>, w: World) {
    && (forall m {:trigger w.masters[m]} :: m in w.masters ==> TableFrom(r, es, w.masters[m]))
    && (forall m {:trigger w.disk[m]} :: m in w.disk ==> TableFrom(r, es, w.disk[m]))
    && (forall entries :: entries in w.snapshots ==> SnapshotFrom(r, es, entries))
  }

  lemma MadeLater(r: Run, es: seq<Event>, e: Event, id: TaskId, t: OwnedTask)
    requires FromLocal(r, es, id, t)
    ensures FromLocal(r, es + [e], id, t)
  {
    if t.status != Pending {
      var i: nat :| MadeAt(r, es, id, t, i);
      assert (es + [e])[..i] == es[..i] && MadeAt(r, es + [e], id, t, i);
    }
  }

  lemma AllLater(r: Run, es: seq<Event>, e: Event, w: World)
    requires AllFrom(r, es, w)
    ensures AllFrom(r, es + [e], w)
  {
    forall m {:trigger w.masters[m]} | m in w.masters ensures TableFrom(r, es + [e], w.masters[m]) {
      assert TableFrom(r, es, w.masters[m]);
      forall id | id in w.masters[m] ensures FromLocal(r, es + [e], id, w.masters[m][id]) {
        MadeLater(r, es, e, id, w.masters[m][id]);
      }
    }
    forall m {:trigger w.disk[m]} | m in w.disk ensures TableFrom(r, es + [e], w.disk[m]) {
      assert TableFrom(r, es, w.disk[m]);
      forall id | id in w.disk[m] ensures FromLocal(r, es + [e], id, w.disk[m][id]) {
        MadeLater(r, es, e, id, w.disk[m][id]);
      }
    }
    forall entries: seq<Entry> | entries in w.snapshots ensures SnapshotFrom(r, es + [e], entries) {
      assert SnapshotFrom(r, es, entries);
      forall i | 0 <= i < |entries| && entries[i].Entry? ensures FromLocal(r, es + [e], entries[i].id, entries[i].task) {
        MadeLater(r, es, e, entries[i].id, entries[i].task);
      }
    }
  }

  lemma DeliverFrom(r: Run, all: seq<Event>, w: World, m: MasterId, es: seq<Entry>)
    requires AllFrom(r, all, w) && m in w.masters && es in w.snapshots
    ensures TableFrom(r, all, Receive(m, m in w.recovering, w.masters[m], es))
  {
    var tasks := w.masters[m];
    var tasks' := Receive(m, m in w.recovering, tasks, es);
    assert SnapshotFrom(r, all, es) && TableFrom(r, all, tasks);
    forall id | id in tasks' ensures FromLocal(r, all, id, tasks'[id]) {
      var k := ReceivedFrom(m, m in w.recovering, tasks, es, id);
      assert Get(tasks', id) == Some(tasks'[id]);
    }
  }

  lemma NextFrom(r: Run, all: seq<Event>, w: World, e: Event)
    requires AllFrom(r, all, w) && Enabled(w, e) && (e.Local? ==> Made(r, all, e.id, e.task))
    ensures AllFrom(r, all, Next(w, e))
  {
    var w' := Next(w, e);
    assert TableFrom(r, all, w.masters[e.m]) && TableFrom(r, all, w.disk[e.m]);
    if e.Deliver? { DeliverFrom(r, all, w, e.m, e.es); }
    forall m {:trigger w'.masters[m]} | m in w'.masters ensures TableFrom(r, all, w'.masters[m]) {
      assert m != e.m ==> TableFrom(r, all, w.masters[m]);
    }
    forall m {:trigger w'.disk[m]} | m in w'.disk ensures TableFrom(r, all, w'.disk[m]) {
      assert m != e.m ==> TableFrom(r, all, w.disk[m]);
    }
    forall entries | entries in w'.snapshots ensures SnapshotFrom(r, all, entries) {
      if entries in w.snapshots { assert SnapshotFrom(r, all, entries); }
    }
  }

  lemma {:induction false} RunFrom(r: Run, es: seq<Event>)
    ensures AllFrom(r, es, After(r.ids, r.recovering, es))
  {
    if es != [] {
      var past, e := es[..|es| - 1], es[|es| - 1];
      var w := After(r.ids, r.recovering, past);
      RunFrom(r, past);
      assert past + [e] == es;
      AllLater(r, past, e, w);
      if Enabled(w, e) {
        assert e.Local? ==> MadeAt(r, es, e.id, e.task, |past|);
        NextFrom(r, es, w, e);
      }
    }
  }

  /** Mirroring and restarting make nothing up: an entry that is anything but pending, at any master
      and at any moment, is as a whole one that some master's scheduler made. */
  lemma EntriesAreMade(ids: set<MasterId>, recovering: set<MasterId>, es: seq<Event>, m: MasterId, id: TaskId)
    requires m in After(ids, recovering, es).masters && id in After(ids, recovering, es).masters[m]
    requires After(ids, recovering, es).masters[m][id].status != Pending
    ensures Made(Run(ids, recovering), es, id, After(ids, recovering, es).masters[m][id])
  {
    RunFrom(Run(ids, recovering), es);
    assert TableFrom(Run(ids, recovering), es, After(ids, recovering, es).masters[m]);
  }
}
