/** Recursive cancel: what the loop of cancel_task has done after cancelling a set of tasks, and
    why the loop ends with exactly the live tasks reachable from the root. */
module SchedulerCancel {
  import opened SchedulerModel
  import opened Sequences
  import opened SchedulerCapacity

  /** The state inside the loop: the root has given up its nodes and its place in the queue but
      is still live; the tasks in `done` are cancelled. */
  ghost function Midway(s: State, root: TaskId, done: set<TaskId>): State {
    State(map n | n in s.nodes :: s.nodes[n].(active := s.nodes[n].active - |On(s, done + {root}, n)|),
          map id | id in s.tasks ::
            if id in done then s.tasks[id].(status := Cancelled, assignedTo := [])
            else if id == root then s.tasks[id].(assignedTo := []) else s.tasks[id],
          Without(s.queue, done + {root}),
          s.retry)
  }

  ghost predicate LiveIn(s: State, id: TaskId) {
    id in s.tasks && s.tasks[id].Live()
  }

  ghost function LiveTasks(s: State): set<TaskId> {
    set id | id in s.tasks && s.tasks[id].Live()
  }

  lemma WithoutTwiceLast<T(!new)>(q: seq<T>, last: T, a: set<T>, b: set<T>)
    requires Without(Without(q, a), b) == Without(q, a + b)
    ensures Without(Without(q + [last], a), b) == Without(q + [last], a + b)
  {
    var past := Without(q, a);
    WithoutLast(q, last, a);
    WithoutLast(q, last, a + b);
    if last in a {
      assert past + [] == past;
    } else {
      WithoutLast(past, last, b);
    }
  }

  lemma {:induction false} WithoutTwice<T(!new)>(q: seq<T>, a: set<T>, b: set<T>)
    ensures Without(Without(q, a), b) == Without(q, a + b)
  {
    if q != [] {
      var past, last := q[..|q| - 1], q[|q| - 1];
      assert q == past + [last];
      WithoutTwice(past, a, b);
      WithoutTwiceLast(past, last, a, b);
    }
  }

  /** Releasing the nodes of one more live task lowers exactly the counters of its nodes. */
  lemma ReleaseOneMore(s: State, ids: set<TaskId>, id: TaskId, n: NodeId)
    requires Inv(s) && n in s.nodes && id !in ids && LiveIn(s, id) && forall k :: k in ids ==> LiveIn(s, k)
    ensures |On(s, ids + {id}, n)| == |On(s, ids, n)| + (if n in s.tasks[id].assignedTo then 1 else 0)
    ensures |On(s, ids + {id}, n)| <= s.nodes[n].active
  {
    forall k | k in ids + {id} ensures s.tasks[k].Holds(n) <==> n in s.tasks[k].assignedTo {
      assert TaskInv(s, s.tasks[k]);
    }
    assert On(s, ids + {id}, n) == On(s, ids, n) + (if n in s.tasks[id].assignedTo then {id} else {});
    assert On(s, ids + {id}, n) <= Holders(s, n);
    assert NodeInv(s, n);
    SubsetSize(On(s, ids + {id}, n), Holders(s, n));
  }

  lemma StartMidway(s: State, root: TaskId)
    requires Inv(s) && LiveIn(s, root)
    ensures Midway(s, root, {}) ==
            s.(nodes := Released(s.nodes, s.tasks[root].assignedTo),
               tasks := s.tasks[root := s.tasks[root].(assignedTo := [])],
               queue := Without(s.queue, {root}))
  {
    assert {} + {root} == {root};
    forall n | n in s.nodes
      ensures Midway(s, root, {}).nodes[n] == Released(s.nodes, s.tasks[root].assignedTo)[n]
    {
      ReleaseOneMore(s, {}, root, n);
      assert On(s, {}, n) == {};
    }
  }

  lemma CancelOneMoreNodes(s: State, root: TaskId, done: set<TaskId>, id: TaskId)
    requires Inv(s) && LiveIn(s, root) && (forall k :: k in done ==> LiveIn(s, k)) && LiveIn(s, id) && id !in done
    ensures Midway(s, root, done + {id}).nodes ==
            Released(Midway(s, root, done).nodes, Midway(s, root, done).tasks[id].assignedTo)
  {
    var m, m' := Midway(s, root, done), Midway(s, root, done + {id});
    var nodes' := Released(m.nodes, m.tasks[id].assignedTo);
    forall n | n in s.nodes ensures m'.nodes[n] == nodes'[n] {
      if id != root {
        assert (done + {id}) + {root} == (done + {root}) + {id};
        ReleaseOneMore(s, done + {root}, id, n);
      } else {
        assert (done + {id}) + {root} == done + {root};
      }
    }
  }

  lemma CancelOneMoreTasks(s: State, root: TaskId, done: set<TaskId>, id: TaskId)
    requires id in s.tasks
    ensures var m := Midway(s, root, done);
            Midway(s, root, done + {id}).tasks == m.tasks[id := m.tasks[id].(status := Cancelled, assignedTo := [])]
  {
  }

  /** One turn of the loop on a task that is still live. */
  lemma CancelOneMore(s: State, root: TaskId, done: set<TaskId>, id: TaskId)
    requires Inv(s) && LiveIn(s, root) && (forall k :: k in done ==> LiveIn(s, k)) && LiveIn(s, id) && id !in done
    ensures var m := Midway(s, root, done);
            Midway(s, root, done + {id}) ==
            m.(nodes := Released(m.nodes, m.tasks[id].assignedTo),
               tasks := m.tasks[id := m.tasks[id].(status := Cancelled, assignedTo := [])],
               queue := Without(m.queue, {id}))
  {
    CancelOneMoreNodes(s, root, done, id);
    CancelOneMoreTasks(s, root, done, id);
    assert (done + {id}) + {root} == (done + {root}) + {id};
    WithoutTwice(s.queue, done + {root}, {id});
  }

  lemma FinishMidway(s: State, root: TaskId, done: set<TaskId>)
    requires LiveIn(s, root)
    ensures CancelAll(s, done + {root}) ==
            Midway(s, root, done).(tasks := Midway(s, root, done).tasks[root := s.tasks[root].(status := Cancelled, assignedTo := [])])
  {
  }

  // ---------- reachability ----------

  lemma ReachesRoot(s: State, root: TaskId)
    requires LiveIn(s, root)
    ensures Reaches(s, root, root)
  {
    assert LivePath(s, [root]);
  }

  lemma ReachesFurther(s: State, root: TaskId, d: TaskId, x: TaskId)
    requires Reaches(s, root, d) && d in s.tasks && x in s.tasks[d].subTasks && LiveIn(s, x)
    ensures Reaches(s, root, x)
  {
    var p :| LivePath(s, p) && p[0] == root && p[|p| - 1] == d;
    assert LivePath(s, p + [x]);
    assert (p + [x])[|p|] == x;
  }

  /** A set closed under live sub-tasks holds the whole of every live path that starts in it. */
  lemma {:induction false} PathStaysIn(s: State, p: seq<TaskId>, closed: set<TaskId>, k: nat)
    requires LivePath(s, p) && p[0] in closed && k < |p|
    requires forall d, x :: d in closed && d in s.tasks && x in s.tasks[d].subTasks && LiveIn(s, x) ==> x in closed
    ensures p[k] in closed
  {
    if k > 0 {
      PathStaysIn(s, p, closed, k - 1);
      assert p[k] in s.tasks[p[k - 1]].subTasks;
    }
  }

  /** Reachable tasks closed under live sub-tasks, the root among them, are all the reachable ones. */
  lemma ClosedIsDoomed(s: State, root: TaskId, found: set<TaskId>)
    requires LiveIn(s, root) && root in found
    requires forall d :: d in found ==> d in s.tasks && Reaches(s, root, d)
    requires forall d, x :: d in found && d in s.tasks && x in s.tasks[d].subTasks && LiveIn(s, x) ==> x in found
    ensures found == Doomed(s, root, true)
  {
    forall id | id in Doomed(s, root, true) ensures id in found {
      var p :| LivePath(s, p) && p[0] == root && p[|p| - 1] == id;
      PathStaysIn(s, p, found, |p| - 1);
    }
  }

  // ---------- the loop ----------

  /** Everything cancelled is reachable; a live sub-task of anything found is found or stacked. */
  ghost predicate Searching(s: State, root: TaskId, done: set<TaskId>, stack: seq<TaskId>) {
    && LiveIn(s, root)
    && (forall d :: d in done ==> LiveIn(s, d) && Reaches(s, root, d))
    && (forall x :: x in stack && LiveIn(s, x) ==> Reaches(s, root, x))
    && (forall d, x :: d in done + {root} && x in s.tasks[d].subTasks && LiveIn(s, x) ==> x in done || x in stack)
  }

  lemma SearchStarts(s: State, root: TaskId)
    requires LiveIn(s, root)
    ensures Searching(s, root, {}, s.tasks[root].subTasks)
  {
    ReachesRoot(s, root);
    forall x | x in s.tasks[root].subTasks && LiveIn(s, x) ensures Reaches(s, root, x) {
      ReachesFurther(s, root, root, x);
    }
  }

  lemma SearchSkips(s: State, root: TaskId, done: set<TaskId>, stack: seq<TaskId>, sub: TaskId)
    requires Searching(s, root, done, stack + [sub]) && (!LiveIn(s, sub) || sub in done)
    ensures Searching(s, root, done, stack)
  {
    assert forall x :: x in stack + [sub] <==> x in stack || x == sub;
  }

  lemma SearchFinds(s: State, root: TaskId, done: set<TaskId>, stack: seq<TaskId>, sub: TaskId)
    requires Searching(s, root, done, stack + [sub]) && LiveIn(s, sub)
    ensures Searching(s, root, done + {sub}, stack + s.tasks[sub].subTasks)
  {
    assert forall x :: x in stack + [sub] <==> x in stack || x == sub;
    forall x | x in s.tasks[sub].subTasks && LiveIn(s, x) ensures Reaches(s, root, x) {
      ReachesFurther(s, root, sub, x);
    }
  }

  lemma SearchEnds(s: State, root: TaskId, done: set<TaskId>)
    requires Searching(s, root, done, [])
    ensures done + {root} == Doomed(s, root, true)
  {
    ReachesRoot(s, root);
    ClosedIsDoomed(s, root, done + {root});
  }

  lemma LessLeft(all: set<TaskId>, done: set<TaskId>, id: TaskId)
    requires id in all && id !in done
    ensures |all - (done + {id})| < |all - done|
  {
    assert all - done == (all - (done + {id})) + {id};
  }

  /** A popped task that is live and not yet cancelled: its turn keeps the search going. */
  lemma CancelTurn(s: State, root: TaskId, done: set<TaskId>, stack: seq<TaskId>, sub: TaskId)
    requires Inv(s) && Searching(s, root, done, stack + [sub]) && LiveIn(s, sub) && sub !in done
    ensures Searching(s, root, done + {sub}, stack + s.tasks[sub].subTasks)
    ensures var m := Midway(s, root, done);
            && Midway(s, root, done + {sub}) ==
               m.(nodes := Released(m.nodes, m.tasks[sub].assignedTo),
                  tasks := m.tasks[sub := m.tasks[sub].(status := Cancelled, assignedTo := [])],
                  queue := Without(m.queue, {sub}))
            && Distinct(m.tasks[sub].assignedTo)
    ensures |LiveTasks(s) - (done + {sub})| < |LiveTasks(s) - done|
  {
    SearchFinds(s, root, done, stack, sub);
    CancelOneMore(s, root, done, sub);
    LessLeft(LiveTasks(s), done, sub);
    assert TaskInv(s, s.tasks[sub]);
  }

  /** In the loop a task still looks live exactly when it is live and not yet cancelled. */
  lemma StillLive(s: State, root: TaskId, done: set<TaskId>, id: TaskId)
    ensures LiveIn(Midway(s, root, done), id) <==> LiveIn(s, id) && id !in done
    ensures id in s.tasks ==> Midway(s, root, done).tasks[id].subTasks == s.tasks[id].subTasks
  {
  }

  /** Recursive cancel, read off the state it leaves: exactly the live tasks reachable from the
      root through live tasks are cancelled, none of them is queued any more, no other task or
      queue place changes, and each node gets back one slot for each cancelled task it was
      running, so that counters and running tasks stay as far apart as they were. */
  lemma CancelEffect(s: State, root: TaskId)
    requires Inv(s) && LiveIn(s, root)
    ensures var s' := CancelSection(s, root, true);
            && Inv(s') && s'.tasks.Keys == s.tasks.Keys && s'.nodes.Keys == s.nodes.Keys
            && (forall id :: id in s.tasks && Reaches(s, root, id) ==>
                  s'.tasks[id].status == Cancelled && s'.tasks[id].assignedTo == [] && id !in s'.queue)
            && (forall id :: id in s.tasks && !Reaches(s, root, id) ==>
                  s'.tasks[id] == s.tasks[id] && (id in s'.queue <==> id in s.queue))
            && (forall n :: n in s.nodes ==>
                  s'.nodes[n].active == s.nodes[n].active - |set id | id in s.tasks && Reaches(s, root, id) && s.tasks[id].Holds(n)|)
  {
    var ids := Doomed(s, root, true);
    forall k | k in ids ensures LiveIn(s, k) {
      var p :| LivePath(s, p) && p[0] == root && p[|p| - 1] == k;
    }
    CancelKept(s, ids);
    var s' := CancelSection(s, root, true);
    forall n | n in s.nodes
      ensures s'.nodes[n].active == s.nodes[n].active - |set id | id in s.tasks && Reaches(s, root, id) && s.tasks[id].Holds(n)|
    {
      forall id | id in ids ensures s.tasks[id].Holds(n) <==> n in s.tasks[id].assignedTo {
        assert TaskInv(s, s.tasks[id]);
      }
      assert On(s, ids, n) == set id | id in s.tasks && Reaches(s, root, id) && s.tasks[id].Holds(n);
    }
  }
}
