/** The layer pipeline with stage checkpoints (_dispatch_pipeline of
    fusion_multi_node/master/cluster_master.py). Stages are deterministic: stage i maps the hidden
    state left by stage i - 1 (nothing, before the first stage) to its own. Which stage of an
    attempt fails, and how, is arbitrary. A checkpoint lives in memory; it reaches the disk only
    with whatever snapshot of all tasks happens to be written, so a master that crashes finds one
    of the checkpoints the task has had since the last restart. */
module Pipeline {
  import opened Options

  type NodeId(==, !new)
  type Hidden(==, !new)
  type Meta(==, !new)

  type Stage = (nat, Option<Hidden>) -> Hidden

  /** The ways a stage call can end without a hidden state. Crash ends the master instead, before
      the stage or, at the position after the last one, before the finished task is on disk. */
  datatype Fault = Raised | RateLimited | Overload | Blocked | FencingRejected | UpstreamMissing | ErrorField | NoHidden | Crash

  datatype StepInfo = StepInfo(node: NodeId, meta: Meta)

  /** Last completed stage, its output, and what is reported about the stages so far. */
  datatype Ckpt = Ckpt(step: nat, hidden: Hidden, steps: seq<StepInfo>)

  datatype Outcome =
    | Completed(hidden: Option<Hidden>, steps: seq<StepInfo>)
    | Failed(at: nat, fault: Fault)

  /** What the model and the cluster bring to an attempt: its nodes, where stages fail, and, for an
      attempt that ends in a crash, which of the earlier checkpoints the restart finds on disk. */
  datatype Attempt = Attempt(nodes: seq<NodeId>, faults: nat -> Option<Fault>, found: nat)

  /** After an attempt: the checkpoint in memory, the outcome, the stages that succeeded, and the
      values the checkpoint took during the attempt. */
  datatype Ended = Ended(ckpt: Option<Ckpt>, outcome: Outcome, ran: seq<nat>, had: seq<Option<Ckpt>>)

  /** The loop of an attempt from stage i on, and the clearing of the checkpoint after it. */
  function Go(stage: Stage, meta: nat -> Meta, enabled: bool, a: Attempt, i: nat, h: Option<Hidden>,
              steps: seq<StepInfo>, ckpt: Option<Ckpt>, ran: seq<nat>, had: seq<Option<Ckpt>>): Ended
    decreases |a.nodes| - i
  {
    if i >= |a.nodes| then
      Ended(if enabled then None else ckpt,
            if a.faults(i) == Some(Crash) then Failed(i, Crash) else Completed(h, steps),
            ran, if enabled then had + [None] else had)
    else if a.faults(i).Some? then Ended(ckpt, Failed(i, a.faults(i).value), ran, had)
    else
      var h' := stage(i, h);
      var steps' := steps + [StepInfo(a.nodes[i], meta(i))];
      var c := Ckpt(i, h', steps');
      Go(stage, meta, enabled, a, i + 1, Some(h'), steps', if enabled then Some(c) else ckpt, ran + [i],
         if enabled then had + [Some(c)] else had)
  }

  function Run(stage: Stage, meta: nat -> Meta, enabled: bool, a: Attempt, ckpt: Option<Ckpt>): Ended {
    if enabled && ckpt.Some?
    then Go(stage, meta, enabled, a, ckpt.value.step + 1, Some(ckpt.value.hidden), ckpt.value.steps, ckpt, [], [])
    else Go(stage, meta, enabled, a, 0, None, [], ckpt, [], [])
  }

  class PipelineTask {
    var ckpt: Option<Ckpt>

    /** `restored` is what a restart found on disk; None for a new task. */
    constructor (restored: Option<Ckpt>)
      ensures ckpt == restored
    {
      ckpt := restored;
    }

    /** One dispatch of the task. */
    method DispatchPipeline(stage: Stage, meta: nat -> Meta, enabled: bool, a: Attempt)
      returns (outcome: Outcome, ghost ran: seq<nat>, ghost had: seq<Option<Ckpt>>)
      modifies this
      ensures Ended(ckpt, outcome, ran, had) == Run(stage, meta, enabled, a, old(ckpt))
    {
      var hidden: Option<Hidden> := None;
      var steps: seq<StepInfo> := [];
      var start := 0;
      ran, had := [], [];
      if enabled && ckpt.Some? {
        start := ckpt.value.step + 1;
        hidden := Some(ckpt.value.hidden);
        steps := ckpt.value.steps;
      }
      for i := 0 to |a.nodes|
        invariant Run(stage, meta, enabled, a, old(ckpt)) ==
                  Go(stage, meta, enabled, a, if i < start then start else i, hidden, steps, ckpt, ran, had)
      {
        if i < start {
          continue;
        }
        if a.faults(i).Some? {
          return Failed(i, a.faults(i).value), ran, had;
        }
        var h := stage(i, hidden);
        hidden := Some(h);
        steps := steps + [StepInfo(a.nodes[i], meta(i))];
        ran := ran + [i];
        if enabled {
          ckpt := Some(Ckpt(i, h, steps));
          had := had + [ckpt];
        }
      }
      if enabled {
        ckpt := None;
        had := had + [None];
      }
      var end := if |a.nodes| < start then start else |a.nodes|;
      outcome := if a.faults(end) == Some(Crash) then Failed(end, Crash) else Completed(hidden, steps);
    }
  }

  // ---------- the uninterrupted run ----------

  /** The hidden state after the first k stages of a run without failures. */
  function Fold(stage: Stage, k: nat): Option<Hidden> {
    if k == 0 then None else Some(stage(k - 1, Fold(stage, k - 1)))
  }

  /** The stages a, a + 1, ..., b - 1. */
  function Span(a: nat, b: nat): (r: seq<nat>)
    requires a <= b
    ensures |r| == b - a && forall i :: 0 <= i < b - a ==> r[i] == a + i
  {
    seq(b - a, i requires 0 <= i < b - a => a + i)
  }

  function UpTo(k: nat): seq<nat> {
    Span(0, k)
  }

  /** How many stages a checkpoint says are done. */
  function Reached(ckpt: Option<Ckpt>): nat {
    if ckpt.Some? then ckpt.value.step + 1 else 0
  }

  /** The checkpoint is the straight run's state after the stages it says are done. */
  ghost predicate Stands(stage: Stage, meta: nat -> Meta, ckpt: Option<Ckpt>) {
    ckpt.Some? ==>
      && Some(ckpt.value.hidden) == Fold(stage, Reached(ckpt))
      && |ckpt.value.steps| == Reached(ckpt) && forall i :: 0 <= i < Reached(ckpt) ==> ckpt.value.steps[i].meta == meta(i)
  }

  ghost predicate AllStand(stage: Stage, meta: nat -> Meta, had: seq<Option<Ckpt>>, k: nat) {
    forall c :: c in had ==> Stands(stage, meta, c) && Reached(c) <= k
  }

  lemma OneMoreStands(stage: Stage, meta: nat -> Meta, had: seq<Option<Ckpt>>, k: nat, c: Option<Ckpt>, k': nat)
    requires AllStand(stage, meta, had, k) && k <= k' && Stands(stage, meta, c) && Reached(c) <= k'
    ensures AllStand(stage, meta, had + [c], k')
  {
  }

  lemma StageStands(stage: Stage, meta: nat -> Meta, i: nat, node: NodeId, steps: seq<StepInfo>)
    requires |steps| == i && forall j :: 0 <= j < i ==> steps[j].meta == meta(j)
    ensures Stands(stage, meta, Some(Ckpt(i, stage(i, Fold(stage, i)), steps + [StepInfo(node, meta(i))])))
  {
  }

  lemma {:induction false} GoStands(stage: Stage, meta: nat -> Meta, a: Attempt, start: nat, i: nat,
                                    steps: seq<StepInfo>, ckpt: Option<Ckpt>, ran: seq<nat>, had: seq<Option<Ckpt>>)
    requires start <= i <= |a.nodes| && Stands(stage, meta, ckpt) && Reached(ckpt) == i && ran == Span(start, i)
    requires |steps| == i && forall j :: 0 <= j < i ==> steps[j].meta == meta(j)
    requires AllStand(stage, meta, had, i)
    ensures var e := Go(stage, meta, true, a, i, Fold(stage, i), steps, ckpt, ran, had);
            var k := if e.outcome.Completed? then |a.nodes| else e.outcome.at;
            && i <= k <= |a.nodes| && e.ran == Span(start, k) && AllStand(stage, meta, e.had, k)
            && match e.outcome
               case Completed(h, all) =>
                 && h == Fold(stage, |a.nodes|) && e.ckpt == None
                 && |all| == |a.nodes| && forall j :: 0 <= j < |all| ==> all[j].meta == meta(j)
               case Failed(at, fault) =>
                 && a.faults(at) == Some(fault)
                 && (fault != Crash ==> at < |a.nodes| && Stands(stage, meta, e.ckpt) && Reached(e.ckpt) == at)
    decreases |a.nodes| - i
  {
    if i >= |a.nodes| {
      OneMoreStands(stage, meta, had, i, None, i);
    } else if a.faults(i) == None {
      var h := stage(i, Fold(stage, i));
      var steps' := steps + [StepInfo(a.nodes[i], meta(i))];
      var c := Some(Ckpt(i, h, steps'));
      assert ran + [i] == Span(start, i + 1);
      StageStands(stage, meta, i, a.nodes[i], steps);
      OneMoreStands(stage, meta, had, i, c, i + 1);
      GoStands(stage, meta, a, start, i + 1, steps', c, ran + [i], had + [c]);
    }
  }

  /** What is reported: the steps kept from before, and for each later stage the attempt's node. */
  ghost predicate Reports(steps: seq<StepInfo>, kept: seq<StepInfo>, a: Attempt, meta: nat -> Meta) {
    && kept <= steps
    && forall j :: |kept| <= j < |steps| ==> j < |a.nodes| && steps[j] == StepInfo(a.nodes[j], meta(j))
  }

  ghost predicate AllReport(had: seq<Option<Ckpt>>, kept: seq<StepInfo>, a: Attempt, meta: nat -> Meta) {
    forall c :: c in had && c.Some? ==> Reports(c.value.steps, kept, a, meta)
  }

  lemma {:induction false} GoReports(stage: Stage, meta: nat -> Meta, enabled: bool, a: Attempt, i: nat, h: Option<Hidden>,
                                     steps: seq<StepInfo>, ckpt: Option<Ckpt>, ran: seq<nat>, had: seq<Option<Ckpt>>,
                                     kept: seq<StepInfo>)
    requires i <= |a.nodes| && |steps| == i && Reports(steps, kept, a, meta) && AllReport(had, kept, a, meta)
    ensures var e := Go(stage, meta, enabled, a, i, h, steps, ckpt, ran, had);
            && AllReport(e.had, kept, a, meta)
            && (e.outcome.Completed? ==> |e.outcome.steps| == |a.nodes| && Reports(e.outcome.steps, kept, a, meta))
    decreases |a.nodes| - i
  {
    if i >= |a.nodes| {
      assert AllReport(had + [None], kept, a, meta);
    } else if a.faults(i) == None {
      var h' := stage(i, h);
      var steps' := steps + [StepInfo(a.nodes[i], meta(i))];
      var c := Some(Ckpt(i, h', steps'));
      assert AllReport(had + [c], kept, a, meta);
      GoReports(stage, meta, enabled, a, i + 1, Some(h'), steps', if enabled then c else ckpt, ran + [i],
                if enabled then had + [c] else had, kept);
    }
  }

  /** An attempt reports the steps of the checkpoint as they are, with the nodes they ran on then, and
      each stage of its own on the attempt's node for it; so does every checkpoint it takes. */
  lemma RunReports(stage: Stage, meta: nat -> Meta, enabled: bool, a: Attempt, ckpt: Option<Ckpt>)
    requires ckpt.Some? ==> |ckpt.value.steps| == ckpt.value.step + 1 <= |a.nodes|
    ensures var e := Run(stage, meta, enabled, a, ckpt);
            var kept := if enabled && ckpt.Some? then ckpt.value.steps else [];
            && AllReport(e.had, kept, a, meta)
            && (e.outcome.Completed? ==> |e.outcome.steps| == |a.nodes| && Reports(e.outcome.steps, kept, a, meta))
  {
    if enabled && ckpt.Some? {
      GoReports(stage, meta, enabled, a, ckpt.value.step + 1, Some(ckpt.value.hidden), ckpt.value.steps, ckpt, [], [],
                ckpt.value.steps);
    } else {
      GoReports(stage, meta, enabled, a, 0, None, [], ckpt, [], [], []);
    }
  }

  // ---------- a task's life ----------

  /** Attempts until one completes. `had` are the checkpoints since the last restart, `log` is every
      stage success of all attempts. */
  datatype Life = Life(ckpt: Option<Ckpt>, had: seq<Option<Ckpt>>, log: seq<nat>, result: Option<Outcome>)

  function Born(): Life {
    Life(None, [None], [], None)
  }

  predicate Crashed(e: Ended) {
    e.outcome.Failed? && e.outcome.fault == Crash
  }

  /** The checkpoint the restart finds: one of those the task has had, the newest for a large number. */
  function Found(had: seq<Option<Ckpt>>, number: nat): Option<Ckpt>
    requires had != []
  {
    if number < |had| then had[number] else had[|had| - 1]
  }

  function Lived(l: Life, e: Ended, found: nat): Life
    requires l.had != []
  {
    var had, log := l.had + e.had, l.log + e.ran;
    if Crashed(e) then Life(Found(had, found), [Found(had, found)], log, None)
    else Life(e.ckpt, had, log, if e.outcome.Completed? then Some(e.outcome) else None)
  }

  function Live(stage: Stage, meta: nat -> Meta, attempts: seq<Attempt>): (l: Life)
    ensures l.had != []
  {
    if attempts == [] then Born()
    else
      var l, a := Live(stage, meta, attempts[..|attempts| - 1]), attempts[|attempts| - 1];
      if l.result.Some? then l else Lived(l, Run(stage, meta, true, a, l.ckpt), a.found)
  }

  /** What is known of a task with n stages at every moment of its life. */
  ghost predicate Sound(stage: Stage, meta: nat -> Meta, n: nat, l: Life) {
    match l.result
    case None => Stands(stage, meta, l.ckpt) && Reached(l.ckpt) <= n && l.had != [] && AllStand(stage, meta, l.had, Reached(l.ckpt))
    case Some(o) =>
      && l.had != [] && o.Completed? && o.hidden == Fold(stage, n) && l.ckpt == None
      && |o.steps| == n && forall i :: 0 <= i < n ==> o.steps[i].meta == meta(i)
  }

  /** The attempt's stages: those from the checkpoint up to where it ended. */
  function EndOf(a: Attempt, e: Ended): nat {
    if e.outcome.Completed? then |a.nodes| else e.outcome.at
  }

  lemma RunIsSound(stage: Stage, meta: nat -> Meta, n: nat, l: Life, a: Attempt)
    requires Sound(stage, meta, n, l) && l.result == None && |a.nodes| == n
    ensures var e := Run(stage, meta, true, a, l.ckpt);
            && Sound(stage, meta, n, Lived(l, e, a.found))
            && Reached(l.ckpt) <= EndOf(a, e) <= n && e.ran == Span(Reached(l.ckpt), EndOf(a, e))
            && (Crashed(e) ==> Reached(Lived(l, e, a.found).ckpt) <= EndOf(a, e))
            && (e.outcome.Failed? && !Crashed(e) ==> Reached(e.ckpt) == EndOf(a, e))
  {
    var k := Reached(l.ckpt);
    GoStands(stage, meta, a, k, k, if l.ckpt.Some? then l.ckpt.value.steps else [], l.ckpt, [], []);
    var e := Run(stage, meta, true, a, l.ckpt);
    var had := l.had + e.had;
    assert AllStand(stage, meta, had, EndOf(a, e));
    assert Found(had, a.found) in had;
  }

  /** Whatever the attempts met and whichever checkpoints the restarts found, the checkpoint is the
      straight run's state after the stages it names, and an attempt that completes returns the
      straight run's result. */
  lemma {:induction false} LifeIsSound(stage: Stage, meta: nat -> Meta, n: nat, attempts: seq<Attempt>)
    requires forall a :: a in attempts ==> |a.nodes| == n
    ensures Sound(stage, meta, n, Live(stage, meta, attempts))
  {
    if attempts != [] {
      var past, a := attempts[..|attempts| - 1], attempts[|attempts| - 1];
      LifeIsSound(stage, meta, n, past);
      assert a in attempts;
      var l := Live(stage, meta, past);
      if l.result == None { RunIsSound(stage, meta, n, l, a); }
    }
  }

  // ---------- how often a stage succeeds ----------

  /** Stage i had succeeded, and the checkpoint the restart found does not say so. */
  predicate Loses(a: Attempt, e: Ended, l': Life, i: nat) {
    Crashed(e) && Reached(l'.ckpt) <= i < EndOf(a, e)
  }

  /** How many crashes lost stage i. */
  function LostAt(stage: Stage, meta: nat -> Meta, attempts: seq<Attempt>, i: nat): nat {
    if attempts == [] then 0
    else
      var past, a := attempts[..|attempts| - 1], attempts[|attempts| - 1];
      var l := Live(stage, meta, past);
      var e := Run(stage, meta, true, a, l.ckpt);
      LostAt(stage, meta, past, i) + if l.result == None && Loses(a, e, Lived(l, e, a.found), i) then 1 else 0
  }

  /** Every crash found the newest checkpoint on disk: none lost a stage. */
  ghost predicate NothingLost(stage: Stage, meta: nat -> Meta, attempts: seq<Attempt>) {
    forall i: nat :: LostAt(stage, meta, attempts, i) == 0
  }

  function Done(n: nat, l: Life): nat {
    if l.result.Some? then n else Reached(l.ckpt)
  }

  lemma SpanCount(a: nat, b: nat, i: nat)
    requires a <= b
    ensures multiset(Span(a, b))[i] == if a <= i < b then 1 else 0
    decreases b - a
  {
    if a < b {
      assert Span(a, b) == Span(a, b - 1) + [b - 1];
      SpanCount(a, b - 1, i);
    }
  }

  /** How often a stage succeeds: once if it is done now, and once more for every crash that lost it. */
  lemma {:induction false} StageCount(stage: Stage, meta: nat -> Meta, n: nat, attempts: seq<Attempt>, i: nat)
    requires forall a :: a in attempts ==> |a.nodes| == n
    ensures var l := Live(stage, meta, attempts);
            multiset(l.log)[i] == (if i < Done(n, l) then 1 else 0) + LostAt(stage, meta, attempts, i)
  {
    if attempts != [] {
      var past, a := attempts[..|attempts| - 1], attempts[|attempts| - 1];
      StageCount(stage, meta, n, past, i);
      LifeIsSound(stage, meta, n, past);
      assert a in attempts;
      var l := Live(stage, meta, past);
      if l.result == None {
        var e := Run(stage, meta, true, a, l.ckpt);
        RunIsSound(stage, meta, n, l, a);
        SpanCount(Reached(l.ckpt), EndOf(a, e), i);
      }
    }
  }

  lemma {:induction false} LogInOrder(stage: Stage, meta: nat -> Meta, n: nat, attempts: seq<Attempt>)
    requires forall a :: a in attempts ==> |a.nodes| == n
    requires NothingLost(stage, meta, attempts)
    ensures var l := Live(stage, meta, attempts); l.log == UpTo(Done(n, l))
  {
    if attempts != [] {
      var past, a := attempts[..|attempts| - 1], attempts[|attempts| - 1];
      var l := Live(stage, meta, past);
      forall i: nat ensures LostAt(stage, meta, past, i) == 0 {
        assert LostAt(stage, meta, attempts, i) == 0;
      }
      LogInOrder(stage, meta, n, past);
      LifeIsSound(stage, meta, n, past);
      assert a in attempts;
      if l.result == None {
        var l' := Lived(l, Run(stage, meta, true, a, l.ckpt), a.found);
        assert LostAt(stage, meta, attempts, Reached(l'.ckpt)) == 0;
        InOrderStep(stage, meta, n, l, a);
      }
    }
  }

  /** An attempt whose restart loses nothing continues the log in order. */
  lemma InOrderStep(stage: Stage, meta: nat -> Meta, n: nat, l: Life, a: Attempt)
    requires Sound(stage, meta, n, l) && l.result == None && |a.nodes| == n && l.log == UpTo(Reached(l.ckpt))
    requires var e := Run(stage, meta, true, a, l.ckpt);
             var l' := Lived(l, e, a.found);
             !Loses(a, e, l', Reached(l'.ckpt))
    ensures var l' := Lived(l, Run(stage, meta, true, a, l.ckpt), a.found); l'.log == UpTo(Done(n, l'))
  {
    var e := Run(stage, meta, true, a, l.ckpt);
    RunIsSound(stage, meta, n, l, a);
    assert UpTo(Reached(l.ckpt)) + Span(Reached(l.ckpt), EndOf(a, e)) == UpTo(EndOf(a, e));
  }

  /** Checkpointing refines a straight run: the stage successes of all attempts together are exactly
      those of one uninterrupted run, each stage once and in order, if and only if every crash
      found the newest checkpoint on disk. Failures that are no crashes never cost a stage. */
  lemma CheckpointRefinesStraightRunIff(stage: Stage, meta: nat -> Meta, n: nat, attempts: seq<Attempt>)
    requires forall a :: a in attempts ==> |a.nodes| == n
    ensures var l := Live(stage, meta, attempts);
            l.log == UpTo(Done(n, l)) <==> NothingLost(stage, meta, attempts)
  {
    var l := Live(stage, meta, attempts);
    if NothingLost(stage, meta, attempts) {
      LogInOrder(stage, meta, n, attempts);
    }
    if l.log == UpTo(Done(n, l)) {
      forall i: nat ensures LostAt(stage, meta, attempts, i) == 0 {
        StageCount(stage, meta, n, attempts, i);
        SpanCount(0, Done(n, l), i);
      }
    }
  }

  /** A crash after the first of three stages whose checkpoint was not on disk: the second attempt
      completes, and the first stage has succeeded twice. */
  lemma StageRunsTwice(stage: Stage, meta: nat -> Meta, node: NodeId) returns (attempts: seq<Attempt>)
    ensures |attempts| == 2 && forall a :: a in attempts ==> |a.nodes| == 3
    ensures Live(stage, meta, attempts).log == [0, 0, 1, 2] && Live(stage, meta, attempts).result.Some?
  {
    var nodes := [node, node, node];
    var first := Attempt(nodes, i => if i == 1 then Some(Crash) else None, 0);
    var second := Attempt(nodes, _ => None, 0);
    attempts := [first, second];
    OneStageThenCrash(stage, meta, first);
    ThreeStages(stage, meta, second);
    assert attempts[..1] == [first] && [first][..0] == [];
    assert Live(stage, meta, [first]) == Lived(Born(), Run(stage, meta, true, first, None), 0);
    assert Live(stage, meta, attempts) == Lived(Live(stage, meta, [first]), Run(stage, meta, true, second, None), 0);
  }

  lemma OneStageThenCrash(stage: Stage, meta: nat -> Meta, a: Attempt)
    requires |a.nodes| == 3 && a.faults(0) == None && a.faults(1) == Some(Crash)
    ensures var e := Run(stage, meta, true, a, None); e.ran == [0] && e.outcome == Failed(1, Crash)
  {
    var c := Ckpt(0, stage(0, None), [StepInfo(a.nodes[0], meta(0))]);
    var none: seq<nat> := [];
    var never: seq<Option<Ckpt>> := [];
    assert none + [0] == [0] && never + [Some(c)] == [Some(c)] && [] + c.steps == c.steps;
    assert Run(stage, meta, true, a, None) == Go(stage, meta, true, a, 1, Some(c.hidden), c.steps, Some(c), [0], [Some(c)]);
  }

  lemma ThreeStages(stage: Stage, meta: nat -> Meta, a: Attempt)
    requires |a.nodes| == 3 && forall i :: 0 <= i <= 3 ==> a.faults(i) == None
    ensures var e := Run(stage, meta, true, a, None); e.ran == [0, 1, 2] && e.outcome.Completed?
  {
    GoStands(stage, meta, a, 0, 0, [], None, [], []);
    assert Span(0, 3) == [0, 1, 2];
  }

  /** Without checkpoints an attempt leaves none behind and starts over, so a success is the
      straight run within that one attempt. */
  lemma {:induction false} StartsOver(stage: Stage, meta: nat -> Meta, a: Attempt, i: nat,
                                      steps: seq<StepInfo>, ckpt: Option<Ckpt>, had: seq<Option<Ckpt>>)
    requires i <= |a.nodes|
    ensures var e := Go(stage, meta, false, a, i, Fold(stage, i), steps, ckpt, UpTo(i), had);
            e.ckpt == ckpt && e.had == had &&
            (e.outcome.Completed? ==> e.outcome.hidden == Fold(stage, |a.nodes|) && e.ran == UpTo(|a.nodes|)) &&
            (e.outcome.Failed? ==> e.ran == UpTo(e.outcome.at))
    decreases |a.nodes| - i
  {
    if i < |a.nodes| && a.faults(i) == None {
      assert UpTo(i) + [i] == UpTo(i + 1);
      StartsOver(stage, meta, a, i + 1, steps + [StepInfo(a.nodes[i], meta(i))], ckpt, had);
    }
  }
}
