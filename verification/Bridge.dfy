/** Splitting a model by layers, running it along a chain of nodes, and spreading prompts over
    nodes (distributed_bridge.py). */
module Bridge {
  import opened Arithmetic
  import opened Options
  import opened Sequences

  type Node(==, !new)
  type State(==, !new)

  // ---------- splitting the layers ----------

  /** Python's range(a, b). */
  function Range(a: int, b: int): (r: seq<int>)
    ensures |r| == if a < b then b - a else 0
    ensures forall i :: 0 <= i < |r| ==> r[i] == a + i
  {
    seq(if a < b then b - a else 0, i requires 0 <= i => a + i)
  }

  datatype ModelShard = ModelShard(shardId: nat, totalShards: int, layers: seq<int>)

  function LayersPerShard(total: nat, num: int): (r: nat)
    requires num != 0
    ensures r > 0
  {
    if num > 0 && total / num > 1 then total / num else 1
  }

  /** The layers of shard i: as many as every other, but the last one takes what is left. */
  function LayersOf(total: nat, num: nat, i: nat): seq<int>
    requires i < num
  {
    var per := LayersPerShard(total, num);
    Range(i * per, if i < num - 1 then i * per + per else total)
  }

  function LayerLists(total: nat, num: nat): (r: seq<seq<int>>)
    ensures |r| == num && forall i :: 0 <= i < num ==> r[i] == LayersOf(total, num, i)
  {
    seq(num, i requires 0 <= i < num => LayersOf(total, num, i))
  }

  lemma RangeJoin(a: int, b: int, c: int)
    requires a <= b <= c
    ensures Range(a, b) + Range(b, c) == Range(a, c)
  {
  }

  lemma NextStart(k: nat, per: nat)
    requires k > 0
    ensures 0 <= (k - 1) * per <= k * per == (k - 1) * per + per
  {
  }

  lemma {:induction false} LeadingShards(total: nat, num: nat, k: nat)
    requires k < num
    ensures Flatten(LayerLists(total, num)[..k]) == Range(0, k * LayersPerShard(total, num))
  {
    if k > 0 {
      var lists, per := LayerLists(total, num), LayersPerShard(total, num);
      LeadingShards(total, num, k - 1);
      FlattenLast(lists, k - 1);
      NextStart(k, per);
      RangeJoin(0, (k - 1) * per, k * per);
    }
  }

  lemma AllShards(total: nat, num: nat)
    requires num > 0
    ensures var start := (num - 1) * LayersPerShard(total, num);
            Flatten(LayerLists(total, num)) == Range(0, start) + Range(start, total)
  {
    var lists := LayerLists(total, num);
    LeadingShards(total, num, num - 1);
    FlattenLast(lists, num - 1);
    assert lists[..num] == lists;
  }

  /** Where the last shard starts: not beyond the last layer unless there are too many shards. */
  lemma LastStart(total: nat, num: nat)
    requires num > 0
    ensures var start := (num - 1) * LayersPerShard(total, num);
            && (num <= total ==> start + total / num + total % num == total && total / num == LayersPerShard(total, num))
            && (num > total ==> start == num - 1)
  {
    var q := total / num;
    assert total == num * q + total % num;
    if num <= total {
      assert q == 0 ==> num * q == 0;
      assert (num - 1) * q + q == num * q;
    } else {
      assert q >= 1 ==> num * q >= num;
    }
  }

  /** The shards in order hold every layer once, and no other, if and only if there is at most
      one shard more than layers. */
  lemma ShardsCoverIff(total: nat, num: nat)
    requires num > 0
    ensures Flatten(LayerLists(total, num)) == Range(0, total) <==> num <= total + 1
  {
    var start := (num - 1) * LayersPerShard(total, num);
    AllShards(total, num);
    LastStart(total, num);
    if num <= total + 1 {
      RangeJoin(0, start, total);
    }
  }

  /** Three shards of a model with one layer: the second is given layer 1, which does not exist. */
  lemma OneLayerThreeShards()
    ensures Flatten(LayerLists(1, 3)) == [0, 1] != Range(0, 1)
  {
    AllShards(1, 3);
  }

  /** All shards hold something if and only if there are no more shards than layers; the last one
      then has the remainder of the division on top. */
  lemma ShardsFilledIff(total: nat, num: nat)
    requires num > 0
    ensures (forall i :: 0 <= i < num ==> LayersOf(total, num, i) != []) <==> num <= total
    ensures num <= total ==> |LayersOf(total, num, num - 1)| == total / num + total % num
  {
    LastStart(total, num);
    if num > total {
      assert LayersOf(total, num, num - 1) == [];
    }
  }

  /** shard_model; dividing by zero shards is an error, and fewer than zero give no shards. */
  method ShardModel(total: nat, num: int) returns (r: Option<seq<ModelShard>>)
    ensures r.None? <==> num == 0
    ensures num < 0 ==> r == Some([])
    ensures num > 0 ==> |r.value| == num && forall i :: 0 <= i < num ==>
                          r.value[i] == ModelShard(i, num, LayerLists(total, num)[i])
  {
    if num == 0 {
      return None;
    }
    var per := LayersPerShard(total, num);
    var shards: seq<ModelShard> := [];
    var i := 0;
    while i < num
      invariant 0 <= i == |shards| && (if num > 0 then i <= num else i == 0)
      invariant num > 0 ==> forall k :: 0 <= k < i ==> shards[k] == ModelShard(k, num, LayersOf(total, num, k))
    {
      var start := i * per;
      var end := if i < num - 1 then start + per else total;
      shards := shards + [ModelShard(i, num, Range(start, end))];
      i := i + 1;
    }
    r := Some(shards);
  }

  // ---------- the chain ----------

  /** Running layers one after another. */
  function RunLayers(apply: (int, State) -> State, layers: seq<int>, x: State): State {
    if layers == [] then x else RunLayers(apply, layers[1..], apply(layers[0], x))
  }

  lemma {:induction false} RunSplit(apply: (int, State) -> State, a: seq<int>, b: seq<int>, x: State)
    ensures RunLayers(apply, a + b, x) == RunLayers(apply, b, RunLayers(apply, a, x))
  {
    if a == [] {
      assert a + b == b;
    } else {
      assert (a + b)[1..] == a[1..] + b;
      RunSplit(apply, a[1..], b, apply(a[0], x));
    }
  }

  /** A node's answer; one without an output leaves the input as it is. */
  datatype Reply = Output(state: State) | NoOutput | Failure

  function After(reply: Reply, x: State): Option<State> {
    match reply
    case Output(y) => Some(y)
    case NoOutput => Some(x)
    case Failure => None
  }

  /** What a chain gives from step i on. */
  function Chain(chain: seq<Node>, i: nat, x: State, step: (nat, Node, State) -> Reply): Option<State>
    requires i <= |chain|
    decreases |chain| - i
  {
    if i == |chain| then Some(x)
    else match After(step(i, chain[i], x), x)
      case None => None
      case Some(y) => Chain(chain, i + 1, y, step)
  }

  /** Each node runs the layers of its shard, unless it is down; a silent one answers without an output. */
  ghost predicate Serves(chain: seq<Node>, lists: seq<seq<int>>, apply: (int, State) -> State, down: set<nat>,
                         silent: set<nat>, step: (nat, Node, State) -> Reply)
    requires |chain| == |lists|
  {
    forall i: nat, x: State :: i < |chain| ==>
      step(i, chain[i], x) ==
      if i in down then Failure else if i in silent then NoOutput else Output(RunLayers(apply, lists[i], x))
  }

  /** The layers that are run from node i on: those of the nodes that are not silent. */
  ghost function Heard(lists: seq<seq<int>>, silent: set<nat>, i: nat): seq<int>
    requires i <= |lists|
    decreases |lists| - i
  {
    if i == |lists| then [] else (if i in silent then [] else lists[i]) + Heard(lists, silent, i + 1)
  }

  lemma {:induction false} AllHeard(lists: seq<seq<int>>, i: nat)
    requires i <= |lists|
    ensures Heard(lists, {}, i) == Flatten(lists[i..])
    decreases |lists| - i
  {
    if i < |lists| {
      AllHeard(lists, i + 1);
      assert lists[i..][1..] == lists[i + 1..];
    }
  }

  lemma {:induction false} ChainIsFold(chain: seq<Node>, lists: seq<seq<int>>, apply: (int, State) -> State,
                                       down: set<nat>, silent: set<nat>, step: (nat, Node, State) -> Reply,
                                       i: nat, x: State)
    requires |chain| == |lists| && i <= |chain| && Serves(chain, lists, apply, down, silent, step)
    ensures Chain(chain, i, x, step) ==
            if forall k :: i <= k < |chain| ==> k !in down then Some(RunLayers(apply, Heard(lists, silent, i), x)) else None
    decreases |chain| - i
  {
    if i < |chain| {
      var here := if i in silent then [] else lists[i];
      ChainStep(chain, lists, apply, down, silent, step, i, x);
      RunSplit(apply, here, Heard(lists, silent, i + 1), x);
      ChainIsFold(chain, lists, apply, down, silent, step, i + 1, RunLayers(apply, here, x));
      assert (forall k :: i <= k < |chain| ==> k !in down) <==> i !in down && forall k :: i + 1 <= k < |chain| ==> k !in down;
    }
  }

  lemma ChainStep(chain: seq<Node>, lists: seq<seq<int>>, apply: (int, State) -> State,
                  down: set<nat>, silent: set<nat>, step: (nat, Node, State) -> Reply, i: nat, x: State)
    requires |chain| == |lists| && i < |chain| && Serves(chain, lists, apply, down, silent, step)
    ensures Chain(chain, i, x, step) ==
            if i in down then None
            else Chain(chain, i + 1, RunLayers(apply, if i in silent then [] else lists[i], x), step)
  {
  }

  /** Splitting keeps the meaning: a chain of at most one node more than layers gives what the
      unsplit model gives if every node is up, and nothing at all otherwise. */
  lemma ChainedShardsAreTheModel(total: nat, chain: seq<Node>, apply: (int, State) -> State, down: set<nat>,
                                 step: (nat, Node, State) -> Reply, prompt: State)
    requires 1 <= |chain| <= total + 1
    requires Serves(chain, LayerLists(total, |chain|), apply, down, {}, step)
    ensures Chain(chain, 0, prompt, step) ==
            if forall k :: 0 <= k < |chain| ==> k !in down then Some(RunLayers(apply, Range(0, total), prompt)) else None
  {
    var lists := LayerLists(total, |chain|);
    assert lists[0..] == lists;
    ChainIsFold(chain, lists, apply, down, {}, step, 0, prompt);
    AllHeard(lists, 0);
    ShardsCoverIff(total, |chain|);
  }

  datatype PipelineResult = PipelineFailed | PipelineDone(output: State, decoded: bool)

  /** pipeline_inference: the steps, then an attempt to decode at the last node, if there is one.
      A failing step ends the run; a failing decode leaves the hidden state as the output. */
  method PipelineInference(chain: seq<Node>, prompt: State, step: (nat, Node, State) -> Reply,
                           decode: (Node, nat, State) -> Reply)
    returns (r: PipelineResult)
    ensures r.PipelineFailed? <==> Chain(chain, 0, prompt, step).None?
    ensures r.PipelineDone? ==>
              var x := Chain(chain, 0, prompt, step).value;
              if chain == [] then r == PipelineDone(prompt, false)
              else
                var answer := After(decode(chain[|chain| - 1], |chain| - 1, x), x);
                r == if answer.Some? then PipelineDone(answer.value, true) else PipelineDone(x, false)
  {
    var x := prompt;
    for i := 0 to |chain|
      invariant Chain(chain, 0, prompt, step) == Chain(chain, i, x, step)
    {
      var answer := step(i, chain[i], x);
      if answer.Failure? {
        return PipelineFailed;
      }
      x := if answer.Output? then answer.state else x;
    }
    if chain == [] {
      return PipelineDone(x, false);
    }
    var answer := decode(chain[|chain| - 1], |chain| - 1, x);
    match answer {
      case Output(y) => r := PipelineDone(y, true);
      case NoOutput => r := PipelineDone(x, true);
      case Failure => r := PipelineDone(x, false);
    }
  }

  // ---------- spreading prompts ----------

  /** The keys of dict.fromkeys: first occurrences, in order. */
  function Once(nodes: seq<Node>): (r: seq<Node>)
    ensures Distinct(r)
    ensures forall n :: n in nodes <==> n in r
  {
    if nodes == [] then []
    else
      var front, last := Once(nodes[..|nodes| - 1]), nodes[|nodes| - 1];
      assert nodes == nodes[..|nodes| - 1] + [last];
      if last in front then front else front + [last]
  }

  /** Where a node is first listed. */
  ghost function First(nodes: seq<Node>, n: Node): nat {
    if nodes == [] || nodes[0] == n then 0 else 1 + First(nodes[1..], n)
  }

  lemma {:induction false} FirstInFront(front: seq<Node>, last: Node, n: Node)
    ensures n in front ==> First(front + [last], n) == First(front, n) < |front|
    ensures n !in front ==> First(front + [last], n) == |front| + if n == last then 0 else 1
  {
    if front == [] {
      assert [] + [last] == [last] && [last][1..] == [];
    } else {
      assert (front + [last])[1..] == front[1..] + [last];
      FirstInFront(front[1..], last, n);
    }
  }

  /** The distinct nodes stand in the order in which they are first listed. */
  lemma {:induction false} OnceInOrder(nodes: seq<Node>)
    ensures var r := Once(nodes); forall i, j :: 0 <= i < j < |r| ==> First(nodes, r[i]) < First(nodes, r[j])
  {
    if nodes != [] {
      var front, last := nodes[..|nodes| - 1], nodes[|nodes| - 1];
      OnceInOrder(front);
      assert nodes == front + [last];
      var r := Once(nodes);
      forall i, j | 0 <= i < j < |r| ensures First(nodes, r[i]) < First(nodes, r[j]) {
        assert i < |Once(front)| && r[i] == Once(front)[i] && r[i] in Once(front);
        FirstInFront(front, last, r[i]);
        FirstInFront(front, last, r[j]);
        if j < |Once(front)| {
          assert r[j] == Once(front)[j] && r[j] in Once(front);
        }
      }
    }
  }

  /** The load of the j-th of n nodes after i assignments in turn. */
  function RoundRobinLoad(i: nat, n: nat, j: nat): nat
    requires n > 0
  {
    i / n + if j < i % n then 1 else 0
  }

  lemma NextTurn(i: nat, n: nat)
    requires n > 0
    ensures if i % n + 1 < n then (i + 1) / n == i / n && (i + 1) % n == i % n + 1
            else (i + 1) / n == i / n + 1 && (i + 1) % n == 0
  {
    var q, r := i / n, i % n;
    assert i == n * q + r;
    if r + 1 < n {
      DivisionIs(i + 1, n, q, r + 1);
    } else {
      assert i + 1 == n * (q + 1) + 0;
      DivisionIs(i + 1, n, q + 1, 0);
    }
  }

  /** Adding one to the node whose turn it is moves every load on by one assignment. */
  lemma NextLoad(i: nat, n: nat, j: nat)
    requires j < n
    ensures RoundRobinLoad(i + 1, n, j) == RoundRobinLoad(i, n, j) + if j == i % n then 1 else 0
  {
    NextTurn(i, n);
  }

  /** min over the insertion-ordered dictionary: the first of the least loaded nodes. */
  method LeastLoaded(order: seq<Node>, load: map<Node, nat>) returns (at: nat)
    requires order != [] && load.Keys == set n | n in order
    ensures at < |order| && forall k :: 0 <= k < |order| ==> load[order[at]] <= load[order[k]]
    ensures forall k :: 0 <= k < at ==> load[order[at]] < load[order[k]]
  {
    at := 0;
    for j := 1 to |order|
      invariant at < j
      invariant forall k :: 0 <= k < j ==> load[order[at]] <= load[order[k]]
      invariant forall k :: 0 <= k < at ==> load[order[at]] < load[order[k]]
    {
      if load[order[j]] < load[order[at]] {
        at := j;
      }
    }
  }

  ghost predicate RoundRobin(order: seq<Node>, load: map<Node, nat>, i: nat) {
    && order != []
    && load.Keys == (set n | n in order)
    && forall j :: 0 <= j < |order| ==> load[order[j]] == RoundRobinLoad(i, |order|, j)
  }

  lemma FirstLeastIsNext(order: seq<Node>, load: map<Node, nat>, i: nat, at: nat)
    requires RoundRobin(order, load, i)
    requires at < |order| && forall k :: 0 <= k < |order| ==> load[order[at]] <= load[order[k]]
    requires forall k :: 0 <= k < at ==> load[order[at]] < load[order[k]]
    requires Distinct(order)
    ensures at == i % |order| && RoundRobin(order, load[order[at] := load[order[at]] + 1], i + 1)
  {
    assert load[order[at]] <= load[order[i % |order|]];
    var next := load[order[at] := load[order[at]] + 1];
    forall j | 0 <= j < |order| ensures next[order[j]] == RoundRobinLoad(i + 1, |order|, j) {
      NextLoad(i, |order|, j);
    }
  }

  lemma LoadsAreEven(order: seq<Node>, load: map<Node, nat>, i: nat, m: Node, n: Node)
    requires RoundRobin(order, load, i) && m in order && n in order
    ensures load[m] <= load[n] + 1
  {
    var a :| 0 <= a < |order| && order[a] == m;
    var b :| 0 <= b < |order| && order[b] == n;
    assert load[m] == RoundRobinLoad(i, |order|, a) && load[n] == RoundRobinLoad(i, |order|, b);
  }

  /** The least loaded node gets the next prompt, the first such on a tie. With fresh counters
      that is round robin over the distinct nodes: prompt i goes to node i modulo their number,
      and the loads end within one of each other. No nodes and some prompts is an error. */
  method AssignPrompts(prompts: seq<State>, nodes: seq<Node>)
    returns (assignedTo: Option<seq<Node>>, load: map<Node, nat>)
    ensures assignedTo.None? <==> nodes == [] && prompts != []
    ensures load.Keys == set n | n in nodes
    ensures assignedTo.Some? ==>
              && |assignedTo.value| == |prompts|
              && forall i :: 0 <= i < |prompts| ==> assignedTo.value[i] == Once(nodes)[i % |Once(nodes)|]
    ensures forall m, n :: m in nodes && n in nodes ==> load[m] <= load[n] + 1
  {
    var order := Once(nodes);
    load := map n | n in order :: 0;
    if order == [] {
      return if prompts == [] then Some([]) else None, load;
    }
    var chosen: seq<Node> := [];
    for i := 0 to |prompts|
      invariant RoundRobin(order, load, i) && |chosen| == i
      invariant forall k :: 0 <= k < i ==> chosen[k] == order[k % |order|]
    {
      var at := LeastLoaded(order, load);
      FirstLeastIsNext(order, load, i, at);
      chosen := chosen + [order[at]];
      load := load[order[at] := load[order[at]] + 1];
    }
    assignedTo := Some(chosen);
    forall m, n | m in nodes && n in nodes ensures load[m] <= load[n] + 1 {
      LoadsAreEven(order, load, |prompts|, m, n);
    }
  }

  datatype Processed = Answered(value: State) | NodeError(node: Node)

  /** Answers come back in the order of the prompts, a failure under the name of its node. */
  method DataParallelInference(prompts: seq<State>, nodes: seq<Node>, single: (Node, State) -> Option<State>)
    returns (processed: Option<seq<Processed>>)
    ensures processed.None? <==> nodes == [] && prompts != []
    ensures processed.Some? ==>
              && |processed.value| == |prompts|
              && forall i :: 0 <= i < |prompts| ==>
                   var node := Once(nodes)[i % |Once(nodes)|];
                   processed.value[i] == match single(node, prompts[i])
                                         case Some(y) => Answered(y)
                                         case None => NodeError(node)
  {
    var chosen, _ := AssignPrompts(prompts, nodes);
    if chosen.None? {
      return None;
    }
    var list: seq<Processed> := [];
    for i := 0 to |prompts|
      invariant |list| == i
      invariant forall k :: 0 <= k < i ==>
                  list[k] == match single(chosen.value[k], prompts[k])
                             case Some(y) => Answered(y)
                             case None => NodeError(chosen.value[k])
    {
      var answer := single(chosen.value[i], prompts[i]);
      list := list + [if answer.Some? then Answered(answer.value) else NodeError(chosen.value[i])];
    }
    processed := Some(list);
  }
}
