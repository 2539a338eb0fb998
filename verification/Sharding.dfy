/** Splitting a task into shards and merging their results (task_sharding.py). */
module Sharding {
  import opened Arithmetic
  import opened Options
  import opened Sequences

  /** What a shard works on, and what one unit of work gives. */
  type Content(==, !new)
  type Value(==, !new)

  datatype Item = Item(filePath: Option<string>, documentId: Option<string>, content: Content)

  datatype ShardingType = Inference | Ast | Vectorize

  datatype Strategy = ByFile | ByDocument | ByBatch

  /** A result dictionary: the keys a merge looks for, and `whole`, the dictionary itself as a value. */
  datatype ResultDict = ResultDict(
    results: Option<seq<Value>>, items: Option<seq<Value>>,
    tree: Option<Value>, trees: Option<seq<Value>>, ast: Option<Value>,
    embeddings: Option<seq<Value>>, tokenCount: Option<int>, whole: Value)

  datatype Status = Pending | Running | Completed | Failed

  datatype TaskShard = TaskShard(
    kind: ShardingType, index: nat, total: nat, items: seq<Item>,
    status: Status, result: ResultDict, error: string)

  // ---------- grouping ----------

  const DEFAULT_KEY := "__default__"

  function KeyOf(item: Item, strategy: Strategy): string {
    var key := if strategy == ByFile then item.filePath else item.documentId;
    if key.Some? then key.value else DEFAULT_KEY
  }

  datatype Group = Group(key: string, items: seq<Item>)

  /** setdefault and append on an insertion-ordered dictionary. */
  function Add(groups: seq<Group>, key: string, item: Item): seq<Group> {
    if groups == [] then [Group(key, [item])]
    else if groups[0].key == key then [Group(key, groups[0].items + [item])] + groups[1..]
    else [groups[0]] + Add(groups[1..], key, item)
  }

  function KeyGroups(items: seq<Item>, strategy: Strategy): seq<Group> {
    if items == [] then []
    else Add(KeyGroups(items[..|items| - 1], strategy), KeyOf(items[|items| - 1], strategy), items[|items| - 1])
  }

  function Lists(groups: seq<Group>): (r: seq<seq<Item>>)
    ensures |r| == |groups| && forall i :: 0 <= i < |r| ==> r[i] == groups[i].items
  {
    if groups == [] then [] else [groups[0].items] + Lists(groups[1..])
  }

  /** The order in which a strategy hands out the items. */
  function Arranged(items: seq<Item>, strategy: Strategy): seq<Item> {
    if strategy == ByBatch then items else Flatten(Lists(KeyGroups(items, strategy)))
  }

  /** A batch is full from one item on, however small the size. */
  function Limit(size: int): (r: nat)
    ensures r > 0
  {
    if size > 1 then size else 1
  }

  /** A batch of negative size is never filled: batching then drops everything. */
  function Grouped(items: seq<Item>, strategy: Strategy, size: int): seq<seq<Item>> {
    if strategy == ByBatch then (if size > 0 then Cut(items, size) else [])
    else Cut(Arranged(items, strategy), Limit(size))
  }

  /** The Python slice bound maxShards - 1 on a list of n: from the end when negative. */
  function TailStart(n: nat, maxShards: int): nat
    requires n > maxShards
  {
    if maxShards >= 1 then maxShards - 1 else if n + maxShards - 1 >= 0 then n + maxShards - 1 else 0
  }

  function TailMerged(groups: seq<seq<Item>>, maxShards: int): seq<seq<Item>> {
    if |groups| > maxShards then
      var cut := TailStart(|groups|, maxShards);
      groups[..cut] + [Flatten(groups[cut..])]
    else groups
  }

  /** The size asked for, unless it is missing or zero; every type has a default of its own. */
  function EffectiveSize(kind: ShardingType, size: Option<int>): (r: int)
    ensures r != 0
  {
    if size.Some? && size.value != 0 then size.value
    else match kind
      case Inference => 8
      case Ast => 1
      case Vectorize => 10
  }

  function EffectiveStrategy(kind: ShardingType, strategy: Option<Strategy>): Strategy {
    if strategy.Some? then strategy.value
    else match kind
      case Inference => ByBatch
      case Ast => ByFile
      case Vectorize => ByDocument
  }

  // ---------- what keyed grouping keeps ----------

  /** The items with one key, in order. */
  ghost function WithKey(items: seq<Item>, key: string, strategy: Strategy): seq<Item> {
    if items == [] then []
    else
      var last := items[|items| - 1];
      WithKey(items[..|items| - 1], key, strategy) + if KeyOf(last, strategy) == key then [last] else []
  }

  /** The keys that occur, by first occurrence. */
  ghost function FirstKeys(items: seq<Item>, strategy: Strategy): seq<string> {
    if items == [] then []
    else
      var keys, key := FirstKeys(items[..|items| - 1], strategy), KeyOf(items[|items| - 1], strategy);
      if key in keys then keys else keys + [key]
  }

  lemma {:induction false} FirstKeysAre(items: seq<Item>, strategy: Strategy)
    ensures Distinct(FirstKeys(items, strategy))
    ensures forall i :: 0 <= i < |items| ==> KeyOf(items[i], strategy) in FirstKeys(items, strategy)
  {
    if items != [] {
      FirstKeysAre(items[..|items| - 1], strategy);
    }
  }

  /** The groups of a list of keys, taken from the items by searching for each key. */
  ghost function Searched(items: seq<Item>, keys: seq<string>, strategy: Strategy): (r: seq<Group>)
    ensures |r| == |keys|
    ensures forall i :: 0 <= i < |r| ==> r[i] == Group(keys[i], WithKey(items, keys[i], strategy))
  {
    seq(|keys|, i requires 0 <= i < |keys| => Group(keys[i], WithKey(items, keys[i], strategy)))
  }

  lemma {:induction false} AddIs(groups: seq<Group>, key: string, item: Item) returns (at: nat)
    ensures at <= |groups| && forall i :: 0 <= i < at ==> groups[i].key != key
    ensures at < |groups| ==> groups[at].key == key
                              && Add(groups, key, item) == groups[at := Group(key, groups[at].items + [item])]
    ensures at == |groups| ==> Add(groups, key, item) == groups + [Group(key, [item])]
  {
    if groups == [] || groups[0].key == key {
      at := 0;
    } else {
      var a := AddIs(groups[1..], key, item);
      at := a + 1;
      assert groups == [groups[0]] + groups[1..];
    }
  }

  lemma {:induction false} AbsentKey(items: seq<Item>, key: string, strategy: Strategy)
    requires key !in FirstKeys(items, strategy)
    ensures WithKey(items, key, strategy) == []
  {
    if items != [] {
      AbsentKey(items[..|items| - 1], key, strategy);
    }
  }

  /** Grouping in one pass finds, in order of first occurrence, what a search per key finds. */
  lemma {:induction false} KeyGroupsAreSearched(items: seq<Item>, strategy: Strategy)
    ensures KeyGroups(items, strategy) == Searched(items, FirstKeys(items, strategy), strategy)
  {
    if items != [] {
      var front, last := items[..|items| - 1], items[|items| - 1];
      var key, keys := KeyOf(last, strategy), FirstKeys(front, strategy);
      KeyGroupsAreSearched(front, strategy);
      FirstKeysAre(front, strategy);
      var groups := KeyGroups(front, strategy);
      var at := AddIs(groups, key, last);
      var found := Searched(items, FirstKeys(items, strategy), strategy);
      if at < |groups| {
        assert keys[at] == key;
        forall i | 0 <= i < |keys| ensures found[i] == if i == at then Group(key, groups[at].items + [last]) else groups[i] {
        }
      } else {
        assert key !in keys;
        AbsentKey(front, key, strategy);
        forall i | 0 <= i < |keys| ensures found[i] == groups[i] {
          assert keys[i] in keys;
        }
        assert found[|keys|] == Group(key, [last]);
        assert found == groups + [Group(key, [last])];
      }
    }
  }

  lemma {:induction false} WithKeySplit(a: seq<Item>, b: seq<Item>, key: string, strategy: Strategy)
    ensures WithKey(a + b, key, strategy) == WithKey(a, key, strategy) + WithKey(b, key, strategy)
  {
    if b == [] {
      assert a + b == a;
    } else {
      var front, last := b[..|b| - 1], b[|b| - 1];
      WithKeySplit(a, front, key, strategy);
      assert b == front + [last];
      SplitOneMore(a, front, last, key, strategy);
    }
  }

  lemma SplitOneMore(a: seq<Item>, front: seq<Item>, last: Item, key: string, strategy: Strategy)
    requires WithKey(a + front, key, strategy) == WithKey(a, key, strategy) + WithKey(front, key, strategy)
    ensures WithKey(a + (front + [last]), key, strategy)
         == WithKey(a, key, strategy) + WithKey(front + [last], key, strategy)
  {
    Associates(a, front, [last]);
    WithKeyLast(a + front, last, key, strategy);
    WithKeyLast(front, last, key, strategy);
    Associates(WithKey(a, key, strategy), WithKey(front, key, strategy), if KeyOf(last, strategy) == key then [last] else []);
  }

  lemma WithKeyLast(items: seq<Item>, last: Item, key: string, strategy: Strategy)
    ensures WithKey(items + [last], key, strategy)
         == WithKey(items, key, strategy) + if KeyOf(last, strategy) == key then [last] else []
  {
    assert (items + [last])[..|items|] == items;
  }

  lemma {:induction false} WithKeyTwice(items: seq<Item>, key: string, other: string, strategy: Strategy)
    ensures WithKey(WithKey(items, other, strategy), key, strategy)
         == if key == other then WithKey(items, key, strategy) else []
  {
    if items != [] {
      var front, last := items[..|items| - 1], items[|items| - 1];
      WithKeyTwice(front, key, other, strategy);
      var one := [last];
      assert one[..0] == [];
      WithKeySplit(WithKey(front, other, strategy), if KeyOf(last, strategy) == other then one else [], key, strategy);
    }
  }

  lemma {:induction false} AllWithKey(items: seq<Item>, key: string, strategy: Strategy)
    ensures forall i :: 0 <= i < |WithKey(items, key, strategy)| ==> KeyOf(WithKey(items, key, strategy)[i], strategy) == key
  {
    if items != [] {
      AllWithKey(items[..|items| - 1], key, strategy);
    }
  }

  lemma SearchedHead(items: seq<Item>, keys: seq<string>, strategy: Strategy)
    requires keys != []
    ensures Flatten(Lists(Searched(items, keys, strategy)))
         == WithKey(items, keys[0], strategy) + Flatten(Lists(Searched(items, keys[1..], strategy)))
  {
    assert Searched(items, keys, strategy)[1..] == Searched(items, keys[1..], strategy);
  }

  lemma DistinctTail(keys: seq<string>)
    requires Distinct(keys) && keys != []
    ensures Distinct(keys[1..]) && keys[0] !in keys[1..] && keys == [keys[0]] + keys[1..]
  {
  }

  lemma {:induction false} SearchedKeeps(items: seq<Item>, keys: seq<string>, key: string, strategy: Strategy)
    requires Distinct(keys)
    ensures WithKey(Flatten(Lists(Searched(items, keys, strategy))), key, strategy)
         == if key in keys then WithKey(items, key, strategy) else []
  {
    if keys != [] {
      DistinctTail(keys);
      SearchedHead(items, keys, strategy);
      SearchedKeeps(items, keys[1..], key, strategy);
      KeptByHead(items, keys, key, strategy, Flatten(Lists(Searched(items, keys[1..], strategy))));
    }
  }

  lemma KeptByHead(items: seq<Item>, keys: seq<string>, key: string, strategy: Strategy, later: seq<Item>)
    requires keys != [] && keys[0] !in keys[1..]
    requires WithKey(later, key, strategy) == if key in keys[1..] then WithKey(items, key, strategy) else []
    ensures WithKey(WithKey(items, keys[0], strategy) + later, key, strategy)
         == if key in keys then WithKey(items, key, strategy) else []
  {
    WithKeyTwice(items, key, keys[0], strategy);
    WithKeySplit(WithKey(items, keys[0], strategy), later, key, strategy);
    assert key in keys <==> key == keys[0] || key in keys[1..];
    var found := WithKey(items, key, strategy);
    assert found + [] == found && [] + found == found;
  }

  /** Equal keys stand together. */
  ghost predicate Contiguous(items: seq<Item>, strategy: Strategy) {
    forall i, j, k :: 0 <= i < j < k < |items| && KeyOf(items[i], strategy) == KeyOf(items[k], strategy) ==>
      KeyOf(items[j], strategy) == KeyOf(items[i], strategy)
  }

  lemma {:induction false} SearchedContiguous(items: seq<Item>, keys: seq<string>, strategy: Strategy)
    requires Distinct(keys)
    ensures var all := Flatten(Lists(Searched(items, keys, strategy)));
            && Contiguous(all, strategy)
            && forall i :: 0 <= i < |all| ==> KeyOf(all[i], strategy) in keys
  {
    if keys != [] {
      DistinctTail(keys);
      SearchedHead(items, keys, strategy);
      SearchedContiguous(items, keys[1..], strategy);
      AllWithKey(items, keys[0], strategy);
      JoinContiguous(WithKey(items, keys[0], strategy), Flatten(Lists(Searched(items, keys[1..], strategy))),
                     keys[0], keys[1..], strategy);
    }
  }

  lemma JoinContiguous(a: seq<Item>, b: seq<Item>, key: string, keys: seq<string>, strategy: Strategy)
    requires forall i :: 0 <= i < |a| ==> KeyOf(a[i], strategy) == key
    requires forall i :: 0 <= i < |b| ==> KeyOf(b[i], strategy) in keys
    requires key !in keys && Contiguous(b, strategy)
    ensures Contiguous(a + b, strategy)
    ensures forall i :: 0 <= i < |a + b| ==> KeyOf((a + b)[i], strategy) in [key] + keys
  {
    var all := a + b;
    forall k | |a| <= k < |all| ensures KeyOf(all[k], strategy) in keys {
      assert all[k] == b[k - |a|];
    }
    forall i, j, k | 0 <= i < j < k < |all| && KeyOf(all[i], strategy) == KeyOf(all[k], strategy)
      ensures KeyOf(all[j], strategy) == KeyOf(all[i], strategy)
    {
      if i >= |a| {
        assert all[i] == b[i - |a|] && all[j] == b[j - |a|] && all[k] == b[k - |a|];
      } else if k >= |a| {
        assert false;
      }
    }
  }

  /** The items in the groups, without order. */
  ghost function Held(groups: seq<Group>): multiset<Item> {
    if groups == [] then multiset{} else multiset(groups[0].items) + Held(groups[1..])
  }

  lemma {:induction false} HeldIsListed(groups: seq<Group>)
    ensures multiset(Flatten(Lists(groups))) == Held(groups)
  {
    if groups != [] {
      HeldIsListed(groups[1..]);
      assert Flatten(Lists(groups)) == groups[0].items + Flatten(Lists(groups[1..]));
    }
  }

  lemma {:induction false} AddKeepsItems(groups: seq<Group>, key: string, item: Item)
    ensures Held(Add(groups, key, item)) == Held(groups) + multiset{item}
  {
    if groups == [] {
      assert Held([Group(key, [item])]) == multiset([item]) + Held([]);
    } else if groups[0].key == key {
      var g := [Group(key, groups[0].items + [item])] + groups[1..];
      assert g[1..] == groups[1..];
    } else {
      AddKeepsItems(groups[1..], key, item);
      var g := [groups[0]] + Add(groups[1..], key, item);
      assert g[1..] == Add(groups[1..], key, item);
    }
  }

  lemma {:induction false} KeyGroupsHold(items: seq<Item>, strategy: Strategy)
    ensures Held(KeyGroups(items, strategy)) == multiset(items)
  {
    if items != [] {
      var front, last := items[..|items| - 1], items[|items| - 1];
      KeyGroupsHold(front, strategy);
      AddKeepsItems(KeyGroups(front, strategy), KeyOf(last, strategy), last);
      assert items == front + [last];
    }
  }

  lemma KeyGroupsKeepItems(items: seq<Item>, strategy: Strategy)
    ensures multiset(Flatten(Lists(KeyGroups(items, strategy)))) == multiset(items)
  {
    KeyGroupsHold(items, strategy);
    HeldIsListed(KeyGroups(items, strategy));
  }

  /** A keyed strategy arranges the items as a stable permutation in which equal keys stand
      together: nothing is lost or repeated, and items with equal keys keep their order. */
  lemma ArrangedIsStable(items: seq<Item>, strategy: Strategy, key: string)
    requires strategy != ByBatch
    ensures var all := Arranged(items, strategy);
            && multiset(all) == multiset(items)
            && Contiguous(all, strategy)
            && WithKey(all, key, strategy) == WithKey(items, key, strategy)
  {
    var keys := FirstKeys(items, strategy);
    KeyGroupsKeepItems(items, strategy);
    KeyGroupsAreSearched(items, strategy);
    FirstKeysAre(items, strategy);
    SearchedContiguous(items, keys, strategy);
    SearchedKeeps(items, keys, key, strategy);
    if key !in keys { AbsentKey(items, key, strategy); }
  }

  /** The file, or the document, an item belongs to; those without one belong together. */
  ghost function FileOf(item: Item): string {
    match item.filePath case None => "__default__" case Some(path) => path
  }

  ghost function DocumentOf(item: Item): string {
    match item.documentId case None => "__default__" case Some(id) => id
  }

  ghost function Belonging(items: seq<Item>, place: Item -> string, name: string): seq<Item> {
    if items == [] then []
    else
      Belonging(items[..|items| - 1], place, name) + if place(items[|items| - 1]) == name then [items[|items| - 1]] else []
  }

  ghost predicate SideBySide(items: seq<Item>, place: Item -> string) {
    forall i, j, k :: 0 <= i < j < k < |items| && place(items[i]) == place(items[k]) ==> place(items[j]) == place(items[i])
  }

  lemma {:induction false} BelongingIs(items: seq<Item>, place: Item -> string, name: string, strategy: Strategy)
    requires forall x :: KeyOf(x, strategy) == place(x)
    ensures Belonging(items, place, name) == WithKey(items, name, strategy)
  {
    if items != [] { BelongingIs(items[..|items| - 1], place, name, strategy); }
  }

  lemma ArrangedByPlace(items: seq<Item>, place: Item -> string, name: string, strategy: Strategy)
    requires strategy != ByBatch && forall x :: KeyOf(x, strategy) == place(x)
    ensures var all := Arranged(items, strategy);
            multiset(all) == multiset(items) && SideBySide(all, place) && Belonging(all, place, name) == Belonging(items, place, name)
  {
    ArrangedIsStable(items, strategy, name);
    BelongingIs(items, place, name, strategy);
    BelongingIs(Arranged(items, strategy), place, name, strategy);
  }

  /** Arranging by file keeps every item, puts the items of a file side by side and keeps their
      order; so does arranging by document. */
  lemma ArrangedByFile(items: seq<Item>, name: string)
    ensures var all := Arranged(items, ByFile);
            multiset(all) == multiset(items) && SideBySide(all, FileOf) && Belonging(all, FileOf, name) == Belonging(items, FileOf, name)
  {
    ArrangedByPlace(items, FileOf, name, ByFile);
  }

  lemma ArrangedByDocument(items: seq<Item>, name: string)
    ensures var all := Arranged(items, ByDocument);
            && multiset(all) == multiset(items) && SideBySide(all, DocumentOf)
            && Belonging(all, DocumentOf, name) == Belonging(items, DocumentOf, name)
  {
    ArrangedByPlace(items, DocumentOf, name, ByDocument);
  }

  // ---------- what sharding keeps ----------

  /** Batching with a negative size drops every item, so no shard is left. */
  lemma NegativeSizeDropsAll(items: seq<Item>, size: int, maxShards: nat)
    requires size < 0
    ensures TailMerged(Grouped(items, ByBatch, size), maxShards) == []
  {
  }

  /** Nothing is lost: the shards in order hold the arranged items, except that batching with a
      negative size drops them. */
  lemma GroupsFlatten(items: seq<Item>, strategy: Strategy, size: int, maxShards: int)
    requires items != [] && size != 0
    ensures Flatten(TailMerged(Grouped(items, strategy, size), maxShards)) == Arranged(items, strategy)
            <==> !(strategy == ByBatch && size < 0)
  {
    var groups := Grouped(items, strategy, size);
    TailKeeps(groups, maxShards);
    if !(strategy == ByBatch && size < 0) {
      CutFlattens(Arranged(items, strategy), Limit(size));
    }
  }

  lemma TailKeeps(groups: seq<seq<Item>>, maxShards: int)
    ensures Flatten(TailMerged(groups, maxShards)) == Flatten(groups)
  {
    if |groups| > maxShards {
      var cut := TailStart(|groups|, maxShards);
      var tail := Flatten(groups[cut..]);
      FlattenSplit(groups[..cut], groups[cut..]);
      FlattenSplit(groups[..cut], [tail]);
      assert groups == groups[..cut] + groups[cut..];
      assert Flatten([tail]) == tail + Flatten([]);
    }
  }

  /** There is a shard, none is empty, and the limit on their number is kept if and only if the
      limit allows one. */
  lemma ShardBounds(items: seq<Item>, strategy: Strategy, size: int, maxShards: int)
    requires items != [] && size != 0 && !(strategy == ByBatch && size < 0)
    ensures var r := TailMerged(Grouped(items, strategy, size), maxShards);
            && r != []
            && (forall i :: 0 <= i < |r| ==> r[i] != [])
            && (|r| <= maxShards <==> maxShards >= 1)
  {
    ArrangedSize(items, strategy);
    CutFlattens(Arranged(items, strategy), Limit(size));
    TailNotEmpty(Grouped(items, strategy, size), maxShards);
  }

  lemma ArrangedSize(items: seq<Item>, strategy: Strategy)
    ensures |Arranged(items, strategy)| == |items|
  {
    if strategy != ByBatch {
      ArrangedIsStable(items, strategy, "");
      assert |multiset(Arranged(items, strategy))| == |multiset(items)|;
    }
  }

  lemma TailNotEmpty(groups: seq<seq<Item>>, maxShards: int)
    requires groups != [] && forall i :: 0 <= i < |groups| ==> groups[i] != []
    ensures var r := TailMerged(groups, maxShards);
            r != [] && (forall i :: 0 <= i < |r| ==> r[i] != []) && (|r| <= maxShards <==> maxShards >= 1)
  {
    if |groups| > maxShards {
      var cut := TailStart(|groups|, maxShards);
      var tail := groups[cut..];
      assert tail[0] == groups[cut] && Flatten(tail) == tail[0] + Flatten(tail[1..]);
    }
  }

  lemma {:induction false} CutCount(all: seq<Item>, limit: nat)
    requires limit > 0
    ensures |Cut(all, limit)| == CeilDiv(|all|, limit)
    ensures forall i :: 0 <= i < |Cut(all, limit)| - 1 ==> |Cut(all, limit)[i]| == limit
    decreases |all|
  {
    CeilDivStep(|all|, limit);
    if |all| > limit { CutCount(all[limit..], limit); }
  }

  /** How many shards there are and how large: n items make n / size batches, rounded up, every one but
      the last of the full size (of one item, if the size is negative); beyond the limit the
      surplus batches become one last shard, and the ones before it stay as they were. */
  lemma ShardCount(items: seq<Item>, strategy: Strategy, size: int, maxShards: int)
    requires items != [] && size != 0 && !(strategy == ByBatch && size < 0) && maxShards >= 1
    ensures var r, full := TailMerged(Grouped(items, strategy, size), maxShards), if size >= 1 then size else 1;
            var batches := CeilDiv(|items|, full);
            && r != [] && |r| == (if batches <= maxShards then batches else maxShards)
            && (forall i :: 0 <= i < |r| - 1 ==> |r[i]| == full)
            && (batches <= maxShards ==> |r[|r| - 1]| <= full)
  {
    ArrangedSize(items, strategy);
    CutCount(Arranged(items, strategy), Limit(size));
    ShardBounds(items, strategy, size, maxShards);
  }

  /** Without a size, or with size zero, eight items make a shard of inference, one of parsing and ten of
      embedding; without a strategy they are taken by batch, file and document. */
  lemma DefaultsOfTypes(kind: ShardingType, size: Option<int>, strategy: Option<Strategy>)
    ensures EffectiveSize(kind, size) ==
            if size.Some? && size != Some(0) then size.value
            else if kind == Inference then 8 else if kind == Ast then 1 else 10
    ensures EffectiveStrategy(kind, strategy) ==
            if strategy.Some? then strategy.value
            else if kind == Inference then ByBatch else if kind == Ast then ByFile else ByDocument
  {
  }

  // ---------- merging ----------

  datatype MergedData = NoData | Merged(values: seq<Value>, totalTokens: int)

  datatype MergedResult = MergedResult(
    kind: ShardingType, totalShards: nat, successCount: nat, failCount: nat,
    data: MergedData, errors: seq<(nat, string)>)

  /** What one result adds to the merged list; the keys are tried in this order. */
  function Contribution(kind: ShardingType, d: ResultDict): seq<Value> {
    match kind
    case Inference =>
      if d.results.Some? then d.results.value
      else if d.items.Some? then d.items.value
      else [d.whole]
    case Ast =>
      if d.tree.Some? then [d.tree.value]
      else if d.trees.Some? then d.trees.value
      else if d.ast.Some? then [d.ast.value]
      else []
    case Vectorize =>
      if d.embeddings.Some? then d.embeddings.value else []
  }

  function TokenCount(kind: ShardingType, d: ResultDict): int {
    if kind == Vectorize && d.tokenCount.Some? then d.tokenCount.value else 0
  }

  /** The completed shards, in order. */
  function Finished(shards: seq<TaskShard>): seq<TaskShard> {
    if shards == [] then []
    else
      var last := shards[|shards| - 1];
      Finished(shards[..|shards| - 1]) + if last.status == Completed then [last] else []
  }

  /** Exactly the completed shards, in order: the k-th of them is the one with k completed ones before it. */
  lemma {:induction false} FinishedAre(shards: seq<TaskShard>, i: nat)
    requires i < |shards|
    ensures |Finished(shards[..i])| <= |Finished(shards)| <= |shards|
    ensures shards[i].status == Completed ==>
              |Finished(shards[..i])| < |Finished(shards)| && Finished(shards)[|Finished(shards[..i])|] == shards[i]
    ensures shards[i].status != Completed ==> |Finished(shards[..i + 1])| == |Finished(shards[..i])|
  {
    var k := |shards| - 1;
    assert shards[..i + 1][..i] == shards[..i];
    if i < k {
      assert shards[..k][..i] == shards[..i] && shards[..k][..i + 1] == shards[..i + 1];
      FinishedAre(shards[..k], i);
    } else {
      assert shards[..i + 1] == shards;
      FinishedAtMost(shards);
    }
  }

  lemma {:induction false} FinishedAtMost(shards: seq<TaskShard>)
    ensures |Finished(shards)| <= |shards|
  {
    if shards != [] { FinishedAtMost(shards[..|shards| - 1]); }
  }

  function MergedValues(kind: ShardingType, finished: seq<TaskShard>): seq<Value> {
    if finished == [] then []
    else MergedValues(kind, finished[..|finished| - 1]) + Contribution(kind, finished[|finished| - 1].result)
  }

  function MergedTokens(kind: ShardingType, finished: seq<TaskShard>): int {
    if finished == [] then 0
    else MergedTokens(kind, finished[..|finished| - 1]) + TokenCount(kind, finished[|finished| - 1].result)
  }

  function Errors(shards: seq<TaskShard>): seq<(nat, string)> {
    if shards == [] then []
    else
      var last := shards[|shards| - 1];
      Errors(shards[..|shards| - 1])
      + if last.status != Completed && last.error != "" then [(last.index, last.error)] else []
  }

  /** The first key found decides what a result contributes; only embeddings count tokens. */
  lemma FirstKeyWins(d: ResultDict, results: seq<Value>, items: seq<Value>, v: Value)
    ensures Contribution(Inference, d.(results := Some(results))) == results
    ensures Contribution(Inference, d.(results := None, items := Some(items))) == items
    ensures Contribution(Inference, d.(results := None, items := None)) == [d.whole]
    ensures Contribution(Ast, d.(tree := Some(v))) == [v]
    ensures Contribution(Ast, d.(tree := None, trees := Some(items))) == items
    ensures Contribution(Ast, d.(tree := None, trees := None, ast := Some(v))) == [v]
    ensures Contribution(Ast, d.(tree := None, trees := None, ast := None)) == []
    ensures Contribution(Vectorize, d.(embeddings := Some(items))) == items
    ensures Contribution(Vectorize, d.(embeddings := None)) == []
    ensures TokenCount(Inference, d) == TokenCount(Ast, d) == TokenCount(Vectorize, d.(tokenCount := None)) == 0
    ensures d.tokenCount.Some? ==> TokenCount(Vectorize, d) == d.tokenCount.value
  {
  }

  /** An error is listed exactly if a shard that is not completed has it. */
  lemma {:induction false} ErrorsAre(shards: seq<TaskShard>, e: (nat, string))
    ensures e in Errors(shards) <==>
            exists i :: 0 <= i < |shards| && shards[i].status != Completed && shards[i].error != "" && e == (shards[i].index, shards[i].error)
  {
    if shards != [] {
      var front := shards[..|shards| - 1];
      ErrorsAre(front, e);
      assert forall i :: 0 <= i < |front| ==> front[i] == shards[i];
    }
  }

  /** One pass for statuses, one for the data. Every shard counts as a success or a failure, so
      a merged result always looks complete. */
  method Merge(shards: seq<TaskShard>) returns (m: MergedResult)
    ensures shards == [] ==> m == MergedResult(Inference, 0, 0, 0, NoData, [])
    ensures m.totalShards == |shards| == m.successCount + m.failCount
    ensures m.successCount == |Finished(shards)| && m.errors == Errors(shards)
    ensures shards != [] ==> m.kind == shards[0].kind
                             && m.data == Merged(MergedValues(m.kind, Finished(shards)), MergedTokens(m.kind, Finished(shards)))
  {
    if shards == [] {
      return MergedResult(Inference, 0, 0, 0, NoData, []);
    }
    var kind := shards[0].kind;
    var success, fail := 0, 0;
    var errors: seq<(nat, string)> := [];
    var finished: seq<TaskShard> := [];
    for i := 0 to |shards|
      invariant finished == Finished(shards[..i]) && errors == Errors(shards[..i])
      invariant success == |finished| && success + fail == i
    {
      assert shards[..i + 1][..i] == shards[..i];
      if shards[i].status == Completed {
        success := success + 1;
        finished := finished + [shards[i]];
      } else {
        fail := fail + 1;
        if shards[i].error != "" {
          errors := errors + [(shards[i].index, shards[i].error)];
        }
      }
    }
    assert shards[..|shards|] == shards;
    var values: seq<Value> := [];
    var tokens := 0;
    for i := 0 to |finished|
      invariant values == MergedValues(kind, finished[..i]) && tokens == MergedTokens(kind, finished[..i])
    {
      assert finished[..i + 1][..i] == finished[..i];
      values := values + Contribution(kind, finished[i].result);
      tokens := tokens + TokenCount(kind, finished[i].result);
    }
    assert finished[..|finished|] == finished;
    m := MergedResult(kind, |shards|, success, fail, Merged(values, tokens), errors);
  }

  function ItemsOf(shards: seq<TaskShard>): (r: seq<seq<Item>>)
    ensures |r| == |shards| && forall i :: 0 <= i < |r| ==> r[i] == shards[i].items
  {
    seq(|shards|, i requires 0 <= i < |shards| => shards[i].items)
  }

  /** A worker that maps f over the items of its shard. */
  ghost predicate Mapped(shard: TaskShard, f: Item -> Value) {
    Contribution(shard.kind, shard.result) == Map(f, shard.items)
  }

  /** Whatever fails, the merged list is f mapped over the items of the completed shards. */
  lemma {:induction false} MergedIsMapped(kind: ShardingType, finished: seq<TaskShard>, f: Item -> Value)
    requires forall s :: s in finished ==> s.kind == kind && Mapped(s, f)
    ensures MergedValues(kind, finished) == Map(f, Flatten(ItemsOf(finished)))
  {
    if finished != [] {
      var front, last := finished[..|finished| - 1], finished[|finished| - 1];
      assert Mapped(last, f);
      MergedIsMapped(kind, front, f);
      var lists := ItemsOf(finished);
      assert lists[..|front|] == ItemsOf(front) && lists[..|front| + 1] == lists;
      FlattenLast(lists, |front|);
      MapSplit(f, Flatten(ItemsOf(front)), last.items);
    }
  }

  lemma {:induction false} AllFinished(shards: seq<TaskShard>)
    requires forall s :: s in shards ==> s.status == Completed
    ensures Finished(shards) == shards
  {
    if shards != [] {
      AllFinished(shards[..|shards| - 1]);
      assert shards == shards[..|shards| - 1] + [shards[|shards| - 1]];
    }
  }

  /** Shard, map, merge is map: when every shard completes with f mapped over its items, the merge
      lists f of every item, in the order of the strategy, also after tail merging. */
  lemma ShardMapMerge(items: seq<Item>, kind: ShardingType, strategy: Strategy, size: int, maxShards: int,
                      shards: seq<TaskShard>, f: Item -> Value)
    requires items != [] && size != 0 && !(strategy == ByBatch && size < 0)
    requires ItemsOf(shards) == TailMerged(Grouped(items, strategy, size), maxShards)
    requires forall s :: s in shards ==> s.kind == kind && s.status == Completed && Mapped(s, f)
    ensures Finished(shards) == shards
    ensures MergedValues(kind, Finished(shards)) == Map(f, Arranged(items, strategy))
    ensures strategy == ByBatch ==> MergedValues(kind, Finished(shards)) == Map(f, items)
  {
    AllFinished(shards);
    MergedIsMapped(kind, shards, f);
    GroupsFlatten(items, strategy, size, maxShards);
  }

  // ---------- the sharder ----------

  /** What is still to be batched: an unfinished batch and the items after it. */
  ghost predicate ToBatch(all: seq<Item>, limit: nat, result: seq<seq<Item>>, batch: seq<Item>, rest: seq<Item>)
    requires limit > 0
  {
    |batch| < limit && Cut(all, limit) == result + Cut(batch + rest, limit)
  }

  lemma StartBatches(all: seq<Item>, limit: nat)
    requires limit > 0
    ensures ToBatch(all, limit, [], [], all)
  {
    assert [] + all == all;
  }

  lemma EndBatches(all: seq<Item>, limit: nat, result: seq<seq<Item>>, batch: seq<Item>)
    requires limit > 0 && ToBatch(all, limit, result, batch, [])
    ensures Cut(all, limit) == if batch == [] then result else result + [batch]
  {
    assert batch + [] == batch;
  }

  lemma BatchItem(all: seq<Item>, limit: nat, result: seq<seq<Item>>, batch: seq<Item>, item: Item,
                  rest: seq<Item>, after: seq<Item>)
    requires limit > 0 && rest == [item] + after && ToBatch(all, limit, result, batch, rest)
    ensures var longer := batch + [item];
            if |longer| >= limit then ToBatch(all, limit, result + [longer], [], after)
            else ToBatch(all, limit, result, longer, after)
  {
    var longer := batch + [item];
    assert batch + rest == longer + after;
    if |longer| >= limit {
      CutStep(longer + after, limit, limit);
      assert (longer + after)[..limit] == longer && (longer + after)[limit..] == after;
      assert [] + after == after;
    }
  }

  class TaskSharder {
    const maxShards: int
    const noResult: ResultDict
    var shards: map<string, seq<TaskShard>>

    constructor (maxShards: int, noResult: ResultDict)
      ensures this.maxShards == maxShards && this.noResult == noResult && shards == map[]
    {
      this.maxShards := maxShards;
      this.noResult := noResult;
      shards := map[];
    }

    method GroupByBatch(items: seq<Item>, size: int) returns (result: seq<seq<Item>>)
      requires size != 0
      ensures result == Grouped(items, ByBatch, size)
    {
      result := [];
      var i := 0;
      while size > 0 && i < |items|
        invariant 0 <= i
        invariant size > 0 ==> Cut(items, size) == result + if i < |items| then Cut(items[i..], size) else []
        invariant size < 0 ==> result == []
        decreases |items| - i
      {
        var end := if i + size < |items| then i + size else |items|;
        CutStep(items[i..], size, end - i);
        assert items[i..][..end - i] == items[i..end] && items[i..][end - i..] == items[end..];
        result := result + [items[i..end]];
        i := i + size;
      }
    }

    method GroupItems(items: seq<Item>, strategy: Strategy) returns (groups: seq<Group>)
      ensures groups == KeyGroups(items, strategy)
    {
      groups := [];
      for i := 0 to |items|
        invariant groups == KeyGroups(items[..i], strategy)
      {
        assert items[..i + 1][..i] == items[..i];
        groups := Add(groups, KeyOf(items[i], strategy), items[i]);
      }
      assert items[..|items|] == items;
    }

    /** The inner loop: adds the items of one group, finishing batches on the way. */
    method AddToBatches(list: seq<Item>, size: int, result: seq<seq<Item>>, batch: seq<Item>,
                        ghost all: seq<Item>, ghost later: seq<Item>)
      returns (result': seq<seq<Item>>, batch': seq<Item>)
      requires ToBatch(all, Limit(size), result, batch, list + later)
      ensures ToBatch(all, Limit(size), result', batch', later)
    {
      result', batch' := result, batch;
      assert list[0..] == list;
      for j := 0 to |list|
        invariant ToBatch(all, Limit(size), result', batch', list[j..] + later)
      {
        assert list[j..] + later == [list[j]] + (list[j + 1..] + later);
        BatchItem(all, Limit(size), result', batch', list[j], list[j..] + later, list[j + 1..] + later);
        batch' := batch' + [list[j]];
        if |batch'| >= size {
          result', batch' := result' + [batch'], [];
        }
      }
      assert list[|list|..] + later == later;
    }

    method GroupByKey(items: seq<Item>, strategy: Strategy, size: int) returns (result: seq<seq<Item>>)
      requires strategy != ByBatch
      ensures result == Grouped(items, strategy, size)
    {
      var groups := GroupItems(items, strategy);
      ghost var lists := Lists(groups);
      ghost var all := Flatten(lists);
      result := [];
      var batch: seq<Item> := [];
      StartBatches(all, Limit(size));
      assert lists[0..] == lists;
      for g := 0 to |groups|
        invariant ToBatch(all, Limit(size), result, batch, Flatten(lists[g..]))
      {
        assert lists[g..][1..] == lists[g + 1..];
        result, batch := AddToBatches(groups[g].items, size, result, batch, all, Flatten(lists[g + 1..]));
      }
      EndBatches(all, Limit(size), result, batch);
      if batch != [] {
        result := result + [batch];
      }
    }

    /** Splits the items and files the shards under the task; no items, no entry. */
    method CreateShards(taskId: string, kind: ShardingType, items: seq<Item>,
                        strategy: Option<Strategy>, shardSize: Option<int>)
      returns (result: seq<TaskShard>)
      modifies `shards
      ensures items == [] ==> result == [] && shards == old(shards)
      ensures items != [] ==>
                var groups := Grouped(items, EffectiveStrategy(kind, strategy), EffectiveSize(kind, shardSize));
                && ItemsOf(result) == TailMerged(groups, maxShards)
                && shards == old(shards)[taskId := result]
                && forall i :: 0 <= i < |result| ==>
                     result[i] == TaskShard(kind, i, |result|, ItemsOf(result)[i], Pending, noResult, "")
    {
      if items == [] {
        return [];
      }
      var how := EffectiveStrategy(kind, strategy);
      var size := EffectiveSize(kind, shardSize);
      var groups: seq<seq<Item>>;
      if how == ByBatch {
        groups := GroupByBatch(items, size);
      } else {
        groups := GroupByKey(items, how, size);
      }
      if |groups| > maxShards {
        var cut := TailStart(|groups|, maxShards);
        groups := groups[..cut] + [Flatten(groups[cut..])];
      }
      result := [];
      for i := 0 to |groups|
        invariant |result| == i
        invariant forall k :: 0 <= k < i ==> result[k] == TaskShard(kind, k, |groups|, groups[k], Pending, noResult, "")
      {
        result := result + [TaskShard(kind, i, |groups|, groups[i], Pending, noResult, "")];
      }
      assert ItemsOf(result) == groups;
      shards := shards[taskId := result];
    }
  }
}
