/** The pick strategy that spreads adoptions over nodes: take the oldest key of a node with the
    most remaining warm sandboxes. */
module NodeSpread {
  import opened Text
  import opened SandboxQueue

  /** Keys of a scheduled node left in the list; the empty node name counts nothing. */
  function Count(keys: seq<SandboxKey>, node: string): nat {
    if keys == [] then 0
    else (if keys[0].nodeName == node && node != "" then 1 else 0) + Count(keys[1..], node)
  }

  predicate Maximal(keys: seq<SandboxKey>, node: string) {
    forall k :: k in keys ==> Count(keys, k.nodeName) <= Count(keys, node)
  }

  /** i is the oldest key among the nodes with the most keys, or the oldest key when none is
      scheduled. */
  ghost predicate OldestOfFullest(keys: seq<SandboxKey>, i: nat) {
    && i < |keys|
    && if forall k :: k in keys ==> k.nodeName == "" then i == 0
       else
         && keys[i].nodeName != "" && Maximal(keys, keys[i].nodeName)
         && forall j :: 0 <= j < i && keys[j].nodeName != "" ==> !Maximal(keys, keys[j].nodeName)
  }

  function FirstFullest(keys: seq<SandboxKey>, from: nat): (i: nat)
    requires from <= |keys|
    ensures from <= i <= |keys|
    ensures i < |keys| ==> keys[i].nodeName != "" && Maximal(keys, keys[i].nodeName)
    ensures forall j :: from <= j < i && keys[j].nodeName != "" ==> !Maximal(keys, keys[j].nodeName)
    decreases |keys| - from
  {
    if from == |keys| then from
    else if keys[from].nodeName != "" && Maximal(keys, keys[from].nodeName) then from
    else FirstFullest(keys, from + 1)
  }

  function PickIndex(keys: seq<SandboxKey>): nat
    requires keys != []
  {
    var i := FirstFullest(keys, 0);
    if i < |keys| then i else 0
  }

  lemma {:induction false} CountPositive(keys: seq<SandboxKey>, k: SandboxKey)
    requires k in keys && k.nodeName != ""
    ensures Count(keys, k.nodeName) > 0
  {
    if keys[0] != k {
      CountPositive(keys[1..], k);
    }
  }

  lemma {:induction false} CountOfNoNode(keys: seq<SandboxKey>)
    ensures Count(keys, "") == 0
  {
    if keys != [] { CountOfNoNode(keys[1..]); }
  }

  /** Some scheduled key always sits on a node with the most keys. */
  lemma FullestExists(keys: seq<SandboxKey>, n: nat) returns (best: nat)
    requires n < |keys|
    ensures best < |keys|
    ensures forall j :: 0 <= j <= n ==> Count(keys, keys[j].nodeName) <= Count(keys, keys[best].nodeName)
  {
    best := 0;
    for m := 1 to n + 1
      invariant best < |keys|
      invariant forall j :: 0 <= j < m ==> Count(keys, keys[j].nodeName) <= Count(keys, keys[best].nodeName)
    {
      if Count(keys, keys[m].nodeName) > Count(keys, keys[best].nodeName) { best := m; }
    }
  }

  lemma PickIndexIsOldestOfFullest(keys: seq<SandboxKey>)
    requires keys != []
    ensures OldestOfFullest(keys, PickIndex(keys))
  {
    if k :| k in keys && k.nodeName != "" {
      var best := FullestExists(keys, |keys| - 1);
      CountPositive(keys, k);
      CountOfNoNode(keys);
      assert keys[best].nodeName != "" && Maximal(keys, keys[best].nodeName);
    } else {
      assert forall j :: 0 <= j < |keys| ==> keys[j] in keys;
    }
  }

  function Pick(keys: seq<SandboxKey>): (r: Option<SandboxKey>)
    ensures r.None? <==> keys == []
    ensures r.Some? ==> r.value in keys
  {
    if keys == [] then None
    else
      PickIndexIsOldestOfFullest(keys);
      Some(keys[PickIndex(keys)])
  }

  /** The contract of Pick pins it down: no other index is the oldest of the fullest. */
  lemma OldestOfFullestIsUnique(keys: seq<SandboxKey>, i: nat, j: nat)
    requires OldestOfFullest(keys, i) && OldestOfFullest(keys, j)
    ensures i == j
  {
  }

  // ---------------------------------------------------------------- the strategy as written

  lemma {:induction false} CountConcat(a: seq<SandboxKey>, b: seq<SandboxKey>, node: string)
    ensures Count(a + b, node) == Count(a, node) + Count(b, node)
  {
    if a == [] {
      assert a + b == b;
    } else {
      CountConcat(a[1..], b, node);
      assert (a + b)[1..] == a[1..] + b;
    }
  }

  /** The scheduled and the unscheduled keys, each in queue order. */
  method Partition(keys: seq<SandboxKey>) returns (scheduled: seq<SandboxKey>, unscheduled: seq<SandboxKey>)
    ensures forall k :: k in scheduled <==> k in keys && k.nodeName != ""
    ensures scheduled == [] ==> unscheduled == keys
    ensures forall node :: Count(scheduled, node) == Count(keys, node)
  {
    scheduled, unscheduled := [], [];
    for n := 0 to |keys|
      invariant forall k :: k in scheduled <==> k in keys[..n] && k.nodeName != ""
      invariant scheduled == [] ==> unscheduled == keys[..n]
      invariant forall node :: Count(scheduled, node) == Count(keys[..n], node)
    {
      assert keys[..n + 1] == keys[..n] + [keys[n]];
      forall node
        ensures Count(keys[..n + 1], node) == Count(keys[..n], node) + Count([keys[n]], node)
        ensures Count(scheduled + [keys[n]], node) == Count(scheduled, node) + Count([keys[n]], node)
        ensures keys[n].nodeName == "" ==> Count([keys[n]], node) == 0
      {
        CountConcat(keys[..n], [keys[n]], node);
        CountConcat(scheduled, [keys[n]], node);
      }
      if keys[n].nodeName != "" { scheduled := scheduled + [keys[n]]; } else { unscheduled := unscheduled + [keys[n]]; }
    }
    assert keys[..|keys|] == keys;
  }

  lemma {:induction false} CountOfAbsent(keys: seq<SandboxKey>, node: string)
    requires forall k :: k in keys ==> k.nodeName != node
    ensures Count(keys, node) == 0
  {
    if keys != [] {
      assert keys[0] in keys;
      CountOfAbsent(keys[1..], node);
    }
  }

  method CountNodes(scheduled: seq<SandboxKey>) returns (counts: map<string, nat>)
    requires forall k :: k in scheduled ==> k.nodeName != ""
    ensures counts.Keys == set k | k in scheduled :: k.nodeName
    ensures forall node :: node in counts ==> counts[node] == Count(scheduled, node)
  {
    counts := map[];
    for n := 0 to |scheduled|
      invariant counts.Keys == set k | k in scheduled[..n] :: k.nodeName
      invariant forall node :: node in counts ==> counts[node] == Count(scheduled[..n], node)
    {
      var k := scheduled[n];
      assert k in scheduled;
      assert scheduled[..n + 1] == scheduled[..n] + [k];
      forall node
        ensures Count(scheduled[..n + 1], node) == Count(scheduled[..n], node) + (if node == k.nodeName then 1 else 0)
      {
        CountConcat(scheduled[..n], [k], node);
      }
      if k.nodeName !in counts {
        CountOfAbsent(scheduled[..n], k.nodeName);
      }
      counts := counts[k.nodeName := (if k.nodeName in counts then counts[k.nodeName] else 0) + 1];
    }
    assert scheduled[..|scheduled|] == scheduled;
  }

  method MaxValue(counts: map<string, nat>) returns (max: nat)
    ensures forall node :: node in counts ==> counts[node] <= max
    ensures max == 0 || exists node :: node in counts && counts[node] == max
  {
    max := 0;
    var rest := counts.Keys;
    while rest != {}
      invariant rest <= counts.Keys
      invariant forall node :: node in counts && node !in rest ==> counts[node] <= max
      invariant max == 0 || exists node :: node in counts && counts[node] == max
    {
      var node :| node in rest;
      if counts[node] > max { max := counts[node]; }
      rest := rest - {node};
    }
  }

  /** The counts of the nodes of the scheduled keys, of which `max` is the largest. */
  ghost predicate Counted(keys: seq<SandboxKey>, scheduled: seq<SandboxKey>, counts: map<string, nat>, max: nat) {
    && (forall k :: k in scheduled <==> k in keys && k.nodeName != "")
    && counts.Keys == (set k | k in scheduled :: k.nodeName)
    && (forall node :: node in counts ==> counts[node] == Count(keys, node) <= max)
    && (max == 0 || exists node :: node in counts && counts[node] == max)
  }

  /** No key's node has more than `max` keys, and some scheduled one's has exactly that. */
  lemma MaxIsReached(keys: seq<SandboxKey>, scheduled: seq<SandboxKey>, counts: map<string, nat>, max: nat)
    returns (fullest: SandboxKey)
    requires Counted(keys, scheduled, counts, max) && scheduled != []
    ensures fullest in keys && fullest.nodeName != "" && Count(keys, fullest.nodeName) == max
    ensures forall k :: k in keys ==> Count(keys, k.nodeName) <= max
  {
    assert scheduled[0] in scheduled && scheduled[0].nodeName in counts;
    CountPositive(keys, scheduled[0]);
    CountOfNoNode(keys);
    var full :| full in counts && counts[full] == max;
    fullest :| fullest in scheduled && fullest.nodeName == full;
    forall k | k in keys ensures Count(keys, k.nodeName) <= max {
      if k.nodeName != "" { assert k in scheduled && k.nodeName in counts; }
    }
  }

  /** The first scheduled key whose node has the maximal count. */
  method FirstWithCount(keys: seq<SandboxKey>, scheduled: seq<SandboxKey>, counts: map<string, nat>, max: nat)
    returns (i: nat)
    requires Counted(keys, scheduled, counts, max) && scheduled != []
    ensures OldestOfFullest(keys, i)
  {
    ghost var fullest := MaxIsReached(keys, scheduled, counts, max);
    i := 0;
    while i < |keys| && !(keys[i].nodeName != "" && keys[i].nodeName in counts && counts[keys[i].nodeName] == max)
      invariant i <= |keys|
      invariant forall j :: 0 <= j < i && keys[j].nodeName != "" ==> Count(keys, keys[j].nodeName) != max
    {
      assert keys[i].nodeName != "" ==> keys[i] in scheduled;
      i := i + 1;
    }
    forall j | 0 <= j < i && keys[j].nodeName != "" ensures !Maximal(keys, keys[j].nodeName) {
      assert keys[j] in keys;
      assert Count(keys, fullest.nodeName) == max;
    }
  }

  /** Group by scheduling, count per node, take the maximum, keep the keys of fullest nodes,
      return the first. */
  method PickSmart(keys: seq<SandboxKey>) returns (r: Option<SandboxKey>)
    ensures r == Pick(keys)
    ensures r.Some? ==> exists i: nat :: OldestOfFullest(keys, i) && r.value == keys[i]
  {
    if |keys| == 0 {
      return None;
    }
    PickIndexIsOldestOfFullest(keys);
    if |keys| == 1 {
      return Some(keys[0]);
    }
    var scheduled, unscheduled := Partition(keys);
    if |scheduled| == 0 {
      return Some(unscheduled[0]);
    }
    var nodeCounts := CountNodes(scheduled);
    var maxCount := MaxValue(nodeCounts);
    var best := FirstWithCount(keys, scheduled, nodeCounts, maxCount);
    OldestOfFullestIsUnique(keys, best, PickIndex(keys));
    r := Some(keys[best]);
  }

  // ---------------------------------------------------------------- draining a queue

  /** The queue after one pop by the strategy. */
  function DrainOne(q: Queue): Queue {
    if q.items == [] then q else Removed(q, Pick(q.items).value)
  }

  /** The node that pop takes a key from, if any. */
  function DrainedNode(q: Queue): set<string> {
    if q.items == [] || Pick(q.items).value.nodeName == "" then {} else {Pick(q.items).value.nodeName}
  }

  /** The queue after n pops by the strategy. */
  function Drained(q: Queue, n: nat): Queue {
    if n == 0 then q else DrainOne(Drained(q, n - 1))
  }

  ghost predicate Level(keys: seq<SandboxKey>, picked: set<string>) {
    forall node, k :: node in picked && k in keys ==> Count(keys, k.nodeName) <= Count(keys, node) + 1
  }

  lemma CountRemoved(q: Queue, k: SandboxKey, node: string)
    requires Coherent(q) && k in q.items
    ensures Count(Removed(q, k).items, node) == Count(q.items, node) - Count([k], node)
  {
    var i := RemovedAt(q, k);
    assert q.items == q.items[..i] + ([k] + q.items[i + 1..]);
    CountConcat(q.items[..i], [k] + q.items[i + 1..], node);
    CountConcat([k], q.items[i + 1..], node);
    CountConcat(q.items[..i], q.items[i + 1..], node);
  }

  lemma PopKeepsPair(q: Queue, k: SandboxKey, node: string, x: SandboxKey)
    requires Coherent(q) && k in q.items
    requires if node == k.nodeName then Count(q.items, x.nodeName) <= Count(q.items, node)
             else Count(q.items, x.nodeName) <= Count(q.items, node) + 1
    ensures Count(Removed(q, k).items, x.nodeName) <= Count(Removed(q, k).items, node) + 1
  {
    CountRemoved(q, k, node);
    CountRemoved(q, k, x.nodeName);
  }

  lemma PopKeepsLevel(q: Queue, picked: set<string>)
    requires Coherent(q) && q.items != [] && Level(q.items, picked)
    ensures var k := Pick(q.items).value; var after := Removed(q, k);
            Level(after.items, picked + if k.nodeName == "" then {} else {k.nodeName})
  {
    var k := Pick(q.items).value;
    var after := Removed(q, k);
    PickIndexIsOldestOfFullest(q.items);
    RemoveKeeps(q, k);
    forall node, x | (node in picked || node == k.nodeName != "") && x in after.items
      ensures Count(after.items, x.nodeName) <= Count(after.items, node) + 1
    {
      CountOfNoNode(q.items);
      assert x in q.items && k in q.items;
      PopKeepsPair(q, k, node, x);
    }
  }

  /** The queue is intact and its nodes are level. */
  ghost predicate Levelled(q: Queue, picked: set<string>) {
    Coherent(q) && Level(q.items, picked)
  }

  lemma DrainOneStaysLevel(q: Queue, picked: set<string>)
    requires Levelled(q, picked)
    ensures Levelled(DrainOne(q), picked + DrainedNode(q))
  {
    if q.items != [] {
      RemoveKeeps(q, Pick(q.items).value);
      PopKeepsLevel(q, picked);
    }
  }

  /** Successive pops: the queue after each, and the nodes picked from so far. */
  ghost predicate Draining(queues: seq<Queue>, picked: seq<set<string>>) {
    && |queues| == |picked| > 0 && picked[0] == {}
    && forall i :: 0 <= i < |queues| - 1 ==>
         queues[i + 1] == DrainOne(queues[i]) && picked[i + 1] == picked[i] + DrainedNode(queues[i])
  }

  /** Draining any coherent queue keeps the nodes level: after every pop, each node already
      picked from is within one key of the fullest node. */
  lemma {:induction false} DrainingStaysLevel(queues: seq<Queue>, picked: seq<set<string>>, i: nat)
    requires Draining(queues, picked) && Coherent(queues[0]) && i < |queues|
    ensures Levelled(queues[i], picked[i])
  {
    if i > 0 {
      DrainingStaysLevel(queues, picked, i - 1);
      DrainOneStaysLevel(queues[i - 1], picked[i - 1]);
      assert queues[i - 1 + 1] == DrainOne(queues[i - 1]);
    }
  }

  /** Unscheduled keys wait until no scheduled key is left. */
  lemma UnscheduledLast(keys: seq<SandboxKey>)
    requires keys != [] && Pick(keys).value.nodeName == ""
    ensures forall k :: k in keys ==> k.nodeName == ""
    ensures Pick(keys) == Some(keys[0])
  {
    PickIndexIsOldestOfFullest(keys);
  }
}
