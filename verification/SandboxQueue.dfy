/** The deduplicating queue of adoptable warm-pool sandboxes, and every interleaving of its
    critical sections with the pop that picks from a snapshot outside the lock. */
module SandboxQueue {
  import opened Text

  datatype SandboxKey = SandboxKey(namespace: string, name: string, nodeName: string)

  function UniqueId(k: SandboxKey): string {
    k.namespace + "/" + k.name
  }

  predicate SameSandbox(a: SandboxKey, b: SandboxKey) {
    a.namespace == b.namespace && a.name == b.name
  }

  /** A namespace as Kubernetes admits it, as far as the queue's ids care. */
  predicate Admissible(k: SandboxKey) {
    '/' !in k.namespace
  }

  lemma UniqueIdInjective(a: SandboxKey, b: SandboxKey)
    requires Admissible(a) && Admissible(b)
    ensures UniqueId(a) == UniqueId(b) <==> SameSandbox(a, b)
  {
    if UniqueId(a) == UniqueId(b) {
      assert UniqueId(a) == a.namespace + ['/'] + a.name;
      assert UniqueId(b) == b.namespace + ['/'] + b.name;
      IndexOfSeparator(a.namespace, '/', a.name);
      IndexOfSeparator(b.namespace, '/', b.name);
      assert a.namespace == UniqueId(a)[..|a.namespace|];
      assert a.name == UniqueId(a)[|a.namespace| + 1..];
      assert b.namespace == UniqueId(b)[..|b.namespace|];
      assert b.name == UniqueId(b)[|b.namespace| + 1..];
    }
  }

  // ---------------------------------------------------------------- contents as values

  datatype Queue = Queue(items: seq<SandboxKey>, ids: set<string>)

  ghost predicate Coherent(q: Queue) {
    && (forall k :: k in q.items ==> Admissible(k))
    && (forall i, j :: 0 <= i < j < |q.items| ==> !SameSandbox(q.items[i], q.items[j]))
    && q.ids == set k | k in q.items :: UniqueId(k)
  }

  ghost predicate Queued(q: Queue, k: SandboxKey) {
    exists j :: 0 <= j < |q.items| && SameSandbox(q.items[j], k)
  }

  function Position(items: seq<SandboxKey>, k: SandboxKey): (i: nat)
    ensures i <= |items|
    ensures i < |items| ==> SameSandbox(items[i], k)
    ensures forall j :: 0 <= j < i ==> !SameSandbox(items[j], k)
  {
    if items == [] || SameSandbox(items[0], k) then 0 else 1 + Position(items[1..], k)
  }

  function Pushed(q: Queue, k: SandboxKey): Queue {
    if UniqueId(k) !in q.ids then
      Queue(q.items + [k], q.ids + {UniqueId(k)})
    else
      var i := Position(q.items, k);
      if i < |q.items| then q.(items := q.items[i := q.items[i].(nodeName := k.nodeName)]) else q
  }

  /** The removal shared by Remove and by the commit of a picked key. */
  function Removed(q: Queue, k: SandboxKey): Queue {
    if UniqueId(k) !in q.ids then q else
      var i := Position(q.items, k);
      Queue(if i < |q.items| then q.items[..i] + q.items[i + 1..] else q.items, q.ids - {UniqueId(k)})
  }

  function Popped(q: Queue): Queue
    requires q.items != []
  {
    Queue(q.items[1..], q.ids - {UniqueId(q.items[0])})
  }

  /** In a coherent queue the id set answers exactly whether the sandbox is in the list. */
  lemma IdsDecideMembership(q: Queue, k: SandboxKey)
    requires Coherent(q) && Admissible(k)
    ensures UniqueId(k) in q.ids <==> Position(q.items, k) < |q.items|
    ensures UniqueId(k) in q.ids <==> Queued(q, k)
  {
    if UniqueId(k) in q.ids {
      var x :| x in q.items && UniqueId(x) == UniqueId(k);
      UniqueIdInjective(x, k);
    }
    var i := Position(q.items, k);
    if i < |q.items| {
      assert UniqueId(q.items[i]) == UniqueId(k) && q.items[i] in q.items;
    }
  }

  lemma IdsOfTail(items: seq<SandboxKey>, i: nat)
    requires i < |items|
    requires forall k :: k in items ==> Admissible(k)
    requires forall m, n :: 0 <= m < n < |items| ==> !SameSandbox(items[m], items[n])
    ensures var rest := items[..i] + items[i + 1..];
            (set k | k in rest :: UniqueId(k)) == (set k | k in items :: UniqueId(k)) - {UniqueId(items[i])}
  {
    var rest := items[..i] + items[i + 1..];
    forall k | k in items ensures k in rest <==> UniqueId(k) != UniqueId(items[i]) {
      UniqueIdInjective(k, items[i]);
      var j :| 0 <= j < |items| && items[j] == k;
      if j < i { assert rest[j] == k; } else if j > i { assert rest[j - 1] == k; }
    }
    forall k | k in rest ensures k in items {
      var j :| 0 <= j < |rest| && rest[j] == k;
    }
  }

  /** The sandbox that shares an id with one whose namespace carries a slash. */
  function Twin(k: SandboxKey): SandboxKey
    requires '/' in k.namespace
  {
    var i := IndexOf(k.namespace, '/').value;
    SandboxKey(k.namespace[..i], k.namespace[i + 1..] + "/" + k.name, k.nodeName)
  }

  /** So namespaces must be slash-free: for every other key there is another sandbox with the same id,
      and while that one is queued a push of the key does nothing at all. */
  lemma SlashInNamespaceLosesThePush(q: Queue, k: SandboxKey)
    requires '/' in k.namespace && Coherent(q) && Queued(q, Twin(k))
    ensures !SameSandbox(Twin(k), k) && Admissible(Twin(k)) && UniqueId(Twin(k)) == UniqueId(k)
    ensures Pushed(q, k) == q && !Queued(q, k)
  {
    var i := IndexOf(k.namespace, '/').value;
    assert k.namespace == k.namespace[..i] + "/" + k.namespace[i + 1..];
    assert UniqueId(Twin(k)) == UniqueId(k);
    IdsDecideMembership(q, Twin(k));
    forall j | 0 <= j < |q.items| ensures !SameSandbox(q.items[j], k) {
      assert q.items[j] in q.items && Admissible(q.items[j]);
    }
  }

  lemma MoveKeepsIds(items: seq<SandboxKey>, i: nat, k: SandboxKey)
    requires i < |items| && SameSandbox(items[i], k) && Admissible(k) && forall x :: x in items ==> Admissible(x)
    ensures forall x :: x in items[i := k] ==> Admissible(x)
    ensures (set x | x in items[i := k] :: UniqueId(x)) == set x | x in items :: UniqueId(x)
  {
    var moved := items[i := k];
    assert UniqueId(items[i]) == UniqueId(k);
    forall x | x in moved ensures Admissible(x) && exists y :: y in items && UniqueId(y) == UniqueId(x) {
      var j :| 0 <= j < |moved| && moved[j] == x;
      assert items[j] in items && UniqueId(items[j]) == UniqueId(x);
    }
    forall x | x in items ensures exists y :: y in moved && UniqueId(y) == UniqueId(x) {
      var j :| 0 <= j < |items| && items[j] == x;
      assert moved[j] in moved && UniqueId(moved[j]) == UniqueId(x);
    }
  }

  /** Push keeps the queue coherent: afterwards the sandbox is queued at the pushed node, and
      every other item stays where it was. */
  lemma PushKeeps(q: Queue, k: SandboxKey)
    requires Coherent(q) && Admissible(k)
    ensures Coherent(Pushed(q, k))
    ensures Pushed(q, k).ids == q.ids + {UniqueId(k)}
    ensures k in Pushed(q, k).items
    ensures |q.items| <= |Pushed(q, k).items|
    ensures forall j :: 0 <= j < |q.items| && !SameSandbox(q.items[j], k) ==> Pushed(q, k).items[j] == q.items[j]
  {
    var q' := Pushed(q, k);
    IdsDecideMembership(q, k);
    var i := Position(q.items, k);
    if i < |q.items| {
      assert q.items[i].(nodeName := k.nodeName) == k && q'.items[i] == k;
      MoveKeepsIds(q.items, i, k);
    } else {
      assert q'.items[|q.items|] == k;
    }
  }

  /** Dropping the one item for a sandbox keeps all others. */
  lemma TailStaysDistinct(items: seq<SandboxKey>, i: nat)
    requires i < |items| && forall m, n :: 0 <= m < n < |items| ==> !SameSandbox(items[m], items[n])
    ensures var rest := items[..i] + items[i + 1..];
            |rest| == |items| - 1 && forall m, n :: 0 <= m < n < |rest| ==> !SameSandbox(rest[m], rest[n])
  {
    var rest := items[..i] + items[i + 1..];
    forall m, n | 0 <= m < n < |rest| ensures !SameSandbox(rest[m], rest[n]) {
      assert rest[m] == items[if m < i then m else m + 1] && rest[n] == items[if n < i then n else n + 1];
    }
  }

  lemma WithoutOne(items: seq<SandboxKey>, i: nat, k: SandboxKey)
    requires i < |items| && SameSandbox(items[i], k)
    requires forall i, j :: 0 <= i < j < |items| ==> !SameSandbox(items[i], items[j])
    ensures forall x :: x in items[..i] + items[i + 1..] <==> x in items && !SameSandbox(x, k)
  {
    var rest := items[..i] + items[i + 1..];
    forall x | x in items && !SameSandbox(x, k) ensures x in rest {
      var j :| 0 <= j < |items| && items[j] == x;
      if j < i { assert rest[j] == x; } else { assert rest[j - 1] == x; }
    }
    forall x | x in rest ensures x in items && !SameSandbox(x, k) {
      var j :| 0 <= j < |rest| && rest[j] == x;
      assert x == items[if j < i then j else j + 1];
    }
  }

  /** Removal keeps the queue coherent and takes away exactly the given sandbox. */
  lemma RemoveKeeps(q: Queue, k: SandboxKey)
    requires Coherent(q) && Admissible(k)
    ensures Coherent(Removed(q, k))
    ensures Removed(q, k).ids == q.ids - {UniqueId(k)}
    ensures forall x :: x in Removed(q, k).items <==> x in q.items && !SameSandbox(x, k)
    ensures UniqueId(k) in q.ids ==> |Removed(q, k).items| == |q.items| - 1
  {
    IdsDecideMembership(q, k);
    var i := Position(q.items, k);
    if i < |q.items| {
      assert UniqueId(q.items[i]) == UniqueId(k);
      IdsOfTail(q.items, i);
      WithoutOne(q.items, i, k);
      TailStaysDistinct(q.items, i);
    } else {
      assert forall x :: x in q.items ==> !SameSandbox(x, k);
      assert q.ids - {UniqueId(k)} == q.ids;
    }
  }

  /** Where a queued key is taken out. */
  lemma RemovedAt(q: Queue, k: SandboxKey) returns (i: nat)
    requires Coherent(q) && k in q.items
    ensures i < |q.items| && q.items[i] == k && UniqueId(k) in q.ids
    ensures Removed(q, k) == Queue(q.items[..i] + q.items[i + 1..], q.ids - {UniqueId(k)})
  {
    assert UniqueId(k) in q.ids;
    i :| 0 <= i < |q.items| && q.items[i] == k;
    assert Position(q.items, k) == i;
  }

  lemma PopIsRemoveFirst(q: Queue)
    requires Coherent(q) && q.items != []
    ensures Popped(q) == Removed(q, q.items[0])
  {
    assert q.items[0] in q.items && UniqueId(q.items[0]) in q.ids;
    assert Position(q.items, q.items[0]) == 0;
  }

  // ---------------------------------------------------------------- the object

  /** What another goroutine may do to the queue between a snapshot and its commit. */
  datatype Op = OpPush(key: SandboxKey) | OpPop | OpRemove(key: SandboxKey)

  function Applied(q: Queue, op: Op): Queue {
    match op
    case OpPush(k) => if Admissible(k) then Pushed(q, k) else q
    case OpPop => if q.items == [] then q else Popped(q)
    case OpRemove(k) => if Admissible(k) then Removed(q, k) else q
  }

  /** The critical sections of other goroutines, one after the other. */
  function AppliedAll(q: Queue, ops: seq<Op>): Queue {
    if ops == [] then q else Applied(AppliedAll(q, ops[..|ops| - 1]), ops[|ops| - 1])
  }

  class SynchronizedQueue {
    var items: seq<SandboxKey>
    var ids: set<string>

    ghost function View(): Queue
      reads this
    {
      Queue(items, ids)
    }

    ghost predicate Valid()
      reads this
    {
      Coherent(View())
    }

    constructor ()
      ensures Valid() && items == []
    {
      items, ids := [], {};
    }

    method Push(key: SandboxKey)
      requires Valid() && Admissible(key)
      modifies this
      ensures Valid() && View() == Pushed(old(View()), key)
      ensures ids == old(ids) + {UniqueId(key)} && key in items
    {
      PushKeeps(View(), key);
      if UniqueId(key) !in ids {
        ids := ids + {UniqueId(key)};
        items := items + [key];
      } else {
        var i := 0;
        while i < |items|
          invariant 0 <= i <= |items|
          invariant View() == old(View())
          invariant forall j :: 0 <= j < i ==> !SameSandbox(items[j], key)
        {
          if SameSandbox(items[i], key) {
            items := items[i := items[i].(nodeName := key.nodeName)];
            return;
          }
          i := i + 1;
        }
      }
    }

    method Pop() returns (r: Option<SandboxKey>)
      requires Valid()
      modifies this
      ensures Valid()
      ensures r.None? <==> old(items) == []
      ensures r.None? ==> View() == old(View())
      ensures r.Some? ==> r.value == old(items)[0] && View() == Popped(old(View())) && UniqueId(r.value) !in ids
    {
      if items == [] {
        return None;
      }
      PopIsRemoveFirst(View());
      RemoveKeeps(View(), items[0]);
      var item := items[0];
      items := items[1..];
      ids := ids - {UniqueId(item)};
      r := Some(item);
    }

    method Remove(key: SandboxKey)
      requires Valid() && Admissible(key)
      modifies this
      ensures Valid() && View() == Removed(old(View()), key)
      ensures UniqueId(key) !in ids
    {
      var ok := Commit(key);
    }

    /** The critical section that removes a key picked outside the lock; false when another
        goroutine already took it. */
    method Commit(key: SandboxKey) returns (ok: bool)
      requires Valid() && Admissible(key)
      modifies this
      ensures Valid() && View() == Removed(old(View()), key)
      ensures ok <==> UniqueId(key) in old(ids)
      ensures UniqueId(key) !in ids
    {
      RemoveKeeps(View(), key);
      if UniqueId(key) !in ids {
        return false;
      }
      var i := 0;
      while i < |items|
        invariant 0 <= i <= |items|
        invariant View() == old(View())
        invariant forall j :: 0 <= j < i ==> !SameSandbox(items[j], key)
      {
        if SameSandbox(items[i], key) {
          items := items[..i] + items[i + 1..];
          break;
        }
        i := i + 1;
      }
      ids := ids - {UniqueId(key)};
      ok := true;
    }

    /** Snapshot, pick outside the lock, commit, and retry when the pick was taken meanwhile.
        interference lists what other goroutines do between the snapshot and the commit of the
        first, second, ... attempt; last is the queue the last critical section found: the successful
        commit, or the snapshot that was empty or that the strategy refused. */
    method PopWithStrategy(pick: seq<SandboxKey> -> Option<SandboxKey>, interference: seq<seq<Op>>)
      returns (r: Option<SandboxKey>, ghost last: Queue)
      requires Valid()
      requires forall s :: pick(s).Some? ==> pick(s).value in s
      modifies this
      ensures Valid()
      ensures r.Some? ==> Coherent(last) && Queued(last, r.value) && View() == Removed(last, r.value)
      ensures r.None? ==> View() == last && (last.items == [] || pick(last.items).None?)
      ensures r.Some? ==> UniqueId(r.value) !in ids
      ensures interference == [] ==> r == if old(items) == [] then None else pick(old(items))
      ensures interference == [] ==> View() == if r.None? then old(View()) else Removed(old(View()), r.value)
    {
      var attempt := 0;
      while true
        invariant Valid()
        invariant attempt <= |interference|
        invariant interference == [] ==> View() == old(View())
        decreases |interference| - attempt
      {
        last := View();
        if items == [] {
          return None, last;
        }
        var snapshot := items;
        var picked := pick(snapshot);
        if picked.None? {
          return None, last;
        }
        var key := picked.value;
        ghost var quiet := attempt == |interference|;
        if attempt < |interference| {
          Interfere(interference[attempt]);
        }
        last := View();
        IdsDecideMembership(last, key);
        RemoveKeeps(last, key);
        assert quiet ==> key in items && UniqueId(key) in ids;
        var ok := Commit(key);
        if ok {
          return Some(key), last;
        }
        attempt := attempt + 1;
      }
    }

    method Interfere(ops: seq<Op>)
      requires Valid()
      modifies this
      ensures Valid() && View() == AppliedAll(old(View()), ops)
    {
      for n := 0 to |ops|
        invariant Valid() && View() == AppliedAll(old(View()), ops[..n])
      {
        assert ops[..n + 1][..n] == ops[..n];
        match ops[n]
        case OpPush(k) => if Admissible(k) { Push(k); }
        case OpPop => var gone := Pop();
        case OpRemove(k) => if Admissible(k) { Remove(k); }
      }
      assert ops[..|ops|] == ops;
    }
  }

  // ---------------------------------------------------------------- every interleaving

  type Thread = nat

  /** Where a goroutine stands inside PopWithStrategy. */
  datatype Local = HasSnapshot(keys: seq<SandboxKey>) | HasPick(key: SandboxKey)

  datatype Step =
    | Shared(op: Op)                      // a whole Push, Pop or Remove
    | TakeSnapshot(t: Thread)                 // first critical section
    | Choose(t: Thread, choice: nat)        // outside the lock, by any strategy
    | CommitPick(t: Thread)                   // second critical section

  /** What happened to sandboxes, in the order of the critical sections. */
  datatype Effect = Added(key: SandboxKey) | HandedOut(key: SandboxKey) | Dropped(key: SandboxKey)

  datatype State = State(q: Queue, threads: map<Thread, Local>, log: seq<Effect>)

  const INITIAL := State(Queue([], {}), map[], [])

  function Effects(q: Queue, op: Op): seq<Effect> {
    match op
    case OpPush(k) => if Admissible(k) then [Added(k)] else []
    case OpPop => if q.items == [] then [] else [HandedOut(q.items[0])]
    case OpRemove(k) => if Admissible(k) then [Dropped(k)] else []
  }

  /** One step; a step that is not enabled leaves the state alone. */
  function Next(s: State, step: Step): State {
    match step
    case Shared(op) => s.(q := Applied(s.q, op), log := s.log + Effects(s.q, op))
    case TakeSnapshot(t) =>
      if s.q.items == [] || t in s.threads then s
      else s.(threads := s.threads[t := HasSnapshot(s.q.items)])
    case Choose(t, choice) =>
      if t in s.threads && s.threads[t].HasSnapshot? && choice < |s.threads[t].keys|
      then s.(threads := s.threads[t := HasPick(s.threads[t].keys[choice])])
      else s
    case CommitPick(t) =>
      if t in s.threads && s.threads[t].HasPick? then
        var key := s.threads[t].key;
        var s' := s.(threads := s.threads - {t});
        if UniqueId(key) in s.q.ids
        then s'.(q := Removed(s.q, key), log := s.log + [HandedOut(key)])
        else s'
      else s
  }

  function Run(steps: seq<Step>): State {
    if steps == [] then INITIAL else Next(Run(steps[..|steps| - 1]), steps[|steps| - 1])
  }

  /** Whether the last thing that happened to the sandbox was a push. */
  ghost predicate LastPushed(log: seq<Effect>, id: string) {
    log != [] &&
    var last := log[|log| - 1];
    if UniqueId(last.key) == id then last.Added? else LastPushed(log[..|log| - 1], id)
  }

  ghost predicate LocalOk(l: Local) {
    match l
    case HasSnapshot(keys) => forall k :: k in keys ==> Admissible(k)
    case HasPick(k) => Admissible(k)
  }

  ghost predicate HandedOutOnlyPushed(log: seq<Effect>) {
    forall j :: 0 <= j < |log| && log[j].HandedOut? ==> LastPushed(log[..j], UniqueId(log[j].key))
  }

  ghost predicate Inv(s: State) {
    && Coherent(s.q)
    && (forall t :: t in s.threads ==> LocalOk(s.threads[t]))
    && (forall e :: e in s.log ==> Admissible(e.key))
    && (forall id :: id in s.q.ids <==> LastPushed(s.log, id))
    && HandedOutOnlyPushed(s.log)
  }

  lemma LastPushedAppend(log: seq<Effect>, e: Effect, id: string)
    ensures LastPushed(log + [e], id) <==> if UniqueId(e.key) == id then e.Added? else LastPushed(log, id)
  {
    assert (log + [e])[..|log|] == log;
  }

  lemma HandOutAppend(log: seq<Effect>, e: Effect)
    requires HandedOutOnlyPushed(log) && (e.HandedOut? ==> LastPushed(log, UniqueId(e.key)))
    ensures HandedOutOnlyPushed(log + [e])
  {
    var more := log + [e];
    forall j | 0 <= j < |more| && more[j].HandedOut? ensures LastPushed(more[..j], UniqueId(more[j].key)) {
      assert more[..j] == log[..j];
      assert log[..|log|] == log;
    }
  }

  lemma LogExtends(s: State, e: Effect, q': Queue)
    requires Inv(s) && Coherent(q') && Admissible(e.key)
    requires e.Added? ==> q'.ids == s.q.ids + {UniqueId(e.key)}
    requires !e.Added? ==> q'.ids == s.q.ids - {UniqueId(e.key)}
    requires e.HandedOut? ==> UniqueId(e.key) in s.q.ids
    ensures Inv(s.(q := q', log := s.log + [e]))
  {
    forall id ensures id in q'.ids <==> LastPushed(s.log + [e], id) {
      LastPushedAppend(s.log, e, id);
    }
    HandOutAppend(s.log, e);
  }

  lemma NextKeepsInv(s: State, step: Step)
    requires Inv(s)
    ensures Inv(Next(s, step))
  {
    assert s.log + [] == s.log;
    match step
    case Shared(OpPush(k)) =>
      if Admissible(k) { PushKeeps(s.q, k); LogExtends(s, Added(k), Pushed(s.q, k)); }
    case Shared(OpPop) =>
      if s.q.items != [] {
        var k := s.q.items[0];
        assert k in s.q.items && UniqueId(k) in s.q.ids;
        PopIsRemoveFirst(s.q);
        RemoveKeeps(s.q, k);
        LogExtends(s, HandedOut(k), Popped(s.q));
      }
    case Shared(OpRemove(k)) =>
      if Admissible(k) { RemoveKeeps(s.q, k); LogExtends(s, Dropped(k), Removed(s.q, k)); }
    case TakeSnapshot(t) =>
    case Choose(t, choice) =>
    case CommitPick(t) =>
      if t in s.threads && s.threads[t].HasPick? {
        var key := s.threads[t].key;
        var s0 := s.(threads := s.threads - {t});
        assert Inv(s0);
        RemoveKeeps(s.q, key);
        if UniqueId(key) in s.q.ids { LogExtends(s0, HandedOut(key), Removed(s.q, key)); }
      }
  }

  /** Every reachable state: the id set is exactly the ids of the item list, which has no
      duplicates, and is exactly the set of sandboxes pushed and not taken since. */
  lemma {:induction false} EveryRunIsCoherent(steps: seq<Step>)
    ensures Inv(Run(steps))
  {
    if steps != [] {
      EveryRunIsCoherent(steps[..|steps| - 1]);
      NextKeepsInv(Run(steps[..|steps| - 1]), steps[|steps| - 1]);
    }
  }

  lemma {:induction false} PushBetween(log: seq<Effect>, id: string, i: nat)
    requires LastPushed(log, id)
    requires i < |log| && UniqueId(log[i].key) == id && !log[i].Added?
    ensures exists m :: i < m < |log| && log[m].Added? && UniqueId(log[m].key) == id
  {
    var n := |log| - 1;
    if UniqueId(log[n].key) != id {
      PushBetween(log[..n], id, i);
      var m :| i < m < n && log[..n][m].Added? && UniqueId(log[..n][m].key) == id;
      assert log[m].Added?;
    }
  }

  /** No interleaving hands the same sandbox out twice without a push of it in between, and
      what is handed out was queued at that moment. */
  lemma NeverHandedOutTwice(steps: seq<Step>, i: nat, j: nat)
    requires i < j < |Run(steps).log|
    requires Run(steps).log[i].HandedOut? && Run(steps).log[j].HandedOut?
    requires SameSandbox(Run(steps).log[i].key, Run(steps).log[j].key)
    ensures exists m :: i < m < j && Run(steps).log[m].Added?
              && SameSandbox(Run(steps).log[m].key, Run(steps).log[j].key)
  {
    EveryRunIsCoherent(steps);
    var log := Run(steps).log;
    var id := UniqueId(log[j].key);
    assert UniqueId(log[i].key) == id && log[..j][i] == log[i];
    PushBetween(log[..j], id, i);
    var m :| i < m < j && log[..j][m].Added? && UniqueId(log[..j][m].key) == id;
    assert log[m] == log[..j][m] && log[m] in log && log[j] in log;
    UniqueIdInjective(log[m].key, log[j].key);
  }

  /** A goroutine that nobody disturbs hands out exactly what it chose from the queue. */
  lemma UndisturbedHandOut(s: State, t: Thread, i: nat)
    requires Inv(s) && t !in s.threads && i < |s.q.items|
    ensures Next(Next(Next(s, TakeSnapshot(t)), Choose(t, i)), CommitPick(t)) ==
            s.(q := Removed(s.q, s.q.items[i]), log := s.log + [HandedOut(s.q.items[i])])
  {
    var s1 := Next(s, TakeSnapshot(t));
    var s2 := Next(s1, Choose(t, i));
    assert s2.threads[t] == HasPick(s.q.items[i]) && s.q.items[i] in s.q.items;
    assert s2.threads - {t} == s.threads;
  }

  lemma HandedOutIsRemoved(s: State, step: Step)
    requires Inv(s) && |Next(s, step).log| > |s.log| && Next(s, step).log[|s.log|].HandedOut?
    ensures var key := Next(s, step).log[|s.log|].key;
            Admissible(key) && UniqueId(key) in s.q.ids && Next(s, step).q == Removed(s.q, key)
  {
    if step.Shared? {
      assert s.q.items[0] in s.q.items;
      PopIsRemoveFirst(s.q);
    }
  }

  lemma HandOutComesFromTheQueue(s: State, step: Step)
    requires Inv(s) && |Next(s, step).log| > |s.log| && Next(s, step).log[|s.log|].HandedOut?
    ensures var key := Next(s, step).log[|s.log|].key;
            Queued(s.q, key) && !Queued(Next(s, step).q, key)
  {
    var key := Next(s, step).log[|s.log|].key;
    HandedOutIsRemoved(s, step);
    RemoveKeeps(s.q, key);
    IdsDecideMembership(s.q, key);
    IdsDecideMembership(Removed(s.q, key), key);
  }

  /** A step that hands out a sandbox found it queued, and leaves it queued no longer. */
  lemma HandOutTakesAQueuedSandbox(steps: seq<Step>, step: Step)
    requires var s := Run(steps); |Next(s, step).log| > |s.log| && Next(s, step).log[|s.log|].HandedOut?
    ensures var s := Run(steps); var key := Next(s, step).log[|s.log|].key;
            Queued(s.q, key) && !Queued(Next(s, step).q, key)
  {
    EveryRunIsCoherent(steps);
    HandOutComesFromTheQueue(Run(steps), step);
  }
}
