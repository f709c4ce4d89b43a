/** getCandidate: pop keys by the node-spread strategy until a Ready sandbox turns up, park the
    first unready one as fallback, and put everything else that is still good back. */
module Candidates {
  import opened Sorting
  import opened SandboxQueue
  import opened NodeSpread
  import opened WarmSandbox

  datatype ReadResult = Found(sb: Sandbox) | NotFound | ReadFailed

  datatype Outcome = Candidate(sb: Sandbox, key: SandboxKey) | Empty | Error

  predicate Usable(read: SandboxKey -> ReadResult, claim: Claim, k: SandboxKey) {
    read(k).Found? && Verify(read(k).sb, claim) == Adoptable
  }

  predicate UsableReady(read: SandboxKey -> ReadResult, claim: Claim, k: SandboxKey) {
    Usable(read, claim, k) && read(k).sb.ready
  }

  /** Found, and in the claim's namespace. */
  predicate FoundHere(read: SandboxKey -> ReadResult, claim: Claim, k: SandboxKey) {
    read(k).Found? && read(k).sb.namespace == claim.namespace
  }

  /** Gone from the cluster, or found but no longer adoptable by this claim's pool. */
  predicate Dead(read: SandboxKey -> ReadResult, claim: Claim, k: SandboxKey) {
    match read(k)
    case NotFound => true
    case Found(sb) => Verify(sb, claim).NotAdoptable? || Verify(sb, claim).WrongPool?
    case ReadFailed => false
  }

  /** The first n keys the strategy takes from the queue, in order. */
  function PopOrder(q: Queue, n: nat): seq<SandboxKey> {
    if n == 0 then [] else
      var before := Drained(q, n - 1);
      PopOrder(q, n - 1) + if before.items == [] then [] else [Pick(before.items).value]
  }

  /** Keys held back from the queue: none of them is in it, and no two are the same sandbox. */
  ghost predicate Parked(ids: set<string>, keys: seq<SandboxKey>) {
    && (forall k :: k in keys ==> Admissible(k) && UniqueId(k) !in ids)
    && (forall i, j :: 0 <= i < j < |keys| ==> !SameSandbox(keys[i], keys[j]))
  }

  lemma RemovedMultiset(q: Queue, k: SandboxKey)
    requires Coherent(q) && k in q.items
    ensures multiset(q.items) == multiset(Removed(q, k).items) + multiset{k}
    ensures |Removed(q, k).items| < |q.items|
    ensures Removed(q, k).ids == q.ids - {UniqueId(k)} && UniqueId(k) in q.ids
  {
    var i := RemovedAt(q, k);
    MultisetWithout(q.items, i);
  }

  /** The deferred put-back of parked keys: they go to the end of the queue, in order. */
  method PutBack(q: SynchronizedQueue, keys: seq<SandboxKey>)
    requires q.Valid() && Parked(q.ids, keys)
    modifies q
    ensures q.Valid()
    ensures q.items == old(q.items) + keys
  {
    for n := 0 to |keys|
      invariant q.Valid()
      invariant q.items == old(q.items) + keys[..n]
      invariant Parked(q.ids, keys[n..])
    {
      var key := keys[n];
      assert keys[n..][0] == key;
      forall k | k in keys[n + 1..] ensures Admissible(k) && UniqueId(k) != UniqueId(key) {
        var j :| 0 <= j < |keys[n + 1..]| && keys[n + 1..][j] == k;
        assert keys[n..][j + 1] == k;
        UniqueIdInjective(k, key);
      }
      assert keys[n..] == [key] + keys[n + 1..];
      q.Push(key);
      assert keys[..n + 1] == keys[..n] + [key];
    }
    assert keys[..|keys|] == keys;
  }

  lemma ParkOne(ids: set<string>, keys: seq<SandboxKey>, key: SandboxKey)
    requires Parked(ids, keys) && UniqueId(key) in ids && Admissible(key)
    ensures Parked(ids - {UniqueId(key)}, keys + [key])
    ensures Parked(ids - {UniqueId(key)}, keys)
  {
    forall k | k in keys ensures !SameSandbox(k, key) {
      UniqueIdInjective(k, key);
    }
  }

  /** Bookkeeping of the scan: no key is lost or duplicated, and held-back keys can go back. */
  ghost predicate Accounted(q0: Queue, q: Queue, pops: nat, dropped: seq<SandboxKey>, skipped: seq<SandboxKey>,
                            fallback: seq<SandboxKey>) {
    && Coherent(q) && q == Drained(q0, pops)
    && |fallback| <= 1
    && Parked(q.ids, skipped + fallback)
    && multiset(q0.items) == multiset(q.items) + multiset(dropped) + multiset(skipped) + multiset(fallback)
  }

  /** What is known of the keys seen so far. */
  ghost predicate Judged(read: SandboxKey -> ReadResult, claim: Claim, dropped: seq<SandboxKey>,
                         skipped: seq<SandboxKey>, fallback: seq<SandboxKey>) {
    && (forall k :: k in dropped ==> Dead(read, claim, k))
    && (forall k :: k in skipped ==> !UsableReady(read, claim, k))
    && (fallback == [] ==> forall k :: k in skipped ==> !Usable(read, claim, k))
    && (forall k :: k in fallback ==> Usable(read, claim, k) && !read(k).sb.ready)
  }

  ghost predicate FirstUsable(read: SandboxKey -> ReadResult, claim: Claim, order: seq<SandboxKey>, at: nat) {
    at < |order| && Usable(read, claim, order[at]) && forall k :: k in order[..at] ==> !Usable(read, claim, k)
  }

  /** Among the keys popped so far none was Ready, and the fallback was the first usable one. */
  ghost predicate InOrder(read: SandboxKey -> ReadResult, claim: Claim, order: seq<SandboxKey>,
                          fallback: seq<SandboxKey>, at: nat) {
    && (forall k :: k in order ==> !UsableReady(read, claim, k))
    && (fallback == [] ==> forall k :: k in order ==> !Usable(read, claim, k))
    && (fallback != [] ==> FirstUsable(read, claim, order, at) && order[at] == fallback[0])
  }

  ghost predicate FirstReady(read: SandboxKey -> ReadResult, claim: Claim, order: seq<SandboxKey>, at: nat) {
    at < |order| && UsableReady(read, claim, order[at]) && forall k :: k in order[..at] ==> !UsableReady(read, claim, k)
  }

  /** After one pop the popped key is neither in the queue nor among the parked ones. */
  lemma PopAccounts(q0: Queue, before: Queue, pops: nat, dropped: seq<SandboxKey>, skipped: seq<SandboxKey>,
                    fallback: seq<SandboxKey>, key: SandboxKey)
    requires Accounted(q0, before, pops, dropped, skipped, fallback)
    requires before.items != [] && key == Pick(before.items).value
    ensures PopOrder(q0, pops + 1) == PopOrder(q0, pops) + [key] && key in q0.items
    ensures var q := Removed(before, key);
            && Coherent(q) && q == Drained(q0, pops + 1) && |q.items| < |before.items|
            && multiset(before.items) == multiset(q.items) + multiset{key}
            && Parked(q.ids, skipped + fallback) && Parked(q.ids, skipped + fallback + [key])
  {
    RemovedMultiset(before, key);
    RemoveKeeps(before, key);
    ParkOne(before.ids, skipped + fallback, key);
    assert key in multiset(before.items);
    assert key in multiset(q0.items);
  }

  datatype Scan = Scan(
    order: seq<SandboxKey>,      // every key popped so far
    dropped: seq<SandboxKey>,
    skipped: seq<SandboxKey>,
    fallback: seq<SandboxKey>,
    at: nat)                     // where in the order the fallback is

  ghost predicate ScanInv(read: SandboxKey -> ReadResult, claim: Claim, q0: Queue, q: Queue, s: Scan) {
    && s.order == PopOrder(q0, |s.order|)
    && Accounted(q0, q, |s.order|, s.dropped, s.skipped, s.fallback)
    && Judged(read, claim, s.dropped, s.skipped, s.fallback)
    && InOrder(read, claim, s.order, s.fallback, s.at)
  }

  /** The loop body for a popped key that does not end the scan. */
  function Noted(read: SandboxKey -> ReadResult, claim: Claim, s: Scan, key: SandboxKey): Scan
    requires !read(key).ReadFailed?
  {
    var s' := s.(order := s.order + [key]);
    if Dead(read, claim, key) then s'.(dropped := s.dropped + [key])
    else if Usable(read, claim, key) && s.fallback == [] then s'.(fallback := [key], at := |s.order|)
    else s'.(skipped := s.skipped + [key])
  }

  /** Park a key that is good but not for now; forget one that is dead. */
  method Note(read: SandboxKey -> ReadResult, claim: Claim, skipped: seq<SandboxKey>, fallback: seq<SandboxKey>,
              key: SandboxKey, ghost s: Scan)
    returns (skipped': seq<SandboxKey>, fallback': seq<SandboxKey>)
    requires !read(key).ReadFailed? && s.skipped == skipped && s.fallback == fallback
    ensures skipped' == Noted(read, claim, s, key).skipped
    ensures fallback' == Noted(read, claim, s, key).fallback
  {
    skipped', fallback' := skipped, fallback;
    if read(key).Found? {
      var verdict := Verify(read(key).sb, claim);
      if verdict == CrossNamespace {
        skipped' := skipped + [key];
      } else if verdict == Adoptable {
        if fallback == [] { fallback' := [key]; } else { skipped' := skipped + [key]; }
      }
    }
  }

  lemma InsertParked(ids: set<string>, skipped: seq<SandboxKey>, fallback: seq<SandboxKey>, key: SandboxKey)
    requires Parked(ids, skipped + fallback + [key]) && |fallback| <= 1
    ensures Parked(ids, skipped + [key] + fallback)
  {
    var a := skipped + fallback + [key];
    var b := skipped + [key] + fallback;
    assert forall k :: k in b ==> k in a;
    assert forall i :: 0 <= i < |skipped| ==> a[i] == b[i];
    if fallback != [] {
      assert a[|skipped|] == b[|skipped| + 1] && a[|skipped| + 1] == b[|skipped|];
    } else {
      assert a == b;
    }
  }

  lemma NotedAccounts(read: SandboxKey -> ReadResult, claim: Claim, q0: Queue, before: Queue, pops: nat, s: Scan,
                      key: SandboxKey)
    requires Accounted(q0, before, pops, s.dropped, s.skipped, s.fallback)
    requires before.items != [] && key == Pick(before.items).value
    requires !read(key).ReadFailed?
    ensures var s' := Noted(read, claim, s, key);
            Accounted(q0, Removed(before, key), pops + 1, s'.dropped, s'.skipped, s'.fallback)
  {
    PopAccounts(q0, before, pops, s.dropped, s.skipped, s.fallback, key);
    var q := Removed(before, key);
    if Dead(read, claim, key) {
    } else if Usable(read, claim, key) && s.fallback == [] {
      assert s.skipped + [key] == s.skipped + s.fallback + [key];
    } else {
      InsertParked(q.ids, s.skipped, s.fallback, key);
    }
  }

  lemma NotedJudges(read: SandboxKey -> ReadResult, claim: Claim, s: Scan, key: SandboxKey)
    requires Judged(read, claim, s.dropped, s.skipped, s.fallback)
    requires !read(key).ReadFailed? && !UsableReady(read, claim, key)
    ensures var s' := Noted(read, claim, s, key); Judged(read, claim, s'.dropped, s'.skipped, s'.fallback)
  {
  }

  lemma NotedInOrder(read: SandboxKey -> ReadResult, claim: Claim, s: Scan, key: SandboxKey)
    requires InOrder(read, claim, s.order, s.fallback, s.at)
    requires !read(key).ReadFailed? && !UsableReady(read, claim, key)
    ensures var s' := Noted(read, claim, s, key); InOrder(read, claim, s'.order, s'.fallback, s'.at)
  {
    var order := s.order + [key];
    assert order[..|s.order|] == s.order;
    assert s.fallback != [] ==> order[..s.at] == s.order[..s.at];
  }

  lemma NotedPops(read: SandboxKey -> ReadResult, claim: Claim, q0: Queue, before: Queue, s: Scan, key: SandboxKey)
    requires Accounted(q0, before, |s.order|, s.dropped, s.skipped, s.fallback) && s.order == PopOrder(q0, |s.order|)
    requires before.items != [] && key == Pick(before.items).value && !read(key).ReadFailed?
    ensures Noted(read, claim, s, key).order == PopOrder(q0, |s.order| + 1)
  {
    PopAccounts(q0, before, |s.order|, s.dropped, s.skipped, s.fallback, key);
  }

  lemma Assemble(read: SandboxKey -> ReadResult, claim: Claim, q0: Queue, q: Queue, s: Scan, pops: nat)
    requires pops == |s.order| && s.order == PopOrder(q0, pops)
    requires Accounted(q0, q, pops, s.dropped, s.skipped, s.fallback)
    requires Judged(read, claim, s.dropped, s.skipped, s.fallback) && InOrder(read, claim, s.order, s.fallback, s.at)
    ensures ScanInv(read, claim, q0, q, s)
  {
  }

  lemma NotedKeeps(read: SandboxKey -> ReadResult, claim: Claim, q0: Queue, before: Queue, s: Scan, key: SandboxKey)
    requires ScanInv(read, claim, q0, before, s)
    requires before.items != [] && key == Pick(before.items).value
    requires !read(key).ReadFailed? && !UsableReady(read, claim, key)
    ensures ScanInv(read, claim, q0, Removed(before, key), Noted(read, claim, s, key))
  {
    NotedAccounts(read, claim, q0, before, |s.order|, s, key);
    NotedJudges(read, claim, s, key);
    NotedInOrder(read, claim, s, key);
    NotedPops(read, claim, q0, before, s, key);
    Assemble(read, claim, q0, Removed(before, key), Noted(read, claim, s, key), |s.order| + 1);
  }

  /** With the queue empty, every key there was is dropped, skipped or the fallback. */
  lemma EveryKeyAccountedFor(all: seq<SandboxKey>, dropped: seq<SandboxKey>, skipped: seq<SandboxKey>,
                             fallback: seq<SandboxKey>)
    requires multiset(all) == multiset(dropped) + multiset(skipped) + multiset(fallback)
    ensures forall k :: k in all ==> k in dropped || k in skipped || k in fallback
  {
    forall k | k in all ensures k in dropped || k in skipped || k in fallback {
      assert k in multiset(all);
    }
  }

  lemma NothingReadyLeft(read: SandboxKey -> ReadResult, claim: Claim, q0: Queue, q: Queue, s: Scan)
    requires ScanInv(read, claim, q0, q, s) && q.items == []
    ensures forall k :: k in q0.items ==> !UsableReady(read, claim, k)
    ensures s.fallback == [] ==> forall k :: k in q0.items ==> !Usable(read, claim, k)
  {
    EveryKeyAccountedFor(q0.items, s.dropped, s.skipped, s.fallback);
  }

  /** What the search knows when it stops: everything about the result r except the put-back. */
  ghost predicate Answers(read: SandboxKey -> ReadResult, claim: Claim, q0: Queue, r: Outcome, order: seq<SandboxKey>,
                          at: nat) {
    && order == PopOrder(q0, |order|)
    && match r
       case Error => exists k :: k in q0.items && read(k).ReadFailed?
       case Empty => forall k :: k in q0.items ==> !Usable(read, claim, k)
       case Candidate(sb, key) =>
         && Usable(read, claim, key) && sb == read(key).sb
         && at < |order| && order[at] == key
         && (sb.ready ==> FirstReady(read, claim, order, at))
         && (!sb.ready ==>
               FirstUsable(read, claim, order, at) && forall k :: k in q0.items ==> !UsableReady(read, claim, k))
  }

  /** The search stopped with r: nothing is lost, and back can be put back. */
  ghost predicate Done(read: SandboxKey -> ReadResult, claim: Claim, q0: Queue, q: Queue,
                       r: Outcome, back: seq<SandboxKey>, dropped: seq<SandboxKey>, order: seq<SandboxKey>, at: nat) {
    && Parked(q.ids, back)
    && multiset(q0.items) ==
       multiset(q.items) + multiset(back) + multiset(dropped) + (if r.Candidate? then multiset{r.key} else multiset{})
    && (forall k :: k in dropped ==> Dead(read, claim, k))
    && Answers(read, claim, q0, r, order, at)
  }

  lemma ParkedPrefix(ids: set<string>, skipped: seq<SandboxKey>, fallback: seq<SandboxKey>)
    requires Parked(ids, skipped + fallback)
    ensures Parked(ids, skipped)
  {
    var all := skipped + fallback;
    assert forall i :: 0 <= i < |skipped| ==> skipped[i] == all[i];
    assert forall k :: k in skipped ==> k in all;
  }

  lemma DoneExhausted(read: SandboxKey -> ReadResult, claim: Claim, q0: Queue, q: Queue, s: Scan)
    requires ScanInv(read, claim, q0, q, s) && q.items == []
    ensures var r := if s.fallback != [] then Candidate(read(s.fallback[0]).sb, s.fallback[0]) else Empty;
            Done(read, claim, q0, q, r, s.skipped, s.dropped, s.order, s.at)
  {
    NothingReadyLeft(read, claim, q0, q, s);
    ParkedPrefix(q.ids, s.skipped, s.fallback);
    assert s.fallback != [] ==> s.fallback == [s.fallback[0]];
  }

  lemma ReorderParked(ids: set<string>, keys: seq<SandboxKey>, key: SandboxKey)
    requires Parked(ids, keys + [key])
    ensures Parked(ids, [key] + keys)
  {
    var a := keys + [key];
    var b := [key] + keys;
    assert a[|keys|] == key;
    assert forall i :: 0 < i < |b| ==> b[i] == a[i - 1];
    assert forall k :: k in b ==> k in a;
  }

  lemma DoneFailed(read: SandboxKey -> ReadResult, claim: Claim, q0: Queue, before: Queue, s: Scan, key: SandboxKey)
    requires ScanInv(read, claim, q0, before, s)
    requires before.items != [] && key == Pick(before.items).value && read(key).ReadFailed?
    ensures Done(read, claim, q0, Removed(before, key), Error, [key] + (s.skipped + s.fallback), s.dropped, s.order, 0)
  {
    PopAccounts(q0, before, |s.order|, s.dropped, s.skipped, s.fallback, key);
    ReorderParked(Removed(before, key).ids, s.skipped + s.fallback, key);
  }

  lemma AnswersReady(read: SandboxKey -> ReadResult, claim: Claim, q0: Queue, s: Scan, key: SandboxKey)
    requires InOrder(read, claim, s.order, s.fallback, s.at) && UsableReady(read, claim, key)
    requires PopOrder(q0, |s.order| + 1) == s.order + [key]
    ensures Answers(read, claim, q0, Candidate(read(key).sb, key), s.order + [key], |s.order|)
  {
    assert (s.order + [key])[..|s.order|] == s.order;
  }

  lemma DoneReady(read: SandboxKey -> ReadResult, claim: Claim, q0: Queue, before: Queue, s: Scan, key: SandboxKey)
    requires ScanInv(read, claim, q0, before, s)
    requires before.items != [] && key == Pick(before.items).value && UsableReady(read, claim, key)
    ensures Done(read, claim, q0, Removed(before, key), Candidate(read(key).sb, key), s.skipped + s.fallback, s.dropped,
                 s.order + [key], |s.order|)
  {
    PopAccounts(q0, before, |s.order|, s.dropped, s.skipped, s.fallback, key);
    AnswersReady(read, claim, q0, s, key);
  }

  /** The loop, up to the deferred put-back of the keys in back. */
  method Search(q: SynchronizedQueue, read: SandboxKey -> ReadResult, claim: Claim)
    returns (r: Outcome, back: seq<SandboxKey>, ghost dropped: seq<SandboxKey>, ghost order: seq<SandboxKey>,
             ghost at: nat)
    requires q.Valid()
    modifies q
    ensures q.Valid()
    ensures Done(read, claim, old(q.View()), q.View(), r, back, dropped, order, at)
  {
    ghost var q0 := q.View();
    var skipped: seq<SandboxKey> := [];
    var fallback: seq<SandboxKey> := [];     // at most one: the parked unready candidate
    ghost var s := Scan([], [], [], [], 0);
    while true
      invariant q.Valid()
      invariant s.skipped == skipped && s.fallback == fallback
      invariant ScanInv(read, claim, q0, q.View(), s)
      decreases |q.items|
    {
      ghost var before := q.View();
      var picked, _ := q.PopWithStrategy(Pick, []);
      if picked.None? {
        DoneExhausted(read, claim, q0, before, s);
        r := if fallback != [] then Candidate(read(fallback[0]).sb, fallback[0]) else Empty;
        return r, skipped, s.dropped, s.order, s.at;
      }
      var key := picked.value;
      if read(key).ReadFailed? {
        DoneFailed(read, claim, q0, before, s, key);
        return Error, [key] + (skipped + fallback), s.dropped, s.order, 0;
      } else if UsableReady(read, claim, key) {
        DoneReady(read, claim, q0, before, s, key);
        return Candidate(read(key).sb, key), skipped + fallback, s.dropped, s.order + [key], |s.order|;
      }
      NotedKeeps(read, claim, q0, before, s, key);
      RemovedMultiset(before, key);
      skipped, fallback := Note(read, claim, skipped, fallback, key, s);
      s := Noted(read, claim, s, key);
    }
  }

  /** order are the keys popped, by the strategy; dropped are those that leave for good.

      Whatever happens, the keys before are the keys after, the dropped ones and the returned
      one; only dead keys are dropped. Without read errors the claim gets a Ready sandbox when
      one is queued, the first usable one otherwise, and nothing only if nothing is usable. */
  method GetCandidate(q: SynchronizedQueue, read: SandboxKey -> ReadResult, claim: Claim)
    returns (r: Outcome, ghost dropped: seq<SandboxKey>, ghost order: seq<SandboxKey>, ghost at: nat)
    requires q.Valid()
    modifies q
    ensures q.Valid()
    ensures multiset(old(q.items)) ==
            multiset(q.items) + multiset(dropped) + (if r.Candidate? then multiset{r.key} else multiset{})
    ensures forall k :: k in dropped ==>
              read(k).NotFound? || (FoundHere(read, claim, k) && !MayAdopt(read(k).sb, claim))
    ensures r.Candidate? ==> read(r.key) == Found(r.sb) && MayAdopt(r.sb, claim)
    ensures r.Error? ==> exists k :: k in old(q.items) && read(k).ReadFailed?
    ensures r.Candidate? && !r.sb.ready ==>
              forall k :: k in old(q.items) && read(k).Found? && read(k).sb.ready ==> !MayAdopt(read(k).sb, claim)
    ensures r.Empty? ==> forall k :: k in old(q.items) && read(k).Found? ==> !MayAdopt(read(k).sb, claim)
    ensures order == PopOrder(old(q.View()), |order|)
    ensures r.Candidate? && r.sb.ready ==> FirstReady(read, claim, order, at) && order[at] == r.key
    ensures r.Candidate? && !r.sb.ready ==> FirstUsable(read, claim, order, at) && order[at] == r.key
  {
    var back;
    r, back, dropped, order, at := Search(q, read, claim);
    PutBack(q, back);
    forall k | read(k).Found?
      ensures Usable(read, claim, k) <==> MayAdopt(read(k).sb, claim)
      ensures Dead(read, claim, k) <==> FoundHere(read, claim, k) && !MayAdopt(read(k).sb, claim)
    {
      VerifyExactly(read(k).sb, claim);
    }
  }
}
