/** One reconcile of a warm pool: drop stuck members, then create or delete towards the desired
    count, a bounded batch at a time. */
module PoolScaling {
  import opened Text
  import opened Sorting
  import opened SlowStart

  datatype Member = Member(name: string, ready: bool, created: int)     // created 0: no timestamp

  const READINESS_GRACE := 300     // seconds

  predicate Stuck(m: Member, now: int) {
    !m.ready && m.created != 0 && now - m.created > READINESS_GRACE
  }

  function Healthy(members: seq<Member>, now: int): seq<Member> {
    if members == [] then []
    else
      var n := |members| - 1;
      Healthy(members[..n], now) + if Stuck(members[n], now) then [] else [members[n]]
  }

  /** The stuck members whose delete fails; `gone` says of which it succeeds. */
  function StuckLeft(members: seq<Member>, now: int, gone: Member -> bool): seq<Member> {
    if members == [] then []
    else
      var n := |members| - 1;
      StuckLeft(members[..n], now, gone) + if Stuck(members[n], now) && !gone(members[n]) then [members[n]] else []
  }

  /** Not ready, with a creation time, and created more than 300 seconds ago. */
  ghost predicate OverdueAt(m: Member, now: int) {
    !m.ready && m.created != 0 && m.created + 300 < now
  }

  lemma {:induction false} StuckExactly(members: seq<Member>, now: int, gone: Member -> bool, m: Member)
    ensures m in Healthy(members, now) <==> m in members && !OverdueAt(m, now)
    ensures m in StuckLeft(members, now, gone) <==> m in members && OverdueAt(m, now) && !gone(m)
  {
    if members != [] {
      var n := |members| - 1;
      StuckExactly(members[..n], now, gone, m);
      assert members == members[..n] + [members[n]];
    }
  }

  lemma {:induction false} NoneStuckLeft(members: seq<Member>, now: int, gone: Member -> bool)
    requires forall m :: gone(m)
    ensures StuckLeft(members, now, gone) == [] && |Healthy(members, now)| <= |members|
  {
    if members != [] {
      NoneStuckLeft(members[..|members| - 1], now, gone);
    }
  }

  // ---------------------------------------------------------------- deletion order

  /** Unready before ready, then newest first. */
  predicate DeletedBefore(a: Member, b: Member) {
    if a.ready != b.ready then b.ready else a.created >= b.created
  }

  lemma DeletedBeforeIsTotalPreorder()
    ensures TotalPreorder(DeletedBefore)
  {
    assert forall a, b :: DeletedBefore(a, b) || DeletedBefore(b, a);
    assert forall a, b, c :: DeletedBefore(a, b) && DeletedBefore(b, c) ==> DeletedBefore(a, c);
  }

  function FailedOf(order: seq<Member>, n: nat, outcome: nat -> bool): seq<Member>
    requires n <= |order|
  {
    if n == 0 then [] else FailedOf(order, n - 1, outcome) + if outcome(n - 1) then [] else [order[n - 1]]
  }

  /** What is left of `order` when the deletions below n have been tried. */
  function Survivors(order: seq<Member>, n: nat, outcome: nat -> bool): seq<Member>
    requires n <= |order|
  {
    FailedOf(order, n, outcome) + order[n..]
  }

  lemma {:induction false} FailedCount(order: seq<Member>, n: nat, outcome: nat -> bool)
    requires n <= |order|
    ensures |FailedOf(order, n, outcome)| == n - Successes(outcome, n)
  {
    if n > 0 {
      FailedCount(order, n - 1, outcome);
    }
  }

  lemma {:induction false} FailedMember(order: seq<Member>, n: nat, outcome: nat -> bool, m: Member)
    requires n <= |order|
    ensures m in FailedOf(order, n, outcome) <==> exists j: nat :: j < n && !outcome(j) && order[j] == m
  {
    if n > 0 {
      FailedMember(order, n - 1, outcome, m);
    }
  }

  /** Of the members, exactly those not tried or not gone are left. */
  lemma SurvivesExactly(order: seq<Member>, n: nat, outcome: nat -> bool, m: Member)
    requires n <= |order|
    ensures m in Survivors(order, n, outcome) <==>
            exists j: nat :: j < |order| && order[j] == m && (j < n ==> !outcome(j))
  {
    FailedMember(order, n, outcome, m);
    if m in order[n..] {
      var j :| 0 <= j < |order| - n && order[n..][j] == m;
      assert order[n + j] == m;
    }
    if j: nat :| j < |order| && order[j] == m && (j < n ==> !outcome(j)) {
      assert j >= n ==> order[n..][j - n] == m;
    }
  }

  /** Whichever deletes fail, a member that should go before a deleted one survives only if its own
      delete failed: a ready one goes only when no other unready one is left, and of two equally
      ready ones the older goes only after the newer. */
  lemma DeletionOrder(order: seq<Member>, n: nat, outcome: nat -> bool, i: nat, kept: Member)
    requires Sorted(DeletedBefore, order) && i < n <= |order| && outcome(i) && kept in Survivors(order, n, outcome)
    ensures (exists j: nat :: j < n && !outcome(j) && order[j] == kept)
            || ((order[i].ready ==> kept.ready) && (order[i].ready == kept.ready ==> order[i].created >= kept.created))
  {
    if kept in FailedOf(order, n, outcome) {
      FailedMember(order, n, outcome, kept);
    } else {
      var j :| 0 <= j < |order| - n && order[n..][j] == kept;
      assert DeletedBefore(order[i], order[n + j]);
    }
  }

  // ---------------------------------------------------------------- one reconcile

  function Desired(replicas: Option<int>): int {
    if replicas.Some? then replicas.value else 1
  }

  /** The members created by the calls below n, out of what the API server would hand out. */
  function CreatedOf(supply: nat -> Member, n: nat, outcome: nat -> bool): seq<Member> {
    if n == 0 then [] else CreatedOf(supply, n - 1, outcome) + if outcome(n - 1) then [supply(n - 1)] else []
  }

  lemma {:induction false} CreatedCount(supply: nat -> Member, n: nat, outcome: nat -> bool)
    ensures |CreatedOf(supply, n, outcome)| == Successes(outcome, n)
  {
    if n > 0 {
      CreatedCount(supply, n - 1, outcome);
    }
  }

  function AtLeastZero(n: int): nat {
    if n > 0 then n else 0
  }

  /** All of `count` calls are made, or one of those made failed. */
  ghost predicate Tried(tried: nat, count: int, outcome: nat -> bool) {
    tried <= AtLeastZero(count) && (tried < count ==> exists i: nat :: i < tried && !outcome(i))
  }

  /** What a reconcile of the healthy members leaves: some creates towards the desired count, or some
      deletes in order, never more than a batch or than the difference. */
  ghost predicate Reconciled(healthy: seq<Member>, desired: int, maxBatch: int, templateFound: bool,
                             supply: nat -> Member,
                             outcome: nat -> bool, tried: nat, order: seq<Member>, members: seq<Member>) {
    if |healthy| < desired then
      && (if templateFound then Tried(tried, Min(desired - |healthy|, maxBatch), outcome) else tried == 0)
      && members == healthy + CreatedOf(supply, tried, outcome)
    else if |healthy| > desired then
      && Sorted(DeletedBefore, order) && multiset(order) == multiset(healthy) && |order| == |healthy|
      && Tried(tried, Min(Min(|healthy| - desired, maxBatch), |healthy|), outcome) && tried <= |order|
      && members == Survivors(order, tried, outcome)
    else tried == 0 && members == healthy
  }

  /** The member count after one reconcile in which every call succeeds. */
  function Round(n: nat, desired: int, batch: int): nat {
    if n < desired then n + AtLeastZero(Min(desired - n, batch))
    else if n > desired then n - AtLeastZero(Min(Min(n - desired, batch), n))
    else n
  }

  /** The members with the readiness they have by then. */
  function Seen(members: seq<Member>, ready: string -> bool): seq<Member> {
    seq(|members|, i requires 0 <= i < |members| => members[i].(ready := ready(members[i].name)))
  }

  class WarmPool {
    var active: seq<Member>
    var left: seq<Member>       // stuck members a delete failed for

    function Members(): seq<Member>
      reads this
    {
      left + active
    }

    /** Members become ready or unready. */
    method Refresh(ready: string -> bool)
      modifies this
      ensures Members() == Seen(old(Members()), ready)
    {
      active, left := Seen(active, ready), Seen(left, ready);
    }

    /** Stuck members are deleted; those for which that fails are not counted this time. */
    method DeleteStuck(now: int, gone: Member -> bool)
      modifies this
      ensures active == Healthy(old(Members()), now) && left == StuckLeft(old(Members()), now, gone)
      ensures forall m :: m in active <==> m in old(Members()) && !OverdueAt(m, now)
      ensures forall m :: m in left <==> m in old(Members()) && OverdueAt(m, now) && !gone(m)
    {
      var members, healthy, failed := Members(), [], [];
      for i := 0 to |members|
        invariant healthy == Healthy(members[..i], now) && failed == StuckLeft(members[..i], now, gone)
      {
        assert members[..i + 1][..i] == members[..i];
        if Stuck(members[i], now) {
          if !gone(members[i]) {
            failed := failed + [members[i]];
          }
        } else {
          healthy := healthy + [members[i]];
        }
      }
      assert members[..|members|] == members;
      active, left := healthy, failed;
      forall m ensures m in healthy <==> m in members && !OverdueAt(m, now)
               ensures m in failed <==> m in members && OverdueAt(m, now) && !gone(m) {
        StuckExactly(members, now, gone, m);
      }
    }

    method CreateMembers(count: int, supply: nat -> Member, outcome: nat -> bool) returns (tried: nat)
      modifies this`active
      ensures Tried(tried, count, outcome) && active == old(active) + CreatedOf(supply, tried, outcome)
      ensures (forall i: nat :: outcome(i)) ==> |active| == |old(active)| + AtLeastZero(count)
    {
      var n, result, calls, batches := SlowStartBatch(count, 1, outcome, i => false);
      tried := |calls|;
      CreatedCount(supply, tried, outcome);
      AllSucceed(outcome, tried);
      active := active + CreatedOf(supply, tried, outcome);
    }

    method DeleteMembers(count: int, outcome: nat -> bool) returns (tried: nat, ghost order: seq<Member>)
      requires count <= |active|
      modifies this`active
      ensures Sorted(DeletedBefore, order) && multiset(order) == multiset(old(active)) && |order| == |old(active)|
      ensures Tried(tried, count, outcome) && tried <= |order| && active == Survivors(order, tried, outcome)
      ensures (forall i: nat :: outcome(i)) ==> |active| == |old(active)| - AtLeastZero(count)
    {
      DeletedBeforeIsTotalPreorder();
      var sorted := SortBy(DeletedBefore, active);
      SameMultisetSameElements(sorted, active, Member("", false, 0));
      order := sorted;
      var n, result, calls, batches := SlowStartBatch(count, 1, outcome, i => false);
      tried := |calls|;
      FailedCount(sorted, tried, outcome);
      AllSucceed(outcome, tried);
      active := Survivors(sorted, tried, outcome);
    }

    /** `outcome` says which of the calls succeed; `tried` is how many are made. */
    method Scale(desired: int, maxBatch: int, templateFound: bool, supply: nat -> Member, outcome: nat -> bool)
      returns (tried: nat, ghost order: seq<Member>)
      modifies this`active
      ensures Reconciled(old(active), desired, maxBatch, templateFound, supply, outcome, tried, order, active)
      ensures (forall i: nat :: outcome(i)) && (|old(active)| < desired ==> templateFound) ==>
                |active| == Round(|old(active)|, desired, maxBatch)
    {
      var current := |active|;
      if current < desired {
        tried, order := 0, [];
        if templateFound {
          tried := CreateMembers(Min(desired - current, maxBatch), supply, outcome);
        } else {
          assert active == active + CreatedOf(supply, 0, outcome);
        }
      } else if current > desired {
        tried, order := DeleteMembers(Min(Min(current - desired, maxBatch), |active|), outcome);
      } else {
        tried, order := 0, [];
      }
    }

    /** One reconcile: the stuck members first, then towards the desired count. */
    method ReconcilePool(replicas: Option<int>, maxBatch: int, now: int, templateFound: bool, gone: Member -> bool,
                         supply: nat -> Member, outcome: nat -> bool)
      returns (tried: nat, ghost order: seq<Member>)
      modifies this
      ensures left == StuckLeft(old(Members()), now, gone)
      ensures Reconciled(Healthy(old(Members()), now), Desired(replicas), maxBatch, templateFound, supply, outcome,
                         tried, order, active)
      ensures var healthy, desired := Healthy(old(Members()), now), Desired(replicas);
              (forall i: nat :: outcome(i)) && (|healthy| < desired ==> templateFound) ==>
                |active| == Round(|healthy|, desired, maxBatch)
    {
      DeleteStuck(now, gone);
      tried, order := Scale(Desired(replicas), maxBatch, templateFound, supply, outcome);
    }
  }

  // ---------------------------------------------------------------- rounds

  function Rounds(n: nat, desired: int, batch: int, k: nat): nat {
    if k == 0 then n else Round(Rounds(n, desired, batch, k - 1), desired, batch)
  }

  /** The rounds needed for a difference d. */
  function RoundsNeeded(d: nat, batch: nat): nat
    requires batch > 0
  {
    (d + batch - 1) / batch
  }

  function Difference(n: nat, desired: nat): nat {
    if n <= desired then desired - n else n - desired
  }

  /** The count when `taken` has been taken off the difference. */
  function CountAfter(n: nat, desired: nat, taken: nat): nat {
    if n <= desired then Min(desired, n + taken) else desired + AtLeastZero(n - desired - taken)
  }

  lemma RoundTakesABatch(n: nat, desired: nat, taken: nat, batch: nat)
    ensures Round(CountAfter(n, desired, taken), desired, batch) == CountAfter(n, desired, taken + batch)
  {
  }

  function Batches(k: nat, batch: nat): nat {
    if k == 0 then 0 else Batches(k - 1, batch) + batch
  }

  lemma {:induction false} BatchesAreProduct(k: nat, batch: nat)
    ensures Batches(k, batch) == k * batch
  {
    if k > 0 {
      BatchesAreProduct(k - 1, batch);
    }
  }

  lemma {:induction false} CountAfterBatches(n: nat, desired: nat, batch: nat, k: nat)
    ensures Rounds(n, desired, batch, k) == CountAfter(n, desired, Batches(k, batch))
  {
    if k > 0 {
      CountAfterBatches(n, desired, batch, k - 1);
      RoundTakesABatch(n, desired, Batches(k - 1, batch), batch);
    }
  }

  /** Every round takes one batch off the difference, and the last what is left of it: the count
      never passes the desired one and never moves away from it. */
  lemma CountAfterRounds(n: nat, desired: nat, batch: nat, k: nat)
    ensures Rounds(n, desired, batch, k) == CountAfter(n, desired, k * batch)
  {
    CountAfterBatches(n, desired, batch, k);
    BatchesAreProduct(k, batch);
  }

  lemma RoundsCover(d: nat, batch: nat, k: nat)
    requires batch > 0
    ensures k * batch >= d <==> k >= RoundsNeeded(d, batch)
  {
    var r := RoundsNeeded(d, batch);
    var rest := (d + batch - 1) % batch;
    assert r * batch + rest == d + batch - 1;
    if k >= r {
      assert k * batch >= r * batch;
    } else {
      assert k * batch <= (r - 1) * batch == r * batch - batch;
    }
  }

  /** The desired count is reached in exactly ceil(difference / batch) rounds and kept from then on. */
  lemma ReachedExactly(n: nat, desired: nat, batch: nat, k: nat)
    requires batch > 0
    ensures Rounds(n, desired, batch, k) == desired <==> k >= RoundsNeeded(Difference(n, desired), batch)
  {
    CountAfterRounds(n, desired, batch, k);
    RoundsCover(Difference(n, desired), batch, k);
  }

  // ---------------------------------------------------------------- repeated reconciles

  /** One reconcile of many: when it comes, which members it finds ready, and what it would create. */
  datatype Visit = Visit(now: int, ready: string -> bool, supply: nat -> Member)

  /** A reconcile of `pool` with every call succeeding left `next`: the stuck are gone, the rest is
      scaled by one round, and whoever is new was supplied. */
  ghost predicate OneRound(pool: seq<Member>, v: Visit, desired: nat, batch: nat, next: seq<Member>) {
    var healthy := Healthy(Seen(pool, v.ready), v.now);
    && |next| == Round(|healthy|, desired, batch)
    && forall m :: m in next ==> m in healthy || exists i: nat :: v.supply(i) == m
  }

  /** `pools` are the members before, between and after the reconciles. */
  ghost predicate Follows(pools: seq<seq<Member>>, visits: seq<Visit>, desired: nat, batch: nat) {
    && |pools| == |visits| + 1
    && forall i :: 0 <= i < |visits| ==> OneRound(pools[i], visits[i], desired, batch, pools[i + 1])
  }

  /** The member is stuck, with the readiness it has then. */
  predicate StuckAt(m: Member, v: Visit) {
    Stuck(m.(ready := v.ready(m.name)), v.now)
  }

  ghost predicate NobodyStuck(members: seq<Member>, v: Visit) {
    forall m :: m in members ==> !StuckAt(m, v)
  }

  lemma {:induction false} HealthyMember(members: seq<Member>, now: int, m: Member)
    requires m in Healthy(members, now)
    ensures m in members
  {
    var n := |members| - 1;
    if m in Healthy(members[..n], now) {
      HealthyMember(members[..n], now, m);
    }
  }

  lemma {:induction false} AllAreHealthy(members: seq<Member>, now: int)
    requires forall i :: 0 <= i < |members| ==> !Stuck(members[i], now)
    ensures |Healthy(members, now)| == |members|
  {
    if members != [] {
      var n := |members| - 1;
      assert forall i :: 0 <= i < n ==> members[..n][i] == members[i];
      AllAreHealthy(members[..n], now);
    }
  }

  lemma {:induction false} CreatedAreSupplied(supply: nat -> Member, n: nat, outcome: nat -> bool)
    ensures forall m :: m in CreatedOf(supply, n, outcome) <==> exists i: nat :: i < n && outcome(i) && supply(i) == m
  {
    if n > 0 {
      CreatedAreSupplied(supply, n - 1, outcome);
    }
  }

  lemma SurvivorsWereThere(order: seq<Member>, n: nat, outcome: nat -> bool)
    requires n <= |order|
    ensures forall m :: m in Survivors(order, n, outcome) ==> m in order
  {
    forall m | m in FailedOf(order, n, outcome) ensures m in order {
      FailedMember(order, n, outcome, m);
    }
  }

  /** Whatever the outcomes, a reconcile brings in nobody but supplied members. */
  lemma NobodyElse(healthy: seq<Member>, desired: int, maxBatch: int, templateFound: bool, supply: nat -> Member,
                   outcome: nat -> bool, tried: nat, order: seq<Member>, members: seq<Member>)
    requires Reconciled(healthy, desired, maxBatch, templateFound, supply, outcome, tried, order, members)
    ensures forall m :: m in members ==> m in healthy || exists i: nat :: supply(i) == m
  {
    if |healthy| < desired {
      CreatedAreSupplied(supply, tried, outcome);
    } else if |healthy| > desired {
      SurvivorsWereThere(order, tried, outcome);
      assert forall m :: m in order ==> m in multiset(healthy);
    }
  }

  lemma FollowsAppend(pools: seq<seq<Member>>, visits: seq<Visit>, desired: nat, batch: nat, v: Visit,
                      next: seq<Member>)
    requires Follows(pools, visits, desired, batch) && OneRound(pools[|visits|], v, desired, batch, next)
    ensures Follows(pools + [next], visits + [v], desired, batch)
  {
  }

  lemma ReconciledIsOneRound(pool: seq<Member>, v: Visit, desired: nat, batch: nat, outcome: nat -> bool, tried: nat,
                             order: seq<Member>, next: seq<Member>)
    requires Reconciled(Healthy(Seen(pool, v.ready), v.now), desired, batch, true, v.supply, outcome, tried, order,
                        next)
    requires |next| == Round(|Healthy(Seen(pool, v.ready), v.now)|, desired, batch)
    ensures OneRound(pool, v, desired, batch, next)
  {
    NobodyElse(Healthy(Seen(pool, v.ready), v.now), desired, batch, true, v.supply, outcome, tried, order, next);
  }

  /** Time passes and members become ready or unready; then one reconcile in which every call succeeds. */
  method ReconcileOnce(pool: WarmPool, desired: nat, maxBatch: nat, v: Visit)
    modifies pool
    ensures OneRound(old(pool.Members()), v, desired, maxBatch, pool.Members())
  {
    pool.Refresh(v.ready);
    var all: nat -> bool := i => true;
    var gone: Member -> bool := m => true;
    assert forall i: nat :: all(i);
    NoneStuckLeft(pool.Members(), v.now, gone);
    ghost var order;
    var tried;
    tried, order := pool.ReconcilePool(Some(desired), maxBatch, v.now, true, gone, v.supply, all);
    assert pool.Members() == pool.active;
    assert OneRound(old(pool.Members()), v, desired, maxBatch, pool.active) by {
      ReconciledIsOneRound(old(pool.Members()), v, desired, maxBatch, all, tried, order, pool.active);
    }
  }

  /** The same member, but for its readiness. */
  predicate Same(a: Member, b: Member) {
    a.name == b.name && a.created == b.created
  }

  /** Nobody who is there in round j or is supplied from then on gets stuck before round j + k. */
  ghost predicate NeverStuck(pools: seq<seq<Member>>, visits: seq<Visit>, j: nat, k: nat)
    requires j + k <= |visits| && j < |pools|
  {
    forall i :: j <= i < j + k ==>
      && NobodyStuck(pools[j], visits[i])
      && forall h, n: nat :: j <= h < i ==> !StuckAt(visits[h].supply(n), visits[i])
  }

  ghost predicate WasThere(pool: seq<Member>, m: Member) {
    exists m0 :: m0 in pool && Same(m, m0)
  }

  ghost predicate Supplied(visits: seq<Visit>, j: nat, i: nat, m: Member)
    requires i <= |visits|
  {
    exists h, n: nat :: j <= h < i && Same(m, visits[h].supply(n))
  }

  lemma KeptWasThere(pool: seq<Member>, v: Visit, m: Member)
    requires m in Healthy(Seen(pool, v.ready), v.now)
    ensures WasThere(pool, m)
  {
    HealthyMember(Seen(pool, v.ready), v.now, m);
    var i :| 0 <= i < |pool| && Seen(pool, v.ready)[i] == m;
    assert pool[i] in pool && Same(m, pool[i]);
  }

  /** Who is in the pool in a later round was there in round j or was supplied since. */
  lemma {:induction false} WhoIsThere(pools: seq<seq<Member>>, visits: seq<Visit>, desired: nat, batch: nat,
                                      j: nat, i: nat, m: Member)
    requires Follows(pools, visits, desired, batch) && j <= i < |pools| && m in pools[i]
    ensures WasThere(pools[j], m) || Supplied(visits, j, i, m)
    decreases i
  {
    if j == i {
      assert Same(m, m);
    } else {
      var v := visits[i - 1];
      assert OneRound(pools[i - 1], v, desired, batch, pools[i - 1 + 1]);
      if m in Healthy(Seen(pools[i - 1], v.ready), v.now) {
        KeptWasThere(pools[i - 1], v, m);
        var m0 :| m0 in pools[i - 1] && Same(m, m0);
        WhoIsThere(pools, visits, desired, batch, j, i - 1, m0);
      } else {
        var n: nat :| v.supply(n) == m;
        assert Same(m, visits[i - 1].supply(n));
      }
    }
  }

  lemma NobodyStuckIsKept(pool: seq<Member>, v: Visit)
    requires NobodyStuck(pool, v)
    ensures |Healthy(Seen(pool, v.ready), v.now)| == |pool|
  {
    forall i | 0 <= i < |pool| ensures !Stuck(Seen(pool, v.ready)[i], v.now) {
      assert pool[i] in pool && !StuckAt(pool[i], v);
    }
    AllAreHealthy(Seen(pool, v.ready), v.now);
  }

  lemma NobodyIsLost(pools: seq<seq<Member>>, visits: seq<Visit>, desired: nat, batch: nat, j: nat, k: nat, i: nat)
    requires Follows(pools, visits, desired, batch) && j <= i < j + k <= |visits| && NeverStuck(pools, visits, j, k)
    ensures |pools[i + 1]| == Round(|pools[i]|, desired, batch)
  {
    forall m | m in pools[i] ensures !StuckAt(m, visits[i]) {
      WhoIsThere(pools, visits, desired, batch, j, i, m);
      if WasThere(pools[j], m) {
        var m0 :| m0 in pools[j] && Same(m, m0);
        assert !StuckAt(m0, visits[i]);
      }
    }
    NobodyStuckIsKept(pools[i], visits[i]);
    assert OneRound(pools[i], visits[i], desired, batch, pools[i + 1]);
  }

  lemma {:induction false} CountFollowsRounds(pools: seq<seq<Member>>, desired: nat, batch: nat, j: nat, k: nat)
    requires j + k < |pools| && forall i :: j <= i < j + k ==> |pools[i + 1]| == Round(|pools[i]|, desired, batch)
    ensures |pools[j + k]| == Rounds(|pools[j]|, desired, batch, k)
  {
    if k > 0 {
      CountFollowsRounds(pools, desired, batch, j, k - 1);
      assert |pools[j + k - 1 + 1]| == Round(|pools[j + k - 1]|, desired, batch);
    }
  }

  /** From a round on in which nobody gets stuck any more, the count follows the rounds, and the
      desired count is reached in exactly ceil(difference / batch) of them, and kept. */
  lemma ConvergesOnceNobodyIsStuck(pools: seq<seq<Member>>, visits: seq<Visit>, desired: nat, batch: nat,
                                   j: nat, k: nat)
    requires Follows(pools, visits, desired, batch) && j + k <= |visits| && NeverStuck(pools, visits, j, k)
    ensures |pools[j + k]| == Rounds(|pools[j]|, desired, batch, k)
    ensures batch > 0 ==> (|pools[j + k]| == desired <==> k >= RoundsNeeded(Difference(|pools[j]|, desired), batch))
  {
    forall i | j <= i < j + k ensures |pools[i + 1]| == Round(|pools[i]|, desired, batch) {
      NobodyIsLost(pools, visits, desired, batch, j, k, i);
    }
    CountFollowsRounds(pools, desired, batch, j, k);
    if batch > 0 {
      ReachedExactly(|pools[j]|, desired, batch, k);
    }
  }

  /** Any number of reconciles with every call succeeding, while members become ready or unready.
      Unless a member gets stuck, the desired count is reached in exactly ceil(difference / batch) of
      them and kept. */
  method ReconcileRepeatedly(pool: WarmPool, desired: nat, maxBatch: nat, visits: seq<Visit>)
    returns (ghost pools: seq<seq<Member>>)
    modifies pool
    ensures Follows(pools, visits, desired, maxBatch)
    ensures pools[0] == old(pool.Members()) && pools[|visits|] == pool.Members()
    ensures NeverStuck(pools, visits, 0, |visits|) ==>
              && |pool.Members()| == Rounds(|old(pool.Members())|, desired, maxBatch, |visits|)
              && (maxBatch > 0 ==>
                    (|pool.Members()| == desired <==>
                     |visits| >= RoundsNeeded(Difference(|old(pool.Members())|, desired), maxBatch)))
  {
    pools := [pool.Members()];
    for k := 0 to |visits|
      invariant Follows(pools, visits[..k], desired, maxBatch)
      invariant pools[0] == old(pool.Members()) && pools[k] == pool.Members()
    {
      ReconcileOnce(pool, desired, maxBatch, visits[k]);
      FollowsAppend(pools, visits[..k], desired, maxBatch, visits[k], pool.Members());
      assert visits[..k + 1] == visits[..k] + [visits[k]];
      pools := pools + [pool.Members()];
    }
    assert visits[..|visits|] == visits;
    if NeverStuck(pools, visits, 0, |visits|) {
      ConvergesOnceNobodyIsStuck(pools, visits, desired, maxBatch, 0, |visits|);
    }
  }
}
