/** Running a function over the indices below a count in batches that double after each success. */
module SlowStart {

  function Min(a: int, b: int): int {
    if a < b then a else b
  }

  datatype Result = Completed | Cancelled | Failed

  /** The sizes of the batches started, the last one outermost. */
  datatype Batches = NoBatch | Then(before: Batches, size: nat)

  function Sum(b: Batches): nat {
    match b
    case NoBatch => 0
    case Then(before, size) => Sum(before) + size
  }

  ghost function Count(b: Batches): nat {
    match b
    case NoBatch => 0
    case Then(before, _) => Count(before) + 1
  }

  /** The batch that comes next: the first, or twice the last, and never more than is left. */
  function NextBatch(b: Batches, count: int, initial: int): int {
    match b
    case NoBatch => Min(count, initial)
    case Then(before, size) => Min(2 * size, count - Sum(b))
  }

  /** Each batch is the one that comes after those before it. */
  ghost predicate Doubling(b: Batches, count: int, initial: int) {
    match b
    case NoBatch => true
    case Then(before, size) => Doubling(before, count, initial) && 0 < size == NextBatch(before, count, initial)
  }

  /** A batch is larger than all before it together by at most the first one's size. */
  lemma {:induction false} BatchBound(b: Batches, count: int, initial: int)
    requires Doubling(b, count, initial)
    ensures NextBatch(b, count, initial) <= Sum(b) + initial
  {
    if b.Then? {
      BatchBound(b.before, count, initial);
    }
  }

  /** No more than `count` are ever started, and all of them once no batch comes next. */
  lemma {:induction false} NeverTooMany(b: Batches, count: int, initial: int)
    requires Doubling(b, count, initial)
    ensures b.Then? ==> 0 < Sum(b) <= count && initial > 0
    ensures NextBatch(b, count, initial) <= 0 ==> Sum(b) == if count > 0 && initial > 0 then count else 0
  {
    if b.Then? {
      NeverTooMany(b.before, count, initial);
    }
  }

  /** How many of the calls below n succeed. */
  function Successes(outcome: nat -> bool, n: nat): nat {
    if n == 0 then 0 else Successes(outcome, n - 1) + if outcome(n - 1) then 1 else 0
  }

  lemma {:induction false} AllSucceed(outcome: nat -> bool, n: nat)
    ensures Successes(outcome, n) <= n
    ensures Successes(outcome, n) == n <==> forall i: nat :: i < n ==> outcome(i)
  {
    if n > 0 {
      AllSucceed(outcome, n - 1);
      if forall i: nat :: i < n ==> outcome(i) {
        assert outcome(n - 1);
      } else {
        var i: nat :| i < n && !outcome(i);
      }
    }
  }

  /** Every index below the length, once, in order. */
  ghost predicate InOrder(calls: seq<nat>) {
    forall i :: 0 <= i < |calls| ==> calls[i] == i
  }

  /** One batch: all its calls are made, at the indices that follow the successes so far, whatever
      the first of them answer. */
  method RunBatch(successes: nat, size: nat, outcome: nat -> bool) returns (batchSuccesses: nat, made: seq<nat>)
    ensures |made| == size && forall i :: 0 <= i < size ==> made[i] == successes + i
    ensures Successes(outcome, successes) + batchSuccesses == Successes(outcome, successes + size)
  {
    batchSuccesses, made := 0, [];
    for i := 0 to size
      invariant |made| == i && forall j :: 0 <= j < i ==> made[j] == successes + j
      invariant Successes(outcome, successes) + batchSuccesses == Successes(outcome, successes + i)
    {
      var index := successes + i;
      made := made + [index];
      if outcome(index) {
        batchSuccesses := batchSuccesses + 1;
      }
    }
  }

  /** The calls made are those of the batches, each index once and in order. */
  ghost predicate Made(calls: seq<nat>, batches: Batches, count: int, initial: int) {
    Doubling(batches, count, initial) && InOrder(calls) && |calls| == Sum(batches)
  }

  /** A batch goes on where the calls so far end, because all of them succeeded. */
  lemma BatchFollows(calls: seq<nat>, batches: Batches, count: int, initial: int, made: seq<nat>, successes: nat)
    requires Made(calls, batches, count, initial) && successes == |calls|
    requires 0 < |made| == NextBatch(batches, count, initial)
    requires forall i :: 0 <= i < |made| ==> made[i] == successes + i
    ensures Made(calls + made, Then(batches, |made|), count, initial)
    ensures NextBatch(Then(batches, |made|), count, initial) == Min(2 * |made|, count - |calls + made|)
  {
  }

  /** `outcome` says which calls succeed and `cancelled` before which batch the context is done. */
  method SlowStartBatch(count: int, initial: int, outcome: nat -> bool, cancelled: nat -> bool)
    returns (successes: nat, result: Result, calls: seq<nat>, batches: Batches)
    ensures Made(calls, batches, count, initial)
    ensures successes == Successes(outcome, |calls|)
    ensures result.Completed? ==> successes == |calls| == if count > 0 && initial > 0 then count else 0
    ensures result.Cancelled? ==> cancelled(Count(batches)) && successes == |calls| < count
    ensures forall i: nat :: i < Count(batches) ==> !cancelled(i)
    ensures result.Failed? ==>
              batches.Then? && successes < |calls| && Successes(outcome, Sum(batches.before)) == Sum(batches.before)
  {
    var remaining := count;
    successes, calls, batches := 0, [], NoBatch;
    var batchSize, started := Min(remaining, initial), 0;
    while batchSize > 0
      invariant Made(calls, batches, count, initial)
      invariant remaining == count - |calls| && successes == |calls| == Successes(outcome, |calls|)
      invariant batchSize == NextBatch(batches, count, initial) && started == Count(batches)
      invariant forall i: nat :: i < Count(batches) ==> !cancelled(i)
      decreases remaining
    {
      NeverTooMany(batches, count, initial);
      if cancelled(started) {
        return successes, Cancelled, calls, batches;
      }
      var batchSuccesses, made := RunBatch(successes, batchSize, outcome);
      BatchFollows(calls, batches, count, initial, made, successes);
      AllSucceed(outcome, successes + batchSize);
      calls := calls + made;
      batches, started := Then(batches, batchSize), started + 1;
      successes := successes + batchSuccesses;
      if batchSuccesses < batchSize {
        return successes, Failed, calls, batches;
      }
      remaining := remaining - batchSize;
      batchSize := Min(2 * batchSize, remaining);
    }
    NeverTooMany(batches, count, initial);
    result := Completed;
  }

  /** With a first batch of one: if some call fails, the calls started are at most 2c + 1, where c
      is the number in completed batches. */
  lemma FailureStopsEarly(batches: Batches, count: int)
    requires Doubling(batches, count, 1) && batches.Then?
    ensures batches.size <= Sum(batches.before) + 1 && Sum(batches) <= 2 * Sum(batches.before) + 1
  {
    BatchBound(batches.before, count, 1);
  }
}
