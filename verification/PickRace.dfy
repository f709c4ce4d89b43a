/** Concurrent picks: callers look at one node's reservation for one pool key, and debit it later, so
    several of them may have seen the same warm sandbox. Other nodes and keys have reservations of
    their own, which nothing here touches. */
module PickRace {
  import opened Text
  import opened NodePicker

  datatype State = State(
    reservation: Reservation,
    looking: map<nat, string>,     // callers that saw something available, and under which version
    routed: map<string, nat>,      // picks routed under each version
    used: set<string>)             // versions the reservation was ever looked up under

  const INIT := State(Reservation("", 0), map[], map[], {""})

  /** `rows` are the pools the node advertises under each version. A caller may look with a version
      the node has replaced since; without a matching row it does not look the reservation up. */
  datatype Step =
    | Look(caller: nat, version: string)
    | Take(caller: nat)
    | Drop(caller: nat)            // another node was drawn

  function Count(r: Reservation, version: string): nat {
    if r.generation == version then r.taken else 0
  }

  function Routed(s: State, version: string): nat {
    if version in s.routed then s.routed[version] else 0
  }

  function Next(rows: string -> seq<Capacity>, key: PoolKey, s: State, step: Step): State {
    match step
    case Look(c, v) =>
      if c in s.looking || !HasRow(rows(v), key) then s
      else
        var n := Count(s.reservation, v);
        s.(reservation := Reservation(v, n), used := s.used + {v},
           looking := if Offer(rows(v), 0, key, n) > 0 then s.looking[c := v] else s.looking)
    case Take(c) =>
      if c !in s.looking then s
      else
        var v := s.looking[c];
        s.(reservation := Reservation(v, Count(s.reservation, v) + 1), looking := s.looking - {c},
           routed := s.routed[v := Routed(s, v) + 1])
    case Drop(c) => s.(looking := s.looking - {c})
  }

  ghost predicate Run(rows: string -> seq<Capacity>, key: PoolKey, states: seq<State>, steps: seq<Step>) {
    && |states| == |steps| + 1 && states[0] == INIT
    && forall i :: 0 <= i < |steps| ==> states[i + 1] == Next(rows, key, states[i], steps[i])
  }

  /** The largest count a matching row advertises. */
  function Warm(rows: seq<Capacity>, key: PoolKey): int {
    if rows == [] then 0
    else
      var last, rest := rows[|rows| - 1], Warm(rows[..|rows| - 1], key);
      if Matches(last, key) && last.warm > rest then last.warm else rest
  }

  lemma {:induction false} WarmIsLargest(rows: seq<Capacity>, key: PoolKey)
    ensures forall i :: 0 <= i < |rows| && Matches(rows[i], key) ==> rows[i].warm <= Warm(rows, key)
    ensures Warm(rows, key) > 0 ==>
              exists i :: 0 <= i < |rows| && Matches(rows[i], key) && rows[i].warm == Warm(rows, key)
  {
    if rows != [] {
      var n := |rows| - 1;
      WarmIsLargest(rows[..n], key);
      assert forall i :: 0 <= i < n ==> rows[..n][i] == rows[i];
    }
  }

  /** A node offers something exactly while fewer than its largest count are taken. */
  lemma OfferExactly(rows: seq<Capacity>, key: PoolKey, taken: nat)
    ensures Offer(rows, 0, key, taken) > 0 <==> taken < Warm(rows, key)
  {
    OfferMeans(rows, 0, key, taken);
    WarmIsLargest(rows, key);
  }

  // ---------------------------------------------------------------- the bound

  /** The version a step looks the reservation up under. */
  function Touched(rows: string -> seq<Capacity>, key: PoolKey, s: State, step: Step): Option<string> {
    match step
    case Look(c, v) => if c in s.looking || !HasRow(rows(v), key) then None else Some(v)
    case Take(c) => if c in s.looking then Some(s.looking[c]) else None
    case Drop(c) => None
  }

  /** The step does not go back to a version the reservation has left. */
  predicate Steady(rows: string -> seq<Capacity>, key: PoolKey, s: State, step: Step) {
    var v := Touched(rows, key, s, step);
    v.Some? && v.value in s.used ==> v.value == s.reservation.generation
  }

  /** No more than `most` callers are between look and take at any time. */
  ghost predicate AtMostLook(states: seq<State>, most: nat) {
    forall i :: 0 <= i < |states| ==> |states[i].looking| <= most
  }

  ghost predicate AllSteady(rows: string -> seq<Capacity>, key: PoolKey, states: seq<State>, steps: seq<Step>) {
    |states| > |steps| && forall i :: 0 <= i < |steps| ==> Steady(rows, key, states[i], steps[i])
  }

  function InFlight(s: State, version: string): set<nat> {
    set c | c in s.looking && s.looking[c] == version
  }

  ghost predicate Within(rows: string -> seq<Capacity>, key: PoolKey, s: State, most: nat, v: string) {
    var n := Routed(s, v) + |InFlight(s, v)|;
    && (n > 0 ==> v in s.used && n <= Warm(rows(v), key) - 1 + most)
    && (v == s.reservation.generation ==> s.reservation.taken == Routed(s, v))
  }

  lemma {:induction false} Subset(a: set<nat>, b: set<nat>)
    requires a <= b
    ensures |a| <= |b|
  {
    if a != {} {
      var c :| c in a;
      Subset(a - {c}, b - {c});
    }
  }

  lemma SomeAreInFlight(s: State, v: string)
    ensures |InFlight(s, v)| <= |s.looking|
  {
    Subset(InFlight(s, v), s.looking.Keys);
  }

  lemma LeavesFlight(s: State, t: State, c: nat, v: string)
    requires t.looking == s.looking - {c}
    ensures InFlight(t, v) == InFlight(s, v) - {c}
    ensures |InFlight(t, v)| == |InFlight(s, v)| - if c in s.looking && s.looking[c] == v then 1 else 0
  {
    assert InFlight(t, v) == InFlight(s, v) - {c};
  }

  lemma EntersFlight(s: State, t: State, c: nat, w: string, v: string)
    requires t.looking == s.looking[c := w] && c !in s.looking && v != w
    ensures InFlight(t, v) == InFlight(s, v)
  {
  }

  lemma LookKeepsWithin(rows: string -> seq<Capacity>, key: PoolKey, s: State, c: nat, w: string, most: nat, v: string)
    requires Within(rows, key, s, most, v) && Within(rows, key, s, most, w) && s.reservation.generation in s.used
    requires Steady(rows, key, s, Look(c, w)) && |Next(rows, key, s, Look(c, w)).looking| <= most
    ensures Within(rows, key, Next(rows, key, s, Look(c, w)), most, v)
  {
    var t := Next(rows, key, s, Look(c, w));
    OfferExactly(rows(w), key, Count(s.reservation, w));
    if c !in s.looking && t.looking != s.looking {
      if v == w {
        SomeAreInFlight(t, v);
      } else {
        EntersFlight(s, t, c, w, v);
      }
    }
  }

  lemma StepKeepsWithin(rows: string -> seq<Capacity>, key: PoolKey, s: State, step: Step, most: nat, v: string)
    requires (forall w :: Within(rows, key, s, most, w)) && s.reservation.generation in s.used
    requires Steady(rows, key, s, step) && |Next(rows, key, s, step).looking| <= most
    ensures Within(rows, key, Next(rows, key, s, step), most, v)
  {
    assert Within(rows, key, s, most, v);
    match step
    case Look(c, w) => LookKeepsWithin(rows, key, s, c, w, most, v);
    case Take(c) =>
      if c in s.looking {
        var w := s.looking[c];
        assert Within(rows, key, s, most, w) && c in InFlight(s, w);
        LeavesFlight(s, Next(rows, key, s, step), c, v);
      }
    case Drop(c) => LeavesFlight(s, Next(rows, key, s, step), c, v);
  }

  ghost predicate AllWithin(rows: string -> seq<Capacity>, key: PoolKey, s: State, most: nat) {
    && s.reservation.generation in s.used
    && forall v :: Within(rows, key, s, most, v)
  }

  lemma StepKeepsAllWithin(rows: string -> seq<Capacity>, key: PoolKey, s: State, step: Step, most: nat)
    requires AllWithin(rows, key, s, most) && Steady(rows, key, s, step) && |Next(rows, key, s, step).looking| <= most
    ensures AllWithin(rows, key, Next(rows, key, s, step), most)
  {
    forall v ensures Within(rows, key, Next(rows, key, s, step), most, v) {
      StepKeepsWithin(rows, key, s, step, most, v);
    }
    if step.Take? && step.caller in s.looking {
      var w := s.looking[step.caller];
      assert Within(rows, key, s, most, w) && step.caller in InFlight(s, w);
    }
  }

  lemma NothingYet(rows: string -> seq<Capacity>, key: PoolKey, most: nat)
    ensures AllWithin(rows, key, INIT, most)
  {
    forall v ensures Within(rows, key, INIT, most, v) {
      assert InFlight(INIT, v) == {};
    }
  }

  lemma {:induction false} RunIsWithin(rows: string -> seq<Capacity>, key: PoolKey, states: seq<State>,
                                       steps: seq<Step>,
                                       most: nat, i: nat)
    requires Run(rows, key, states, steps) && AllSteady(rows, key, states, steps) && AtMostLook(states, most)
               && i < |states|
    ensures AllWithin(rows, key, states[i], most)
  {
    if i == 0 {
      NothingYet(rows, key, most);
    } else {
      var k := i - 1;
      RunIsWithin(rows, key, states, steps, most, k);
      assert states[k + 1] == Next(rows, key, states[k], steps[k]);
      StepKeepsAllWithin(rows, key, states[k], steps[k], most);
    }
  }

  /** In every interleaving that does not go back to a version left behind, no version is routed more
      picks than the node advertises plus the callers that can be between look and take, less one. */
  lemma OvercommitIsBounded(rows: string -> seq<Capacity>, key: PoolKey, states: seq<State>, steps: seq<Step>,
                            most: nat, i: nat, v: string)
    requires Run(rows, key, states, steps) && AllSteady(rows, key, states, steps) && AtMostLook(states, most)
               && i < |states|
    ensures Routed(states[i], v) > 0 ==> Routed(states[i], v) <= Warm(rows(v), key) + most - 1
  {
    RunIsWithin(rows, key, states, steps, most, i);
    assert Within(rows, key, states[i], most, v);
  }

  // ---------------------------------------------------------------- how it is exceeded

  ghost predicate Exceeds(rows: string -> seq<Capacity>, key: PoolKey, s: State, v: string) {
    Routed(s, v) > 0 && Routed(s, v) > Warm(rows(v), key)
  }

  ghost predicate NeverExceeds(most: nat) {
    forall rows, key, states, steps, v ::
      Run(rows, key, states, steps) && AllSteady(rows, key, states, steps) && AtMostLook(states, most) ==>
        !Exceeds(rows, key, states[|steps|], v)
  }

  lemma RunAppend(rows: string -> seq<Capacity>, key: PoolKey, states: seq<State>, steps: seq<Step>, step: Step)
    requires Run(rows, key, states, steps)
    ensures Run(rows, key, states + [Next(rows, key, states[|steps|], step)], steps + [step])
  {
    var more, all := states + [Next(rows, key, states[|steps|], step)], steps + [step];
    forall i | 0 <= i < |all| ensures more[i + 1] == Next(rows, key, more[i], all[i]) {
      if i < |steps| {
        assert states[i + 1] == Next(rows, key, states[i], steps[i]);
      }
    }
  }

  lemma SteadyAppend(rows: string -> seq<Capacity>, key: PoolKey, states: seq<State>, steps: seq<Step>, step: Step,
                     s: State)
    requires AllSteady(rows, key, states, steps) && |states| == |steps| + 1 && Steady(rows, key, states[|steps|], step)
    ensures AllSteady(rows, key, states + [s], steps + [step])
  {
    var more, all := states + [s], steps + [step];
    forall i | 0 <= i < |all| ensures Steady(rows, key, more[i], all[i]) {
      if i < |steps| {
        assert Steady(rows, key, states[i], steps[i]);
      }
    }
  }

  lemma Extend(rows: string -> seq<Capacity>, key: PoolKey, states: seq<State>, steps: seq<Step>, step: Step, most: nat)
    requires Run(rows, key, states, steps) && AtMostLook(states, most)
    requires |Next(rows, key, states[|steps|], step).looking| <= most
    ensures var more := states + [Next(rows, key, states[|steps|], step)];
            && Run(rows, key, more, steps + [step]) && AtMostLook(more, most)
            && (AllSteady(rows, key, states, steps) && Steady(rows, key, states[|steps|], step) ==>
                AllSteady(rows, key, more, steps + [step]))
  {
    RunAppend(rows, key, states, steps, step);
    if AllSteady(rows, key, states, steps) && Steady(rows, key, states[|steps|], step) {
      SteadyAppend(rows, key, states, steps, step, Next(rows, key, states[|steps|], step));
    }
  }

  lemma LookSees(rows: string -> seq<Capacity>, key: PoolKey, s: State, c: nat, v: string)
    requires c !in s.looking && Count(s.reservation, v) < Warm(rows(v), key)
    ensures HasRow(rows(v), key)
    ensures Next(rows, key, s, Look(c, v)) ==
            s.(reservation := Reservation(v, Count(s.reservation, v)), used := s.used + {v},
               looking := s.looking[c := v])
  {
    OfferExactly(rows(v), key, Count(s.reservation, v));
    WarmIsLargest(rows(v), key);
  }

  lemma TwoLookAndTake(rows: string -> seq<Capacity>, key: PoolKey, v: string)
    returns (s1: State, s2: State, s3: State, s4: State)
    requires Warm(rows(v), key) == 1 && v != ""
    ensures s1 == Next(rows, key, INIT, Look(0, v)) && Steady(rows, key, INIT, Look(0, v)) && |s1.looking| <= 2
    ensures s2 == Next(rows, key, s1, Look(1, v)) && Steady(rows, key, s1, Look(1, v)) && |s2.looking| <= 2
    ensures s3 == Next(rows, key, s2, Take(0)) && Steady(rows, key, s2, Take(0)) && |s3.looking| <= 2
    ensures s4 == Next(rows, key, s3, Take(1)) && Steady(rows, key, s3, Take(1)) && |s4.looking| <= 2
    ensures Routed(s4, v) == 2
  {
    LookSees(rows, key, INIT, 0, v);
    s1 := Next(rows, key, INIT, Look(0, v));
    assert s1.looking == map[0 := v];
    LookSees(rows, key, s1, 1, v);
    s2 := Next(rows, key, s1, Look(1, v));
    assert s2.looking == map[0 := v, 1 := v];
    s3 := Next(rows, key, s2, Take(0));
    assert s3.looking == map[1 := v];
    s4 := Next(rows, key, s3, Take(1));
    assert s4.looking == map[];
  }

  /** Two callers that look before either takes are both routed to the last warm sandbox. */
  lemma TwoTakeTheLast(rows: string -> seq<Capacity>, key: PoolKey, v: string)
    returns (states: seq<State>, steps: seq<Step>)
    requires Warm(rows(v), key) == 1 && v != ""
    ensures Run(rows, key, states, steps) && AllSteady(rows, key, states, steps) && AtMostLook(states, 2)
    ensures Exceeds(rows, key, states[|steps|], v)
  {
    var s1, s2, s3, s4 := TwoLookAndTake(rows, key, v);
    states, steps := [INIT], [];
    Extend(rows, key, states, steps, Look(0, v), 2);
    states, steps := states + [s1], steps + [Look(0, v)];
    Extend(rows, key, states, steps, Look(1, v), 2);
    states, steps := states + [s2], steps + [Look(1, v)];
    Extend(rows, key, states, steps, Take(0), 2);
    states, steps := states + [s3], steps + [Take(0)];
    Extend(rows, key, states, steps, Take(1), 2);
    states, steps := states + [s4], steps + [Take(1)];
  }

  /** So the advertised counts are kept in all such interleavings exactly when picks come one at a
      time. */
  lemma OneAtATimeExactly(most: nat)
    ensures NeverExceeds(most) <==> most <= 1
  {
    if most <= 1 {
      forall rows, key, states, steps, v | Run(rows, key, states, steps) && AllSteady(rows, key, states, steps)
          && AtMostLook(states, most)
        ensures !Exceeds(rows, key, states[|steps|], v)
      {
        OvercommitIsBounded(rows, key, states, steps, most, |steps|, v);
      }
    } else {
      var key := PoolKey("t", "", "");
      var rows := (v: string) => [Capacity(key, 1)];
      assert rows("1")[..0] == [] && Warm(rows("1"), key) == 1;
      var states, steps := TwoTakeTheLast(rows, key, "1");
    }
  }

  /** Nothing is left of the picks under `v` once a caller looked with another version. */
  ghost predicate Forgotten(s: State, v: string, n: nat) {
    s.reservation.generation != v && s.looking == map[] && Routed(s, v) == n
  }

  lemma OnceMore(rows: string -> seq<Capacity>, key: PoolKey, s: State, v: string, stale: string, n: nat)
    returns (s1: State, s2: State, s3: State, s4: State)
    requires Forgotten(s, v, n) && v != stale && Warm(rows(v), key) > 0 && HasRow(rows(stale), key)
    ensures s1 == Next(rows, key, s, Look(0, v)) && s2 == Next(rows, key, s1, Take(0))
    ensures s3 == Next(rows, key, s2, Look(0, stale)) && s4 == Next(rows, key, s3, Drop(0))
    ensures |s1.looking| == 1 && s2.looking == map[] && |s3.looking| <= 1 && Forgotten(s4, v, n + 1)
  {
    LookSees(rows, key, s, 0, v);
    s1 := Next(rows, key, s, Look(0, v));
    assert s1.looking == map[0 := v];
    s2 := Next(rows, key, s1, Take(0));
    assert s2.looking == map[];
    s3 := Next(rows, key, s2, Look(0, stale));
    assert s3.looking == map[] || s3.looking == map[0 := stale];
    s4 := Next(rows, key, s3, Drop(0));
    assert s4.looking == map[];
  }

  /** Going back has no bound at all: if callers that still hold the version before take turns with
      the others, one at a time, any number of picks is routed under one version. */
  lemma {:induction false} StaleLooksForget(rows: string -> seq<Capacity>, key: PoolKey, v: string, stale: string,
                                            n: nat)
    returns (states: seq<State>, steps: seq<Step>)
    requires v != stale && v != "" && Warm(rows(v), key) > 0 && HasRow(rows(stale), key)
    ensures Run(rows, key, states, steps) && AtMostLook(states, 1)
    ensures Forgotten(states[|steps|], v, n)
  {
    if n == 0 {
      states, steps := [INIT], [];
    } else {
      states, steps := StaleLooksForget(rows, key, v, stale, n - 1);
      var s1, s2, s3, s4 := OnceMore(rows, key, states[|steps|], v, stale, n - 1);
      Extend(rows, key, states, steps, Look(0, v), 1);
      states, steps := states + [s1], steps + [Look(0, v)];
      Extend(rows, key, states, steps, Take(0), 1);
      states, steps := states + [s2], steps + [Take(0)];
      Extend(rows, key, states, steps, Look(0, stale), 1);
      states, steps := states + [s3], steps + [Look(0, stale)];
      Extend(rows, key, states, steps, Drop(0), 1);
      states, steps := states + [s4], steps + [Drop(0)];
    }
  }
}
