/** Concurrent claims of the aggregated store: a name is checked in the pending index before sandboxd
    hands a sandbox over and recorded after, so two claims of one name may both pass the check. */
module ClaimRace {
  import opened SandboxSynthesis
  import opened StoreView

  /** A claim that passed the check, under which name and after how many steps. */
  datatype Checked = Checked(key: string, since: nat)

  datatype State = State(
    pending: map<string, Pending>,
    recorded: map<string, nat>,       // after how many steps each name was last recorded
    claims: map<nat, Checked>,        // claims between check and record
    replaced: seq<Pending>,           // claims that were live when another took their name
    now: int,
    steps: nat)

  const INIT := State(map[], map[], map[], [], 0, 0)

  datatype Step =
    | Check(claim: nat, key: string)
    | Record(claim: nat, pending: Pending)
    | Fail(claim: nat)                // no node, no capacity or an error of sandboxd
    | Forget(key: string)             // released or confirmed
    | Elapse(now: int)

  predicate Live(s: State, key: string) {
    key in s.pending && Unexpired(s.pending[key], s.now)
  }

  /** What a step does, apart from being counted. */
  function Effect(s: State, step: Step): State {
    match step
    case Check(c, k) =>
      if c in s.claims || Live(s, k) then s
      else s.(pending := s.pending - {k}, claims := s.claims[c := Checked(k, s.steps)])
    case Record(c, p) =>
      if c !in s.claims then s
      else
        var k := s.claims[c].key;
        s.(pending := s.pending[k := p.(at := s.now)], recorded := s.recorded[k := s.steps], claims := s.claims - {c},
           replaced := if Live(s, k) then s.replaced + [s.pending[k]] else s.replaced)
    case Fail(c) => s.(claims := s.claims - {c})
    case Forget(k) => s.(pending := s.pending - {k})
    case Elapse(now) => if s.now <= now then s.(now := now) else s
  }

  function Next(s: State, step: Step): State {
    Effect(s, step).(steps := s.steps + 1)
  }

  ghost predicate Run(states: seq<State>, steps: seq<Step>) {
    && |states| == |steps| + 1 && states[0] == INIT
    && forall i :: 0 <= i < |steps| ==> states[i + 1] == Next(states[i], steps[i])
  }

  /** A claim passes the check exactly while no claim of its name was recorded within the last 180
      seconds and is still pending. */
  lemma CheckPassesExactly(s: State, c: nat, key: string)
    requires c !in s.claims
    ensures c in Next(s, Check(c, key)).claims <==> !(key in s.pending && s.now - s.pending[key].at <= 180)
    ensures c in Next(s, Check(c, key)).claims ==> Next(s, Check(c, key)).claims[c].key == key
  {
  }

  // ---------------------------------------------------------------- what a race needs

  /** A name that is live was recorded, and after the check of every claim still under way for it. */
  ghost predicate Explained(s: State, c: nat)
    requires c in s.claims
  {
    var k := s.claims[c].key;
    s.claims[c].since < s.steps && (Live(s, k) ==> k in s.recorded && s.claims[c].since < s.recorded[k] < s.steps)
  }

  ghost predicate AllExplained(s: State) {
    && (forall c :: c in s.claims ==> Explained(s, c))
    && forall k :: k in s.recorded ==> s.recorded[k] < s.steps
  }

  lemma StepExplains(s: State, step: Step, c: nat)
    requires AllExplained(s) && c in Next(s, step).claims
    ensures Explained(Next(s, step), c)
  {
    if c in s.claims {
      assert Explained(s, c);
    }
  }

  lemma StepExplainsAll(s: State, step: Step)
    requires AllExplained(s)
    ensures AllExplained(Next(s, step))
  {
    forall c | c in Next(s, step).claims ensures Explained(Next(s, step), c) {
      StepExplains(s, step, c);
    }
  }

  lemma {:induction false} RunIsExplained(states: seq<State>, steps: seq<Step>, i: nat)
    requires Run(states, steps) && i < |states|
    ensures AllExplained(states[i])
  {
    if i > 0 {
      var k := i - 1;
      RunIsExplained(states, steps, k);
      assert states[k + 1] == Next(states[k], steps[k]);
      StepExplainsAll(states[k], steps[k]);
    }
  }

  /** In every interleaving, a claim takes the name of a live one exactly when that one was recorded
      between its own check and its record and has not been forgotten or expired since. */
  lemma ReplacesExactly(states: seq<State>, steps: seq<Step>, i: nat, c: nat, p: Pending)
    requires Run(states, steps) && i < |steps| && steps[i] == Record(c, p) && c in states[i].claims
    ensures var s, k := states[i], states[i].claims[c].key;
            states[i + 1].replaced != s.replaced <==>
            Live(s, k) && k in s.recorded && s.claims[c].since < s.recorded[k] < s.steps
  {
    RunIsExplained(states, steps, i);
    assert Explained(states[i], c);
    assert states[i + 1] == Next(states[i], steps[i]);
  }

  // ---------------------------------------------------------------- when there is none

  ghost function UnderWay(s: State, key: string): set<nat> {
    set c | c in s.claims && s.claims[c].key == key
  }

  /** No more than `most` claims of one name are under way at any time. */
  ghost predicate AtMostUnderWay(states: seq<State>, most: nat) {
    forall i, k :: 0 <= i < |states| ==> |UnderWay(states[i], k)| <= most
  }

  /** The name of every claim under way is free. */
  ghost predicate NamesFree(s: State) {
    s.replaced == [] && forall c :: c in s.claims ==> !Live(s, s.claims[c].key)
  }

  lemma OnlyOne(s: State, a: nat, b: nat)
    requires a in s.claims && b in s.claims && s.claims[a].key == s.claims[b].key && |UnderWay(s, s.claims[a].key)| <= 1
    ensures a == b
  {
    var both := UnderWay(s, s.claims[a].key);
    assert a in both && b in both;
    assert |both - {a}| == 0;
  }

  lemma StepKeepsFree(s: State, step: Step)
    requires NamesFree(s) && forall k :: |UnderWay(s, k)| <= 1
    ensures NamesFree(Next(s, step))
  {
    var t := Next(s, step);
    forall c | c in t.claims ensures !Live(t, t.claims[c].key) {
      if step.Record? && step.claim in s.claims && s.claims[step.claim].key == t.claims[c].key {
        OnlyOne(s, c, step.claim);
      }
    }
  }

  lemma {:induction false} NamesStayFree(states: seq<State>, steps: seq<Step>, i: nat)
    requires Run(states, steps) && AtMostUnderWay(states, 1) && i < |states|
    ensures NamesFree(states[i])
  {
    if i > 0 {
      var k := i - 1;
      NamesStayFree(states, steps, k);
      assert states[k + 1] == Next(states[k], steps[k]);
      StepKeepsFree(states[k], steps[k]);
    }
  }

  ghost predicate NeverReplaces(most: nat) {
    forall states: seq<State>, steps: seq<Step> :: Run(states, steps) && AtMostUnderWay(states, most) ==>
        states[|steps|].replaced == []
  }

  lemma Extend(states: seq<State>, steps: seq<Step>, step: Step)
    requires Run(states, steps)
    ensures Run(states + [Next(states[|steps|], step)], steps + [step])
  {
  }

  /** Two claims that check one free name before either records are both served, and the second takes
      the name of the first. */
  lemma BothAreServed(k: string, p: Pending, q: Pending) returns (states: seq<State>, steps: seq<Step>)
    ensures Run(states, steps) && states[|steps|].replaced == [p.(at := 0)]
              && states[|steps|].pending == map[k := q.(at := 0)]
    ensures forall i :: 0 <= i < |states| ==> states[i].claims.Keys <= {0, 1}
  {
    var s1 := Next(INIT, Check(0, k));
    var s2 := Next(s1, Check(1, k));
    var s3 := Next(s2, Record(0, p));
    var s4 := Next(s3, Record(1, q));
    assert s1.pending == map[] && s2.pending == map[];
    assert s2.claims == map[0 := Checked(k, 0), 1 := Checked(k, 1)];
    assert s3.claims == map[1 := Checked(k, 1)] && s3.pending == map[k := p.(at := 0)] && Live(s3, k);
    assert s4.claims == map[] && s4.pending == map[k := q.(at := 0)];
    states, steps := [INIT], [];
    Extend(states, steps, Check(0, k));
    states, steps := states + [s1], steps + [Check(0, k)];
    Extend(states, steps, Check(1, k));
    states, steps := states + [s2], steps + [Check(1, k)];
    Extend(states, steps, Record(0, p));
    states, steps := states + [s3], steps + [Record(0, p)];
    Extend(states, steps, Record(1, q));
    states, steps := states + [s4], steps + [Record(1, q)];
  }

  lemma {:induction false} FewUnderWay(states: seq<State>)
    requires forall i :: 0 <= i < |states| ==> states[i].claims.Keys <= {0, 1}
    ensures AtMostUnderWay(states, 2)
  {
    forall i, k | 0 <= i < |states| ensures |UnderWay(states[i], k)| <= 2 {
      var some := UnderWay(states[i], k);
      assert some == (if 0 in some then {0} else {}) + (if 1 in some then {1} else {});
    }
  }

  /** So no live claim ever loses its name exactly when the claims of a name come one at a time. */
  lemma OneAtATimeExactly(most: nat)
    ensures NeverReplaces(most) <==> most <= 1
  {
    if most <= 1 {
      forall states: seq<State>, steps: seq<Step> | Run(states, steps) && AtMostUnderWay(states, most)
        ensures states[|steps|].replaced == []
      {
        NamesStayFree(states, steps, |steps|);
      }
    } else {
      var p := Pending("n", PendingEntry("ns", "name", "uid", "id", "addr"), 0);
      var states, steps := BothAreServed("k", p, p);
      FewUnderWay(states);
    }
  }
}
