/** What one claim's pass changes, action by action, and where a pass that nothing disturbs ends. */
module AdoptionPass {
  import opened Text
  import opened WarmSandbox
  import opened Adoption

  /** A cold sandbox is its claim's from the start. */
  lemma ColdIsTheClaims(c: Claim)
    ensures var sb := ColdSandbox(c);
            && sb.name == c.name && ControlledBy(sb, c.uid) && !PoolControlled(sb) && !sb.deleting
            && ControllerIs(sb.owners, "extensions.agents.x-k8s.io/v1beta1", "SandboxClaim", c.name)
            && "agents.x-k8s.io/claim-uid" in sb.labels && sb.labels["agents.x-k8s.io/claim-uid"] == c.uid
  {
    KindsDiffer();
    assert TEMPLATE_REF_HASH_LABEL[16] != CLAIM_UID_LABEL[16];
    assert ColdSandbox(c).owners[0].controller;
  }

  /** The recorded sandbox is gone, or still its pool's but no longer one the claim may adopt. */
  ghost predicate Outdated(s: State, uid: string)
    requires uid in s.claims
  {
    var c := s.claims[uid];
    && c.annotation != ""
    && (c.annotation in s.sandboxes ==>
          && !Controls(s.sandboxes, uid, c.annotation) && PoolControlled(s.sandboxes[c.annotation])
          && !MayAdopt(s.sandboxes[c.annotation], c.claim))
  }

  /** The check of the annotation clears exactly an outdated record, if that can be written, and notes
      the patch it sent until the sandbox shows its claim. */
  lemma AnnotationChanges(s: State, uid: string, written: bool, patch: Patch)
    requires uid in s.claims
    ensures var c, c' := s.claims[uid], AfterAnnotation(s, uid, written, patch).claims[uid];
            && c' == c.(annotation := c'.annotation, triggered := c'.triggered, pc := c'.pc)
            && c'.annotation == (if Outdated(s, uid) && written then "" else c.annotation)
            && (Outdated(s, uid) ==> c'.pc == if written then AtName else Idle)
            && c'.triggered ==
               if c.annotation != "" && Controls(s.sandboxes, uid, c.annotation) then ""
               else if Recovering(s, uid) && patch.Patched? then c.annotation
               else c.triggered
  {
    var c := s.claims[uid];
    if c.annotation in s.sandboxes { VerifyExactly(s.sandboxes[c.annotation], c.claim); }
  }

  /** An attempt records its candidate before it patches it, and every recorded one uses up one of the
      attempts left. */
  lemma AttemptChanges(s: State, uid: string, candidate: Option<string>, recorded: bool, patch: Patch)
    requires uid in s.claims && s.claims[uid].pc.Adopting?
    ensures var c, c' := s.claims[uid], AfterAttempt(s, uid, candidate, recorded, patch).claims[uid];
            var tries := candidate.Some? && c.pc.left > 0 && candidate.value in s.sandboxes
                         && MayAdopt(s.sandboxes[candidate.value], c.claim);
            && c' == c.(annotation := c'.annotation, triggered := c'.triggered, pc := c'.pc)
            && c'.annotation == (if tries && recorded then candidate.value else c.annotation)
            && c'.triggered == (if tries && recorded && patch.Patched? then candidate.value else c.triggered)
            && (tries && recorded && (patch.Conflict? || patch.Vanished?) ==> c'.pc == Adopting(c.pc.left - 1))
            && (tries && !recorded ==> c'.pc == Idle)
  {
    if candidate.Some? && candidate.value in s.sandboxes {
      VerifyExactly(s.sandboxes[candidate.value], s.claims[uid].claim);
    }
  }

  /** A pass may end at any point; only a restart forgets the patch that was sent. */
  lemma CrashChanges(s: State, uid: string, restart: bool)
    requires uid in s.claims
    ensures AfterAct(s, uid, Crash(restart)) ==
            Put(s, uid, s.claims[uid].(pc := Idle, triggered := if !restart then s.claims[uid].triggered else ""))
  {
  }

  /** From the moment a sandbox is marked for deletion no claim may adopt it. */
  lemma MarkedIsSpared(s: State, name: string, claim: Claim)
    requires name in s.sandboxes
    ensures var sb := AfterEvent(s, MarkDeleting(name)).sandboxes[name];
            sb == s.sandboxes[name].(deleting := true) && !MayAdopt(sb, claim)
  {
  }

  // ---------------------------------------------------------------- what a pass comes to

  /** What the claim does next when every call succeeds; `candidate` is what the queue hands out. */
  function NextAct(c: ClaimState, candidate: Option<string>): Act {
    match c.pc
    case Idle => CheckStatus
    case AtAnnotation => CheckAnnotation(true, Patched)
    case AtName => CheckName
    case Adopting(_) => TryCandidate(candidate, true, Patched)
    case Creating => CreateCold(true)
    case Finishing(_) => Finish(true)
  }

  function Drive(s: State, uid: string, candidate: Option<string>, n: nat): State
    decreases n
  {
    if n == 0 || uid !in s.claims then s
    else Drive(AfterAct(s, uid, NextAct(s.claims[uid], candidate)), uid, candidate, n - 1)
  }

  /** After n actions the pass is over and status names a sandbox the claim controls. */
  ghost predicate Binds(s: State, uid: string, candidate: Option<string>, n: nat, name: string) {
    var t := Drive(s, uid, candidate, n);
    uid in t.claims && t.claims[uid].pc.Idle? && t.claims[uid].status == name && Controls(t.sandboxes, uid, name)
  }

  lemma BindsAfter(s: State, t: State, uid: string, candidate: Option<string>, n: nat, name: string)
    requires uid in s.claims && t == AfterAct(s, uid, NextAct(s.claims[uid], candidate))
               && Binds(t, uid, candidate, n, name)
    ensures Binds(s, uid, candidate, n + 1, name)
  {
  }

  lemma FinishingBinds(s: State, uid: string, candidate: Option<string>, name: string)
    requires uid in s.claims && s.claims[uid].pc == Finishing(name) && Controls(s.sandboxes, uid, name)
    ensures Binds(s, uid, candidate, 1, name)
  {
    var t := AfterAct(s, uid, Finish(true));
    assert Drive(t, uid, candidate, 0) == t;
    BindsAfter(s, t, uid, candidate, 0, name);
  }

  lemma CreatingBinds(s: State, uid: string, candidate: Option<string>)
    requires uid in s.claims && s.claims[uid].claim.uid == uid && s.claims[uid].pc.Creating?
    requires s.claims[uid].claim.name !in s.sandboxes
    ensures Binds(s, uid, candidate, 2, s.claims[uid].claim.name)
  {
    var t := AfterAct(s, uid, CreateCold(true));
    ColdIsTheClaims(s.claims[uid].claim);
    FinishingBinds(t, uid, candidate, s.claims[uid].claim.name);
    BindsAfter(s, t, uid, candidate, 1, s.claims[uid].claim.name);
  }

  /** The queue's candidate, if it has one, may be adopted by the claim. */
  ghost predicate Offered(s: State, uid: string, candidate: Option<string>)
    requires uid in s.claims
  {
    candidate.Some? ==> candidate.value in s.sandboxes && MayAdopt(s.sandboxes[candidate.value], s.claims[uid].claim)
  }

  lemma AdoptingBinds(s: State, uid: string, candidate: Option<string>)
    requires uid in s.claims && s.claims[uid].claim.uid == uid && s.claims[uid].pc.Adopting?
               && s.claims[uid].pc.left > 0
    requires s.claims[uid].claim.name !in s.sandboxes && Offered(s, uid, candidate)
    ensures Binds(s, uid, candidate, if candidate.Some? then 2 else 3,
                  if candidate.Some? then candidate.value else s.claims[uid].claim.name)
  {
    var t := AfterAct(s, uid, TryCandidate(candidate, true, Patched));
    if candidate.Some? {
      VerifyExactly(s.sandboxes[candidate.value], s.claims[uid].claim);
      AdoptionIsFinal(s.sandboxes[candidate.value], s.claims[uid].claim, s.claims[uid].claim);
      FinishingBinds(t, uid, candidate, candidate.value);
      BindsAfter(s, t, uid, candidate, 1, candidate.value);
    } else {
      CreatingBinds(t, uid, candidate);
      BindsAfter(s, t, uid, candidate, 2, s.claims[uid].claim.name);
    }
  }

  lemma NameBinds(s: State, uid: string, candidate: Option<string>) returns (n: nat)
    requires uid in s.claims && s.claims[uid].claim.uid == uid && s.claims[uid].pc.AtName? && Offered(s, uid, candidate)
    requires s.claims[uid].claim.name in s.sandboxes ==> Controls(s.sandboxes, uid, s.claims[uid].claim.name)
    ensures n <= 4
    ensures var c := s.claims[uid];
            Binds(s, uid, candidate, n, if c.claim.name !in s.sandboxes && !c.cold && candidate.Some?
                  then candidate.value
                                        else c.claim.name)
  {
    var c := s.claims[uid];
    var t := AfterAct(s, uid, CheckName);
    if c.claim.name in s.sandboxes {
      FinishingBinds(t, uid, candidate, c.claim.name);
      n := 2;
      BindsAfter(s, t, uid, candidate, 1, c.claim.name);
    } else if c.cold {
      CreatingBinds(t, uid, candidate);
      n := 3;
      BindsAfter(s, t, uid, candidate, 2, c.claim.name);
    } else {
      AdoptingBinds(t, uid, candidate);
      n := if candidate.Some? then 3 else 4;
      BindsAfter(s, t, uid, candidate, n - 1, if candidate.Some? then candidate.value else c.claim.name);
    }
  }

  /** The sandbox a pass comes to: the one its status names, else the recorded one if it is the claim's
      or may be adopted, else the one of its own name, else the queue's unless the claim is cold, else a
      new one. */
  ghost function Choice(s: State, uid: string, candidate: Option<string>): string
    requires uid in s.claims
  {
    var c := s.claims[uid];
    if c.status != "" && Controls(s.sandboxes, uid, c.status) then c.status
    else if c.annotation != "" && Controls(s.sandboxes, uid, c.annotation) then c.annotation
    else if c.annotation in s.sandboxes && MayAdopt(s.sandboxes[c.annotation], c.claim) then c.annotation
    else if c.claim.name !in s.sandboxes && !c.cold && candidate.Some? then candidate.value
    else c.claim.name
  }

  /** Nothing recorded is the claim's or may be adopted, and its own name is another's. */
  ghost predicate Blocked(s: State, uid: string)
    requires uid in s.claims
  {
    var c := s.claims[uid];
    && !Controls(s.sandboxes, uid, c.status) && !Controls(s.sandboxes, uid, c.annotation)
    && !(c.annotation in s.sandboxes && MayAdopt(s.sandboxes[c.annotation], c.claim))
    && c.claim.name in s.sandboxes && !Controls(s.sandboxes, uid, c.claim.name)
  }

  lemma AnnotationBinds(s: State, uid: string, candidate: Option<string>) returns (n: nat)
    requires uid in s.claims && s.claims[uid].claim.uid == uid && s.claims[uid].pc.AtAnnotation?
    requires "" !in s.sandboxes && Offered(s, uid, candidate) && !Recovering(s, uid)
    requires !(s.claims[uid].status != "" && Controls(s.sandboxes, uid, s.claims[uid].status))
    requires !Blocked(s, uid)
    ensures n <= 5 && Binds(s, uid, candidate, n, Choice(s, uid, candidate))
  {
    var c := s.claims[uid];
    var t := AfterAct(s, uid, CheckAnnotation(true, Patched));
    AnnotationEdits(s, uid, true, Patched);
    if c.annotation in s.sandboxes { VerifyExactly(s.sandboxes[c.annotation], c.claim); }
    if Controls(s.sandboxes, uid, c.annotation) {
      FinishingBinds(t, uid, candidate, c.annotation);
      n := 2;
      BindsAfter(s, t, uid, candidate, 1, c.annotation);
    } else {
      n := NameBinds(t, uid, candidate);
      BindsAfter(s, t, uid, candidate, n, Choice(s, uid, candidate));
      n := n + 1;
    }
  }

  /** Recovery gives the claim no other sandbox than the recorded one. */
  lemma OnlyTheRecordedIsGained(s: State, uid: string, patch: Patch, name: string)
    requires Recovering(s, uid) && s.claims[uid].claim.uid == uid
    requires Controls(AfterRecovery(s, uid, patch).sandboxes, uid, name) && !Controls(s.sandboxes, uid, name)
    ensures name == s.claims[uid].annotation
  {
  }

  lemma RecoveryBinds(s: State, uid: string, candidate: Option<string>) returns (n: nat)
    requires uid in s.claims && s.claims[uid].claim.uid == uid && s.claims[uid].pc.AtAnnotation? && Recovering(s, uid)
    requires s.claims[uid].triggered != s.claims[uid].annotation
    requires !Controls(s.sandboxes, uid, s.claims[uid].status)
    ensures n <= 4 && Binds(s, uid, candidate, n, s.claims[uid].annotation)
  {
    var c := s.claims[uid];
    var name := c.annotation;
    AnnotationEdits(s, uid, true, Patched);
    AdoptionIsFinal(s.sandboxes[name], c.claim, c.claim);
    var s1 := AfterAct(s, uid, CheckAnnotation(true, Patched));
    assert Controls(s1.sandboxes, uid, name) && s1.claims[uid].pc.Idle?;
    var s2 := AfterAct(s1, uid, CheckStatus);
    if c.status != "" && Controls(s1.sandboxes, uid, c.status) {
      OnlyTheRecordedIsGained(s, uid, Patched, c.status);
      FinishingBinds(s2, uid, candidate, name);
      BindsAfter(s1, s2, uid, candidate, 1, name);
      n := 3;
    } else {
      var s3 := AfterAct(s2, uid, CheckAnnotation(true, Patched));
      FinishingBinds(s3, uid, candidate, name);
      BindsAfter(s2, s3, uid, candidate, 1, name);
      BindsAfter(s1, s2, uid, candidate, 2, name);
      n := 4;
    }
    BindsAfter(s, s1, uid, candidate, n - 1, name);
  }

  // ------------------------------------------------ from every reachable state

  lemma SpentStays(s: State, s': State, uid: string)
    requires uid in s.claims && uid in s'.claims && s'.claims[uid].triggered == s.claims[uid].triggered
    requires TriggerSpent(s, uid) && NothingGained(s, s', uid)
    ensures TriggerSpent(s', uid)
  {
  }

  lemma EventSpendsTrigger(s: State, event: Event, uid: string)
    requires Typed(s) && uid in AfterEvent(s, event).claims && (uid in s.claims ==> TriggerSpent(s, uid))
    ensures TriggerSpent(AfterEvent(s, event), uid)
  {
    if uid in s.claims {
      EventGainsNothing(s, event, uid);
      EventEditsClaim(s, event, uid);
      SpentStays(s, AfterEvent(s, event), uid);
    }
  }

  lemma PassSpendsTrigger(s: State, uid: string, act: Act, other: string)
    requires Typed(s) && uid in s.claims && other in s.claims && TriggerSpent(s, other)
    ensures other in AfterAct(s, uid, act).claims && TriggerSpent(AfterAct(s, uid, act), other)
  {
    ActLeavesOthers(s, uid, act);
    if other == uid {
      ActSpendsTrigger(s, uid, act);
    } else {
      ActGainsNothing(s, uid, act, other);
      SpentStays(s, AfterAct(s, uid, act), other);
    }
  }

  /** In no run does a claim wait for a patch that could still be sent. */
  lemma {:induction false} TriggersAreSpent(steps: seq<Step>, uid: string)
    requires uid in Run(steps).claims
    ensures TriggerSpent(Run(steps), uid)
  {
    if steps != [] {
      var n := |steps| - 1;
      var s := Run(steps[..n]);
      RunIsTyped(INITIAL, steps[..n]);
      if uid in s.claims { TriggersAreSpent(steps[..n], uid); }
      match steps[n]
      case Cluster(event) => EventSpendsTrigger(s, event, uid);
      case Pass(actor, act) =>
        if actor in s.claims {
          ActLeavesOthers(s, actor, act);
          PassSpendsTrigger(s, actor, act, uid);
        }
    }
  }

  /** The sandbox a pass comes to does not depend on where the pass stands. */
  lemma ChoiceStays(s: State, uid: string, candidate: Option<string>, pc: Pc)
    requires uid in s.claims
    ensures Choice(At(s, uid, pc), uid, candidate) == Choice(s, uid, candidate)
    ensures Recovering(At(s, uid, pc), uid) == Recovering(s, uid)
  {
  }

  lemma ChoiceWhenRecovering(s: State, uid: string, candidate: Option<string>)
    requires Recovering(s, uid) && !Controls(s.sandboxes, uid, s.claims[uid].status)
    ensures Choice(s, uid, candidate) == s.claims[uid].annotation
    ensures TriggerSpent(s, uid) ==> s.claims[uid].triggered != s.claims[uid].annotation
  {
    VerifyExactly(s.sandboxes[s.claims[uid].annotation], s.claims[uid].claim);
  }

  lemma IdleBinds(s: State, uid: string, candidate: Option<string>) returns (n: nat)
    requires uid in s.claims && s.claims[uid].claim.uid == uid && s.claims[uid].pc.Idle?
    requires "" !in s.sandboxes && TriggerSpent(s, uid)
    requires Offered(s, uid, candidate) && !Blocked(s, uid)
    ensures n <= 6 && Binds(s, uid, candidate, n, Choice(s, uid, candidate))
  {
    var t := AfterAct(s, uid, CheckStatus);
    if Controls(s.sandboxes, uid, s.claims[uid].status) {
      FinishingBinds(t, uid, candidate, s.claims[uid].status);
      n := 1;
    } else {
      ChoiceStays(s, uid, candidate, AtAnnotation);
      if Recovering(s, uid) {
        ChoiceWhenRecovering(s, uid, candidate);
        n := RecoveryBinds(t, uid, candidate);
      } else {
        n := AnnotationBinds(t, uid, candidate);
      }
    }
    BindsAfter(s, t, uid, candidate, n, Choice(s, uid, candidate));
    n := n + 1;
  }

  /** In every reachable state a claim at rest comes, within six actions that succeed, to a sandbox it
      controls and its status names, and to the one it should. */
  lemma PassBinds(steps: seq<Step>, uid: string, candidate: Option<string>) returns (n: nat)
    requires uid in Run(steps).claims && Run(steps).claims[uid].pc.Idle?
    requires Offered(Run(steps), uid, candidate) && !Blocked(Run(steps), uid)
    ensures n <= 6 && Binds(Run(steps), uid, candidate, n, Choice(Run(steps), uid, candidate))
  {
    RunIsTyped(INITIAL, steps);
    NoEmptyName(Run(steps));
    TriggersAreSpent(steps, uid);
    n := IdleBinds(Run(steps), uid, candidate);
  }

  lemma BlockedStays(s: State, uid: string, candidate: Option<string>)
    requires uid in s.claims && "" !in s.sandboxes && Blocked(s, uid)
    requires s.claims[uid].pc.Idle? || s.claims[uid].pc.AtAnnotation? || s.claims[uid].pc.AtName?
    ensures var t := AfterAct(s, uid, NextAct(s.claims[uid], candidate));
            && uid in t.claims && t.sandboxes == s.sandboxes && Blocked(t, uid)
            && (t.claims[uid].pc.Idle? || t.claims[uid].pc.AtAnnotation? || t.claims[uid].pc.AtName?)
  {
    var c := s.claims[uid];
    if c.annotation in s.sandboxes { VerifyExactly(s.sandboxes[c.annotation], c.claim); }
  }

  /** A blocked claim never gets a sandbox, however often its pass is made, until the cluster changes. */
  lemma {:induction false} BlockedNeverBinds(s: State, uid: string, candidate: Option<string>, n: nat, name: string)
    requires uid in s.claims && "" !in s.sandboxes && Blocked(s, uid)
    requires s.claims[uid].pc.Idle? || s.claims[uid].pc.AtAnnotation? || s.claims[uid].pc.AtName?
    ensures !Binds(s, uid, candidate, n, name)
    decreases n
  {
    if n > 0 {
      BlockedStays(s, uid, candidate);
      BlockedNeverBinds(AfterAct(s, uid, NextAct(s.claims[uid], candidate)), uid, candidate, n - 1, name);
    }
  }

  /** In every reachable state, exactly the claims that are not blocked come to a sandbox. */
  lemma BindsExactly(steps: seq<Step>, uid: string, candidate: Option<string>)
    requires uid in Run(steps).claims && Run(steps).claims[uid].pc.Idle? && Offered(Run(steps), uid, candidate)
    ensures (exists n, name :: Binds(Run(steps), uid, candidate, n, name)) <==> !Blocked(Run(steps), uid)
  {
    if Blocked(Run(steps), uid) {
      RunIsTyped(INITIAL, steps);
      NoEmptyName(Run(steps));
      forall n, name ensures !Binds(Run(steps), uid, candidate, n, name) {
        BlockedNeverBinds(Run(steps), uid, candidate, n, name);
      }
    } else {
      var n := PassBinds(steps, uid, candidate);
    }
  }
}
