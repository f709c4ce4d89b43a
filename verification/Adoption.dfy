/** How claims come to control sandboxes, in one namespace: the recorded name in status, the
    recorded annotation with its recovery, the lookup by name, the warm-pool queue and the cold
    create, with every write allowed to fail and every claim's pass interleaved with the others.

    Reads are current, and reading a candidate, verifying it, recording it on the claim and
    patching it is one step. A candidate may be any sandbox that verifies, so every order in
    which the queue can hand keys out is covered. */
module Adoption {
  import opened Text
  import opened WarmSandbox

  const NAMESPACE := "ns"

  /** Where a claim's reconcile pass stands. */
  datatype Pc =
    | Idle
    | AtAnnotation            // nothing usable in status
    | AtName                  // nothing usable in the annotation
    | Adopting(left: nat)     // no sandbox of its own; left attempts at the queue
    | Creating                // fell through to the cold path
    | Finishing(name: string) // found or made its sandbox; status write to come

  datatype ClaimState = ClaimState(
    claim: Claim,
    annotation: string,       // the assigned sandbox, "" when absent
    status: string,           // status.sandbox.name
    cold: bool,               // env or volume claim templates bypass the queue
    triggered: string,        // the sandbox the adoption patch was last sent to, "" when none
    pc: Pc)

  datatype State = State(
    sandboxes: map<string, Sandbox>,
    claims: map<string, ClaimState>,   // by claim UID
    names: set<string>,                // every sandbox name ever used
    claimUids: set<string>,
    poolUids: set<string>)

  const INITIAL := State(map[], map[], {}, {}, {})

  /** How an adoption patch ends; Vanished is the not-found answer: someone deleted the sandbox. */
  datatype Patch = Patched | Conflict | Failed | Vanished

  /** What the rest of the cluster may do at any time. */
  datatype Event =
    | PoolCreate(name: string, pool: string, poolUid: string)
    | MarkDeleting(name: string)
    | Delete(name: string)
    | SetReady(name: string, ready: bool)
    | ClaimCreate(uid: string, claimName: string, pool: string, cold: bool)
    | ClaimDelete(uid: string)
    | Retarget(uid: string, pool: string)

  /** What a claim's own pass does next, with the outcomes of its writes. */
  datatype Act =
    | Crash(restart: bool)    // a restart also forgets the triggered adoptions
    | CheckStatus
    | CheckAnnotation(written: bool, patch: Patch)
    | CheckName
    | TryCandidate(candidate: Option<string>, recorded: bool, patch: Patch)
    | CreateCold(ok: bool)
    | Finish(ok: bool)

  datatype Step = Cluster(event: Event) | Pass(uid: string, act: Act)

  function PoolSandbox(name: string, pool: string, poolUid: string): Sandbox {
    Sandbox(NAMESPACE, name, map[POOL_LABEL := "h", TEMPLATE_REF_HASH_LABEL := "h"],
            [OwnerRef(EXTENSIONS_VERSION, POOL_KIND, pool, poolUid, true)], false, false)
  }

  function ColdSandbox(c: Claim): Sandbox {
    Sandbox(NAMESPACE, c.name, map[TEMPLATE_REF_HASH_LABEL := "h", CLAIM_UID_LABEL := c.uid],
            [OwnerRef(EXTENSIONS_VERSION, CLAIM_KIND, c.name, c.uid, true)], false, false)
  }

  predicate Controls(sbs: map<string, Sandbox>, uid: string, name: string) {
    name in sbs && ControlledBy(sbs[name], uid)
  }

  function At(s: State, uid: string, pc: Pc): State
    requires uid in s.claims
  {
    s.(claims := s.claims[uid := s.claims[uid].(pc := pc)])
  }

  function Put(s: State, uid: string, c: ClaimState): State {
    s.(claims := s.claims[uid := c])
  }

  function Annotate(s: State, uid: string, name: string, pc: Pc): State
    requires uid in s.claims
  {
    s.(claims := s.claims[uid := s.claims[uid].(annotation := name, pc := pc)])
  }

  function Adopt(s: State, uid: string, name: string): State
    requires uid in s.claims && name in s.sandboxes
  {
    s.(sandboxes := s.sandboxes[name := AdoptedBy(s.sandboxes[name], s.claims[uid].claim)])
  }

  function Remove(s: State, name: string): State {
    s.(sandboxes := s.sandboxes - {name})
  }

  function Created(s: State, uid: string): State
    requires uid in s.claims
  {
    var c := s.claims[uid].claim;
    s.(sandboxes := s.sandboxes[c.name := ColdSandbox(c)], names := s.names + {c.name})
  }

  /** The recorded sandbox is adopted now, unless the patch was sent before and is yet to show. */
  function AfterRecovery(s: State, uid: string, patch: Patch): State
    requires uid in s.claims && s.claims[uid].annotation in s.sandboxes
  {
    var c := s.claims[uid];
    if c.triggered == c.annotation then At(s, uid, Idle)
    else match patch
      case Patched => Put(Adopt(s, uid, c.annotation), uid, c.(triggered := c.annotation, pc := Idle))   // requeued
      case Conflict => At(s, uid, AtName)
      case Vanished => At(Remove(s, c.annotation), uid, AtName)
      case Failed => At(s, uid, Idle)
  }

  predicate Recovering(s: State, uid: string) {
    && uid in s.claims && s.claims[uid].annotation in s.sandboxes && s.claims[uid].annotation != ""
    && !ControlledBy(s.sandboxes[s.claims[uid].annotation], uid)
    && Verify(s.sandboxes[s.claims[uid].annotation], s.claims[uid].claim) == Adoptable
  }

  /** getOrCreateSandbox from the annotation on, up to the lookup by name. */
  function AfterAnnotation(s: State, uid: string, written: bool, patch: Patch): State
    requires uid in s.claims
  {
    var c := s.claims[uid];
    if c.annotation == "" then At(s, uid, AtName)
    else if c.annotation !in s.sandboxes then
      if written then Annotate(s, uid, "", AtName) else At(s, uid, Idle)
    else
      var sb := s.sandboxes[c.annotation];
      if ControlledBy(sb, uid) then Put(s, uid, c.(triggered := "", pc := Finishing(c.annotation)))
      else if !PoolControlled(sb) then At(s, uid, AtName)
      else if Verify(sb, c.claim) != Adoptable then
        if written then Annotate(s, uid, "", AtName) else At(s, uid, Idle)
      else AfterRecovery(s, uid, patch)
  }

  /** One attempt of adoptSandboxFromCandidates. */
  function AfterAttempt(s: State, uid: string, candidate: Option<string>, recorded: bool, patch: Patch): State
    requires uid in s.claims && s.claims[uid].pc.Adopting?
  {
    var left := s.claims[uid].pc.left;
    match candidate
    case None => At(s, uid, Creating)
    case Some(name) =>
      if left == 0 then At(s, uid, Creating)
      else if name !in s.sandboxes || Verify(s.sandboxes[name], s.claims[uid].claim) != Adoptable then s
      else if !recorded then At(s, uid, Idle)
      else match patch
        case Patched => Put(Adopt(s, uid, name), uid,
                            s.claims[uid].(annotation := name, triggered := name, pc := Finishing(name)))
        case Conflict => Annotate(s, uid, name, Adopting(left - 1))
        case Vanished => Annotate(Remove(s, name), uid, name, Adopting(left - 1))
        case Failed => Annotate(s, uid, name, Idle)
  }

  /** An event that cannot happen leaves the state alone. */
  function AfterEvent(s: State, event: Event): State {
    match event
    case PoolCreate(name, pool, poolUid) =>
      if name == "" || pool == "" || name in s.names || poolUid in s.claimUids then s
      else s.(sandboxes := s.sandboxes[name := PoolSandbox(name, pool, poolUid)],
              names := s.names + {name}, poolUids := s.poolUids + {poolUid})
    case MarkDeleting(name) =>
      if name in s.sandboxes then s.(sandboxes := s.sandboxes[name := s.sandboxes[name].(deleting := true)]) else s
    case Delete(name) => Remove(s, name)
    case SetReady(name, ready) =>
      if name in s.sandboxes then s.(sandboxes := s.sandboxes[name := s.sandboxes[name].(ready := ready)]) else s
    case ClaimCreate(uid, claimName, pool, cold) =>
      if uid in s.claimUids || uid in s.poolUids || claimName == "" then s
      else s.(claims := s.claims[uid := ClaimState(Claim(NAMESPACE, claimName, uid, pool), "", "", cold, "", Idle)],
              claimUids := s.claimUids + {uid})
    case ClaimDelete(uid) => s.(claims := s.claims - {uid})
    case Retarget(uid, pool) =>
      if uid in s.claims
      then s.(claims := s.claims[uid := s.claims[uid].(claim := s.claims[uid].claim.(warmPool := pool))]) else s
  }

  /** The claim's pass takes its next action; an action out of turn does nothing. */
  function AfterAct(s: State, uid: string, act: Act): State
    requires uid in s.claims
  {
    var c := s.claims[uid];
    match act
    case Crash(restart) => Put(s, uid, c.(triggered := if restart then "" else c.triggered, pc := Idle))
    case CheckStatus =>
      if !c.pc.Idle? then s
      else if c.status != "" && Controls(s.sandboxes, uid, c.status) then
        Put(s, uid, c.(triggered := "", pc := Finishing(c.status)))
      else At(s, uid, AtAnnotation)
    case CheckAnnotation(written, patch) =>
      if c.pc.AtAnnotation? then AfterAnnotation(s, uid, written, patch) else s
    case CheckName =>
      if !c.pc.AtName? then s
      else if c.claim.name !in s.sandboxes then At(s, uid, if c.cold then Creating else Adopting(3))
      else if Controls(s.sandboxes, uid, c.claim.name) then At(s, uid, Finishing(c.claim.name))
      else At(s, uid, Idle)
    case TryCandidate(candidate, recorded, patch) =>
      if c.pc.Adopting? then AfterAttempt(s, uid, candidate, recorded, patch) else s
    case CreateCold(ok) =>
      if !c.pc.Creating? then s
      else if !ok || c.claim.name in s.sandboxes then At(s, uid, Idle)
      else At(Created(s, uid), uid, Finishing(c.claim.name))
    case Finish(ok) =>
      if !c.pc.Finishing? then s
      else if ok then s.(claims := s.claims[uid := c.(status := c.pc.name, pc := Idle)])
      else At(s, uid, Idle)
  }

  function Next(s: State, step: Step): State {
    match step
    case Cluster(event) => AfterEvent(s, event)
    case Pass(uid, act) => if uid in s.claims then AfterAct(s, uid, act) else s
  }

  function RunFrom(s: State, steps: seq<Step>): State {
    if steps == [] then s else Next(RunFrom(s, steps[..|steps| - 1]), steps[|steps| - 1])
  }

  function Run(steps: seq<Step>): State {
    RunFrom(INITIAL, steps)
  }

  // ---------------------------------------------------------------- a sandbox has one claim

  /** Every sandbox has a single owner, a warm pool or a claim, and the two kinds share no UID. */
  ghost predicate WellOwned(s: State, name: string)
    requires name in s.sandboxes
  {
    var sb := s.sandboxes[name];
    && name != "" && name in s.names && sb.name == name && sb.namespace == NAMESPACE
    && |sb.owners| == 1 && sb.owners[0].controller
    && (sb.owners[0].kind == POOL_KIND ==>
          sb.owners[0].uid in s.poolUids && sb.owners[0].name != "" && sb.owners[0].apiVersion == EXTENSIONS_VERSION &&
          POOL_LABEL in sb.labels && TEMPLATE_REF_HASH_LABEL in sb.labels)
    && (sb.owners[0].kind != POOL_KIND ==> sb.owners[0].uid in s.claimUids)
  }

  ghost predicate Typed(s: State) {
    && s.claimUids !! s.poolUids
    && (forall name :: name in s.sandboxes ==> WellOwned(s, name))
    && (forall uid :: uid in s.claims ==>
          uid in s.claimUids && s.claims[uid].claim.uid == uid &&
          s.claims[uid].claim.namespace == NAMESPACE && s.claims[uid].claim.name != "")
  }

  lemma KindsDiffer()
    ensures POOL_KIND != CLAIM_KIND
  {
    assert POOL_KIND[7] != CLAIM_KIND[7];
  }

  lemma AdoptKeepsTyped(s: State, uid: string, name: string)
    requires Typed(s) && uid in s.claims && name in s.sandboxes
    requires Verify(s.sandboxes[name], s.claims[uid].claim) == Adoptable
    ensures Typed(Adopt(s, uid, name))
    ensures !PoolControlled(Adopt(s, uid, name).sandboxes[name]) && Controls(Adopt(s, uid, name).sandboxes, uid, name)
  {
    KindsDiffer();
    AdoptionIsFinal(s.sandboxes[name], s.claims[uid].claim, s.claims[uid].claim);
  }

  lemma RemoveKeepsTyped(s: State, name: string)
    requires Typed(s)
    ensures Typed(Remove(s, name))
  {
    forall n | n in Remove(s, name).sandboxes ensures WellOwned(Remove(s, name), n) {
      assert WellOwned(s, n);
    }
  }

  /** Typed does not look at a claim's annotation, status or progress. */
  lemma EditKeepsTyped(s: State, uid: string, c: ClaimState)
    requires Typed(s) && uid in s.claims && c.claim == s.claims[uid].claim
    ensures Typed(s.(claims := s.claims[uid := c]))
  {
    var s' := s.(claims := s.claims[uid := c]);
    forall n | n in s'.sandboxes ensures WellOwned(s', n) {
      assert WellOwned(s, n);
    }
  }

  lemma AnnotationEdits(s: State, uid: string, written: bool, patch: Patch)
    requires uid in s.claims
    ensures var t := AfterAnnotation(s, uid, written, patch);
            if Recovering(s, uid) then t == AfterRecovery(s, uid, patch)
            else t == Put(s, uid, t.claims[uid]) && t.claims[uid].claim == s.claims[uid].claim
  {
  }

  lemma RecoveryKeepsTyped(s: State, uid: string, patch: Patch)
    requires Typed(s) && Recovering(s, uid)
    ensures Typed(AfterRecovery(s, uid, patch))
  {
    var name := s.claims[uid].annotation;
    var c' := AfterRecovery(s, uid, patch).claims[uid];
    if s.claims[uid].triggered == name || patch.Conflict? || patch.Failed? {
      EditKeepsTyped(s, uid, c');
    } else if patch.Vanished? {
      RemoveKeepsTyped(s, name);
      EditKeepsTyped(Remove(s, name), uid, c');
    } else {
      AdoptKeepsTyped(s, uid, name);
      EditKeepsTyped(Adopt(s, uid, name), uid, c');
    }
  }

  lemma AnnotationKeepsTyped(s: State, uid: string, written: bool, patch: Patch)
    requires Typed(s) && uid in s.claims
    ensures Typed(AfterAnnotation(s, uid, written, patch))
  {
    AnnotationEdits(s, uid, written, patch);
    if Recovering(s, uid) {
      RecoveryKeepsTyped(s, uid, patch);
    } else {
      EditKeepsTyped(s, uid, AfterAnnotation(s, uid, written, patch).claims[uid]);
    }
  }

  lemma AttemptKeepsTyped(s: State, uid: string, candidate: Option<string>, recorded: bool, patch: Patch)
    requires Typed(s) && uid in s.claims && s.claims[uid].pc.Adopting?
    ensures Typed(AfterAttempt(s, uid, candidate, recorded, patch))
  {
    var s' := AfterAttempt(s, uid, candidate, recorded, patch);
    EditKeepsTyped(s, uid, s'.claims[uid]);
    if candidate.Some? {
      var name := candidate.value;
      RemoveKeepsTyped(s, name);
      EditKeepsTyped(Remove(s, name), uid, s'.claims[uid]);
      if name in s.sandboxes && Verify(s.sandboxes[name], s.claims[uid].claim) == Adoptable {
        AdoptKeepsTyped(s, uid, name);
        EditKeepsTyped(Adopt(s, uid, name), uid, s'.claims[uid]);
      }
    }
  }

  /** Whatever is neither an adoption nor a create edits the claim's record at most. */
  lemma QuietActEdits(s: State, uid: string, act: Act)
    requires uid in s.claims && !act.CheckAnnotation? && !act.TryCandidate? && !act.CreateCold?
    ensures var t := AfterAct(s, uid, act);
            uid in t.claims && t.claims[uid].claim == s.claims[uid].claim && (t == s || t == Put(s, uid, t.claims[uid]))
  {
  }

  lemma QuietActKeepsTyped(s: State, uid: string, act: Act)
    requires Typed(s) && uid in s.claims && !act.CheckAnnotation? && !act.TryCandidate? && !act.CreateCold?
    ensures Typed(AfterAct(s, uid, act))
  {
    QuietActEdits(s, uid, act);
    EditKeepsTyped(s, uid, AfterAct(s, uid, act).claims[uid]);
  }

  lemma CreateKeepsTyped(s: State, uid: string, c: ClaimState)
    requires Typed(s) && uid in s.claims && c.claim == s.claims[uid].claim
    ensures Typed(Created(s, uid)) && Typed(Created(s, uid).(claims := s.claims[uid := c]))
  {
    KindsDiffer();
    var s' := Created(s, uid);
    forall n | n in s'.sandboxes ensures WellOwned(s', n) {
      if n in s.sandboxes { assert WellOwned(s, n); }
    }
    EditKeepsTyped(s', uid, c);
  }

  lemma ActKeepsTyped(s: State, uid: string, act: Act)
    requires Typed(s) && uid in s.claims
    ensures Typed(AfterAct(s, uid, act))
  {
    var c' := AfterAct(s, uid, act).claims[uid];
    if act.CheckAnnotation? {
      AnnotationKeepsTyped(s, uid, act.written, act.patch);
    } else if act.TryCandidate? {
      if s.claims[uid].pc.Adopting? { AttemptKeepsTyped(s, uid, act.candidate, act.recorded, act.patch); }
    } else if act.CreateCold? {
      EditKeepsTyped(s, uid, c');
      CreateKeepsTyped(s, uid, c');
    } else {
      QuietActKeepsTyped(s, uid, act);
    }
  }

  lemma PoolCreateKeepsTyped(s: State, name: string, pool: string, poolUid: string)
    requires Typed(s)
    ensures Typed(AfterEvent(s, PoolCreate(name, pool, poolUid)))
  {
    var s' := AfterEvent(s, PoolCreate(name, pool, poolUid));
    forall n | n in s'.sandboxes ensures WellOwned(s', n) {
      if n in s.sandboxes { assert WellOwned(s, n); }
    }
  }

  lemma TouchKeepsTyped(s: State, name: string, sb: Sandbox)
    requires Typed(s) && name in s.sandboxes
    requires sb.(deleting := s.sandboxes[name].deleting, ready := s.sandboxes[name].ready) == s.sandboxes[name]
    ensures Typed(s.(sandboxes := s.sandboxes[name := sb]))
  {
    var s' := s.(sandboxes := s.sandboxes[name := sb]);
    forall n | n in s'.sandboxes ensures WellOwned(s', n) { assert WellOwned(s, n); }
  }

  lemma ClaimEventKeepsTyped(s: State, event: Event)
    requires Typed(s) && (event.ClaimCreate? || event.ClaimDelete? || event.Retarget?)
    ensures Typed(AfterEvent(s, event))
  {
    var s' := AfterEvent(s, event);
    forall n | n in s'.sandboxes ensures WellOwned(s', n) { assert WellOwned(s, n); }
  }

  lemma EventKeepsTyped(s: State, event: Event)
    requires Typed(s)
    ensures Typed(AfterEvent(s, event))
  {
    KindsDiffer();
    if event.PoolCreate? {
      PoolCreateKeepsTyped(s, event.name, event.pool, event.poolUid);
    } else if event.Delete? {
      RemoveKeepsTyped(s, event.name);
    } else if event.MarkDeleting? {
      if event.name in s.sandboxes { TouchKeepsTyped(s, event.name, s.sandboxes[event.name].(deleting := true)); }
    } else if event.SetReady? {
      if event.name in s.sandboxes { TouchKeepsTyped(s, event.name, s.sandboxes[event.name].(ready := event.ready)); }
    } else {
      ClaimEventKeepsTyped(s, event);
    }
  }

  lemma NextKeepsTyped(s: State, step: Step)
    requires Typed(s)
    ensures Typed(Next(s, step))
  {
    if step.Cluster? {
      EventKeepsTyped(s, step.event);
    } else if step.uid in s.claims {
      ActKeepsTyped(s, step.uid, step.act);
    }
  }

  lemma {:induction false} RunIsTyped(s: State, steps: seq<Step>)
    requires Typed(s)
    ensures Typed(RunFrom(s, steps))
  {
    if steps != [] {
      RunIsTyped(s, steps[..|steps| - 1]);
      NextKeepsTyped(RunFrom(s, steps[..|steps| - 1]), steps[|steps| - 1]);
    }
  }

  /** No step takes a sandbox away from the claim that controls it, short of deleting it. */
  lemma ControlIsKept(s: State, step: Step, uid: string, name: string)
    requires Typed(s) && uid in s.claimUids && Controls(s.sandboxes, uid, name)
    ensures name in Next(s, step).sandboxes ==> Controls(Next(s, step).sandboxes, uid, name)
    ensures forall other :: other != uid ==> !Controls(Next(s, step).sandboxes, other, name)
  {
    KindsDiffer();
    assert WellOwned(s, name);
  }

  /** The claim controls the sandbox and no other claim does. */
  ghost predicate Owns(s: State, uid: string, name: string) {
    && uid in s.claimUids && Controls(s.sandboxes, uid, name)
    && forall other :: other != uid ==> !Controls(s.sandboxes, other, name)
  }

  lemma UidsStay(s: State, step: Step, uid: string)
    requires uid in s.claimUids
    ensures uid in Next(s, step).claimUids
  {
  }

  lemma OwnsOneStep(s: State, step: Step, uid: string, name: string)
    requires Typed(s) && Owns(s, uid, name) && name in Next(s, step).sandboxes
    ensures Owns(Next(s, step), uid, name)
  {
    ControlIsKept(s, step, uid, name);
    UidsStay(s, step, uid);
  }

  ghost predicate NeverDeleted(s: State, steps: seq<Step>, name: string) {
    forall k :: 0 <= k <= |steps| ==> name in RunFrom(s, steps[..k]).sandboxes
  }

  lemma NeverDeletedBefore(s: State, steps: seq<Step>, name: string)
    requires NeverDeleted(s, steps, name) && steps != []
    ensures NeverDeleted(s, steps[..|steps| - 1], name) && name in RunFrom(s, steps).sandboxes
  {
    var before := steps[..|steps| - 1];
    forall k | 0 <= k <= |before| ensures name in RunFrom(s, before[..k]).sandboxes {
      assert before[..k] == steps[..k];
    }
    assert steps[..|steps|] == steps;
  }

  lemma {:induction false} StaysOwned(s: State, steps: seq<Step>, uid: string, name: string) returns (final: State)
    requires Typed(s) && uid in s.claimUids && Controls(s.sandboxes, uid, name)
    requires NeverDeleted(s, steps, name)
    ensures final == RunFrom(s, steps) && Typed(final) && Owns(final, uid, name)
  {
    if steps == [] {
      assert WellOwned(s, name);
      final := s;
    } else {
      var n := |steps| - 1;
      NeverDeletedBefore(s, steps, name);
      var before := StaysOwned(s, steps[..n], uid, name);
      final := Next(before, steps[n]);
      OwnsOneStep(before, steps[n], uid, name);
      NextKeepsTyped(before, steps[n]);
    }
  }

  lemma {:induction false} RunConcat(s: State, a: seq<Step>, b: seq<Step>)
    ensures RunFrom(s, a + b) == RunFrom(RunFrom(s, a), b)
  {
    if b == [] {
      assert a + b == a;
    } else {
      var n := |b| - 1;
      RunConcat(s, a, b[..n]);
      assert (a + b)[..|a + b| - 1] == a + b[..n];
    }
  }

  /** In every run, from the moment a claim controls a sandbox until the sandbox is deleted, the
      claim controls it and no other claim does. */
  lemma OnceAdoptedForever(before: seq<Step>, after: seq<Step>, uid: string, name: string)
    requires uid in Run(before).claimUids && Controls(Run(before).sandboxes, uid, name)
    requires NeverDeleted(Run(before), after, name)
    ensures Owns(Run(before + after), uid, name)
  {
    RunIsTyped(INITIAL, before);
    var final := StaysOwned(Run(before), after, uid, name);
    RunConcat(INITIAL, before, after);
  }

  /** A step by which a claim comes to control a sandbox that is there already is a step of its own, and
      finds a sandbox it may adopt by its current pool. */
  ghost predicate AdoptsRightly(s: State, step: Step, uid: string, name: string) {
    Controls(Next(s, step).sandboxes, uid, name) && name in s.sandboxes && !Controls(s.sandboxes, uid, name) ==>
      && step.Pass? && step.uid == uid && uid in s.claims
      && MayAdopt(s.sandboxes[name], s.claims[uid].claim)
  }

  lemma EventAdoptsNothing(s: State, event: Event, uid: string, name: string)
    requires name in s.sandboxes && name in s.names
    ensures Controls(AfterEvent(s, event).sandboxes, uid, name) ==> Controls(s.sandboxes, uid, name)
  {
  }

  lemma RecoveryAdoptsRightly(s: State, uid: string, patch: Patch, other: string, name: string)
    requires Recovering(s, uid) && s.claims[uid].claim.uid == uid && name in s.sandboxes
    ensures Controls(AfterRecovery(s, uid, patch).sandboxes, other, name) ==>
              Controls(s.sandboxes, other, name) || (other == uid && MayAdopt(s.sandboxes[name], s.claims[uid].claim))
  {
    VerifyExactly(s.sandboxes[s.claims[uid].annotation], s.claims[uid].claim);
  }

  lemma AttemptAdoptsRightly(s: State, uid: string, candidate: Option<string>, recorded: bool, patch: Patch,
                             other: string, name: string)
    requires uid in s.claims && s.claims[uid].pc.Adopting? && s.claims[uid].claim.uid == uid && name in s.sandboxes
    ensures Controls(AfterAttempt(s, uid, candidate, recorded, patch).sandboxes, other, name) ==>
              Controls(s.sandboxes, other, name) || (other == uid && MayAdopt(s.sandboxes[name], s.claims[uid].claim))
  {
    VerifyExactly(s.sandboxes[name], s.claims[uid].claim);
  }

  lemma ActAdoptsRightly(s: State, uid: string, act: Act, other: string, name: string)
    requires Typed(s) && uid in s.claims && name in s.sandboxes
    ensures AdoptsRightly(s, Pass(uid, act), other, name)
  {
    if act.CheckAnnotation? {
      AnnotationEdits(s, uid, act.written, act.patch);
      if Recovering(s, uid) { RecoveryAdoptsRightly(s, uid, act.patch, other, name); }
    } else if act.TryCandidate? {
      if s.claims[uid].pc.Adopting? {
        AttemptAdoptsRightly(s, uid, act.candidate, act.recorded, act.patch, other, name);
      }
    } else if !act.CreateCold? {
      QuietActEdits(s, uid, act);
    }
  }

  /** So in every run every adoption, from the queue or by recovery, is of a sandbox that is not being
      deleted, is labelled as a pool's and is controlled by the claim's current pool. */
  lemma AdoptsOnlyItsPools(steps: seq<Step>, step: Step, uid: string, name: string)
    ensures AdoptsRightly(Run(steps), step, uid, name)
  {
    RunIsTyped(INITIAL, steps);
    var s := Run(steps);
    if name in s.sandboxes {
      assert WellOwned(s, name);
      match step
      case Cluster(event) => EventAdoptsNothing(s, event, uid, name);
      case Pass(actor, act) =>
        if actor in s.claims { ActAdoptsRightly(s, actor, act, uid, name); }
    }
  }

  // ---------------------------------------------------------------- a claim has one sandbox

  /** The sandboxes a claim controls. */
  function Held(sbs: map<string, Sandbox>, uid: string): set<string> {
    set n | n in sbs && ControlledBy(sbs[n], uid)
  }

  /** The recovery path would adopt this sandbox for a claim of its pool. */
  predicate Recoverable(sbs: map<string, Sandbox>, name: string) {
    name in sbs && IsAdoptable(sbs[name])
  }

  ghost predicate OneAtMost(held: set<string>) {
    forall m, n :: m in held && n in held ==> m == n
  }

  /** What a claim's record and progress say about the sandboxes it controls. */
  ghost predicate Settled(c: ClaimState, held: set<string>, recoverable: bool, names: set<string>) {
    && OneAtMost(held)
    && (c.annotation == "" || c.annotation in names)
    && held <= {c.annotation, c.claim.name}
    && (c.claim.name in held && c.annotation != c.claim.name && c.status != c.claim.name ==> !recoverable)
    && (c.pc.AtAnnotation? ==> c.status !in held)
    && (c.pc.Finishing? ==> held <= {c.pc.name})
    && (c.pc.AtName? ==> held <= {c.claim.name})
    && (c.pc.Adopting? || c.pc.Creating? ==> held == {})
  }

  ghost predicate ClaimSettled(s: State, uid: string)
    requires uid in s.claims
  {
    var c := s.claims[uid];
    Settled(c, Held(s.sandboxes, uid), Recoverable(s.sandboxes, c.annotation), s.names)
  }

  /** A sandbox the patch was sent to cannot be recovered any more, so that check never decides. */
  ghost predicate TriggerSpent(s: State, uid: string)
    requires uid in s.claims
  {
    var name := s.claims[uid].triggered;
    name == "" || (name in s.names && !Recoverable(s.sandboxes, name))
  }

  ghost predicate Inv(s: State) {
    && Typed(s)
    && (forall uid :: uid in s.claims ==> TriggerSpent(s, uid))
    && (forall uid :: uid in s.claimUids ==> OneAtMost(Held(s.sandboxes, uid)))
    && (forall uid :: uid in s.claims ==> ClaimSettled(s, uid))
  }

  /** The create about to be issued would leave the claim with a cold sandbox that its status
      does not name while the sandbox recorded in its annotation can still be recovered. */
  ghost predicate CreateIsExposed(s: State, uid: string) {
    && uid in s.claims && s.claims[uid].pc.Creating? && s.claims[uid].claim.name !in s.sandboxes
    && Recoverable(s.sandboxes, s.claims[uid].annotation) && s.claims[uid].status != s.claims[uid].claim.name
  }

  ghost predicate Clean(s: State, step: Step) {
    step.Pass? && step.act == CreateCold(true) ==> !CreateIsExposed(s, step.uid)
  }

  // The four things a step can do to the sandboxes, seen through Held and Recoverable.

  lemma HeldAfterRemove(s: State, name: string, uid: string)
    ensures Held(Remove(s, name).sandboxes, uid) == Held(s.sandboxes, uid) - {name}
  {
  }

  lemma HeldAfterAdopt(s: State, uid: string, name: string, other: string)
    requires uid in s.claims && s.claims[uid].claim.uid == uid && name in s.sandboxes
    requires Verify(s.sandboxes[name], s.claims[uid].claim) == Adoptable
    ensures !Recoverable(Adopt(s, uid, name).sandboxes, name)
    ensures Held(Adopt(s, uid, name).sandboxes, other) ==
            if other == uid then Held(s.sandboxes, other) + {name} else Held(s.sandboxes, other) - {name}
  {
    AdoptionIsFinal(s.sandboxes[name], s.claims[uid].claim, s.claims[uid].claim.(uid := other));
  }

  lemma HeldAfterCreate(s: State, uid: string, other: string)
    requires uid in s.claims && s.claims[uid].claim.uid == uid && s.claims[uid].claim.name !in s.sandboxes
    ensures !Recoverable(Created(s, uid).sandboxes, s.claims[uid].claim.name)
    ensures Held(Created(s, uid).sandboxes, other) ==
            Held(s.sandboxes, other) + if other == uid then {s.claims[uid].claim.name} else {}
  {
    KindsDiffer();
  }

  lemma AdoptableIsNotHeld(s: State, name: string, uid: string)
    requires Typed(s) && name in s.sandboxes && PoolControlled(s.sandboxes[name]) && uid in s.claimUids
    ensures name !in Held(s.sandboxes, uid)
  {
    assert WellOwned(s, name);
  }

  // ------------------------------------------------ claims a step is not about

  /** What a step may do to a claim it is not about. */
  ghost predicate NothingGained(s: State, s': State, uid: string) {
    && Held(s'.sandboxes, uid) <= Held(s.sandboxes, uid)
    && (forall n :: n in s.names && Recoverable(s'.sandboxes, n) ==> Recoverable(s.sandboxes, n))
    && "" !in s'.sandboxes && s.names <= s'.names
  }

  lemma NoEmptyName(s: State)
    requires Typed(s)
    ensures "" !in s.sandboxes
  {
  }

  lemma BystanderKeeps(s: State, s': State, uid: string)
    requires uid in s.claims && uid in s'.claims && ClaimSettled(s, uid) && NothingGained(s, s', uid)
    requires s'.claims[uid].(claim := s.claims[uid].claim) == s.claims[uid]
    requires s'.claims[uid].claim.name == s.claims[uid].claim.name
    ensures ClaimSettled(s', uid)
    ensures TriggerSpent(s, uid) ==> TriggerSpent(s', uid)
  {
  }

  lemma PoolCreateGainsNothing(s: State, name: string, pool: string, poolUid: string, uid: string)
    requires Typed(s) && uid in s.claimUids
    ensures NothingGained(s, AfterEvent(s, PoolCreate(name, pool, poolUid)), uid)
  {
    NoEmptyName(s);
  }

  lemma TouchGainsNothing(s: State, event: Event, uid: string)
    requires Typed(s) && (event.MarkDeleting? || event.SetReady? || event.Delete?)
    ensures NothingGained(s, AfterEvent(s, event), uid)
  {
    NoEmptyName(s);
  }

  lemma EventGainsNothing(s: State, event: Event, uid: string)
    requires Typed(s) && uid in s.claimUids
    ensures NothingGained(s, AfterEvent(s, event), uid)
  {
    if event.PoolCreate? {
      PoolCreateGainsNothing(s, event.name, event.pool, event.poolUid, uid);
    } else if event.MarkDeleting? || event.SetReady? || event.Delete? {
      TouchGainsNothing(s, event, uid);
    } else {
      NoEmptyName(s);
    }
  }

  lemma RecoveryGainsNothing(s: State, uid: string, patch: Patch, other: string)
    requires Typed(s) && Recovering(s, uid) && other != uid
    ensures NothingGained(s, AfterRecovery(s, uid, patch), other)
  {
    NoEmptyName(s);
    HeldAfterRemove(s, s.claims[uid].annotation, other);
    HeldAfterAdopt(s, uid, s.claims[uid].annotation, other);
  }

  lemma AnnotationGainsNothing(s: State, uid: string, written: bool, patch: Patch, other: string)
    requires Typed(s) && uid in s.claims && other != uid
    ensures NothingGained(s, AfterAnnotation(s, uid, written, patch), other)
  {
    AnnotationEdits(s, uid, written, patch);
    if Recovering(s, uid) {
      RecoveryGainsNothing(s, uid, patch, other);
    } else {
      NoEmptyName(s);
    }
  }

  lemma AttemptGainsNothing(s: State, uid: string, candidate: Option<string>, recorded: bool, patch: Patch,
                            other: string)
    requires Typed(s) && uid in s.claims && s.claims[uid].pc.Adopting? && other != uid
    ensures NothingGained(s, AfterAttempt(s, uid, candidate, recorded, patch), other)
  {
    AttemptKeepsTyped(s, uid, candidate, recorded, patch);
    NoEmptyName(AfterAttempt(s, uid, candidate, recorded, patch));
    if candidate.Some? {
      var name := candidate.value;
      HeldAfterRemove(s, name, other);
      if name in s.sandboxes && Verify(s.sandboxes[name], s.claims[uid].claim) == Adoptable {
        HeldAfterAdopt(s, uid, name, other);
      }
    }
  }

  lemma ColdIsNotRecoverable(c: Claim)
    ensures !IsAdoptable(ColdSandbox(c))
  {
    KindsDiffer();
  }

  lemma ActGainsNothing(s: State, uid: string, act: Act, other: string)
    requires Typed(s) && uid in s.claims && other != uid
    ensures NothingGained(s, AfterAct(s, uid, act), other)
  {
    NoEmptyName(s);
    if act.CheckAnnotation? {
      AnnotationGainsNothing(s, uid, act.written, act.patch, other);
    } else if act.TryCandidate? {
      if s.claims[uid].pc.Adopting? { AttemptGainsNothing(s, uid, act.candidate, act.recorded, act.patch, other); }
    } else if act.CreateCold? && s.claims[uid].claim.name !in s.sandboxes {
      HeldAfterCreate(s, uid, other);
      ColdIsNotRecoverable(s.claims[uid].claim);
    }
  }

  // ------------------------------------------------ the claim a step is about

  /** The only sandbox of a claim is the one it just adopted under its annotation. */
  lemma AdoptedSettles(c: ClaimState, c': ClaimState, held: set<string>, name: string, names: set<string>)
    requires held == {} && name in names && c'.annotation == name && c'.claim == c.claim
    requires c'.pc.Idle? || c'.pc == Finishing(name)
    ensures Settled(c', held + {name}, false, names)
  {
  }

  lemma NothingHeldSettles(c: ClaimState, recoverable: bool, names: set<string>)
    requires c.annotation == "" || c.annotation in names
    ensures Settled(c, {}, recoverable, names)
  {
  }

  lemma NothingHeldWhileRecovering(s: State, uid: string)
    requires Typed(s) && Recovering(s, uid) && s.claims[uid].pc.AtAnnotation? && ClaimSettled(s, uid)
    ensures s.claims[uid].annotation !in Held(s.sandboxes, uid) && s.claims[uid].annotation in s.names
    ensures Held(s.sandboxes, uid) == {}
  {
  }

  lemma RecoverySettles(s: State, uid: string, patch: Patch)
    requires Typed(s) && Recovering(s, uid) && s.claims[uid].pc.AtAnnotation? && ClaimSettled(s, uid)
    ensures ClaimSettled(AfterRecovery(s, uid, patch), uid)
  {
    var c, s' := s.claims[uid], AfterRecovery(s, uid, patch);
    NothingHeldWhileRecovering(s, uid);
    if patch.Patched? && c.triggered != c.annotation {
      HeldAfterAdopt(s, uid, c.annotation, uid);
      AdoptedSettles(c, s'.claims[uid], {}, c.annotation, s.names);
    } else {
      HeldAfterRemove(s, c.annotation, uid);
      NothingHeldSettles(s'.claims[uid], Recoverable(s'.sandboxes, c.annotation), s.names);
    }
  }

  lemma AnnotationSettles(s: State, uid: string, written: bool, patch: Patch)
    requires Typed(s) && uid in s.claims && s.claims[uid].pc.AtAnnotation? && ClaimSettled(s, uid)
    ensures ClaimSettled(AfterAnnotation(s, uid, written, patch), uid)
  {
    NoEmptyName(s);
    AnnotationEdits(s, uid, written, patch);
    if Recovering(s, uid) {
      RecoverySettles(s, uid, patch);
    } else {
      var name := s.claims[uid].annotation;
      assert Controls(s.sandboxes, uid, name) <==> name in Held(s.sandboxes, uid);
    }
  }

  lemma AttemptSettles(s: State, uid: string, candidate: Option<string>, recorded: bool, patch: Patch)
    requires Typed(s) && uid in s.claims && s.claims[uid].pc.Adopting? && ClaimSettled(s, uid)
    ensures ClaimSettled(AfterAttempt(s, uid, candidate, recorded, patch), uid)
  {
    var c, s' := s.claims[uid], AfterAttempt(s, uid, candidate, recorded, patch);
    if candidate.Some? && candidate.value in s.sandboxes {
      var name := candidate.value;
      assert WellOwned(s, name);
      if s'.claims[uid].pc.Finishing? {
        HeldAfterAdopt(s, uid, name, uid);
        AdoptedSettles(c, s'.claims[uid], {}, name, s.names);
      } else {
        HeldAfterRemove(s, name, uid);
        NothingHeldSettles(s'.claims[uid], Recoverable(s'.sandboxes, s'.claims[uid].annotation), s.names);
      }
    }
  }

  lemma LookupSettles(s: State, uid: string, act: Act)
    requires Typed(s) && uid in s.claims && ClaimSettled(s, uid) && (act.CheckStatus? || act.CheckName?)
    ensures ClaimSettled(AfterAct(s, uid, act), uid)
  {
    var c := s.claims[uid];
    NoEmptyName(s);
    if act.CheckStatus? {
      assert Controls(s.sandboxes, uid, c.status) <==> c.status in Held(s.sandboxes, uid);
    } else {
      assert Controls(s.sandboxes, uid, c.claim.name) <==> c.claim.name in Held(s.sandboxes, uid);
    }
  }

  lemma EndSettles(s: State, uid: string, act: Act)
    requires uid in s.claims && ClaimSettled(s, uid) && (act.Crash? || act.Finish?)
    ensures ClaimSettled(AfterAct(s, uid, act), uid)
  {
  }

  lemma ActSettles(s: State, uid: string, act: Act)
    requires Typed(s) && uid in s.claims && ClaimSettled(s, uid) && Clean(s, Pass(uid, act))
    ensures ClaimSettled(AfterAct(s, uid, act), uid)
  {
    if act.CheckAnnotation? {
      if s.claims[uid].pc.AtAnnotation? { AnnotationSettles(s, uid, act.written, act.patch); }
    } else if act.TryCandidate? {
      if s.claims[uid].pc.Adopting? { AttemptSettles(s, uid, act.candidate, act.recorded, act.patch); }
    } else if act.CreateCold? {
      if s.claims[uid].claim.name !in s.sandboxes { HeldAfterCreate(s, uid, uid); }
    } else if act.Crash? || act.Finish? {
      EndSettles(s, uid, act);
    } else {
      LookupSettles(s, uid, act);
    }
  }

  lemma AnnotationSpendsTrigger(s: State, uid: string, written: bool, patch: Patch)
    requires Typed(s) && uid in s.claims && TriggerSpent(s, uid)
    ensures TriggerSpent(AfterAnnotation(s, uid, written, patch), uid)
  {
    AnnotationEdits(s, uid, written, patch);
    if Recovering(s, uid) {
      assert WellOwned(s, s.claims[uid].annotation);
      RecoveryGainsNothing(s, uid, patch, uid + "'");
      HeldAfterAdopt(s, uid, s.claims[uid].annotation, uid);
    }
  }

  lemma AttemptSpendsTrigger(s: State, uid: string, candidate: Option<string>, recorded: bool, patch: Patch)
    requires Typed(s) && uid in s.claims && s.claims[uid].pc.Adopting? && TriggerSpent(s, uid)
    ensures TriggerSpent(AfterAttempt(s, uid, candidate, recorded, patch), uid)
  {
    AttemptGainsNothing(s, uid, candidate, recorded, patch, uid + "'");
    if candidate.Some? && candidate.value in s.sandboxes
       && Verify(s.sandboxes[candidate.value], s.claims[uid].claim) == Adoptable {
      assert WellOwned(s, candidate.value);
      HeldAfterAdopt(s, uid, candidate.value, uid);
    }
  }

  lemma ActSpendsTrigger(s: State, uid: string, act: Act)
    requires Typed(s) && uid in s.claims && TriggerSpent(s, uid)
    ensures TriggerSpent(AfterAct(s, uid, act), uid)
  {
    if act.CheckAnnotation? {
      AnnotationSpendsTrigger(s, uid, act.written, act.patch);
    } else if act.TryCandidate? {
      if s.claims[uid].pc.Adopting? { AttemptSpendsTrigger(s, uid, act.candidate, act.recorded, act.patch); }
    } else {
      ActGainsNothing(s, uid, act, uid + "'");
    }
  }

  lemma NewClaimIsSettled(s: State, event: Event, uid: string)
    requires Typed(s) && uid !in s.claimUids && uid in AfterEvent(s, event).claimUids
    ensures Held(AfterEvent(s, event).sandboxes, uid) == {}
    ensures uid in AfterEvent(s, event).claims ==>
              ClaimSettled(AfterEvent(s, event), uid) && TriggerSpent(AfterEvent(s, event), uid)
  {
    forall n | n in s.sandboxes ensures n !in Held(s.sandboxes, uid) { assert WellOwned(s, n); }
  }

  lemma NoClaimReturns(s: State, event: Event, uid: string)
    requires uid in s.claimUids && uid !in s.claims
    ensures uid !in AfterEvent(s, event).claims
  {
  }

  lemma EventEditsClaim(s: State, event: Event, uid: string)
    requires Typed(s) && uid in s.claims && uid in AfterEvent(s, event).claims
    ensures var c, c' := s.claims[uid], AfterEvent(s, event).claims[uid];
            c'.(claim := c.claim) == c && c'.claim.name == c.claim.name
  {
  }

  lemma EventKeepsClaim(s: State, event: Event, uid: string)
    requires Inv(s) && uid in AfterEvent(s, event).claimUids
    ensures OneAtMost(Held(AfterEvent(s, event).sandboxes, uid))
    ensures uid in AfterEvent(s, event).claims ==>
              ClaimSettled(AfterEvent(s, event), uid) && TriggerSpent(AfterEvent(s, event), uid)
  {
    if uid in s.claimUids {
      EventGainsNothing(s, event, uid);
      assert OneAtMost(Held(s.sandboxes, uid));
      if uid in s.claims && uid in AfterEvent(s, event).claims {
        EventEditsClaim(s, event, uid);
        assert ClaimSettled(s, uid) && TriggerSpent(s, uid);
        BystanderKeeps(s, AfterEvent(s, event), uid);
      } else if uid !in s.claims {
        NoClaimReturns(s, event, uid);
      }
    } else {
      NewClaimIsSettled(s, event, uid);
    }
  }

  lemma EventKeepsInv(s: State, event: Event)
    requires Inv(s)
    ensures Inv(AfterEvent(s, event))
  {
    EventKeepsTyped(s, event);
    var s' := AfterEvent(s, event);
    forall uid | uid in s'.claimUids
      ensures OneAtMost(Held(s'.sandboxes, uid))
                && (uid in s'.claims ==> ClaimSettled(s', uid) && TriggerSpent(s', uid))
    {
      EventKeepsClaim(s, event, uid);
    }
  }

  /** No claim but one is touched. */
  ghost predicate OnlyClaim(s: State, s': State, uid: string) {
    && s'.claimUids == s.claimUids && s'.claims.Keys == s.claims.Keys
    && forall other :: other in s.claims && other != uid ==> s'.claims[other] == s.claims[other]
  }

  lemma InvFromParts(s: State, s': State, uid: string)
    requires Inv(s) && Typed(s') && uid in s.claims && OnlyClaim(s, s', uid)
    requires ClaimSettled(s', uid) && TriggerSpent(s', uid)
    requires forall other :: other in s.claimUids && other != uid ==> NothingGained(s, s', other)
    ensures Inv(s')
  {
    forall other | other in s'.claims ensures ClaimSettled(s', other) && TriggerSpent(s', other) {
      if other != uid { BystanderKeeps(s, s', other); }
    }
  }

  lemma AnnotationLeavesOthers(s: State, uid: string, written: bool, patch: Patch)
    requires uid in s.claims
    ensures OnlyClaim(s, AfterAnnotation(s, uid, written, patch), uid)
  {
    AnnotationEdits(s, uid, written, patch);
  }

  lemma AttemptLeavesOthers(s: State, uid: string, candidate: Option<string>, recorded: bool, patch: Patch)
    requires uid in s.claims && s.claims[uid].pc.Adopting?
    ensures OnlyClaim(s, AfterAttempt(s, uid, candidate, recorded, patch), uid)
  {
  }

  lemma ActLeavesOthers(s: State, uid: string, act: Act)
    requires uid in s.claims
    ensures OnlyClaim(s, AfterAct(s, uid, act), uid)
  {
    if act.CheckAnnotation? {
      AnnotationLeavesOthers(s, uid, act.written, act.patch);
    } else if act.TryCandidate? && s.claims[uid].pc.Adopting? {
      AttemptLeavesOthers(s, uid, act.candidate, act.recorded, act.patch);
    }
  }

  lemma ActKeepsInv(s: State, uid: string, act: Act)
    requires Inv(s) && uid in s.claims && Clean(s, Pass(uid, act))
    ensures Inv(AfterAct(s, uid, act))
  {
    ActKeepsTyped(s, uid, act);
    ActSettles(s, uid, act);
    ActSpendsTrigger(s, uid, act);
    var s' := AfterAct(s, uid, act);
    forall other | other in s.claimUids && other != uid ensures NothingGained(s, s', other) {
      ActGainsNothing(s, uid, act, other);
    }
    ActLeavesOthers(s, uid, act);
    InvFromParts(s, s', uid);
  }

  ghost predicate CleanRun(steps: seq<Step>) {
    forall k :: 0 <= k < |steps| ==> Clean(Run(steps[..k]), steps[k])
  }

  /** In every run whose cold creates are clean, no claim ever controls two sandboxes, through
      the status, annotation, recovery, queue and cold paths together. */
  lemma {:induction false} OneSandboxPerClaim(steps: seq<Step>)
    requires CleanRun(steps)
    ensures Inv(Run(steps))
    ensures forall uid :: uid in Run(steps).claimUids ==> OneAtMost(Held(Run(steps).sandboxes, uid))
  {
    if steps != [] {
      var n := |steps| - 1;
      var before := steps[..n];
      assert forall k :: 0 <= k < |before| ==> before[..k] == steps[..k] && before[k] == steps[k];
      OneSandboxPerClaim(before);
      assert Clean(Run(steps[..n]), steps[n]);
      match steps[n]
      case Cluster(event) => EventKeepsInv(Run(before), event);
      case Pass(uid, act) => if uid in Run(before).claims { ActKeepsInv(Run(before), uid, act); }
    }
  }

  // ------------------------------------------------ exactly when creates are safe

  lemma RunAppend(s: State, steps: seq<Step>, step: Step)
    ensures RunFrom(s, steps + [step]) == Next(RunFrom(s, steps), step)
  {
    assert (steps + [step])[..|steps|] == steps;
  }

  /** The create, a lost status write, the claim pointed at the recorded sandbox's pool, and the
      next pass up to the recovery of that sandbox. */
  function CreateThenRecover(uid: string, pool: string): seq<Step> {
    [Pass(uid, CreateCold(true)), Pass(uid, Finish(false)), Cluster(Retarget(uid, pool)),
     Pass(uid, CheckStatus), Pass(uid, CheckAnnotation(true, Patched))]
  }

  /** The state after the create whose status write is lost and the first look of the next pass. */
  function AfterLostCreate(s: State, uid: string, pool: string): State
    requires uid in s.claims
  {
    var c := s.claims[uid];
    Put(Created(s, uid), uid, c.(claim := c.claim.(warmPool := pool), pc := AtAnnotation))
  }

  lemma PutAgain(s: State, uid: string, a: ClaimState, b: ClaimState)
    ensures Put(Put(s, uid, a), uid, b) == Put(s, uid, b)
  {
    assert s.claims[uid := a][uid := b] == s.claims[uid := b];
  }

  lemma CreateThenLoseStatus(s: State, uid: string)
    requires CreateIsExposed(s, uid)
    ensures Next(Next(s, Pass(uid, CreateCold(true))), Pass(uid, Finish(false))) ==
              Put(Created(s, uid), uid, s.claims[uid].(pc := Idle))
  {
    var c := s.claims[uid];
    PutAgain(Created(s, uid), uid, c.(pc := Finishing(c.claim.name)), c.(pc := Idle));
  }

  lemma StatusNotHeld(s: State, uid: string)
    requires uid in s.claims && s.claims[uid].pc.Idle? && !Controls(s.sandboxes, uid, s.claims[uid].status)
    ensures Next(s, Pass(uid, CheckStatus)) == At(s, uid, AtAnnotation)
  {
  }

  lemma LostCreate(s: State, uid: string, pool: string)
    requires Inv(s) && CreateIsExposed(s, uid)
    ensures Next(Next(Next(Next(s, Pass(uid, CreateCold(true))), Pass(uid, Finish(false))),
                      Cluster(Retarget(uid, pool))), Pass(uid, CheckStatus))
            == AfterLostCreate(s, uid, pool)
  {
    var c := s.claims[uid];
    var s1 := Created(s, uid);
    var looking := c.(claim := c.claim.(warmPool := pool), pc := Idle);
    CreateThenLoseStatus(s, uid);
    PutAgain(s1, uid, c.(pc := Idle), looking);
    PutAgain(s1, uid, looking, looking.(pc := AtAnnotation));
    assert !Controls(s1.sandboxes, uid, c.status) by {
      HeldAfterCreate(s, uid, uid);
      assert ClaimSettled(s, uid);
      assert Held(s1.sandboxes, uid) == {c.claim.name};
      assert Controls(s1.sandboxes, uid, c.status) ==> c.status in Held(s1.sandboxes, uid);
    }
    StatusNotHeld(Put(s1, uid, looking), uid);
  }

  lemma RecoveredToo(s: State, uid: string, pool: string)
    requires Inv(s) && CreateIsExposed(s, uid) && pool == s.sandboxes[s.claims[uid].annotation].owners[0].name
    ensures var t := Next(AfterLostCreate(s, uid, pool), Pass(uid, CheckAnnotation(true, Patched)));
            !OneAtMost(Held(t.sandboxes, uid))
  {
    var c := s.claims[uid];
    var warm := c.annotation;
    var s4 := AfterLostCreate(s, uid, pool);
    assert WellOwned(s, warm) && TriggerSpent(s, uid) && ClaimSettled(s, uid);
    AdoptableIsNotHeld(s, warm, uid);
    HeldAfterCreate(s, uid, uid);
    NoEmptyName(s);
    assert s4.sandboxes[warm] == s.sandboxes[warm];
    assert Recovering(s4, uid);
    AnnotationEdits(s4, uid, true, Patched);
    HeldAfterAdopt(s4, uid, warm, uid);
    var t := Next(s4, Pass(uid, CheckAnnotation(true, Patched)));
    assert {c.claim.name, warm} <= Held(t.sandboxes, uid);
  }

  lemma StepByStep(s: State, uid: string, pool: string) returns (steps: seq<Step>)
    requires Inv(s) && CreateIsExposed(s, uid) && pool == s.sandboxes[s.claims[uid].annotation].owners[0].name
    ensures steps == [Pass(uid, CreateCold(true))] + [Pass(uid, Finish(false))] + [Cluster(Retarget(uid, pool))]
                     + [Pass(uid, CheckStatus)] + [Pass(uid, CheckAnnotation(true, Patched))]
    ensures !OneAtMost(Held(RunFrom(s, steps).sandboxes, uid))
  {
    var c := s.claims[uid];
    var warm := c.annotation;
    assert WellOwned(s, warm);
    var t0 := [Pass(uid, CreateCold(true))];
    assert RunFrom(s, []) == s;
    RunAppend(s, [], t0[0]);
    assert [] + t0 == t0;
    var t1 := t0 + [Pass(uid, Finish(false))];
    RunAppend(s, t0, Pass(uid, Finish(false)));
    var t2 := t1 + [Cluster(Retarget(uid, pool))];
    RunAppend(s, t1, Cluster(Retarget(uid, pool)));
    var t3 := t2 + [Pass(uid, CheckStatus)];
    RunAppend(s, t2, Pass(uid, CheckStatus));
    LostCreate(s, uid, pool);
    steps := t3 + [Pass(uid, CheckAnnotation(true, Patched))];
    RunAppend(s, t3, Pass(uid, CheckAnnotation(true, Patched)));
    RecoveredToo(s, uid, pool);
  }

  /** The condition is exact: a run that issues an exposed create can go on, with no further
      fault than a lost status write, to a claim that controls two sandboxes. */
  lemma ExposedCreateEndsInTwo(s: State, uid: string)
    requires Inv(s) && CreateIsExposed(s, uid)
    ensures var pool := s.sandboxes[s.claims[uid].annotation].owners[0].name;
            !OneAtMost(Held(RunFrom(s, CreateThenRecover(uid, pool)).sandboxes, uid))
  {
    var pool := s.sandboxes[s.claims[uid].annotation].owners[0].name;
    var steps := StepByStep(s, uid, pool);
    assert steps == CreateThenRecover(uid, pool);
  }

  // ------------------------------------------------ runs without adoption conflicts

  predicate NoConflict(step: Step) {
    step.Pass? ==>
      && (step.act.CheckAnnotation? ==> step.act.patch != Conflict)
      && (step.act.TryCandidate? ==> step.act.patch != Conflict)
  }

  /** A pass that got beyond the annotation left nothing to recover there. */
  predicate Beyond(s: State, uid: string)
    requires uid in s.claims
  {
    var c := s.claims[uid];
    c.pc.AtName? || c.pc.Adopting? || c.pc.Creating? ==> !Recoverable(s.sandboxes, c.annotation)
  }

  lemma AnnotationLeavesBeyond(s: State, uid: string, written: bool, patch: Patch)
    requires "" !in s.sandboxes && uid in s.claims && s.claims[uid].pc.AtAnnotation? && patch != Conflict
    ensures Beyond(AfterAnnotation(s, uid, written, patch), uid)
  {
  }

  lemma AttemptKeepsBeyond(s: State, uid: string, candidate: Option<string>, recorded: bool, patch: Patch)
    requires uid in s.claims && Beyond(s, uid) && s.claims[uid].pc.Adopting? && patch != Conflict
    ensures Beyond(AfterAttempt(s, uid, candidate, recorded, patch), uid)
  {
  }

  lemma QuietActKeepsBeyond(s: State, uid: string, act: Act)
    requires uid in s.claims && Beyond(s, uid) && !act.CheckAnnotation? && !act.TryCandidate?
    ensures uid in AfterAct(s, uid, act).claims && Beyond(AfterAct(s, uid, act), uid)
  {
  }

  lemma ActKeepsBeyond(s: State, uid: string, act: Act)
    requires Inv(s) && uid in s.claims && Beyond(s, uid) && NoConflict(Pass(uid, act))
    ensures Beyond(AfterAct(s, uid, act), uid)
  {
    if act.CheckAnnotation? {
      NoEmptyName(s);
      if s.claims[uid].pc.AtAnnotation? { AnnotationLeavesBeyond(s, uid, act.written, act.patch); }
    } else if act.TryCandidate? {
      if s.claims[uid].pc.Adopting? { AttemptKeepsBeyond(s, uid, act.candidate, act.recorded, act.patch); }
    } else {
      QuietActKeepsBeyond(s, uid, act);
    }
  }

  lemma BystanderStaysBeyond(s: State, s': State, uid: string)
    requires uid in s.claims && uid in s'.claims && Beyond(s, uid) && ClaimSettled(s, uid) && NothingGained(s, s', uid)
    requires s'.claims[uid].(claim := s.claims[uid].claim) == s.claims[uid]
    ensures Beyond(s', uid)
  {
  }

  lemma NewClaimIsIdle(s: State, step: Step, uid: string)
    requires uid !in s.claims && uid in Next(s, step).claims
    ensures Next(s, step).claims[uid].pc.Idle?
  {
    if step.Pass? && step.uid in s.claims {
      ActLeavesOthers(s, step.uid, step.act);
    }
  }

  lemma BeyondIsKept(s: State, step: Step, uid: string)
    requires Inv(s) && NoConflict(step) && uid in Next(s, step).claims
    requires forall u :: u in s.claims ==> Beyond(s, u)
    ensures Beyond(Next(s, step), uid)
  {
    if uid in s.claims {
      assert ClaimSettled(s, uid) && Beyond(s, uid);
      if step.Cluster? {
        EventGainsNothing(s, step.event, uid);
        EventEditsClaim(s, step.event, uid);
        BystanderStaysBeyond(s, Next(s, step), uid);
      } else if step.uid == uid {
        ActKeepsBeyond(s, uid, step.act);
      } else if step.uid in s.claims {
        ActGainsNothing(s, step.uid, step.act, uid);
        ActLeavesOthers(s, step.uid, step.act);
        BystanderStaysBeyond(s, Next(s, step), uid);
      }
    } else {
      NewClaimIsIdle(s, step, uid);
    }
  }

  ghost predicate AllBeyond(s: State) {
    forall uid :: uid in s.claims ==> Beyond(s, uid)
  }

  lemma AllStayBeyond(s: State, step: Step)
    requires Inv(s) && AllBeyond(s) && NoConflict(step)
    ensures Clean(s, step) && AllBeyond(Next(s, step))
  {
    forall uid | uid in Next(s, step).claims ensures Beyond(Next(s, step), uid) {
      BeyondIsKept(s, step, uid);
    }
  }

  lemma CleanRunExtends(steps: seq<Step>)
    requires steps != [] && CleanRun(steps[..|steps| - 1]) && Clean(Run(steps[..|steps| - 1]), steps[|steps| - 1])
    ensures CleanRun(steps)
  {
    var n := |steps| - 1;
    var before := steps[..n];
    forall k | 0 <= k < |steps| ensures Clean(Run(steps[..k]), steps[k]) {
      if k < n { assert before[..k] == steps[..k] && before[k] == steps[k]; }
    }
  }

  /** As long as no adoption patch is answered with a conflict, every cold create is clean, and
      so no claim ever controls two sandboxes. */
  lemma {:induction false} WithoutConflictsOneSandboxPerClaim(steps: seq<Step>)
    requires forall k :: 0 <= k < |steps| ==> NoConflict(steps[k])
    ensures CleanRun(steps) && Inv(Run(steps)) && AllBeyond(Run(steps))
  {
    if steps != [] {
      var n := |steps| - 1;
      var before := steps[..n];
      WithoutConflictsOneSandboxPerClaim(before);
      assert NoConflict(steps[n]);
      AllStayBeyond(Run(before), steps[n]);
      CleanRunExtends(steps);
      OneSandboxPerClaim(steps);
    }
  }

  function OnePoolOneClaim(annotation: string, pc: Pc): State {
    State(map["w" := PoolSandbox("w", "p", "pool-uid")],
          map["u" := ClaimState(Claim(NAMESPACE, "c", "u", "p"), annotation, "", false, "", pc)],
          {"w"}, {"u"}, {"pool-uid"})
  }

  lemma Extend(steps: seq<Step>, step: Step, s: State)
    requires Next(Run(steps), step) == s
    ensures Run(steps + [step]) == s
  {
    RunAppend(INITIAL, steps, step);
  }

  lemma SetupCluster() returns (steps: seq<Step>)
    ensures Run(steps) == OnePoolOneClaim("", Idle)
  {
    var e1 := Cluster(PoolCreate("w", "p", "pool-uid"));
    var e2 := Cluster(ClaimCreate("u", "c", "p", false));
    steps := [];
    var s1 := Next(INITIAL, e1);
    Extend(steps, e1, s1);
    steps := steps + [e1];
    Extend(steps, e2, OnePoolOneClaim("", Idle));
    steps := steps + [e2];
  }

  lemma SetupPass() returns (steps: seq<Step>)
    ensures Run(steps) == OnePoolOneClaim("", Adopting(3))
  {
    steps := SetupCluster();
    Extend(steps, Pass("u", CheckStatus), OnePoolOneClaim("", AtAnnotation));
    steps := steps + [Pass("u", CheckStatus)];
    Extend(steps, Pass("u", CheckAnnotation(true, Failed)), OnePoolOneClaim("", AtName));
    steps := steps + [Pass("u", CheckAnnotation(true, Failed))];
    Extend(steps, Pass("u", CheckName), OnePoolOneClaim("", Adopting(3)));
    steps := steps + [Pass("u", CheckName)];
  }

  lemma ThreeConflicts() returns (steps: seq<Step>)
    ensures Run(steps) == OnePoolOneClaim("w", Creating)
  {
    var attempt := Pass("u", TryCandidate(Some("w"), true, Conflict));
    steps := SetupPass();
    Extend(steps, attempt, OnePoolOneClaim("w", Adopting(2)));
    steps := steps + [attempt];
    Extend(steps, attempt, OnePoolOneClaim("w", Adopting(1)));
    steps := steps + [attempt];
    Extend(steps, attempt, OnePoolOneClaim("w", Adopting(0)));
    steps := steps + [attempt];
    Extend(steps, Pass("u", TryCandidate(None, true, Failed)), OnePoolOneClaim("w", Creating));
    steps := steps + [Pass("u", TryCandidate(None, true, Failed))];
  }

  lemma OnePoolOneClaimInv()
    ensures Inv(OnePoolOneClaim("w", Creating))
  {
    var s := OnePoolOneClaim("w", Creating);
    KindsDiffer();
    assert Held(s.sandboxes, "u") == {} by {
      assert "pool-uid" != "u" by { assert |"pool-uid"| == 8 && |"u"| == 1; }
    }
  }

  /** Conflicts do break it: three conflicting patches of a pool sandbox, the cold create they
      lead to, a lost status write, and the next pass recovers the recorded sandbox as well. */
  lemma ConflictsCanGiveTwo() returns (steps: seq<Step>)
    ensures !OneAtMost(Held(Run(steps).sandboxes, "u"))
  {
    var pre := ThreeConflicts();
    OnePoolOneClaimInv();
    var s := OnePoolOneClaim("w", Creating);
    ExposedCreateEndsInTwo(s, "u");
    var post := CreateThenRecover("u", s.sandboxes["w"].owners[0].name);
    steps := pre + post;
    RunConcat(INITIAL, pre, post);
  }
}
