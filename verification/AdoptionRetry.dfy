/** Reconciling a claim while the informer cache still shows its adopted sandbox under the warm
    pool: the triggered-adoption map keeps the adoption patch from being sent again, and the
    sandbox name recorded in status survives the retries. */
module AdoptionRetry {
  import opened Text
  import opened WarmSandbox

  datatype Entry = Entry(uid: string, sandbox: string)

  /** How a sent patch ends. */
  datatype Patch = Patched | Refused | Failed     // Refused: conflict or not found

  datatype Result =
    | Got(name: string)
    | Retry                 // errAdoptionTriggeredRetry
    | FellThrough           // on to the lookup by name, the queue and the cold path
    | Error                 // any other error

  datatype Err = NoError | AdoptionTriggeredRetry | SandboxNotOwned | OtherError

  /** What a whole pass hands to the status update: a sandbox or none, and an error or none. */
  datatype Outcome = Outcome(sandbox: Option<string>, err: Err)

  /** `rest` is how the rest of the pass ends when it is reached. */
  function OutcomeOf(r: Result, rest: Outcome): Outcome {
    match r
    case Got(name) => Outcome(Some(name), NoError)
    case Retry => Outcome(None, AdoptionTriggeredRetry)
    case FellThrough => rest
    case Error => Outcome(None, OtherError)
  }

  /** What one pass sees and how its calls and writes end. */
  datatype Pass = Pass(cached: map<string, Sandbox>, patch: Patch, written: bool, rest: Outcome, ready: string,
                       statusWritten: bool)

  /** What of a reconciler the passes under a lagging cache are about. */
  datatype Standing = Standing(annotation: string, status: string, condition: string, triggered: bool,
                               sent: seq<string>)

  class ClaimReconciler {
    const claim: Claim
    var annotation: string                    // assigned sandbox recorded on the claim
    var status: string                        // status.sandbox.name
    var condition: string                     // the Ready condition
    var triggered: map<string, Entry>         // by claim name, for every claim
    ghost var sent: seq<string>               // sandboxes this claim UID's patch was applied to

    constructor (claim: Claim, annotation: string, status: string, triggered: map<string, Entry>)
      ensures this.claim == claim && this.annotation == annotation && this.status == status
      ensures this.triggered == triggered && condition == "" && sent == []
    {
      this.claim, this.annotation, this.status, this.triggered := claim, annotation, status, triggered;
      condition := "";
      sent := [];
    }

    predicate AlreadyTriggered()
      reads this
    {
      claim.name in triggered && triggered[claim.name] == Entry(claim.uid, annotation)
    }

    ghost function Stands(): Standing
      reads this
    {
      Standing(annotation, status, condition, AlreadyTriggered(), sent)
    }

    /** The cache shows a sandbox of this name as this claim's. */
    ghost predicate Shows(cached: map<string, Sandbox>, name: string) {
      name != "" && name in cached && ControlledBy(cached[name], claim.uid)
    }

    /** The cache shows the recorded sandbox as an adoptable member of its pool, and shows no
        sandbox of this claim's under the recorded status name. */
    ghost predicate Lagging(cached: map<string, Sandbox>)
      reads this
    {
      && annotation != "" && annotation in cached
      && MayAdopt(cached[annotation], claim)
      && !Shows(cached, annotation) && !Shows(cached, status)
    }

    /** The recorded sandbox is gone, or still its pool's but no longer one the claim may adopt. */
    ghost predicate Outdated(cached: map<string, Sandbox>)
      reads this
    {
      && !Shows(cached, status) && annotation != ""
      && (annotation in cached ==>
            !Shows(cached, annotation) && PoolControlled(cached[annotation]) && !MayAdopt(cached[annotation], claim))
    }

    /** getOrCreateSandbox up to the lookup by name, reading sandboxes from the cache. */
    method GetOrCreate(cached: map<string, Sandbox>, patch: Patch, written: bool) returns (r: Result)
      modifies this
      ensures status == old(status) && condition == old(condition)
      ensures forall name :: name != claim.name ==>
                (name in triggered <==> name in old(triggered))
                    && (name in triggered ==> triggered[name] == old(triggered)[name])
      ensures old(Lagging(cached)) ==> annotation == old(annotation)
      ensures old(Lagging(cached)) && old(AlreadyTriggered()) ==> r == Retry && sent == old(sent) && AlreadyTriggered()
      ensures old(Lagging(cached)) && !old(AlreadyTriggered()) && patch.Patched? ==>
                r == Retry && sent == old(sent) + [annotation] && AlreadyTriggered()
      ensures old(Lagging(cached)) && !old(AlreadyTriggered()) && !patch.Patched? ==>
                (r == if patch.Failed? then Error else FellThrough) && sent == old(sent) && triggered == old(triggered)
      ensures sent == old(sent)
              || (old(annotation) in cached && MayAdopt(cached[old(annotation)], claim)
                  && sent == old(sent) + [old(annotation)])
      ensures annotation == if old(Outdated(cached)) && written then "" else old(annotation)
      ensures old(Outdated(cached)) ==> r == if written then FellThrough else Error
      ensures !old(Shows(cached, status)) && !old(Shows(cached, annotation)) && !old(Lagging(cached)) ==>
                triggered == old(triggered) && (old(Outdated(cached)) || r == FellThrough)
      ensures old(status) != "" && old(status) in cached && ControlledBy(cached[old(status)], claim.uid) ==>
                r == Got(old(status)) && sent == old(sent) && claim.name !in triggered
      ensures old(annotation) != "" && old(annotation) in cached && ControlledBy(cached[old(annotation)], claim.uid) ==>
                (r == Got(old(annotation)) || (old(status) != "" && r == Got(old(status)))) && sent == old(sent)
                    && claim.name !in triggered
    {
      if status != "" && status in cached && ControlledBy(cached[status], claim.uid) {
        triggered := triggered - {claim.name};
        return Got(status);
      }
      if annotation == "" {
        return FellThrough;
      }
      if annotation !in cached {
        if !written { return Error; }
        annotation := "";
        return FellThrough;
      }
      var sb := cached[annotation];
      VerifyExactly(sb, claim);
      if ControlledBy(sb, claim.uid) {
        triggered := triggered - {claim.name};
        return Got(annotation);
      }
      if !PoolControlled(sb) {
        return FellThrough;
      }
      if Verify(sb, claim) != Adoptable {
        if !written { return Error; }
        annotation := "";
        return FellThrough;
      }
      if claim.name in triggered && triggered[claim.name].uid == claim.uid
          && triggered[claim.name].sandbox == annotation {
        return Retry;
      }
      if patch.Refused? {
        return FellThrough;
      }
      if patch.Failed? {
        return Error;
      }
      sent := sent + [annotation];
      triggered := triggered[claim.name := Entry(claim.uid, annotation)];
      return Retry;
    }

    /** computeAndSetStatus; `ready` is the Ready condition computed from the same inputs. A benign
        retry touches nothing of a claim that already names its sandbox, and only a pass without
        error or a lost ownership clears the name. */
    method ComputeAndSetStatus(o: Outcome, ready: string)
      modifies this`status, this`condition
      ensures o == Outcome(None, AdoptionTriggeredRetry) && old(status) != "" ==>
                status == old(status) && condition == old(condition)
      ensures o != Outcome(None, AdoptionTriggeredRetry) || old(status) == "" ==> condition == ready
      ensures o.sandbox.Some? ==> status == o.sandbox.value
      ensures o.sandbox.None? ==> status == if o.err in {NoError, SandboxNotOwned} then "" else old(status)
    {
      if o.sandbox.None? && o.err == AdoptionTriggeredRetry && status != "" {
        return;
      }
      condition := ready;
      if o.sandbox.Some? {
        status := o.sandbox.value;
      } else if o.err == NoError || o.err == SandboxNotOwned {
        status := "";
      }
    }

    /** One reconcile; the computed status may fail to be written. */
    method Reconcile(p: Pass) returns (r: Result)
      modifies this
      ensures annotation == if old(Outdated(p.cached)) && p.written then "" else old(annotation)
      ensures old(Lagging(p.cached)) && (old(AlreadyTriggered()) || !p.patch.Refused?) ==>
                && annotation == old(annotation) && status == old(status)
                && (sent == if old(AlreadyTriggered()) || p.patch.Failed? then old(sent) else old(sent) + [annotation])
                && (AlreadyTriggered() <==> old(AlreadyTriggered()) || p.patch.Patched?)
      ensures old(Lagging(p.cached)) && (old(AlreadyTriggered()) || p.patch.Patched?) && old(status) != "" ==>
                condition == old(condition)
      ensures old(annotation) != "" && old(annotation) in p.cached
                && ControlledBy(p.cached[old(annotation)], claim.uid) ==>
                r.Got? && sent == old(sent) && status == (if p.statusWritten then r.name else old(status))
    {
      r := GetOrCreate(p.cached, p.patch, p.written);
      if p.statusWritten {
        ComputeAndSetStatus(OutcomeOf(r, p.rest), p.ready);
      }
    }
  }

  ghost predicate AnyPatched(passes: seq<Pass>) {
    exists p :: p in passes && p.patch.Patched?
  }

  /** Every patch that is sent at all is applied or fails: none is refused before one was applied. */
  ghost predicate NotRefused(passes: seq<Pass>, triggered: bool) {
    forall n :: 0 <= n < |passes| && passes[n].patch.Refused? ==> triggered || AnyPatched(passes[..n])
  }

  lemma NotRefusedAppend(passes: seq<Pass>, p: Pass, triggered: bool)
    ensures NotRefused(passes + [p], triggered) <==>
            NotRefused(passes, triggered) && (p.patch.Refused? ==> triggered || AnyPatched(passes))
  {
    var more := passes + [p];
    assert more[|passes|] == p && more[..|passes|] == passes;
    assert forall n :: 0 <= n < |passes| ==> more[n] == passes[n] && more[..n] == passes[..n];
  }

  lemma AnyPatchedAppend(passes: seq<Pass>, p: Pass)
    ensures AnyPatched(passes + [p]) <==> AnyPatched(passes) || p.patch.Patched?
  {
    assert p in passes + [p];
  }

  ghost predicate NoneFailed(passes: seq<Pass>) {
    forall p :: p in passes ==> !p.patch.Failed?
  }

  /** Passes under a lagging cache apply the patch once if any of them applies at all, never if it was
      already triggered, and leave the recorded names alone. */
  ghost predicate Passed(before: Standing, after: Standing, passes: seq<Pass>) {
    && after.annotation == before.annotation && after.status == before.status
    && (before.status != "" && (before.triggered || NoneFailed(passes)) ==> after.condition == before.condition)
    && (after.triggered <==> before.triggered || AnyPatched(passes))
    && after.sent == if !before.triggered && AnyPatched(passes) then before.sent + [before.annotation] else before.sent
  }

  lemma PassedAppend(before: Standing, mid: Standing, after: Standing, passes: seq<Pass>, p: Pass)
    requires Passed(before, mid, passes) && Passed(mid, after, [p])
    ensures Passed(before, after, passes + [p])
  {
    AnyPatchedAppend(passes, p);
    AnyPatchedAppend([], p);
    assert [] + [p] == [p];
    assert NoneFailed(passes + [p]) ==> NoneFailed(passes) && NoneFailed([p]) by {
      assert p in passes + [p] && forall q :: q in passes ==> q in passes + [p];
    }
  }

  method ReconcileOnce(r: ClaimReconciler, p: Pass)
    requires r.Lagging(p.cached) && (r.AlreadyTriggered() || !p.patch.Refused?)
    modifies r
    ensures Passed(old(r.Stands()), r.Stands(), [p])
  {
    var _ := r.Reconcile(p);
    assert p in [p];
  }

  /** Any number of passes under a lagging cache, with patches that fail or apply, apply the
      patch exactly once if any of them applies at all (and never if it was already triggered),
      and leave the recorded names alone. The first `n` passes are all, unless the next one sends a
      patch that is refused: that one falls through to the other ways of getting a sandbox. */
  method ReconcileWhileLagging(r: ClaimReconciler, passes: seq<Pass>) returns (n: nat)
    requires forall p :: p in passes ==> r.Lagging(p.cached)
    modifies r
    ensures n <= |passes| && Passed(old(r.Stands()), r.Stands(), passes[..n])
    ensures n < |passes| <==> !NotRefused(passes, old(r.AlreadyTriggered()))
    ensures n < |passes| ==> passes[n].patch.Refused? && !r.AlreadyTriggered()
  {
    ghost var was := r.Stands();
    n := 0;
    while n < |passes|
      invariant n <= |passes| && NotRefused(passes[..n], was.triggered)
      invariant Passed(was, r.Stands(), passes[..n])
    {
      var p := passes[n];
      assert p in passes && passes[..n + 1] == passes[..n] + [p];
      if p.patch.Refused? && !r.AlreadyTriggered() {
        return;
      }
      NotRefusedAppend(passes[..n], p, was.triggered);
      ghost var mid := r.Stands();
      ReconcileOnce(r, p);
      PassedAppend(was, mid, r.Stands(), passes[..n], p);
      n := n + 1;
    }
    assert passes[..|passes|] == passes;
  }

  /** Once the cache shows the claim as controller, the next pass binds the sandbox, sends
      nothing and forgets the trigger. */
  method ReconcileUntilBound(r: ClaimReconciler, passes: seq<Pass>, current: map<string, Sandbox>, ready: string)
    returns (name: Option<string>)
    requires forall p :: p in passes ==> r.Lagging(p.cached)
    requires !r.AlreadyTriggered() && r.sent == []
    requires r.annotation != "" && r.annotation in current && ControlledBy(current[r.annotation], r.claim.uid)
    requires r.status == "" || r.status == r.annotation
    modifies r
    ensures name.Some? <==> NotRefused(passes, false)
    ensures name.Some? ==>
              && name.value == old(r.annotation) && r.status == name.value && r.condition == ready
              && r.claim.name !in r.triggered && r.sent == if AnyPatched(passes) then [old(r.annotation)] else []
  {
    var n := ReconcileWhileLagging(r, passes);
    if n < |passes| {
      return None;
    }
    assert passes[..n] == passes;
    var result := r.GetOrCreate(current, Failed, true);
    name := Some(result.name);
    r.ComputeAndSetStatus(OutcomeOf(result, Outcome(None, NoError)), ready);
  }
}
