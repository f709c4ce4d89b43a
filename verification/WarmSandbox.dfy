/** A sandbox as the claim controller reads it: its owners, its pool labels and its readiness;
    which sandboxes a claim may adopt, and what adoption writes. */
module WarmSandbox {
  import opened Text

  const POOL_LABEL := "agents.x-k8s.io/warm-pool-sandbox"
  const TEMPLATE_REF_HASH_LABEL := "agents.x-k8s.io/sandbox-template-ref-hash"
  const POD_TEMPLATE_HASH_LABEL := "agents.x-k8s.io/sandbox-pod-template-hash"
  const TEMPLATE_HASH_LABEL := "agents.x-k8s.io/sandbox-template-hash"
  const LAUNCH_TYPE_LABEL := "agents.x-k8s.io/launch-type"
  const CLAIM_UID_LABEL := "agents.x-k8s.io/claim-uid"
  const EXTENSIONS_VERSION := "extensions.agents.x-k8s.io/v1beta1"
  const POOL_KIND := "SandboxWarmPool"
  const CLAIM_KIND := "SandboxClaim"

  datatype OwnerRef = OwnerRef(apiVersion: string, kind: string, name: string, uid: string, controller: bool)

  datatype Sandbox = Sandbox(
    namespace: string,
    name: string,
    labels: map<string, string>,
    owners: seq<OwnerRef>,
    deleting: bool,
    ready: bool)

  datatype Claim = Claim(namespace: string, name: string, uid: string, warmPool: string)

  /** metav1.GetControllerOf: the first owner reference marked as controller. */
  function ControllerOf(owners: seq<OwnerRef>): Option<OwnerRef> {
    if owners == [] then None
    else if owners[0].controller then Some(owners[0])
    else ControllerOf(owners[1..])
  }

  predicate ControlledBy(sb: Sandbox, uid: string) {
    ControllerOf(sb.owners).Some? && ControllerOf(sb.owners).value.uid == uid
  }

  function FirstPoolOwner(owners: seq<OwnerRef>): string {
    if owners == [] then ""
    else if owners[0].kind == POOL_KIND then owners[0].name
    else FirstPoolOwner(owners[1..])
  }

  function WarmPoolName(owners: seq<OwnerRef>): string {
    match ControllerOf(owners)
    case Some(ref) => if ref.kind == POOL_KIND then ref.name else FirstPoolOwner(owners)
    case None => FirstPoolOwner(owners)
  }

  lemma {:induction false} FirstPoolOwnerExactly(owners: seq<OwnerRef>)
    ensures (forall j :: 0 <= j < |owners| ==> owners[j].kind != "SandboxWarmPool") ==> FirstPoolOwner(owners) == ""
    ensures forall i :: 0 <= i < |owners| && owners[i].kind == "SandboxWarmPool"
                        && (forall j :: 0 <= j < i ==> owners[j].kind != "SandboxWarmPool") ==>
              FirstPoolOwner(owners) == owners[i].name
  {
    if owners != [] && owners[0].kind != "SandboxWarmPool" {
      var rest := owners[1..];
      FirstPoolOwnerExactly(rest);
      assert forall j :: 0 <= j < |rest| ==> rest[j] == owners[j + 1];
    }
  }

  /** getWarmPoolName: the controller's name if that is a pool, else the first pool's among the owners. */
  lemma WarmPoolNameExactly(owners: seq<OwnerRef>, i: nat)
    requires i < |owners| && owners[i].kind == "SandboxWarmPool"
    requires forall j :: 0 <= j < i ==> owners[j].kind != "SandboxWarmPool"
    ensures WarmPoolName(owners) ==
            if ControllerOf(owners).Some? && ControllerOf(owners).value.kind == "SandboxWarmPool"
            then ControllerOf(owners).value.name else owners[i].name
  {
    FirstPoolOwnerExactly(owners);
  }

  predicate PoolControlled(sb: Sandbox) {
    ControllerOf(sb.owners).Some? && ControllerOf(sb.owners).value.kind == POOL_KIND
  }

  predicate IsAdoptable(sb: Sandbox) {
    && !sb.deleting
    && POOL_LABEL in sb.labels
    && TEMPLATE_REF_HASH_LABEL in sb.labels
    && PoolControlled(sb)
    && ControllerOf(sb.owners).value.apiVersion == EXTENSIONS_VERSION
  }

  datatype Verdict = Adoptable | CrossNamespace | NotAdoptable | WrongPool

  /** verifySandboxCandidate, with its checks in the order of the source. */
  function Verify(sb: Sandbox, claim: Claim): Verdict {
    if sb.namespace != claim.namespace then CrossNamespace
    else if !IsAdoptable(sb) then NotAdoptable
    else if WarmPoolName(sb.owners) == "" || WarmPoolName(sb.owners) != claim.warmPool then WrongPool
    else Adoptable
  }

  /** The owner that controls the object is its first one marked so, and is this kind of object. */
  ghost predicate ControllerIs(owners: seq<OwnerRef>, apiVersion: string, kind: string, name: string) {
    exists i :: 0 <= i < |owners| && owners[i].controller && (forall j :: 0 <= j < i ==> !owners[j].controller)
                && owners[i].apiVersion == apiVersion && owners[i].kind == kind && owners[i].name == name
  }

  /** What a claim may adopt: a sandbox of its namespace that nobody is deleting, that carries the labels
      of a pool's sandbox and that the claim's pool controls. */
  ghost predicate MayAdopt(sb: Sandbox, claim: Claim) {
    && sb.namespace == claim.namespace && !sb.deleting && claim.warmPool != ""
    && "agents.x-k8s.io/warm-pool-sandbox" in sb.labels && "agents.x-k8s.io/sandbox-template-ref-hash" in sb.labels
    && ControllerIs(sb.owners, "extensions.agents.x-k8s.io/v1beta1", "SandboxWarmPool", claim.warmPool)
  }

  lemma {:induction false} ControllerExactly(owners: seq<OwnerRef>, ref: OwnerRef)
    ensures ControllerOf(owners) == Some(ref) <==>
            exists i :: 0 <= i < |owners| && owners[i] == ref && ref.controller
                        && forall j :: 0 <= j < i ==> !owners[j].controller
  {
    if owners != [] && !owners[0].controller {
      var rest := owners[1..];
      ControllerExactly(rest, ref);
      if i :| 0 <= i < |rest| && rest[i] == ref && ref.controller && forall j :: 0 <= j < i ==> !rest[j].controller {
        assert owners[i + 1] == ref;
        forall j | 0 <= j < i + 1 ensures !owners[j].controller {
          assert j > 0 ==> owners[j] == rest[j - 1];
        }
      }
      if i :| 0 <= i < |owners| && owners[i] == ref && ref.controller
              && forall j :: 0 <= j < i ==> !owners[j].controller {
        assert rest[i - 1] == ref;
        assert forall j :: 0 <= j < i - 1 ==> rest[j] == owners[j + 1];
      }
    }
  }

  lemma ControllerIsExactly(owners: seq<OwnerRef>, apiVersion: string, kind: string, name: string)
    ensures ControllerIs(owners, apiVersion, kind, name) <==>
            match ControllerOf(owners)
            case None => false
            case Some(ref) => ref.apiVersion == apiVersion && ref.kind == kind && ref.name == name
  {
    if ControllerOf(owners).Some? {
      ControllerExactly(owners, ControllerOf(owners).value);
    }
    if i :| 0 <= i < |owners| && owners[i].controller && forall j :: 0 <= j < i ==> !owners[j].controller {
      ControllerExactly(owners, owners[i]);
    }
  }

  /** The checks accept exactly what a claim may adopt, and tell the sandboxes of other namespaces apart. */
  lemma VerifyExactly(sb: Sandbox, claim: Claim)
    ensures Verify(sb, claim) == Adoptable <==> MayAdopt(sb, claim)
    ensures Verify(sb, claim) == CrossNamespace <==> sb.namespace != claim.namespace
  {
    ControllerIsExactly(sb.owners, "extensions.agents.x-k8s.io/v1beta1", "SandboxWarmPool", claim.warmPool);
  }

  /** What completeAdoption leaves on the sandbox: pool labels gone, the claim as its only owner. */
  function AdoptedBy(sb: Sandbox, claim: Claim): Sandbox {
    sb.(
      labels := (sb.labels - {POOL_LABEL, POD_TEMPLATE_HASH_LABEL, TEMPLATE_HASH_LABEL})
                [LAUNCH_TYPE_LABEL := "warm"][CLAIM_UID_LABEL := claim.uid],
      owners := [OwnerRef(EXTENSIONS_VERSION, CLAIM_KIND, claim.name, claim.uid, true)])
  }

  /** An adopted sandbox is controlled by its claim alone and is never again a candidate. */
  lemma AdoptionIsFinal(sb: Sandbox, claim: Claim, other: Claim)
    requires Verify(sb, claim) == Adoptable
    ensures ControlledBy(AdoptedBy(sb, claim), claim.uid)
    ensures ControlledBy(AdoptedBy(sb, claim), other.uid) <==> other.uid == claim.uid
    ensures Verify(AdoptedBy(sb, claim), other) != Adoptable && !PoolControlled(AdoptedBy(sb, claim))
    ensures TEMPLATE_REF_HASH_LABEL in AdoptedBy(sb, claim).labels && POOL_LABEL !in AdoptedBy(sb, claim).labels
    ensures AdoptedBy(sb, claim).labels[TEMPLATE_REF_HASH_LABEL] == sb.labels[TEMPLATE_REF_HASH_LABEL]
    ensures ControllerIs(AdoptedBy(sb, claim).owners, "extensions.agents.x-k8s.io/v1beta1", "SandboxClaim", claim.name)
    ensures AdoptedBy(sb, claim).name == sb.name && AdoptedBy(sb, claim).namespace == sb.namespace
  {
    assert POOL_LABEL != TEMPLATE_REF_HASH_LABEL && POOL_LABEL != LAUNCH_TYPE_LABEL
           && POOL_LABEL != CLAIM_UID_LABEL by {
      assert POOL_LABEL[16] != TEMPLATE_REF_HASH_LABEL[16] && POOL_LABEL[16] != LAUNCH_TYPE_LABEL[16]
             && POOL_LABEL[16] != CLAIM_UID_LABEL[16];
    }
    assert POD_TEMPLATE_HASH_LABEL != TEMPLATE_REF_HASH_LABEL && TEMPLATE_HASH_LABEL != TEMPLATE_REF_HASH_LABEL by {
      assert POD_TEMPLATE_HASH_LABEL[24] != TEMPLATE_REF_HASH_LABEL[24];
      assert TEMPLATE_HASH_LABEL[33] != TEMPLATE_REF_HASH_LABEL[33];
    }
    assert POOL_KIND[7] != CLAIM_KIND[7];
  }

  /** What adoption does to each label. */
  lemma AdoptionLabels(sb: Sandbox, claim: Claim, k: string)
    ensures var labels := AdoptedBy(sb, claim).labels;
            if k == "agents.x-k8s.io/claim-uid" then k in labels && labels[k] == claim.uid
            else if k == "agents.x-k8s.io/launch-type" then k in labels && labels[k] == "warm"
            else if k in {"agents.x-k8s.io/warm-pool-sandbox", "agents.x-k8s.io/sandbox-pod-template-hash",
                          "agents.x-k8s.io/sandbox-template-hash"} then k !in labels
            else (k in labels <==> k in sb.labels) && (k in labels ==> labels[k] == sb.labels[k])
  {
    assert CLAIM_UID_LABEL[16] != LAUNCH_TYPE_LABEL[16];
  }
}
