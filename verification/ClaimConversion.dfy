/** Converting a SandboxClaim between v1alpha1 and the hub version v1beta1. The two versions name
    the source of the sandbox differently: a template with a warm-pool policy, or one pool. */
module ClaimConversion {
  import opened Text
  import opened Encoding

  const STATE := "api.agents.x-k8s.io/v1alpha1-sandboxclaim-state"
  const VOLUME_TEMPLATES := "api.agents.x-k8s.io/v1beta1-sandboxclaim-volume-claim-templates"
  const SHADOW := "shadow-pool-"

  datatype Lifecycle = Lifecycle(shutdownTime: Option<int>, ttl: Option<int>, policy: string)

  datatype Env = Env(name: string, value: string, container: string)

  datatype Status = Status(conditions: seq<string>, sandbox: string, podIPs: seq<string>)

  datatype AlphaSpec = AlphaSpec(
    templateRef: string, warmPool: Option<string>,
    lifecycle: Option<Lifecycle>, podLabels: Keys, podAnnotations: Keys, env: Option<seq<Env>>)

  datatype Alpha = Alpha(meta: Meta, spec: AlphaSpec, status: Status)

  type VolumeTemplates = Option<seq<string>>

  datatype BetaSpec = BetaSpec(
    warmPoolRef: string, volumeTemplates: VolumeTemplates,
    lifecycle: Option<Lifecycle>, podLabels: Keys, podAnnotations: Keys, env: Option<seq<Env>>)

  datatype Beta = Beta(meta: Meta, spec: BetaSpec, status: Status)

  datatype Json = Json(state: Codec<Alpha>, volumes: Codec<VolumeTemplates>)

  // ---------------------------------------------------------------- pool names

  /** The policy names a pool. */
  predicate IsSpecific(pool: string) {
    pool != "none" && pool != "default" && pool != ""
  }

  function StripRandomSuffix(name: string): string {
    match LastIndexOf(name, '-')
    case Some(i) => name[..i]
    case None => name
  }

  /** The claim has adopted a sandbox of another name. */
  predicate WarmStart(claim: string, sandbox: string) {
    sandbox != "" && claim != sandbox
  }

  function RefOf(templateRef: string, warmPool: Option<string>, claim: string, sandbox: string): string {
    if warmPool.Some? && IsSpecific(warmPool.value) then warmPool.value
    else if WarmStart(claim, sandbox) then StripRandomSuffix(sandbox)
    else SHADOW + templateRef
  }

  function Expected(s: AlphaSpec): string {
    if s.warmPool.Some? && IsSpecific(s.warmPool.value) then s.warmPool.value else s.templateRef
  }

  predicate Matching(actual: string, expected: string, sandbox: string) {
    || actual == expected || actual == SHADOW + expected
    || (sandbox != "" && (actual == sandbox || actual == StripRandomSuffix(sandbox)))
  }

  /** The name without what follows its last dash, if it has one. */
  ghost predicate IsStripped(name: string, stripped: string) {
    if '-' !in name then stripped == name
    else exists i :: 0 <= i < |name| && name[i] == '-' && '-' !in name[i + 1..] && stripped == name[..i]
  }

  /** A reference of a claim is taken for its own: the pool or else the template it names, that one's
      shadow pool, the bound sandbox, or the pool it is named after. */
  ghost predicate TakenForOwn(ref: string, s: AlphaSpec, sandbox: string) {
    var own := if s.warmPool.Some? && s.warmPool.value !in {"", "none", "default"} then s.warmPool.value
               else s.templateRef;
    || ref == own || ref == "shadow-pool-" + own
    || (sandbox != "" && (ref == sandbox || IsStripped(sandbox, ref)))
  }

  lemma StripExactly(name: string, stripped: string)
    ensures StripRandomSuffix(name) == stripped <==> IsStripped(name, stripped)
  {
    if i :| 0 <= i < |name| && name[i] == '-' && '-' !in name[i + 1..] && stripped == name[..i] {
      assert LastIndexOf(name, '-') == Some(i);
    }
  }

  lemma MatchingExactly(ref: string, s: AlphaSpec, sandbox: string)
    ensures Matching(ref, Expected(s), sandbox) <==> TakenForOwn(ref, s, sandbox)
  {
    StripExactly(sandbox, ref);
  }

  // ---------------------------------------------------------------- the conversions

  function SpecTo(s: AlphaSpec, claim: string, sandbox: string): BetaSpec {
    BetaSpec(RefOf(s.templateRef, s.warmPool, claim, sandbox), None, s.lifecycle, s.podLabels, s.podAnnotations, s.env)
  }

  function SpecFrom(s: BetaSpec): AlphaSpec {
    var ref := s.warmPoolRef;
    if HasPrefix(ref, SHADOW)
    then AlphaSpec(ref[|SHADOW|..], Some("default"), s.lifecycle, s.podLabels, s.podAnnotations, s.env)
    else AlphaSpec(ref, Some(ref), s.lifecycle, s.podLabels, s.podAnnotations, s.env)
  }

  function Stripped(s: Alpha): Alpha {
    s.(meta := s.meta.(annotations := s.meta.annotations - {STATE}))
  }

  /** None when the volume-template annotation does not decode. */
  function To(json: Json, s: Alpha): Option<Beta> {
    var spec := SpecTo(s.spec, s.meta.name, s.status.sandbox);
    var state := json.state.encode(Stripped(s));
    if VOLUME_TEMPLATES !in s.meta.annotations then
      Some(Beta(s.meta.(annotations := s.meta.annotations[STATE := state]), spec, s.status))
    else match json.volumes.decode(s.meta.annotations[VOLUME_TEMPLATES])
      case None => None
      case Some(v) =>
        Some(Beta(s.meta.(annotations := (s.meta.annotations - {VOLUME_TEMPLATES})[STATE := state]),
                  spec.(volumeTemplates := v), s.status))
  }

  function RestoredSpec(spec: AlphaSpec, original: AlphaSpec, ref: string, sandbox: string): AlphaSpec {
    spec.(templateRef := original.templateRef,
          warmPool := if Matching(ref, Expected(original), sandbox) then original.warmPool else Some(ref))
  }

  function WithVolumes(json: Json, annotations: Keys, v: VolumeTemplates): Keys {
    if v.Some? then annotations[VOLUME_TEMPLATES := json.volumes.encode(v)] else annotations - {VOLUME_TEMPLATES}
  }

  /** None when the state annotation does not decode. */
  function From(json: Json, b: Beta): Option<Alpha> {
    var spec := SpecFrom(b.spec);
    if STATE !in b.meta.annotations then
      Some(Alpha(b.meta.(annotations := WithVolumes(json, b.meta.annotations, b.spec.volumeTemplates)), spec, b.status))
    else match json.state.decode(b.meta.annotations[STATE])
      case None => None
      case Some(original) =>
        Some(Alpha(b.meta.(annotations := WithVolumes(json, b.meta.annotations - {STATE}, b.spec.volumeTemplates)),
                   RestoredSpec(spec, original.spec, b.spec.warmPoolRef, b.status.sandbox), b.status))
  }

  ghost predicate BothFaithful(json: Json) {
    Faithful(json.state) && Faithful(json.volumes)
  }

  // ---------------------------------------------------------------- round trips

  lemma OwnRefMatches(s: Alpha)
    ensures Matching(RefOf(s.spec.templateRef, s.spec.warmPool, s.meta.name, s.status.sandbox), Expected(s.spec),
                     s.status.sandbox)
  {
  }

  /** A stored volume-template annotation is what encoding its content gives. */
  predicate Canonical(json: Json, raw: string) {
    match json.volumes.decode(raw)
    case None => false
    case Some(v) => v.Some? && json.volumes.encode(v) == raw
  }

  lemma DistinctAnnotations()
    ensures STATE != VOLUME_TEMPLATES
  {
    assert |STATE| != |VOLUME_TEMPLATES|;
  }

  lemma AnnotationsBack(json: Json, s: Alpha, b: Beta)
    requires BothFaithful(json) && To(json, s) == Some(b)
    ensures var annotations := s.meta.annotations;
            WithVolumes(json, b.meta.annotations - {STATE}, b.spec.volumeTemplates) == annotations <==>
            STATE !in annotations
                && (VOLUME_TEMPLATES in annotations ==> Canonical(json, annotations[VOLUME_TEMPLATES]))
  {
    DistinctAnnotations();
    var annotations := s.meta.annotations;
    var back := WithVolumes(json, b.meta.annotations - {STATE}, b.spec.volumeTemplates);
    assert STATE !in back;
    if VOLUME_TEMPLATES !in annotations {
      assert back == annotations - {STATE};
      assert STATE !in annotations ==> annotations - {STATE} == annotations;
    } else if STATE !in annotations {
      var v := json.volumes.decode(annotations[VOLUME_TEMPLATES]).value;
      assert v.None? ==> VOLUME_TEMPLATES !in back;
      assert v.Some? ==> back == annotations[VOLUME_TEMPLATES := json.volumes.encode(v)];
    }
  }

  /** v1alpha1 to v1beta1 and back is the identity exactly for claims without a state annotation
      whose volume-template annotation, if any, is canonical: whatever the template, the policy and
      the sandbox. */
  lemma AlphaRoundTripExactly(json: Json, s: Alpha)
    requires BothFaithful(json)
    ensures var annotations := s.meta.annotations;
            To(json, s).None? <==>
                "api.agents.x-k8s.io/v1beta1-sandboxclaim-volume-claim-templates" in annotations
                && json.volumes.decode(annotations[VOLUME_TEMPLATES]).None?
    ensures To(json, s).Some? ==> From(json, To(json, s).value).Some?
    ensures To(json, s).Some? ==>
              var annotations := s.meta.annotations;
              From(json, To(json, s).value) == Some(s) <==>
              "api.agents.x-k8s.io/v1alpha1-sandboxclaim-state" !in annotations
                  && (VOLUME_TEMPLATES in annotations ==> Canonical(json, annotations[VOLUME_TEMPLATES]))
  {
    DistinctAnnotations();
    if To(json, s).Some? {
      var b := To(json, s).value;
      OwnRefMatches(s);
      assert json.state.decode(b.meta.annotations[STATE]) == Some(Stripped(s));
      AnnotationsBack(json, s, b);
    }
  }

  /** v1beta1 to v1alpha1 and back keeps the volume templates of every claim, and everything else
      but the pool reference and the two annotations. */
  lemma HubKeepsVolumes(json: Json, b: Beta)
    requires BothFaithful(json) && From(json, b).Some?
    ensures To(json, From(json, b).value).Some?
    ensures var again := To(json, From(json, b).value).value;
            && again.spec == b.spec.(warmPoolRef := again.spec.warmPoolRef)
            && again.status == b.status
            && again.meta == b.meta.(annotations := again.meta.annotations)
            && again.meta.annotations - {STATE} == b.meta.annotations - {STATE, VOLUME_TEMPLATES}
  {
    DistinctAnnotations();
    var s := From(json, b).value;
    if b.spec.volumeTemplates.Some? {
      assert json.volumes.decode(s.meta.annotations[VOLUME_TEMPLATES]) == Some(b.spec.volumeTemplates);
    }
    var again := To(json, s).value;
    assert again.meta.annotations - {STATE} == b.meta.annotations - {STATE, VOLUME_TEMPLATES};
  }

  lemma ShadowIsNotPolicy(name: string)
    ensures IsSpecific(SHADOW + name) && HasPrefix(SHADOW + name, SHADOW) && (SHADOW + name)[|SHADOW|..] == name
    ensures !HasPrefix("none", SHADOW) && !HasPrefix("default", SHADOW) && !HasPrefix("", SHADOW)
  {
    assert |SHADOW + name| > |"default"|;
  }

  lemma HubKeepsRef(json: Json, b: Beta)
    requires BothFaithful(json) && STATE !in b.meta.annotations
    ensures From(json, b).Some? && To(json, From(json, b).value).Some?
    ensures var ref, warm := b.spec.warmPoolRef, b.status.sandbox !in {"", b.meta.name};
            To(json, From(json, b).value).value.spec.warmPoolRef == ref <==>
            || (IsSpecific(ref) && !HasPrefix(ref, SHADOW)) || (HasPrefix(ref, SHADOW) && !warm)
            || (warm && StripRandomSuffix(b.status.sandbox) == ref)
  {
    HubKeepsVolumes(json, b);
    var ref := b.spec.warmPoolRef;
    ShadowIsNotPolicy(ref);
    if HasPrefix(ref, SHADOW) {
      assert SHADOW + ref[|SHADOW|..] == ref;
    } else if !IsSpecific(ref) {
      assert |SHADOW + ref| > |ref|;
    }
  }

  /** A hub claim that never was v1alpha1 keeps its pool reference exactly when the reference is a
      pool of its own, or a shadow pool and no warm sandbox is bound, or the pool the bound sandbox
      is named after. */
  lemma HubKeepsRefExactly(json: Json, b: Beta)
    requires BothFaithful(json) && STATE !in b.meta.annotations
    ensures From(json, b).Some? && To(json, From(json, b).value).Some?
    ensures var ref, warm := b.spec.warmPoolRef, b.status.sandbox !in {"", b.meta.name};
            To(json, From(json, b).value).value.spec.warmPoolRef == ref <==>
            || (ref !in {"", "none", "default"} && !HasPrefix(ref, "shadow-pool-"))
            || (HasPrefix(ref, "shadow-pool-") && !warm)
            || (warm && IsStripped(b.status.sandbox, ref))
  {
    HubKeepsRef(json, b);
    StripExactly(b.status.sandbox, b.spec.warmPoolRef);
  }

  lemma EditSurvives(json: Json, s: Alpha, ref: string)
    requires BothFaithful(json) && To(json, s).Some?
    ensures var b := To(json, s).value;
            var edited := b.(spec := b.spec.(warmPoolRef := ref));
            && From(json, edited).Some? && To(json, From(json, edited).value).Some?
            && (To(json, From(json, edited).value).value.spec.warmPoolRef == ref <==>
                ref == b.spec.warmPoolRef || (!Matching(ref, Expected(s.spec), s.status.sandbox) && IsSpecific(ref)))
  {
    var b := To(json, s).value;
    var edited := b.(spec := b.spec.(warmPoolRef := ref));
    assert json.state.decode(edited.meta.annotations[STATE]) == Some(Stripped(s));
    HubKeepsVolumes(json, edited);
    OwnRefMatches(s);
    ShadowIsNotPolicy(s.spec.templateRef);
  }

  /** An edit of the pool reference on the hub object of a v1alpha1 claim survives the trip through
      v1alpha1 exactly when it names a pool that is not taken for the claim's own. */
  lemma HubEditSurvivesExactly(json: Json, s: Alpha, ref: string)
    requires BothFaithful(json) && To(json, s).Some?
    ensures var b := To(json, s).value;
            var edited := b.(spec := b.spec.(warmPoolRef := ref));
            && From(json, edited).Some? && To(json, From(json, edited).value).Some?
            && (To(json, From(json, edited).value).value.spec.warmPoolRef == ref <==>
                ref == b.spec.warmPoolRef
                || (!TakenForOwn(ref, s.spec, s.status.sandbox) && ref !in {"", "none", "default"}))
  {
    EditSurvives(json, s, ref);
    MatchingExactly(ref, s.spec, s.status.sandbox);
  }

  /** Such a mistaken match exists for every pool: a claim on pool p edited to "shadow-pool-p". */
  lemma ShadowEditIsLost(json: Json, s: Alpha, p: string)
    requires BothFaithful(json) && To(json, s).Some? && s.spec.warmPool == Some(p) && IsSpecific(p)
    ensures var b := To(json, s).value;
            var edited := b.(spec := b.spec.(warmPoolRef := "shadow-pool-" + p));
            && From(json, edited).Some? && To(json, From(json, edited).value).Some?
            && To(json, From(json, edited).value).value.spec.warmPoolRef == p != "shadow-pool-" + p
  {
    var b := To(json, s).value;
    var edited := b.(spec := b.spec.(warmPoolRef := SHADOW + p));
    assert json.state.decode(edited.meta.annotations[STATE]) == Some(Stripped(s));
    HubKeepsVolumes(json, edited);
    assert |SHADOW + p| > |p|;
  }

  // ---------------------------------------------------------------- as the code does it

  method CopyEnv(src: Option<seq<Env>>) returns (dst: Option<seq<Env>>)
    ensures dst == src
  {
    if src.None? {
      return None;
    }
    var env := [];
    for i := 0 to |src.value|
      invariant env == src.value[..i]
    {
      var e := src.value[i];
      env := env + [Env(e.name, e.value, e.container)];
    }
    assert src.value[..|src.value|] == src.value;
    dst := Some(env);
  }

  method ConvertTo(json: Json, s: Alpha) returns (r: Option<Beta>)
    ensures r == To(json, s)
  {
    DistinctAnnotations();
    var ref := SHADOW + s.spec.templateRef;
    if s.spec.warmPool.Some? && IsSpecific(s.spec.warmPool.value) {
      ref := s.spec.warmPool.value;
    } else if s.status.sandbox != "" && s.meta.name != s.status.sandbox {
      ref := StripRandomSuffix(s.status.sandbox);
    }
    var env := CopyEnv(s.spec.env);
    var annotations, volumes: VolumeTemplates := s.meta.annotations, None;
    if VOLUME_TEMPLATES in s.meta.annotations {
      var decoded := json.volumes.decode(s.meta.annotations[VOLUME_TEMPLATES]);
      if decoded.None? {
        return None;
      }
      volumes := decoded.value;
      annotations := annotations - {VOLUME_TEMPLATES};
    }
    annotations := annotations[STATE := json.state.encode(Stripped(s))];
    var spec := BetaSpec(ref, volumes, s.spec.lifecycle, s.spec.podLabels, s.spec.podAnnotations, env);
    r := Some(Beta(s.meta.(annotations := annotations), spec, s.status));
  }

  method ConvertFrom(json: Json, src: Beta) returns (r: Option<Alpha>)
    ensures r == From(json, src)
  {
    DistinctAnnotations();
    var env := CopyEnv(src.spec.env);
    var ref := src.spec.warmPoolRef;
    var templateRef, warmPool := ref, Some(ref);
    if HasPrefix(ref, SHADOW) {
      templateRef, warmPool := ref[|SHADOW|..], Some("default");
    }
    var annotations := src.meta.annotations;
    if STATE in annotations {
      var state := annotations[STATE];
      annotations := annotations - {STATE};
      var original := json.state.decode(state);
      if original.None? {
        return None;
      }
      templateRef := original.value.spec.templateRef;
      if Matching(ref, Expected(original.value.spec), src.status.sandbox) {
        warmPool := original.value.spec.warmPool;
      } else {
        warmPool := Some(ref);
      }
    }
    if src.spec.volumeTemplates.Some? {
      annotations := annotations[VOLUME_TEMPLATES := json.volumes.encode(src.spec.volumeTemplates)];
    } else {
      annotations := annotations - {VOLUME_TEMPLATES};
    }
    var spec := AlphaSpec(templateRef, warmPool, src.spec.lifecycle, src.spec.podLabels, src.spec.podAnnotations, env);
    r := Some(Alpha(src.meta.(annotations := annotations), spec, src.status));
  }
}
