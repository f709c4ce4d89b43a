/** Converting a Sandbox between v1alpha1 and the hub version v1beta1. The v1alpha1 object is kept
    whole in an annotation of the hub object, so that what v1beta1 cannot say comes back. */
module SandboxConversion {
  import opened Text
  import opened Encoding

  const STATE := "api.agents.x-k8s.io/v1alpha1-sandbox-state"
  const RUNNING := "Running"
  const SUSPENDED := "Suspended"

  datatype Template = Template(name: string, labels: Keys, annotations: Keys, spec: string)

  datatype AlphaSpec = AlphaSpec(
    podSpec: string, podLabels: Keys, podAnnotations: Keys,
    templates: Option<seq<Template>>,
    shutdownTime: Option<int>, shutdownPolicy: Option<string>,
    replicas: Option<int>, service: Option<bool>)

  datatype AlphaStatus = AlphaStatus(
    serviceFqdn: string, service: string, conditions: seq<string>, replicas: int, selector: string, podIPs: seq<string>)

  datatype Alpha = Alpha(meta: Meta, spec: AlphaSpec, status: AlphaStatus)

  datatype BetaSpec = BetaSpec(
    podSpec: string, podLabels: Keys, podAnnotations: Keys,
    templates: Option<seq<Template>>,
    shutdownTime: Option<int>, shutdownPolicy: Option<string>,
    operatingMode: string, service: Option<bool>)

  datatype BetaStatus = BetaStatus(
    serviceFqdn: string, service: string, conditions: seq<string>, selector: string, podIPs: seq<string>,
    nodeName: string)

  datatype Beta = Beta(meta: Meta, spec: BetaSpec, status: BetaStatus)

  function SpecTo(s: AlphaSpec): BetaSpec {
    BetaSpec(s.podSpec, s.podLabels, s.podAnnotations, s.templates, s.shutdownTime, s.shutdownPolicy,
             if s.replicas == Some(0) then SUSPENDED else RUNNING, s.service)
  }

  function SpecFrom(s: BetaSpec): AlphaSpec {
    AlphaSpec(s.podSpec, s.podLabels, s.podAnnotations, s.templates, s.shutdownTime, s.shutdownPolicy,
              Some(if s.operatingMode == SUSPENDED then 0 else 1), s.service)
  }

  function StatusTo(s: AlphaStatus): BetaStatus {
    BetaStatus(s.serviceFqdn, s.service, s.conditions, s.selector, s.podIPs, "")
  }

  function Stripped(m: Meta): Meta {
    m.(annotations := m.annotations - {STATE})
  }

  function To(json: Codec<Alpha>, s: Alpha): Beta {
    Beta(s.meta.(annotations := s.meta.annotations[STATE := json.encode(s.(meta := Stripped(s.meta)))]), SpecTo(s.spec),
         StatusTo(s.status))
  }

  /** The replicas to show when the hub object carries the v1alpha1 object it came from. */
  function RestoredReplicas(mode: string, original: Option<int>): Option<int> {
    if mode == SUSPENDED then Some(0)
    else if mode == RUNNING then (if original == Some(0) then Some(1) else original)
    else Some(1)
  }

  /** None when the state annotation does not decode. */
  function From(json: Codec<Alpha>, b: Beta): Option<Alpha> {
    var spec := SpecFrom(b.spec);
    var status := AlphaStatus(b.status.serviceFqdn, b.status.service, b.status.conditions,
                              if b.spec.operatingMode == SUSPENDED then 0 else 1, b.status.selector, b.status.podIPs);
    if STATE !in b.meta.annotations then Some(Alpha(b.meta, spec, status))
    else match json.decode(b.meta.annotations[STATE])
      case None => None
      case Some(original) =>
        Some(Alpha(Stripped(b.meta), spec.(replicas := RestoredReplicas(b.spec.operatingMode, original.spec.replicas)),
                   status.(replicas := original.status.replicas)))
  }

  /** v1alpha1 to v1beta1 and back loses nothing but a state annotation the object itself carried. */
  lemma AlphaRoundTrip(json: Codec<Alpha>, s: Alpha)
    requires Faithful(json)
    ensures From(json, To(json, s)) == Some(s.(meta := Stripped(s.meta)))
    ensures From(json, To(json, s)) == Some(s) <==> "api.agents.x-k8s.io/v1alpha1-sandbox-state" !in s.meta.annotations
    ensures To(json, s).spec.operatingMode == if s.spec.replicas == Some(0) then "Suspended" else "Running"
  {
    var b := To(json, s);
    var original := s.(meta := Stripped(s.meta));
    assert json.decode(b.meta.annotations[STATE]) == Some(original);
    assert b.meta.annotations - {STATE} == s.meta.annotations - {STATE};
    if STATE !in s.meta.annotations {
      assert s.meta.annotations - {STATE} == s.meta.annotations;
    }
  }

  /** v1beta1 to v1alpha1 and back keeps everything but a mode that is neither Running nor
      Suspended, the node name, and the content of the state annotation. */
  lemma HubRoundTrip(json: Codec<Alpha>, b: Beta)
    requires From(json, b).Some?
    ensures var again := To(json, From(json, b).value);
            && again.spec == b.spec.(operatingMode := again.spec.operatingMode)
            && again.status == b.status.(nodeName := "")
            && again.meta == b.meta.(annotations := again.meta.annotations)
            && again.meta.annotations - {STATE} == b.meta.annotations - {STATE}
            && (again.spec.operatingMode == b.spec.operatingMode <==> b.spec.operatingMode in {"Running", "Suspended"})
    ensures From(json, b).value.spec.replicas == Some(0) <==> b.spec.operatingMode == "Suspended"
  {
    assert RUNNING != SUSPENDED by { assert RUNNING[0] != SUSPENDED[0]; }
    var again := To(json, From(json, b).value);
    assert again.meta.annotations - {STATE} == b.meta.annotations - {STATE};
  }

  // ---------------------------------------------------------------- as the code does it

  method CopyTemplates(src: Option<seq<Template>>) returns (dst: Option<seq<Template>>)
    ensures dst == src
  {
    if src.None? {
      return None;
    }
    var templates := [];
    for i := 0 to |src.value|
      invariant templates == src.value[..i]
    {
      var t := src.value[i];
      templates := templates + [Template(t.name, t.labels, t.annotations, t.spec)];
    }
    assert src.value[..|src.value|] == src.value;
    dst := Some(templates);
  }

  method ConvertTo(json: Codec<Alpha>, s: Alpha) returns (dst: Beta)
    ensures dst == To(json, s)
  {
    var templates := CopyTemplates(s.spec.templates);
    var mode := RUNNING;
    if s.spec.replicas.Some? && s.spec.replicas.value == 0 {
      mode := SUSPENDED;
    }
    var copy := s.(meta := s.meta.(annotations := s.meta.annotations - {STATE}));
    var annotations := s.meta.annotations;
    annotations := annotations[STATE := json.encode(copy)];
    var spec := BetaSpec(s.spec.podSpec, s.spec.podLabels, s.spec.podAnnotations, templates,
                         s.spec.shutdownTime, s.spec.shutdownPolicy, mode, s.spec.service);
    dst := Beta(s.meta.(annotations := annotations), spec, StatusTo(s.status));
  }

  method ConvertFrom(json: Codec<Alpha>, src: Beta) returns (r: Option<Alpha>)
    ensures r == From(json, src)
  {
    var templates := CopyTemplates(src.spec.templates);
    var replicas, shown := Some(1), 1;
    if src.spec.operatingMode == SUSPENDED {
      replicas, shown := Some(0), 0;
    }
    var annotations := src.meta.annotations;
    if STATE in annotations {
      var state := annotations[STATE];
      annotations := annotations - {STATE};
      var original := json.decode(state);
      if original.None? {
        return None;
      }
      if src.spec.operatingMode == SUSPENDED {
        replicas := Some(0);
      } else if src.spec.operatingMode == RUNNING {
        if original.value.spec.replicas.None? || original.value.spec.replicas.value != 0 {
          replicas := original.value.spec.replicas;
        } else {
          replicas := Some(1);
        }
      }
      shown := original.value.status.replicas;
    }
    var spec := AlphaSpec(src.spec.podSpec, src.spec.podLabels, src.spec.podAnnotations, templates,
                          src.spec.shutdownTime, src.spec.shutdownPolicy, replicas, src.spec.service);
    var status := AlphaStatus(src.status.serviceFqdn, src.status.service, src.status.conditions, shown,
                              src.status.selector, src.status.podIPs);
    r := Some(Alpha(src.meta.(annotations := annotations), spec, status));
  }
}
