/** Propagating a Sandbox's pod-template labels and annotations to its Pod. The controller records
    the keys it wrote in two comma-joined annotations, so that keys later dropped from the template
    can be removed again. */
module PodMetadata {
  import opened Text
  import opened Sorting

  const SANDBOX_LABEL := "agents.x-k8s.io/sandbox-name-hash"
  const WARM_POOL_LABEL := "agents.x-k8s.io/warm-pool-sandbox"
  const TEMPLATE_HASH_LABEL := "agents.x-k8s.io/sandbox-template-ref-hash"
  const CREATED_BY_LABEL := "agents.x-k8s.io/created-by"
  const PROPAGATED_LABELS := "agents.x-k8s.io/propagated-labels"
  const PROPAGATED_ANNOTATIONS := "agents.x-k8s.io/propagated-annotations"
  const TRACE_CONTEXT := "opentelemetry.io/trace-context"
  const EXTENSIONS_GROUP := "extensions.agents.x-k8s.io"

  type Keys = map<string, string>

  predicate IsSystemLabel(k: string) {
    HasPrefix(k, "agents.x-k8s.io/") || HasPrefix(k, "extensions.agents.x-k8s.io/")
  }

  predicate IsSystemAnnotation(k: string) {
    IsSystemLabel(k) || k == TRACE_CONTEXT
  }

  function NormalizeCreatedBy(v: string): string {
    if v in ["go-client", "python-client", "controller", "loadgen"] then v else "unknown"
  }

  datatype Owner = Owner(group: string, kind: string)

  datatype Sandbox = Sandbox(labels: Keys, controller: Option<Owner>, templateLabels: Keys, templateAnnotations: Keys)

  datatype Metadata = Metadata(labels: Keys, annotations: Keys)

  // ---------------------------------------------------------------- editing one map

  /** A missing key reads as the empty string. */
  function Get(m: Keys, k: string): string {
    if k in m then m[k] else ""
  }

  function Put(m: Keys, k: string, v: string): Keys {
    if Get(m, k) != v then m[k := v] else m
  }

  /** An empty expected value removes the key. */
  function Owned(m: Keys, k: string, v: string): Keys {
    if v != "" then Put(m, k, v) else m - {k}
  }

  function Managed(template: Keys, system: string -> bool): set<string> {
    set k | k in template && !system(k)
  }

  /** The template's values for `keys` on top of m. */
  function Merge(m: Keys, template: Keys, keys: set<string>): Keys
    requires keys <= template.Keys
  {
    map k | k in m.Keys + keys && (k in m || template[k] != "") :: if k in keys then template[k] else m[k]
  }

  /** The recorded keys that go: system keys other than the controller's own, and keys no longer
      in the template. */
  function Doomed(pieces: seq<string>, template: Keys, system: string -> bool, kept: set<string>): set<string> {
    set k | k in pieces && k != "" && (if system(k) then k !in kept else k !in template)
  }

  /** Some key does not read as the template has it. */
  ghost predicate Differs(m: Keys, template: Keys, keys: set<string>)
    requires keys <= template.Keys
  {
    exists k :: k in keys && Get(m, k) != template[k]
  }

  lemma MergeOne(m: Keys, template: Keys, keys: set<string>, k: string)
    requires keys <= template.Keys && k in template && k !in keys
    ensures Merge(m, template, keys + {k}) == Put(Merge(m, template, keys), k, template[k])
    ensures Get(Merge(m, template, keys), k) == Get(m, k)
    ensures Differs(m, template, keys + {k}) <==> Differs(m, template, keys) || Get(m, k) != template[k]
  {
    assert Merge(m, template, keys + {k}) == Put(Merge(m, template, keys), k, template[k]);
    if Get(m, k) != template[k] {
      assert k in keys + {k};
    }
    assert forall x :: x in keys ==> x in keys + {k};
  }

  lemma MergeChanges(m: Keys, template: Keys, keys: set<string>)
    requires keys <= template.Keys
    ensures Merge(m, template, keys) != m <==> Differs(m, template, keys)
  {
    if k :| k in keys && Get(m, k) != template[k] {
      assert Get(Merge(m, template, keys), k) == template[k];
    } else {
      assert Merge(m, template, keys) == m;
    }
  }

  lemma ManagedOne(template: Keys, system: string -> bool, rest: set<string>, done: set<string>, managed: seq<string>,
                   k: string)
    requires done == Managed(template, system) - rest && k in rest && k in template
    requires multiset(managed) == multiset(done)
    ensures k !in done
    ensures (if system(k) then done else done + {k}) == Managed(template, system) - (rest - {k})
    ensures multiset(managed + [k]) == multiset(done + {k})
  {
    assert multiset(done + {k}) == multiset(done) + multiset{k};
  }

  /** The loop's state when `rest` is still to come. */
  ghost predicate Propagating(m: Keys, template: Keys, system: string -> bool, rest: set<string>,
                              r: Keys, managed: seq<string>, updated: bool) {
    var done := Managed(template, system) - rest;
    && r == Merge(m, template, done)
    && multiset(managed) == multiset(done)
    && (updated <==> Differs(m, template, done))
  }

  lemma PropagateOne(m: Keys, template: Keys, system: string -> bool, rest: set<string>,
                     r: Keys, managed: seq<string>, updated: bool, k: string)
    requires Propagating(m, template, system, rest, r, managed, updated) && k in rest && k in template
    ensures system(k) ==> Propagating(m, template, system, rest - {k}, r, managed, updated)
    ensures !system(k) ==> Propagating(m, template, system, rest - {k}, Put(r, k, template[k]), managed + [k],
                                       updated || Get(r, k) != template[k])
  {
    var done := Managed(template, system) - rest;
    ManagedOne(template, system, rest, done, managed, k);
    MergeOne(m, template, done, k);
  }

  lemma PropagateNone(m: Keys, template: Keys, system: string -> bool)
    ensures Propagating(m, template, system, template.Keys, m, [], false)
  {
    assert Managed(template, system) - template.Keys == {};
    assert Merge(m, template, {}) == m;
  }

  lemma PropagateAll(m: Keys, template: Keys, system: string -> bool, r: Keys, managed: seq<string>, updated: bool)
    requires Propagating(m, template, system, {}, r, managed, updated)
    ensures r == Merge(m, template, Managed(template, system))
              && multiset(managed) == multiset(Managed(template, system))
    ensures updated <==> r != m
  {
    assert Managed(template, system) - {} == Managed(template, system);
    MergeChanges(m, template, Managed(template, system));
  }

  /** The loop that propagates a template. */
  method Propagate(m: Keys, template: Keys, system: string -> bool)
    returns (r: Keys, managed: seq<string>, updated: bool)
    ensures r == Merge(m, template, Managed(template, system))
    ensures multiset(managed) == multiset(Managed(template, system))
    ensures updated <==> r != m
  {
    r, managed, updated := m, [], false;
    var rest := template.Keys;
    PropagateNone(m, template, system);
    while rest != {}
      invariant rest <= template.Keys && Propagating(m, template, system, rest, r, managed, updated)
      decreases rest
    {
      var k :| k in rest;
      PropagateOne(m, template, system, rest, r, managed, updated, k);
      if !system(k) {
        if Get(r, k) != template[k] {
          r := r[k := template[k]];
          updated := true;
        }
        managed := managed + [k];
      }
      rest := rest - {k};
    }
    PropagateAll(m, template, system, r, managed, updated);
  }

  /** A recorded key the template does not have any more. */
  predicate IsStale(k: string, template: Keys, system: string -> bool) {
    k != "" && !system(k) && k !in template
  }

  /** A recorded system key that is on the object and not the controller's own. */
  predicate IsForeign(k: string, m: Keys, system: string -> bool, kept: set<string>) {
    k != "" && system(k) && k !in kept && k in m
  }

  ghost predicate Dirty(m: Keys, pieces: seq<string>, template: Keys, system: string -> bool, kept: set<string>) {
    exists k :: k in pieces && (IsStale(k, template, system) || IsForeign(k, m, system, kept))
  }

  lemma DirtyOne(m: Keys, pieces: seq<string>, k: string, template: Keys, system: string -> bool, kept: set<string>)
    ensures Dirty(m, pieces + [k], template, system, kept) <==>
            Dirty(m, pieces, template, system, kept) || IsStale(k, template, system) || IsForeign(k, m, system, kept)
  {
    assert k in pieces + [k];
    assert forall x :: x in pieces ==> x in pieces + [k];
  }

  lemma ScrubOne(m: Keys, pieces: seq<string>, k: string, template: Keys, system: string -> bool, kept: set<string>)
    ensures var r := m - Doomed(pieces, template, system, kept);
            m - Doomed(pieces + [k], template, system, kept) ==
            if IsStale(k, template, system) || IsForeign(k, r, system, kept) then r - {k} else r
    ensures IsForeign(k, m, system, kept) && k !in m - Doomed(pieces, template, system, kept) ==>
              Dirty(m, pieces, template, system, kept)
  {
    var doomed := Doomed(pieces, template, system, kept);
    if IsStale(k, template, system) || IsForeign(k, m - doomed, system, kept) {
      assert Doomed(pieces + [k], template, system, kept) == doomed + {k};
      assert m - (doomed + {k}) == (m - doomed) - {k};
    } else {
      assert m - Doomed(pieces + [k], template, system, kept) == m - doomed;
    }
  }

  /** The loop's state when the recorded keys in `done` have been looked at. */
  ghost predicate Scrubbed(m: Keys, done: seq<string>, template: Keys, system: string -> bool, kept: set<string>,
                           r: Keys, updated: bool) {
    r == m - Doomed(done, template, system, kept) && (updated <==> Dirty(m, done, template, system, kept))
  }

  lemma ScrubNext(m: Keys, done: seq<string>, k: string, template: Keys, system: string -> bool, kept: set<string>,
                  r: Keys, updated: bool)
    requires Scrubbed(m, done, template, system, kept, r, updated)
    ensures var hit := IsStale(k, template, system) || IsForeign(k, r, system, kept);
            Scrubbed(m, done + [k], template, system, kept, if hit then r - {k} else r, updated || hit)
  {
    ScrubOne(m, done, k, template, system, kept);
    DirtyOne(m, done, k, template, system, kept);
  }

  /** The loop that removes recorded keys. */
  method ScrubPieces(m: Keys, pieces: seq<string>, template: Keys, system: string -> bool, kept: set<string>)
    returns (r: Keys, updated: bool)
    ensures Scrubbed(m, pieces, template, system, kept, r, updated)
  {
    r, updated := m, false;
    for i := 0 to |pieces|
      invariant Scrubbed(m, pieces[..i], template, system, kept, r, updated)
    {
      var k := pieces[i];
      assert pieces[..i + 1] == pieces[..i] + [k];
      ScrubNext(m, pieces[..i], k, template, system, kept, r, updated);
      if k != "" {
        if system(k) {
          if k !in kept && k in r {
            r := r - {k};
            updated := true;
          }
        } else if k !in template {
          r := r - {k};
          updated := true;
        }
      }
    }
    assert pieces[..|pieces|] == pieces;
  }

  lemma NothingRecorded(m: Keys, template: Keys, system: string -> bool, kept: set<string>)
    ensures Scrubbed(m, SplitComma(""), template, system, kept, m, false)
  {
    assert SplitComma("") == [""];
    assert Doomed([""], template, system, kept) == {};
    assert m - {} == m;
  }

  method Scrub(m: Keys, recorded: string, template: Keys, system: string -> bool, kept: set<string>)
    returns (r: Keys, updated: bool)
    ensures Scrubbed(m, SplitComma(recorded), template, system, kept, r, updated)
  {
    if recorded == "" {
      NothingRecorded(m, template, system, kept);
      return m, false;
    }
    r, updated := ScrubPieces(m, SplitComma(recorded), template, system, kept);
  }

  // ---------------------------------------------------------------- the record of written keys

  ghost predicate Clean(template: Keys) {
    forall k :: k in template ==> k != "" && ',' !in k
  }

  /** `record` is the sorted, comma-joined list of `keys`. */
  ghost predicate Records(record: string, keys: set<string>) {
    exists ks: seq<string> :: Sorted(AtMost, ks) && multiset(ks) == multiset(keys) && record == JoinComma(ks)
  }

  lemma RecordUnique(a: string, b: string, keys: set<string>)
    requires Records(a, keys) && Records(b, keys)
    ensures a == b
  {
    var ks :| Sorted(AtMost, ks) && multiset(ks) == multiset(keys) && a == JoinComma(ks);
    var ls :| Sorted(AtMost, ls) && multiset(ls) == multiset(keys) && b == JoinComma(ls);
    SortedUnique(ks, ls);
  }

  /** Splitting a record gives back exactly the recorded keys. */
  lemma RecordSplits(record: string, keys: set<string>, k: string)
    requires Records(record, keys) && (forall x :: x in keys ==> x != "" && ',' !in x)
    ensures k in SplitComma(record) && k != "" <==> k in keys
  {
    var ks :| Sorted(AtMost, ks) && multiset(ks) == multiset(keys) && record == JoinComma(ks);
    forall x ensures x in ks <==> x in keys {
      assert x in multiset(ks) <==> x in multiset(keys);
    }
    if ks == [] {
      assert SplitComma(record) == [""];
    } else {
      SplitJoin(ks);
    }
  }

  // ---------------------------------------------------------------- the whole update

  function ExpectedWarmPool(sb: Sandbox): string {
    if sb.controller.Some? && sb.controller.value == Owner(EXTENSIONS_GROUP, "SandboxWarmPool")
    then Get(sb.labels, WARM_POOL_LABEL) else ""
  }

  function ExpectedTemplateHash(sb: Sandbox): string {
    if sb.controller.Some? && sb.controller.value.group == EXTENSIONS_GROUP
    then Get(sb.labels, TEMPLATE_HASH_LABEL) else ""
  }

  function ExpectedCreatedBy(sb: Sandbox): string {
    if Get(sb.labels, CREATED_BY_LABEL) != "" then NormalizeCreatedBy(sb.labels[CREATED_BY_LABEL]) else ""
  }

  function ManagedLabels(sb: Sandbox): set<string> { Managed(sb.templateLabels, IsSystemLabel) }

  function ManagedAnnotations(sb: Sandbox): set<string> { Managed(sb.templateAnnotations, IsSystemAnnotation) }

  function DoomedLabels(p: Metadata, sb: Sandbox): set<string> {
    Doomed(SplitComma(Get(p.annotations, PROPAGATED_LABELS)), sb.templateLabels, IsSystemLabel, {SANDBOX_LABEL})
  }

  function DoomedAnnotations(annotations: Keys, sb: Sandbox): set<string> {
    Doomed(SplitComma(Get(annotations, PROPAGATED_ANNOTATIONS)), sb.templateAnnotations, IsSystemAnnotation,
           {PROPAGATED_LABELS, PROPAGATED_ANNOTATIONS})
  }

  function OwnedLabels(m: Keys, sb: Sandbox): Keys {
    Owned(Owned(Owned(m, WARM_POOL_LABEL, ExpectedWarmPool(sb)), TEMPLATE_HASH_LABEL, ExpectedTemplateHash(sb)),
          CREATED_BY_LABEL, ExpectedCreatedBy(sb))
  }

  /** The labels before the extension-owned ones are set. */
  function PropagatedLabels(p: Metadata, sb: Sandbox, hash: string): Keys {
    Merge(Put(p.labels, SANDBOX_LABEL, hash), sb.templateLabels, ManagedLabels(sb)) - DoomedLabels(p, sb)
  }

  function NewLabels(p: Metadata, sb: Sandbox, hash: string): Keys {
    OwnedLabels(PropagatedLabels(p, sb, hash), sb)
  }

  /** The annotations before the two records are written. */
  function ScrubbedAnnotations(annotations: Keys, sb: Sandbox): Keys {
    Merge(annotations, sb.templateAnnotations, ManagedAnnotations(sb)) - DoomedAnnotations(annotations, sb)
  }

  function NewAnnotations(annotations: Keys, sb: Sandbox, labelRecord: string, annotationRecord: string): Keys {
    Put(Put(ScrubbedAnnotations(annotations, sb),
            PROPAGATED_LABELS, labelRecord), PROPAGATED_ANNOTATIONS, annotationRecord)
  }

  /** `q` is the Pod's metadata after one update of `p`. */
  ghost predicate Updated(p: Metadata, sb: Sandbox, hash: string, q: Metadata) {
    && q.labels == NewLabels(p, sb, hash)
    && exists ls, ann :: Records(ls, ManagedLabels(sb)) && Records(ann, ManagedAnnotations(sb))
                         && q.annotations == NewAnnotations(p.annotations, sb, ls, ann)
  }

  lemma SystemKeys()
    ensures IsSystemLabel(SANDBOX_LABEL) && IsSystemLabel(WARM_POOL_LABEL) && IsSystemLabel(TEMPLATE_HASH_LABEL)
    ensures IsSystemLabel(CREATED_BY_LABEL) && IsSystemAnnotation(PROPAGATED_LABELS)
              && IsSystemAnnotation(PROPAGATED_ANNOTATIONS)
    ensures SANDBOX_LABEL != WARM_POOL_LABEL && WARM_POOL_LABEL != TEMPLATE_HASH_LABEL
              && TEMPLATE_HASH_LABEL != CREATED_BY_LABEL
    ensures SANDBOX_LABEL != TEMPLATE_HASH_LABEL && SANDBOX_LABEL != CREATED_BY_LABEL
              && WARM_POOL_LABEL != CREATED_BY_LABEL
    ensures PROPAGATED_LABELS != PROPAGATED_ANNOTATIONS
  {
    var prefix := "agents.x-k8s.io/";
    assert SANDBOX_LABEL[..|prefix|] == prefix && SANDBOX_LABEL[|prefix|] == 's' && |SANDBOX_LABEL| == 33;
    assert WARM_POOL_LABEL[..|prefix|] == prefix && WARM_POOL_LABEL[|prefix|] == 'w';
    assert TEMPLATE_HASH_LABEL[..|prefix|] == prefix && TEMPLATE_HASH_LABEL[|prefix|] == 's'
           && |TEMPLATE_HASH_LABEL| == 41;
    assert CREATED_BY_LABEL[..|prefix|] == prefix && CREATED_BY_LABEL[|prefix|] == 'c';
    assert PROPAGATED_LABELS[..|prefix|] == prefix;
    assert PROPAGATED_ANNOTATIONS[..|prefix|] == prefix && |PROPAGATED_LABELS| < |PROPAGATED_ANNOTATIONS|;
  }

  ghost predicate Same(m: Keys, n: Keys, k: string) {
    (k in m <==> k in n) && (k in m ==> m[k] == n[k])
  }

  /** The key has this value, or is absent when the value is empty. */
  ghost predicate Reads(m: Keys, k: string, v: string) {
    if v == "" then k !in m else k in m && m[k] == v
  }

  lemma OwnedAt(m: Keys, k: string, v: string, x: string)
    ensures Get(Owned(m, k, v), k) == v && (v == "" ==> k !in Owned(m, k, v))
    ensures x != k ==> Same(m, Owned(m, k, v), x)
  {
  }

  lemma OwnedLabelsAt(m: Keys, sb: Sandbox, x: string)
    ensures Reads(OwnedLabels(m, sb), WARM_POOL_LABEL, ExpectedWarmPool(sb))
    ensures Reads(OwnedLabels(m, sb), TEMPLATE_HASH_LABEL, ExpectedTemplateHash(sb))
    ensures Reads(OwnedLabels(m, sb), CREATED_BY_LABEL, ExpectedCreatedBy(sb))
    ensures x !in {WARM_POOL_LABEL, TEMPLATE_HASH_LABEL, CREATED_BY_LABEL} ==> Same(m, OwnedLabels(m, sb), x)
  {
    SystemKeys();
    var a := Owned(m, WARM_POOL_LABEL, ExpectedWarmPool(sb));
    var b := Owned(a, TEMPLATE_HASH_LABEL, ExpectedTemplateHash(sb));
    OwnedAt(m, WARM_POOL_LABEL, ExpectedWarmPool(sb), x);
    OwnedAt(a, TEMPLATE_HASH_LABEL, ExpectedTemplateHash(sb), x);
    OwnedAt(a, TEMPLATE_HASH_LABEL, ExpectedTemplateHash(sb), WARM_POOL_LABEL);
    OwnedAt(b, CREATED_BY_LABEL, ExpectedCreatedBy(sb), x);
    OwnedAt(b, CREATED_BY_LABEL, ExpectedCreatedBy(sb), WARM_POOL_LABEL);
    OwnedAt(b, CREATED_BY_LABEL, ExpectedCreatedBy(sb), TEMPLATE_HASH_LABEL);
  }

  lemma PropagatedAt(p: Metadata, sb: Sandbox, hash: string, k: string)
    ensures var labels := PropagatedLabels(p, sb, hash);
            if IsSystemLabel(k)
            then (if k == SANDBOX_LABEL then Get(labels, k) == hash
                  else if k in SplitComma(Get(p.annotations, PROPAGATED_LABELS)) then k !in labels
                  else Same(p.labels, labels, k))
            else if k in sb.templateLabels then Get(labels, k) == sb.templateLabels[k]
            else if k in SplitComma(Get(p.annotations, PROPAGATED_LABELS)) && k != "" then k !in labels
            else Same(p.labels, labels, k)
  {
    SystemKeys();
  }

  /** What one update does to a label that is not the system's. */
  lemma LabelAfter(p: Metadata, sb: Sandbox, hash: string, k: string)
    requires !IsSystemLabel(k) && k != ""
    ensures var labels := NewLabels(p, sb, hash);
            if k in sb.templateLabels then Get(labels, k) == sb.templateLabels[k]
            else if k in SplitComma(Get(p.annotations, "agents.x-k8s.io/propagated-labels")) then k !in labels
            else Same(p.labels, labels, k)
  {
    SystemKeys();
    PropagatedAt(p, sb, hash, k);
    OwnedLabelsAt(PropagatedLabels(p, sb, hash), sb, k);
  }

  lemma ScrubbedAt(annotations: Keys, sb: Sandbox, k: string)
    requires !IsSystemAnnotation(k) && k != ""
    ensures var after := ScrubbedAnnotations(annotations, sb);
            if k in sb.templateAnnotations then Get(after, k) == sb.templateAnnotations[k]
            else if k in SplitComma(Get(annotations, PROPAGATED_ANNOTATIONS)) then k !in after
            else Same(annotations, after, k)
  {
  }

  /** What one update does to an annotation that is not the system's. */
  lemma AnnotationAfter(annotations: Keys, sb: Sandbox, ls: string, ann: string, k: string)
    requires !IsSystemAnnotation(k) && k != ""
    ensures var after := NewAnnotations(annotations, sb, ls, ann);
            if k in sb.templateAnnotations then Get(after, k) == sb.templateAnnotations[k]
            else if k in SplitComma(Get(annotations, "agents.x-k8s.io/propagated-annotations")) then k !in after
            else Same(annotations, after, k)
  {
    SystemKeys();
    ScrubbedAt(annotations, sb, k);
  }

  /** The keys reserved for the system. */
  ghost predicate Reserved(k: string) {
    || (|k| >= 16 && k[..16] == "agents.x-k8s.io/")
    || (|k| >= 27 && k[..27] == "extensions.agents.x-k8s.io/")
  }

  lemma ReservedExactly(k: string)
    ensures IsSystemLabel(k) <==> Reserved(k)
    ensures IsSystemAnnotation(k) <==> Reserved(k) || k == "opentelemetry.io/trace-context"
  {
  }

  /** The label the Pod takes over from its Sandbox, for a controller that may hand it on. */
  ghost predicate TakenOver(labels: Keys, sb: Sandbox, k: string, handsOn: bool) {
    Reads(labels, k, if handsOn && k in sb.labels then sb.labels[k] else "")
  }

  /** Where the creator comes from: one of the known clients, or unknown if some other is named. */
  ghost predicate CreatorTakenOver(labels: Keys, sb: Sandbox) {
    var k := "agents.x-k8s.io/created-by";
    if k !in sb.labels || sb.labels[k] == "" then k !in labels
    else if sb.labels[k] in {"go-client", "python-client", "controller", "loadgen"} then Reads(labels, k, sb.labels[k])
    else Reads(labels, k, "unknown")
  }

  /** The system's own labels are the controller's alone: no template can set them. The Pod has the pool's
      label exactly if a pool of the extensions controls its Sandbox, the template's hash exactly if any
      object of the extensions does, and the creator's by name. */
  lemma SystemLabelsAfter(p: Metadata, sb: Sandbox, hash: string, k: string)
    requires Reserved(k)
    ensures var labels, group := NewLabels(p, sb, hash), "extensions.agents.x-k8s.io";
            if k == "agents.x-k8s.io/sandbox-name-hash" then Get(labels, k) == hash
            else if k == "agents.x-k8s.io/warm-pool-sandbox" then
              TakenOver(labels, sb, k, sb.controller == Some(Owner(group, "SandboxWarmPool")))
            else if k == "agents.x-k8s.io/sandbox-template-ref-hash" then
              TakenOver(labels, sb, k, sb.controller.Some? && sb.controller.value.group == group)
            else if k == "agents.x-k8s.io/created-by" then CreatorTakenOver(labels, sb)
            else if k in SplitComma(Get(p.annotations, "agents.x-k8s.io/propagated-labels")) then k !in labels
            else Same(p.labels, labels, k)
  {
    SystemKeys();
    ReservedExactly(k);
    PropagatedAt(p, sb, hash, k);
    OwnedLabelsAt(PropagatedLabels(p, sb, hash), sb, k);
  }

  lemma RecordsAfter(annotations: Keys, sb: Sandbox, ls: string, ann: string)
    ensures Get(NewAnnotations(annotations, sb, ls, ann), PROPAGATED_LABELS) == ls
    ensures Get(NewAnnotations(annotations, sb, ls, ann), PROPAGATED_ANNOTATIONS) == ann
  {
    SystemKeys();
  }

  // ---------------------------------------------------------------- histories

  datatype Edit = Edit(sandbox: Sandbox, hash: string)

  /** Each edit of the Sandbox is followed by one update of the Pod. */
  ghost predicate History(pods: seq<Metadata>, edits: seq<Edit>) {
    && |pods| == |edits| + 1
    && forall i :: 0 <= i < |edits| ==>
         && Clean(edits[i].sandbox.templateLabels) && Clean(edits[i].sandbox.templateAnnotations)
         && Updated(pods[i], edits[i].sandbox, edits[i].hash, pods[i + 1])
  }

  lemma RecordsKept(p: Metadata, sb: Sandbox, hash: string, q: Metadata, k: string)
    requires Updated(p, sb, hash, q) && Clean(sb.templateLabels) && Clean(sb.templateAnnotations)
    ensures k in SplitComma(Get(q.annotations, PROPAGATED_LABELS)) && k != "" <==> k in ManagedLabels(sb)
    ensures k in SplitComma(Get(q.annotations, PROPAGATED_ANNOTATIONS)) && k != "" <==> k in ManagedAnnotations(sb)
  {
    var ls, ann :| Records(ls, ManagedLabels(sb)) && Records(ann, ManagedAnnotations(sb))
                   && q.annotations == NewAnnotations(p.annotations, sb, ls, ann);
    RecordsAfter(p.annotations, sb, ls, ann);
    RecordSplits(ls, ManagedLabels(sb), k);
    RecordSplits(ann, ManagedAnnotations(sb), k);
  }

  /** One key of one map over a history: its recorded keys, the templates and the outcomes. */
  datatype Trace = Trace(maps: seq<Keys>, recorded: seq<seq<string>>, templates: seq<Keys>)

  ghost predicate Outcome(first: Keys, template: Keys, ever: bool, last: Keys, k: string) {
    if k in template then Get(last, k) == template[k] else if ever then k !in last else Same(first, last, k)
  }

  ghost predicate Traced(t: Trace, k: string) {
    && |t.maps| == |t.recorded| == |t.templates| + 1
    && (forall i :: 0 <= i < |t.templates| ==> Outcome(t.maps[i], t.templates[i], k in t.recorded[i], t.maps[i + 1], k))
    && (forall i :: 0 <= i < |t.templates| ==> (k in t.recorded[i + 1] <==> k in t.templates[i]))
  }

  /** The key was recorded at the start or in some template. */
  ghost predicate Ever(t: Trace, k: string)
    requires t.recorded != []
  {
    k in t.recorded[0] || exists i :: 0 <= i < |t.templates| && k in t.templates[i]
  }

  lemma {:induction false} TraceOutcome(t: Trace, k: string)
    requires Traced(t, k) && t.templates != []
    ensures Outcome(t.maps[0], t.templates[|t.templates| - 1], Ever(t, k), t.maps[|t.templates|], k)
    decreases |t.templates|
  {
    var n := |t.templates| - 1;
    assert Outcome(t.maps[n], t.templates[n], k in t.recorded[n], t.maps[n + 1], k);
    if n > 0 {
      var front := Trace(t.maps[..n + 1], t.recorded[..n + 1], t.templates[..n]);
      assert Traced(front, k);
      TraceOutcome(front, k);
      if k !in t.templates[n] {
        assert Ever(front, k) <==> Ever(t, k) by {
          assert forall i :: 0 <= i < n ==> front.templates[i] == t.templates[i];
        }
      }
    }
  }

  function LabelTrace(pods: seq<Metadata>, edits: seq<Edit>): Trace {
    Trace(seq(|pods|, i requires 0 <= i < |pods| => pods[i].labels),
          seq(|pods|, i requires 0 <= i < |pods| => SplitComma(Get(pods[i].annotations, PROPAGATED_LABELS))),
          seq(|edits|, i requires 0 <= i < |edits| => edits[i].sandbox.templateLabels))
  }

  function AnnotationTrace(pods: seq<Metadata>, edits: seq<Edit>): Trace {
    Trace(seq(|pods|, i requires 0 <= i < |pods| => pods[i].annotations),
          seq(|pods|, i requires 0 <= i < |pods| => SplitComma(Get(pods[i].annotations, PROPAGATED_ANNOTATIONS))),
          seq(|edits|, i requires 0 <= i < |edits| => edits[i].sandbox.templateAnnotations))
  }

  lemma EditOutcome(p: Metadata, sb: Sandbox, hash: string, q: Metadata, k: string)
    requires Updated(p, sb, hash, q) && k != ""
    ensures !IsSystemLabel(k) ==>
              Outcome(p.labels, sb.templateLabels, k in SplitComma(Get(p.annotations, PROPAGATED_LABELS)), q.labels, k)
    ensures !IsSystemAnnotation(k) ==>
              Outcome(p.annotations, sb.templateAnnotations,
                      k in SplitComma(Get(p.annotations, PROPAGATED_ANNOTATIONS)), q.annotations, k)
  {
    var ls, ann :| Records(ls, ManagedLabels(sb)) && Records(ann, ManagedAnnotations(sb))
                   && q.annotations == NewAnnotations(p.annotations, sb, ls, ann);
    if !IsSystemLabel(k) {
      LabelAfter(p, sb, hash, k);
    }
    if !IsSystemAnnotation(k) {
      AnnotationAfter(p.annotations, sb, ls, ann, k);
    }
  }

  lemma LabelTraceAt(pods: seq<Metadata>, edits: seq<Edit>, k: string, i: nat)
    requires History(pods, edits) && i < |edits| && !IsSystemLabel(k) && k != ""
    ensures var t := LabelTrace(pods, edits);
            && Outcome(t.maps[i], t.templates[i], k in t.recorded[i], t.maps[i + 1], k)
            && (k in t.recorded[i + 1] <==> k in t.templates[i])
  {
    var e := edits[i];
    EditOutcome(pods[i], e.sandbox, e.hash, pods[i + 1], k);
    RecordsKept(pods[i], e.sandbox, e.hash, pods[i + 1], k);
  }

  lemma AnnotationTraceAt(pods: seq<Metadata>, edits: seq<Edit>, k: string, i: nat)
    requires History(pods, edits) && i < |edits| && !IsSystemAnnotation(k) && k != ""
    ensures var t := AnnotationTrace(pods, edits);
            && Outcome(t.maps[i], t.templates[i], k in t.recorded[i], t.maps[i + 1], k)
            && (k in t.recorded[i + 1] <==> k in t.templates[i])
  {
    var e := edits[i];
    EditOutcome(pods[i], e.sandbox, e.hash, pods[i + 1], k);
    RecordsKept(pods[i], e.sandbox, e.hash, pods[i + 1], k);
  }

  /** After any edits: a label of the last template reads as it says there, one that was ever
      templated and is not now is absent, and any other is as it was at the start. */
  lemma LabelHistory(pods: seq<Metadata>, edits: seq<Edit>, k: string)
    requires History(pods, edits) && edits != [] && !IsSystemLabel(k) && k != ""
    ensures Outcome(pods[0].labels, edits[|edits| - 1].sandbox.templateLabels, Ever(LabelTrace(pods, edits), k),
                    pods[|edits|].labels, k)
  {
    var t := LabelTrace(pods, edits);
    forall i | 0 <= i < |edits|
      ensures Outcome(t.maps[i], t.templates[i], k in t.recorded[i], t.maps[i + 1], k)
      ensures k in t.recorded[i + 1] <==> k in t.templates[i]
    {
      LabelTraceAt(pods, edits, k, i);
    }
    TraceOutcome(t, k);
  }

  /** The same of annotations. */
  lemma AnnotationHistory(pods: seq<Metadata>, edits: seq<Edit>, k: string)
    requires History(pods, edits) && edits != [] && !IsSystemAnnotation(k) && k != ""
    ensures Outcome(pods[0].annotations, edits[|edits| - 1].sandbox.templateAnnotations,
                    Ever(AnnotationTrace(pods, edits), k),
                    pods[|edits|].annotations, k)
  {
    var t := AnnotationTrace(pods, edits);
    forall i | 0 <= i < |edits|
      ensures Outcome(t.maps[i], t.templates[i], k in t.recorded[i], t.maps[i + 1], k)
      ensures k in t.recorded[i + 1] <==> k in t.templates[i]
    {
      AnnotationTraceAt(pods, edits, k, i);
    }
    TraceOutcome(t, k);
  }

  // ---------------------------------------------------------------- nothing left to do

  predicate Settled(m: Keys, k: string, v: string) {
    if v != "" then Get(m, k) == v else k !in m
  }

  lemma OwnedSettles(m: Keys, k: string, v: string, x: string, w: string)
    ensures Settled(Owned(m, k, v), k, v)
    ensures x != k ==> (Settled(Owned(m, k, v), x, w) <==> Settled(m, x, w))
    ensures Owned(m, k, v) == m <==> Settled(m, k, v)
  {
    if Settled(m, k, v) {
      assert m - {k} == m || v != "";
    }
  }

  predicate OwnedSettled(m: Keys, sb: Sandbox) {
    && Settled(m, WARM_POOL_LABEL, ExpectedWarmPool(sb))
    && Settled(m, TEMPLATE_HASH_LABEL, ExpectedTemplateHash(sb))
    && Settled(m, CREATED_BY_LABEL, ExpectedCreatedBy(sb))
  }

  lemma OwnedLabelsSettle(m: Keys, sb: Sandbox)
    ensures OwnedSettled(OwnedLabels(m, sb), sb)
    ensures OwnedSettled(m, sb) ==> OwnedLabels(m, sb) == m
  {
    SystemKeys();
    var wv, tv, cv := ExpectedWarmPool(sb), ExpectedTemplateHash(sb), ExpectedCreatedBy(sb);
    var a := Owned(m, WARM_POOL_LABEL, wv);
    var b := Owned(a, TEMPLATE_HASH_LABEL, tv);
    OwnedSettles(m, WARM_POOL_LABEL, wv, TEMPLATE_HASH_LABEL, tv);
    OwnedSettles(a, TEMPLATE_HASH_LABEL, tv, WARM_POOL_LABEL, wv);
    OwnedSettles(b, CREATED_BY_LABEL, cv, WARM_POOL_LABEL, wv);
    OwnedSettles(b, CREATED_BY_LABEL, cv, TEMPLATE_HASH_LABEL, tv);
  }

  /** Every recorded key is one the template still manages. */
  ghost predicate RecordCurrent(record: string, keys: set<string>) {
    forall k :: k in SplitComma(record) && k != "" ==> k in keys
  }

  lemma CurrentDoomsNothing(record: string, template: Keys, system: string -> bool, kept: set<string>, m: Keys)
    requires RecordCurrent(record, Managed(template, system))
    ensures Doomed(SplitComma(record), template, system, kept) == {}
    ensures !Dirty(m, SplitComma(record), template, system, kept)
  {
  }

  /** Nothing about the labels is left to do. */
  ghost predicate LabelsSettled(p: Metadata, sb: Sandbox, hash: string) {
    && Get(p.labels, SANDBOX_LABEL) == hash
    && !Differs(p.labels, sb.templateLabels, ManagedLabels(sb))
    && RecordCurrent(Get(p.annotations, PROPAGATED_LABELS), ManagedLabels(sb))
    && OwnedSettled(p.labels, sb)
  }

  lemma SettledLabelsStay(p: Metadata, sb: Sandbox, hash: string)
    requires LabelsSettled(p, sb, hash)
    ensures NewLabels(p, sb, hash) == p.labels
  {
    MergeChanges(p.labels, sb.templateLabels, ManagedLabels(sb));
    CurrentDoomsNothing(Get(p.annotations, PROPAGATED_LABELS), sb.templateLabels, IsSystemLabel, {SANDBOX_LABEL},
                        p.labels);
    assert p.labels - {} == p.labels;
    OwnedLabelsSettle(p.labels, sb);
  }

  ghost predicate AnnotationsSettled(annotations: Keys, sb: Sandbox, ls: string, ann: string) {
    && !Differs(annotations, sb.templateAnnotations, ManagedAnnotations(sb))
    && RecordCurrent(Get(annotations, PROPAGATED_ANNOTATIONS), ManagedAnnotations(sb))
    && Get(annotations, PROPAGATED_LABELS) == ls && Get(annotations, PROPAGATED_ANNOTATIONS) == ann
  }

  lemma SettledAnnotationsStay(annotations: Keys, sb: Sandbox, ls: string, ann: string)
    requires AnnotationsSettled(annotations, sb, ls, ann)
    ensures NewAnnotations(annotations, sb, ls, ann) == annotations
  {
    MergeChanges(annotations, sb.templateAnnotations, ManagedAnnotations(sb));
    CurrentDoomsNothing(Get(annotations, PROPAGATED_ANNOTATIONS), sb.templateAnnotations, IsSystemAnnotation,
                        {PROPAGATED_LABELS, PROPAGATED_ANNOTATIONS}, annotations);
    assert annotations - {} == annotations;
  }

  lemma LabelsSettle(p: Metadata, sb: Sandbox, hash: string, q: Metadata)
    requires Updated(p, sb, hash, q) && Clean(sb.templateLabels) && Clean(sb.templateAnnotations)
    ensures LabelsSettled(q, sb, hash)
  {
    SystemKeys();
    PropagatedAt(p, sb, hash, SANDBOX_LABEL);
    OwnedLabelsAt(PropagatedLabels(p, sb, hash), sb, SANDBOX_LABEL);
    OwnedLabelsSettle(PropagatedLabels(p, sb, hash), sb);
    forall k | k in ManagedLabels(sb) ensures Get(q.labels, k) == sb.templateLabels[k] {
      LabelAfter(p, sb, hash, k);
    }
    forall k | k in SplitComma(Get(q.annotations, PROPAGATED_LABELS)) && k != "" ensures k in ManagedLabels(sb) {
      RecordsKept(p, sb, hash, q, k);
    }
  }

  lemma AnnotationsSettle(p: Metadata, sb: Sandbox, hash: string, q: Metadata, ls: string, ann: string)
    requires Updated(p, sb, hash, q) && Clean(sb.templateLabels) && Clean(sb.templateAnnotations)
    requires Records(ls, ManagedLabels(sb)) && Records(ann, ManagedAnnotations(sb))
    ensures AnnotationsSettled(q.annotations, sb, ls, ann)
  {
    var l, a :| Records(l, ManagedLabels(sb)) && Records(a, ManagedAnnotations(sb))
                && q.annotations == NewAnnotations(p.annotations, sb, l, a);
    RecordUnique(l, ls, ManagedLabels(sb));
    RecordUnique(a, ann, ManagedAnnotations(sb));
    RecordsAfter(p.annotations, sb, ls, ann);
    forall k | k in ManagedAnnotations(sb) ensures Get(q.annotations, k) == sb.templateAnnotations[k] {
      AnnotationAfter(p.annotations, sb, ls, ann, k);
    }
    forall k | k in SplitComma(Get(q.annotations, PROPAGATED_ANNOTATIONS)) && k != ""
      ensures k in ManagedAnnotations(sb)
    {
      RecordsKept(p, sb, hash, q, k);
    }
  }

  /** An immediate second update changes nothing. */
  lemma SecondUpdateIsNothing(p: Metadata, sb: Sandbox, hash: string, q: Metadata, r: Metadata)
    requires Updated(p, sb, hash, q) && Updated(q, sb, hash, r) && Clean(sb.templateLabels)
               && Clean(sb.templateAnnotations)
    ensures r == q
  {
    var ls, ann :| Records(ls, ManagedLabels(sb)) && Records(ann, ManagedAnnotations(sb))
                   && r.annotations == NewAnnotations(q.annotations, sb, ls, ann);
    LabelsSettle(p, sb, hash, q);
    SettledLabelsStay(q, sb, hash);
    AnnotationsSettle(p, sb, hash, q, ls, ann);
    SettledAnnotationsStay(q.annotations, sb, ls, ann);
  }

  // ---------------------------------------------------------------- the update as the controller does it

  lemma NotDirtyKeepsAll(m: Keys, pieces: seq<string>, template: Keys, system: string -> bool, kept: set<string>)
    requires !Dirty(m, pieces, template, system, kept)
    ensures m - Doomed(pieces, template, system, kept) == m
  {
    forall k | k in m ensures k !in Doomed(pieces, template, system, kept) {
      if k in pieces {
        assert !IsStale(k, template, system) && !IsForeign(k, m, system, kept);
      }
    }
  }

  lemma RecordIsCurrent(record: string, template: Keys, system: string -> bool)
    requires Records(record, Managed(template, system)) && Clean(template)
    ensures RecordCurrent(record, Managed(template, system))
  {
    forall k | k in SplitComma(record) && k != "" ensures k in Managed(template, system) {
      RecordSplits(record, Managed(template, system), k);
    }
  }

  /** The update leaves the Pod alone exactly when nothing was left to do. */
  lemma UnchangedExactly(p: Metadata, sb: Sandbox, hash: string, q: Metadata, ls: string, ann: string)
    requires Updated(p, sb, hash, q) && Clean(sb.templateLabels) && Clean(sb.templateAnnotations)
    requires Records(ls, ManagedLabels(sb)) && Records(ann, ManagedAnnotations(sb))
    ensures q == p <==> LabelsSettled(p, sb, hash) && AnnotationsSettled(p.annotations, sb, ls, ann)
  {
    if q == p {
      LabelsSettle(p, sb, hash, q);
      AnnotationsSettle(p, sb, hash, q, ls, ann);
    }
    if LabelsSettled(p, sb, hash) && AnnotationsSettled(p.annotations, sb, ls, ann) {
      var l, a :| Records(l, ManagedLabels(sb)) && Records(a, ManagedAnnotations(sb))
                  && q.annotations == NewAnnotations(p.annotations, sb, l, a);
      RecordUnique(l, ls, ManagedLabels(sb));
      RecordUnique(a, ann, ManagedAnnotations(sb));
      SettledLabelsStay(p, sb, hash);
      SettledAnnotationsStay(p.annotations, sb, ls, ann);
    }
  }

  method Record(managed: seq<string>, ghost keys: set<string>) returns (record: string)
    requires multiset(managed) == multiset(keys)
    ensures Records(record, keys)
  {
    AtMostIsTotalPreorder();
    var sorted := SortBy(AtMost, managed);
    record := JoinComma(sorted);
  }

  method SetOwned(m: Keys, k: string, v: string) returns (r: Keys, updated: bool)
    ensures r == Owned(m, k, v)
    ensures updated <==> !Settled(m, k, v)
  {
    r, updated := m, false;
    if v != "" {
      if Get(m, k) != v {
        r, updated := m[k := v], true;
      }
    } else if k in m {
      r, updated := m - {k}, true;
    } else {
      assert m - {k} == m;
    }
  }

  method SetOwnedLabels(m: Keys, sb: Sandbox) returns (r: Keys, updated: bool)
    ensures r == OwnedLabels(m, sb)
    ensures updated <==> !OwnedSettled(m, sb)
  {
    SystemKeys();
    var u1, u2, u3;
    r, u1 := SetOwned(m, WARM_POOL_LABEL, ExpectedWarmPool(sb));
    OwnedSettles(m, WARM_POOL_LABEL, ExpectedWarmPool(sb), TEMPLATE_HASH_LABEL, ExpectedTemplateHash(sb));
    OwnedSettles(m, WARM_POOL_LABEL, ExpectedWarmPool(sb), CREATED_BY_LABEL, ExpectedCreatedBy(sb));
    OwnedSettles(r, TEMPLATE_HASH_LABEL, ExpectedTemplateHash(sb), CREATED_BY_LABEL, ExpectedCreatedBy(sb));
    r, u2 := SetOwned(r, TEMPLATE_HASH_LABEL, ExpectedTemplateHash(sb));
    r, u3 := SetOwned(r, CREATED_BY_LABEL, ExpectedCreatedBy(sb));
    updated := u1 || u2 || u3;
  }

  lemma LabelFlags(p: Metadata, sb: Sandbox, hash: string, merged: Keys, scrubbed: Keys)
    requires var pieces := SplitComma(Get(p.annotations, PROPAGATED_LABELS));
             && merged == Merge(Put(p.labels, SANDBOX_LABEL, hash), sb.templateLabels, ManagedLabels(sb))
             && scrubbed == merged - Doomed(pieces, sb.templateLabels, IsSystemLabel, {SANDBOX_LABEL})
    ensures var pieces := SplitComma(Get(p.annotations, PROPAGATED_LABELS));
            var updated := || Get(p.labels, SANDBOX_LABEL) != hash || merged != Put(p.labels, SANDBOX_LABEL, hash)
                           || Dirty(merged, pieces, sb.templateLabels, IsSystemLabel, {SANDBOX_LABEL})
                           || !OwnedSettled(scrubbed, sb);
            && (LabelsSettled(p, sb, hash) ==> !updated)
            && (!updated && RecordCurrent(Get(p.annotations, PROPAGATED_LABELS), ManagedLabels(sb)) ==>
                LabelsSettled(p, sb, hash))
  {
    var record := Get(p.annotations, PROPAGATED_LABELS);
    var pieces := SplitComma(record);
    MergeChanges(Put(p.labels, SANDBOX_LABEL, hash), sb.templateLabels, ManagedLabels(sb));
    if LabelsSettled(p, sb, hash) {
      CurrentDoomsNothing(record, sb.templateLabels, IsSystemLabel, {SANDBOX_LABEL}, merged);
      assert merged - {} == merged;
    }
    if !Dirty(merged, pieces, sb.templateLabels, IsSystemLabel, {SANDBOX_LABEL}) {
      NotDirtyKeepsAll(merged, pieces, sb.templateLabels, IsSystemLabel, {SANDBOX_LABEL});
    }
  }

  /** The annotation loops found something to do. */
  ghost predicate AnnotationWork(annotations: Keys, sb: Sandbox) {
    var merged := Merge(annotations, sb.templateAnnotations, ManagedAnnotations(sb));
    || merged != annotations
    || Dirty(merged, SplitComma(Get(annotations, PROPAGATED_ANNOTATIONS)), sb.templateAnnotations,
             IsSystemAnnotation, {PROPAGATED_LABELS, PROPAGATED_ANNOTATIONS})
  }

  lemma RecordsUntouched(annotations: Keys, sb: Sandbox)
    ensures var merged := Merge(annotations, sb.templateAnnotations, ManagedAnnotations(sb));
            Get(merged, PROPAGATED_ANNOTATIONS) == Get(annotations, PROPAGATED_ANNOTATIONS)
    ensures Get(ScrubbedAnnotations(annotations, sb), PROPAGATED_LABELS) == Get(annotations, PROPAGATED_LABELS)
    ensures Get(ScrubbedAnnotations(annotations, sb), PROPAGATED_ANNOTATIONS) ==
              Get(annotations, PROPAGATED_ANNOTATIONS)
  {
    SystemKeys();
  }

  method PropagateAnnotations(annotations: Keys, sb: Sandbox) returns (r: Keys, managed: seq<string>, updated: bool)
    ensures r == ScrubbedAnnotations(annotations, sb)
    ensures multiset(managed) == multiset(ManagedAnnotations(sb))
    ensures updated <==> AnnotationWork(annotations, sb)
  {
    var u1, u2;
    r, managed, u1 := Propagate(annotations, sb.templateAnnotations, IsSystemAnnotation);
    RecordsUntouched(annotations, sb);
    var record := Get(r, PROPAGATED_ANNOTATIONS);
    r, u2 := Scrub(r, record, sb.templateAnnotations, IsSystemAnnotation, {PROPAGATED_LABELS, PROPAGATED_ANNOTATIONS});
    updated := u1 || u2;
  }

  method WriteRecords(annotations: Keys, ls: string, ann: string) returns (r: Keys, updated: bool)
    ensures r == Put(Put(annotations, PROPAGATED_LABELS, ls), PROPAGATED_ANNOTATIONS, ann)
    ensures updated <==> Get(annotations, PROPAGATED_LABELS) != ls
                         || Get(Put(annotations, PROPAGATED_LABELS, ls), PROPAGATED_ANNOTATIONS) != ann
  {
    r, updated := annotations, false;
    if Get(r, PROPAGATED_LABELS) != ls {
      r, updated := r[PROPAGATED_LABELS := ls], true;
    }
    if Get(r, PROPAGATED_ANNOTATIONS) != ann {
      r, updated := r[PROPAGATED_ANNOTATIONS := ann], true;
    }
  }

  lemma AnnotationFlags(annotations: Keys, sb: Sandbox, ls: string, ann: string)
    requires Clean(sb.templateAnnotations) && Records(ann, ManagedAnnotations(sb))
    ensures !AnnotationsSettled(annotations, sb, ls, ann) <==>
            || AnnotationWork(annotations, sb)
            || Get(ScrubbedAnnotations(annotations, sb), PROPAGATED_LABELS) != ls
            || Get(Put(ScrubbedAnnotations(annotations, sb), PROPAGATED_LABELS, ls), PROPAGATED_ANNOTATIONS) != ann
  {
    SystemKeys();
    RecordsUntouched(annotations, sb);
    MergeChanges(annotations, sb.templateAnnotations, ManagedAnnotations(sb));
    if AnnotationsSettled(annotations, sb, ls, ann) {
      CurrentDoomsNothing(Get(annotations, PROPAGATED_ANNOTATIONS), sb.templateAnnotations, IsSystemAnnotation,
                          {PROPAGATED_LABELS, PROPAGATED_ANNOTATIONS}, annotations);
    }
    RecordIsCurrent(ann, sb.templateAnnotations, IsSystemAnnotation);
  }

  class Pod {
    var labels: Keys
    var annotations: Keys

    ghost function Meta(): Metadata
      reads this
    {
      Metadata(labels, annotations)
    }

    /** The label half. It goes by the keys recorded so far. */
    method UpdateLabels(sb: Sandbox, hash: string) returns (managed: seq<string>, updated: bool)
      modifies this`labels
      ensures labels == NewLabels(old(Meta()), sb, hash)
      ensures multiset(managed) == multiset(ManagedLabels(sb))
      ensures LabelsSettled(old(Meta()), sb, hash) ==> !updated
      ensures !updated && RecordCurrent(Get(annotations, PROPAGATED_LABELS), ManagedLabels(sb)) ==>
                LabelsSettled(old(Meta()), sb, hash)
    {
      ghost var first := labels;
      var u1 := Get(labels, SANDBOX_LABEL) != hash;
      var u2, u3, u4;
      if u1 {
        labels := labels[SANDBOX_LABEL := hash];
      }
      labels, managed, u2 := Propagate(labels, sb.templateLabels, IsSystemLabel);
      ghost var merged := labels;
      var record := Get(annotations, PROPAGATED_LABELS);
      labels, u3 := Scrub(labels, record, sb.templateLabels, IsSystemLabel, {SANDBOX_LABEL});
      ghost var scrubbed := labels;
      labels, u4 := SetOwnedLabels(labels, sb);
      updated := u1 || u2 || u3 || u4;
      LabelFlags(old(Meta()), sb, hash, merged, scrubbed);
    }

    method UpdateAnnotations(sb: Sandbox, managedLabels: seq<string>)
      returns (updated: bool, ghost ls: string, ghost ann: string)
      requires Clean(sb.templateLabels) && Clean(sb.templateAnnotations)
                 && multiset(managedLabels) == multiset(ManagedLabels(sb))
      modifies this`annotations
      ensures Records(ls, ManagedLabels(sb)) && Records(ann, ManagedAnnotations(sb))
      ensures annotations == NewAnnotations(old(annotations), sb, ls, ann)
      ensures updated <==> !AnnotationsSettled(old(annotations), sb, ls, ann)
    {
      var managed;
      annotations, managed, updated := PropagateAnnotations(annotations, sb);
      var newLabels := Record(managedLabels, ManagedLabels(sb));
      var newAnnotations := Record(managed, ManagedAnnotations(sb));
      ls, ann := newLabels, newAnnotations;
      AnnotationFlags(old(annotations), sb, ls, ann);
      var written;
      annotations, written := WriteRecords(annotations, newLabels, newAnnotations);
      updated := updated || written;
    }

    /** One update; it reports a change exactly when it made one. */
    method UpdatePodMetadata(sb: Sandbox, hash: string) returns (updated: bool)
      requires Clean(sb.templateLabels) && Clean(sb.templateAnnotations)
      modifies this
      ensures Updated(old(Meta()), sb, hash, Meta())
      ensures updated <==> Meta() != old(Meta())
    {
      var managed, u1 := UpdateLabels(sb, hash);
      ghost var ls, ann;
      var u2;
      u2, ls, ann := UpdateAnnotations(sb, managed);
      updated := u1 || u2;
      RecordIsCurrent(ls, sb.templateLabels, IsSystemLabel);
      UnchangedExactly(old(Meta()), sb, hash, Meta(), ls, ann);
    }
  }
}
