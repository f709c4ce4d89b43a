/** Sandboxes synthesized from node inventory: the claim reference a node echoes back, and the
    object served for one inventory entry. */
module SandboxSynthesis {
  import opened Text

  // ---------------------------------------------------------------- claim references

  function FormatClaimRef(namespace: string, name: string, uid: string): string {
    var ref := namespace + "/" + name;
    if uid == "" then ref else ref + "#" + uid
  }

  datatype ClaimRef = ClaimRef(namespace: string, name: string, uid: string)

  function SplitNamespacedName(s: string): (string, string) {
    match IndexOf(s, '/')
    case Some(i) => (s[..i], s[i + 1..])
    case None => ("default", s)
  }

  function ParseClaimRef(ref: string): ClaimRef {
    if ref == "" then ClaimRef("", "", "")
    else
      match IndexOf(ref, '#')
      case Some(i) => var (ns, name) := SplitNamespacedName(ref[..i]); ClaimRef(ns, name, ref[i + 1..])
      case None => var (ns, name) := SplitNamespacedName(ref); ClaimRef(ns, name, "")
  }

  /** A namespace and name a claim reference can carry. */
  predicate Carried(namespace: string, name: string) {
    '/' !in namespace && '#' !in namespace && '#' !in name
  }

  /** Whatever the reference, the parsed namespace has no slash and neither part a hash; nothing is read
      from nothing. */
  lemma ParsedIsCarried(ref: string)
    ensures Carried(ParseClaimRef(ref).namespace, ParseClaimRef(ref).name)
    ensures ref == "" ==> ParseClaimRef(ref) == ClaimRef("", "", "")
  {
    if ref != "" {
      var base := match IndexOf(ref, '#') case Some(i) => ref[..i] case None => ref;
      assert '#' !in base;
      var (ns, name) := SplitNamespacedName(base);
      match IndexOf(base, '/')
      case Some(i) =>
        assert forall c :: c in ns || c in name ==> c in base;
      case None =>
        assert ns == "default" && '/' !in "default" && '#' !in "default";
    }
  }

  /** Parsing undoes formatting for exactly the slash- and hash-free namespaces and hash-free
      names, whatever the UID. */
  lemma ParseUndoesFormatExactly(namespace: string, name: string, uid: string)
    ensures ParseClaimRef(FormatClaimRef(namespace, name, uid)) == ClaimRef(namespace, name, uid) <==>
              Carried(namespace, name)
  {
    ParsedIsCarried(FormatClaimRef(namespace, name, uid));
    if Carried(namespace, name) {
      var base := namespace + ['/'] + name;
      var ref := FormatClaimRef(namespace, name, uid);
      assert '#' !in base;
      if uid != "" {
        assert ref == base + ['#'] + uid;
        IndexOfSeparator(base, '#', uid);
        assert ref[..|base|] == base && ref[|base| + 1..] == uid;
      } else {
        assert ref == base;
      }
      IndexOfSeparator(namespace, '/', name);
      assert base[..|namespace|] == namespace && base[|namespace| + 1..] == name;
    }
  }

  // ---------------------------------------------------------------- entries and sandboxes

  datatype Entry = Entry(name: string, id: string, phase: string, claimRef: string, address: string)

  datatype OwnerRef = OwnerRef(kind: string, name: string, uid: string)

  datatype Sandbox = Sandbox(
    namespace: string,
    name: string,
    labels: map<string, string>,
    annotations: map<string, string>,
    uid: string,
    resourceVersion: string,
    owners: seq<OwnerRef>,
    node: string,
    address: string,
    phase: string,
    spec: Option<string>)

  /** The digests behind synthesized UIDs and resource versions. */
  datatype Digests = Digests(uid: string -> string, version: string -> string)

  const NODE_LABEL := "sandbox.cocoonstack.io/node"
  const PHASE_LABEL := "sandbox.cocoonstack.io/phase"
  const CLAIM_LABEL := "sandbox.cocoonstack.io/claim"
  const LAUNCH_TYPE_LABEL := "agents.x-k8s.io/launch-type"
  const CLAIM_ID_ANNOTATION := "sandbox.cocoonstack.io/claim-id"

  function SynthLabels(node: string, e: Entry): map<string, string> {
    var claim := ParseClaimRef(e.claimRef).name;
    map[NODE_LABEL := node, LAUNCH_TYPE_LABEL := "warm"]
    + (if e.phase != "" then map[PHASE_LABEL := e.phase] else map[])
    + (if claim != "" then map[CLAIM_LABEL := claim] else map[])
  }

  /** An owner reference only for a claim in the same namespace whose UID is known. */
  function SynthOwners(namespace: string, e: Entry): seq<OwnerRef> {
    var ref := ParseClaimRef(e.claimRef);
    if ref.name == "" || ref.uid == "" || ref.namespace != namespace then []
    else [OwnerRef("SandboxClaim", ref.name, ref.uid)]
  }

  function SandboxUid(d: Digests, namespace: string, name: string, e: Entry): string {
    d.uid("cocoon-sandbox-uid|" + if e.id == "" then namespace + "/" + name else e.id)
  }

  function ResourceVersion(d: Digests, namespace: string, name: string, e: Entry): string {
    d.version(namespace + "/" + name + "|" + e.id + "|" + e.phase + "|" + e.claimRef + "|" + e.address)
  }

  function EntryToSandbox(d: Digests, node: string, e: Entry): Sandbox {
    var ref := ParseClaimRef(e.name);
    Sandbox(
      ref.namespace, ref.name, SynthLabels(node, e),
      if e.id == "" then map[] else map[CLAIM_ID_ANNOTATION := e.id],
      SandboxUid(d, ref.namespace, ref.name, e),
      ResourceVersion(d, ref.namespace, ref.name, e),
      SynthOwners(ref.namespace, e), node, e.address, e.phase, None)
  }

  /** The key has this value, or is absent when the value is empty. */
  ghost predicate Reads(m: map<string, string>, k: string, v: string) {
    if v == "" then k !in m else k in m && m[k] == v
  }

  /** The labels an object of the inventory carries, and no others. */
  lemma SynthesizedLabels(node: string, e: Entry, k: string)
    ensures var labels := SynthLabels(node, e);
            if k == "sandbox.cocoonstack.io/node" then k in labels && labels[k] == node
            else if k == "agents.x-k8s.io/launch-type" then k in labels && labels[k] == "warm"
            else if k == "sandbox.cocoonstack.io/phase" then Reads(labels, k, e.phase)
            else if k == "sandbox.cocoonstack.io/claim" then Reads(labels, k, ParseClaimRef(e.claimRef).name)
            else k !in labels
  {
    assert NODE_LABEL[23] != PHASE_LABEL[23] && NODE_LABEL[23] != CLAIM_LABEL[23] && PHASE_LABEL[23] != CLAIM_LABEL[23];
    assert LAUNCH_TYPE_LABEL[0] != NODE_LABEL[0] == PHASE_LABEL[0] == CLAIM_LABEL[0];
  }

  /** An object shows where its entry runs, in which phase and at which address, under the name the entry
      carries; it belongs to the claim the entry refers to exactly if that one is of its namespace and has
      a UID. */
  lemma SynthesizedFrom(d: Digests, node: string, e: Entry)
    ensures var sb, ref := EntryToSandbox(d, node, e), ParseClaimRef(e.name);
            && sb.namespace == ref.namespace && sb.name == ref.name && sb.node == node
            && sb.address == e.address && sb.phase == e.phase && sb.spec == None
            && sb.uid == SandboxUid(d, ref.namespace, ref.name, e)
            && sb.annotations.Keys <= {"sandbox.cocoonstack.io/claim-id"}
            && Reads(sb.annotations, "sandbox.cocoonstack.io/claim-id", e.id)
    ensures var sb, claim := EntryToSandbox(d, node, e), ParseClaimRef(e.claimRef);
            && (sb.owners != [] <==> claim.name != "" && claim.uid != "" && claim.namespace == sb.namespace)
            && (sb.owners != [] ==> sb.owners == [OwnerRef("SandboxClaim", claim.name, claim.uid)])
  {
  }

  ghost predicate Injective(f: string -> string) {
    forall a, b :: f(a) == f(b) ==> a == b
  }

  lemma SamePrefixed(f: string -> string, prefix: string, s: string, t: string)
    requires Injective(f)
    ensures f(prefix + s) == f(prefix + t) <==> s == t
  {
    if f(prefix + s) == f(prefix + t) {
      assert s == (prefix + s)[|prefix|..] && t == (prefix + t)[|prefix|..];
    }
  }

  /** The UID follows the id an entry has, and its name as long as it has none. */
  lemma UidFollowsId(d: Digests, n1: string, s1: string, a: Entry, n2: string, s2: string, b: Entry)
    requires Injective(d.uid)
    ensures a.id != "" && b.id != "" ==> (SandboxUid(d, s1, n1, a) == SandboxUid(d, s2, n2, b) <==> a.id == b.id)
    ensures a.id == "" && b.id == "" ==>
              (SandboxUid(d, s1, n1, a) == SandboxUid(d, s2, n2, b) <==> s1 + "/" + n1 == s2 + "/" + n2)
  {
    if a.id != "" && b.id != "" {
      SamePrefixed(d.uid, "cocoon-sandbox-uid|", a.id, b.id);
    } else if a.id == "" && b.id == "" {
      SamePrefixed(d.uid, "cocoon-sandbox-uid|", s1 + "/" + n1, s2 + "/" + n2);
    }
  }

  /** The entry Claim remembers for a sandbox it was just handed. */
  function PendingEntry(namespace: string, name: string, claimUid: string, id: string, addr: string): Entry {
    Entry(namespace + "/" + name, id, "Running", FormatClaimRef(namespace, name, claimUid), addr)
  }

  /** A sandbox served from its pending entry and later from the node's echo, which names the
      entry after the claim reference it was handed, keeps its namespace, name, UID, owner,
      claim label and claim id whatever phase and address the node reports; with the reported
      phase and address unchanged it is the same object, resource version included. */
  lemma EchoKeepsIdentity(d: Digests, node: string, namespace: string, name: string, claimUid: string,
                          id: string, addr: string, echo: Entry)
    requires Carried(namespace, name) && name != ""
    requires echo.name == echo.claimRef == FormatClaimRef(namespace, name, claimUid) && echo.id == id
    ensures var before := EntryToSandbox(d, node, PendingEntry(namespace, name, claimUid, id, addr));
            var after := EntryToSandbox(d, node, echo);
            && before.namespace == after.namespace == namespace && before.name == after.name == name
            && before.uid == after.uid && before.annotations == after.annotations
            && before.owners == after.owners ==
                 (if claimUid == "" then [] else [OwnerRef("SandboxClaim", name, claimUid)])
            && CLAIM_LABEL in before.labels && CLAIM_LABEL in after.labels
            && before.labels[CLAIM_LABEL] == after.labels[CLAIM_LABEL] == name
            && (echo.phase == "Running" && echo.address == addr ==> before == after)
  {
    ParseUndoesFormatExactly(namespace, name, claimUid);
    ParseUndoesFormatExactly(namespace, name, "");
    assert PendingEntry(namespace, name, claimUid, id, addr).name == FormatClaimRef(namespace, name, "");
  }

  /** The two entries differ in one of what a version is made of, and agree on the rest. */
  ghost predicate OneDiffers(a: Entry, b: Entry) {
    || (a.id != b.id && a.phase == b.phase && a.claimRef == b.claimRef && a.address == b.address)
    || (a.id == b.id && a.phase != b.phase && a.claimRef == b.claimRef && a.address == b.address)
    || (a.id == b.id && a.phase == b.phase && a.claimRef != b.claimRef && a.address == b.address)
    || (a.id == b.id && a.phase == b.phase && a.claimRef == b.claimRef && a.address != b.address)
  }

  lemma SameMiddle(before: string, x: string, y: string, after: string)
    requires before + x + after == before + y + after
    ensures x == y
  {
    var a, b := before + x + after, before + y + after;
    assert |x| == |y|;
    assert x == a[|before|..|before| + |x|] && y == b[|before|..|before| + |y|];
  }

  lemma UpToSeparator(a: string, rest: string, b: string, more: string)
    requires '|' !in a && '|' !in b && a + "|" + rest == b + "|" + more
    ensures a == b && rest == more
  {
    IndexOfSeparator(a, '|', rest);
    IndexOfSeparator(b, '|', more);
    assert a + ['|'] + rest == a + "|" + rest && b + ['|'] + more == b + "|" + more;
    assert a == (a + "|" + rest)[..|a|] && b == (b + "|" + more)[..|b|];
    assert rest == (a + "|" + rest)[|a| + 1..] && more == (b + "|" + more)[|b| + 1..];
  }

  /** Five texts in a row, one of which has changed. */
  lemma OneTextDiffers(s: string, a: seq<string>, b: seq<string>, i: nat)
    requires |a| == 4 == |b| && i < 4 && a[i] != b[i] && forall j :: 0 <= j < 4 && j != i ==> a[j] == b[j]
    ensures s + a[0] + "|" + a[1] + "|" + a[2] + "|" + a[3] != s + b[0] + "|" + b[1] + "|" + b[2] + "|" + b[3]
  {
    var before := if i == 0 then s else if i == 1 then s + a[0] + "|" else if i == 2 then s + a[0] + "|" + a[1] + "|"
                  else s + a[0] + "|" + a[1] + "|" + a[2] + "|";
    var after := if i == 0 then "|" + a[1] + "|" + a[2] + "|" + a[3] else if i == 1 then "|" + a[2] + "|" + a[3]
                 else if i == 2 then "|" + a[3] else "";
    assert s + a[0] + "|" + a[1] + "|" + a[2] + "|" + a[3] == before + a[i] + after;
    assert s + b[0] + "|" + b[1] + "|" + b[2] + "|" + b[3] == before + b[i] + after;
    if before + a[i] + after == before + b[i] + after {
      SameMiddle(before, a[i], b[i], after);
    }
  }

  /** Any one change of id, phase, claim reference or address gives another version, as long as the
      digest tells texts apart. */
  lemma VersionTellsOneChange(d: Digests, namespace: string, name: string, a: Entry, b: Entry)
    requires Injective(d.version) && OneDiffers(a, b)
    ensures ResourceVersion(d, namespace, name, a) != ResourceVersion(d, namespace, name, b)
  {
    var fa, fb := [a.id, a.phase, a.claimRef, a.address], [b.id, b.phase, b.claimRef, b.address];
    var i := if a.id != b.id then 0 else if a.phase != b.phase then 1 else if a.claimRef != b.claimRef then 2 else 3;
    OneTextDiffers(namespace + "/" + name + "|", fa, fb, i);
  }

  /** And without the separator in them the version is the same exactly if all four are. */
  lemma VersionTellsExactly(d: Digests, namespace: string, name: string, a: Entry, b: Entry)
    requires Injective(d.version)
    requires forall t :: t in {a.id, a.phase, a.claimRef, b.id, b.phase, b.claimRef} ==> '|' !in t
    ensures ResourceVersion(d, namespace, name, a) == ResourceVersion(d, namespace, name, b) <==>
            a.id == b.id && a.phase == b.phase && a.claimRef == b.claimRef && a.address == b.address
  {
    if ResourceVersion(d, namespace, name, a) == ResourceVersion(d, namespace, name, b) {
      var s := namespace + "/" + name + "|";
      var ra, rb := a.claimRef + "|" + a.address, b.claimRef + "|" + b.address;
      var pa, pb := a.phase + "|" + ra, b.phase + "|" + rb;
      var ia, ib := a.id + "|" + pa, b.id + "|" + pb;
      assert s + ia == s + a.id + "|" + a.phase + "|" + a.claimRef + "|" + a.address;
      assert s + ib == s + b.id + "|" + b.phase + "|" + b.claimRef + "|" + b.address;
      assert ia == (s + ia)[|s|..] && ib == (s + ib)[|s|..];
      UpToSeparator(a.id, pa, b.id, pb);
      UpToSeparator(a.phase, ra, b.phase, rb);
      UpToSeparator(a.claimRef, a.address, b.claimRef, b.address);
    }
  }

  /** With the separator in them two changes at once can cancel out, whatever the digest. */
  lemma SeparatorHidesChanges(d: Digests, namespace: string, name: string, e: Entry, id: string, middle: string,
                              phase: string)
    ensures var a, b := e.(id := id, phase := middle + "|" + phase), e.(id := id + "|" + middle, phase := phase);
            a != b && ResourceVersion(d, namespace, name, a) == ResourceVersion(d, namespace, name, b)
  {
    var s := namespace + "/" + name + "|";
    assert |id| != |id + "|" + middle|;
    assert s + id + "|" + (middle + "|" + phase) == s + (id + "|" + middle) + "|" + phase;
  }
}
