/** The aggregated store's reads: List and Get over per-node inventories and the index of claims
    not yet echoed back, against one abstract view of what the collection contains. */
module StoreView {
  import opened Text
  import opened Sorting
  import opened SandboxSynthesis

  /** An entry, the node it is served for and the "<namespace>/<name>" it is served under. */
  datatype Located = Located(key: string, node: string, entry: Entry)

  datatype Pending = Pending(node: string, entry: Entry, at: int)

  datatype Inventory = Inventory(node: string, entries: seq<Entry>)

  datatype Overlay = Overlay(labels: map<string, string>, annotations: map<string, string>, spec: Option<string>)

  const PENDING_TTL := 180      // seconds

  function Key(namespace: string, name: string): string {
    namespace + "/" + name
  }

  function EntryKey(e: Entry): string {
    var ref := ParseClaimRef(e.name);
    Key(ref.namespace, ref.name)
  }

  lemma KeyInjective(ns1: string, name1: string, ns2: string, name2: string)
    requires '/' !in ns1 && '/' !in ns2
    ensures Key(ns1, name1) == Key(ns2, name2) <==> ns1 == ns2 && name1 == name2
  {
    if Key(ns1, name1) == Key(ns2, name2) {
      assert Key(ns1, name1) == ns1 + ['/'] + name1 && Key(ns2, name2) == ns2 + ['/'] + name2;
      IndexOfSeparator(ns1, '/', name1);
      IndexOfSeparator(ns2, '/', name2);
      assert ns1 == Key(ns1, name1)[..|ns1|] && name1 == Key(ns1, name1)[|ns1| + 1..];
      assert ns2 == Key(ns2, name2)[..|ns2|] && name2 == Key(ns2, name2)[|ns2| + 1..];
    }
  }

  // ---------------------------------------------------------------- the abstract view

  function Locate(inv: Inventory, n: nat): (r: seq<Located>)
    requires n <= |inv.entries|
    ensures |r| == n && forall i :: 0 <= i < n ==> r[i] == Located(EntryKey(inv.entries[i]), inv.node, inv.entries[i])
  {
    if n == 0 then [] else Locate(inv, n - 1) + [Located(EntryKey(inv.entries[n - 1]), inv.node, inv.entries[n - 1])]
  }

  /** Every entry of every reachable inventory, in node order. A node whose inventory cannot be
      read contributes nothing. */
  function Reachable(nodes: seq<string>, inventories: map<string, Inventory>): seq<Located> {
    if nodes == [] then []
    else
      var n := |nodes| - 1;
      Reachable(nodes[..n], inventories) +
      if nodes[n] in inventories then Locate(inventories[nodes[n]], |inventories[nodes[n]].entries|) else []
  }

  function Index(all: seq<Located>): map<string, Located> {
    if all == [] then map[]
    else Index(all[..|all| - 1])[all[|all| - 1].key := all[|all| - 1]]
  }

  predicate Unexpired(p: Pending, now: int) {
    now - p.at <= PENDING_TTL
  }

  function LivePending(pending: map<string, Pending>, now: int): map<string, Located> {
    map k | k in pending && Unexpired(pending[k], now) :: Located(k, pending[k].node, pending[k].entry)
  }

  /** The collection: the reachable inventory entry if there is one, else the unexpired claim. */
  function View(all: seq<Located>, pending: map<string, Pending>, now: int): map<string, Located> {
    LivePending(pending, now) + Index(all)
  }

  ghost predicate NamesUnique(all: seq<Located>) {
    forall i, j :: 0 <= i < j < |all| ==> all[i].key != all[j].key
  }

  lemma {:induction false} IndexHolds(all: seq<Located>)
    ensures forall l :: l in all ==> l.key in Index(all)
    ensures forall k :: k in Index(all) ==> Index(all)[k] in all && Index(all)[k].key == k
  {
    if all != [] {
      var n := |all| - 1;
      IndexHolds(all[..n]);
      assert all == all[..n] + [all[n]];
    }
  }

  lemma IndexFinds(all: seq<Located>, l: Located)
    requires NamesUnique(all) && l in all
    ensures l.key in Index(all) && Index(all)[l.key] == l
  {
    IndexHolds(all);
  }

  /** The two pending indexes show the same collection now and at any later time. */
  ghost predicate SameView(all: seq<Located>, before: map<string, Pending>, after: map<string, Pending>, now: int) {
    forall later :: now <= later ==> View(all, after, later) == View(all, before, later)
  }

  lemma ViewOfUnindexed(all: seq<Located>, pending: map<string, Pending>, k: string, now: int)
    requires forall l :: l in all ==> l.key != k
    ensures k in View(all, pending, now) <==> k in pending && Unexpired(pending[k], now)
    ensures k in View(all, pending, now) ==> View(all, pending, now)[k] == Located(k, pending[k].node, pending[k].entry)
  {
    IndexHolds(all);
  }

  // ---------------------------------------------------------------- overlays

  /** Written keys win; a key written empty is removed. */
  function MergeOverlay(base: map<string, string>, written: map<string, string>): map<string, string> {
    map k | k in base.Keys + written.Keys && !(k in written && written[k] == "") ::
      if k in written then written[k] else base[k]
  }

  function ApplyOverlay(overlays: map<string, Overlay>, sb: Sandbox): Sandbox {
    var k := Key(sb.namespace, sb.name);
    if k !in overlays then sb
    else
      var ov := overlays[k];
      sb.(labels := MergeOverlay(sb.labels, ov.labels),
          annotations := MergeOverlay(sb.annotations, ov.annotations),
          spec := if ov.spec.Some? then ov.spec else sb.spec)
  }

  /** What a client wrote over a map: a written value stands, an empty one removes the key, and the rest
      is as it was. */
  ghost predicate Overlaid(base: map<string, string>, written: map<string, string>, after: map<string, string>) {
    forall k :: if k in written then Reads(after, k, written[k])
                else (k in after <==> k in base) && (k in after ==> after[k] == base[k])
  }

  /** An overlay is found by namespace and name and touches labels, annotations and spec alone. */
  lemma OverlayExactly(overlays: map<string, Overlay>, sb: Sandbox)
    ensures var k, after := sb.namespace + "/" + sb.name, ApplyOverlay(overlays, sb);
            && after == sb.(labels := after.labels, annotations := after.annotations, spec := after.spec)
            && (k !in overlays ==> after == sb)
            && (k in overlays ==>
                  && Overlaid(sb.labels, overlays[k].labels, after.labels)
                  && Overlaid(sb.annotations, overlays[k].annotations, after.annotations)
                  && after.spec == if overlays[k].spec == None then sb.spec else overlays[k].spec)
  {
  }

  /** The sandbox served for a located entry. */
  function Served(d: Digests, overlays: map<string, Overlay>, l: Located): Sandbox {
    ApplyOverlay(overlays, EntryToSandbox(d, l.node, l.entry))
  }

  lemma ServedKey(d: Digests, overlays: map<string, Overlay>, l: Located)
    requires l.key == EntryKey(l.entry)
    ensures var sb := Served(d, overlays, l);
            && Key(sb.namespace, sb.name) == l.key && '/' !in sb.namespace
            && sb.namespace == ParseClaimRef(l.entry.name).namespace && sb.name == ParseClaimRef(l.entry.name).name
            && sb.node == l.node && sb.phase == l.entry.phase && sb.address == l.entry.address
  {
    ParsedIsCarried(l.entry.name);
  }

  /** An overlay leaves the version alone, so what clients write is not told by a watch. */
  lemma ServedVersion(d: Digests, overlays: map<string, Overlay>, l: Located)
    ensures var ref := ParseClaimRef(l.entry.name);
            Served(d, overlays, l).resourceVersion == ResourceVersion(d, ref.namespace, ref.name, l.entry)
  {
  }

  // ---------------------------------------------------------------- list order

  /** Namespace first, then name. */
  predicate NotAfter(a: Sandbox, b: Sandbox) {
    if a.namespace != b.namespace then AtMost(a.namespace, b.namespace) else AtMost(a.name, b.name)
  }

  lemma NotAfterIsTotalPreorder()
    ensures TotalPreorder(NotAfter)
  {
    forall a, b ensures NotAfter(a, b) || NotAfter(b, a) {
      AtMostTotal(a.namespace, b.namespace);
      AtMostTotal(a.name, b.name);
    }
    forall a, b, c | NotAfter(a, b) && NotAfter(b, c) ensures NotAfter(a, c) {
      if a.namespace == b.namespace == c.namespace {
        AtMostTransitive(a.name, b.name, c.name);
      } else if a.namespace != b.namespace && b.namespace != c.namespace {
        AtMostTransitive(a.namespace, b.namespace, c.namespace);
        if a.namespace == c.namespace { AtMostAntisymmetric(a.namespace, b.namespace); }
      }
    }
  }

  ghost predicate KeysDistinct(items: seq<Sandbox>) {
    forall i, j :: 0 <= i < j < |items| ==>
        !(items[i].namespace == items[j].namespace && items[i].name == items[j].name)
  }

  // ---------------------------------------------------------------- maps of claims

  ghost predicate SubMap<K, V>(a: map<K, V>, b: map<K, V>) {
    a.Keys <= b.Keys && forall k :: k in a ==> a[k] == b[k]
  }

  lemma RemovalShrinks<V>(m: map<string, V>, k: string)
    requires k in m
    ensures |m - {k}| == |m| - 1
  {
    assert (m - {k}).Keys == m.Keys - {k};
  }

  lemma RemoveThenPut<V>(m: map<string, V>, k: string, v: V)
    ensures (m - {k})[k := v] == m[k := v] && |m - {k}| <= |m|
  {
    if k in m {
      RemovalShrinks(m, k);
    } else {
      assert m - {k} == m;
    }
  }

  /** Every pending claim is filed under the key its entry is served under. */
  ghost predicate PendingFiled(pending: map<string, Pending>) {
    forall k :: k in pending ==> EntryKey(pending[k].entry) == k && ParseClaimRef(pending[k].entry.name).name != ""
  }

  datatype NodeReply = AtCapacity | Failed | Handed(node: string, id: string, addr: string)

  datatype ClaimResult = Exists | NoCapacity | Error | Claimed

  ghost predicate IdsUnique(pending: map<string, Pending>) {
    forall a, b :: a in pending && b in pending && pending[a].entry.id == pending[b].entry.id ==> a == b
  }

  /** From `before` no claim left but one of this id, none of it is left if ids are unique, and what left
      took its overlay along. */
  ghost predicate ReleasedFrom(id: string, before: map<string, Pending>, after: map<string, Pending>,
                               overlays: map<string, Overlay>, left: map<string, Overlay>) {
    && SubMap(after, before) && left == overlays - (before.Keys - after.Keys)
    && (forall k :: k in before && before[k].entry.id != id ==> k in after)
    && (IdsUnique(before) ==> forall k :: k in after ==> after[k].entry.id != id)
  }

  lemma ForgottenIsReleased(pending: map<string, Pending>, overlays: map<string, Overlay>, key: string)
    requires key in pending
    ensures ReleasedFrom(pending[key].entry.id, pending, pending - {key}, overlays, overlays - {key})
  {
    assert pending.Keys - (pending - {key}).Keys == {key};
  }

  lemma NoneIsReleased(pending: map<string, Pending>, overlays: map<string, Overlay>, id: string)
    requires forall k :: k in pending ==> pending[k].entry.id != id
    ensures ReleasedFrom(id, pending, pending, overlays, overlays)
  {
    assert pending.Keys - pending.Keys == {} && overlays - {} == overlays;
  }

  // ---------------------------------------------------------------- what a list yields

  /** sb is what the view serves under some key, and it passes the filter. */
  ghost predicate Shows(d: Digests, overlays: map<string, Overlay>, view: map<string, Located>, keep: Sandbox -> bool,
                        sb: Sandbox) {
    exists k :: k in view && sb == Served(d, overlays, view[k]) && keep(sb)
  }

  function KeysAt(all: seq<Located>): set<string> {
    set l | l in all :: l.key
  }

  lemma KeysAtSnoc(all: seq<Located>, l: Located)
    ensures KeysAt(all + [l]) == KeysAt(all) + {l.key}
  {
  }

  function KeysOf(entries: seq<Entry>): set<string> {
    if entries == [] then {} else KeysOf(entries[..|entries| - 1]) + {EntryKey(entries[|entries| - 1])}
  }

  lemma KeysOfNext(entries: seq<Entry>, n: nat)
    requires 0 < n <= |entries|
    ensures KeysOf(entries[..n]) == KeysOf(entries[..n - 1]) + {EntryKey(entries[n - 1])}
  {
    assert entries[..n][..n - 1] == entries[..n - 1];
  }

  lemma {:induction false} LocatedKeys(inv: Inventory, n: nat)
    requires n <= |inv.entries|
    ensures KeysAt(Locate(inv, n)) == KeysOf(inv.entries[..n])
  {
    if n > 0 {
      LocatedKeys(inv, n - 1);
      KeysOfNext(inv.entries, n);
      KeysAtSnoc(Locate(inv, n - 1), Located(EntryKey(inv.entries[n - 1]), inv.node, inv.entries[n - 1]));
    } else {
      assert Locate(inv, 0) == [];
    }
  }

  lemma KeysAtConcat(before: seq<Located>, inv: Inventory)
    ensures KeysAt(before + Locate(inv, |inv.entries|)) == KeysAt(before) + KeysOf(inv.entries)
  {
    LocatedKeys(inv, |inv.entries|);
    assert inv.entries[..|inv.entries|] == inv.entries;
  }

  /** The served values that pass the filter, in order. */
  function Kept<A, B>(serve: A -> B, keep: B -> bool, xs: seq<A>): seq<B> {
    if xs == [] then []
    else
      var y := serve(xs[|xs| - 1]);
      Kept(serve, keep, xs[..|xs| - 1]) + if keep(y) then [y] else []
  }

  lemma {:induction false} KeptMembers<A, B>(serve: A -> B, keep: B -> bool, xs: seq<A>, y: B)
    ensures y in Kept(serve, keep, xs) <==> exists x :: x in xs && y == serve(x) && keep(y)
  {
    if xs != [] {
      var n := |xs| - 1;
      KeptMembers(serve, keep, xs[..n], y);
      assert xs == xs[..n] + [xs[n]];
    }
  }

  function Serve(d: Digests, overlays: map<string, Overlay>): Located -> Sandbox {
    l => Served(d, overlays, l)
  }

  /** The served sandboxes of the located entries that pass the filter, in order. */
  function Materialized(d: Digests, overlays: map<string, Overlay>, all: seq<Located>,
                        keep: Sandbox -> bool): seq<Sandbox> {
    Kept(Serve(d, overlays), keep, all)
  }

  lemma MaterializedMembers(d: Digests, overlays: map<string, Overlay>, all: seq<Located>, keep: Sandbox -> bool)
    ensures forall sb :: sb in Materialized(d, overlays, all, keep) <==>
                         exists l :: l in all && sb == Serve(d, overlays)(l) && keep(sb)
  {
    forall sb ensures sb in Materialized(d, overlays, all, keep) <==>
                      exists l :: l in all && sb == Serve(d, overlays)(l) && keep(sb) {
      KeptMembers(Serve(d, overlays), keep, all, sb);
    }
  }

  lemma {:induction false} MaterializedDistinct(d: Digests, overlays: map<string, Overlay>, all: seq<Located>,
                                                keep: Sandbox -> bool)
    requires NamesUnique(all) && forall l :: l in all ==> l.key == EntryKey(l.entry)
    ensures KeysDistinct(Materialized(d, overlays, all, keep))
  {
    if all != [] {
      var n := |all| - 1;
      var rest := all[..n];
      MaterializedDistinct(d, overlays, rest, keep);
      MaterializedMembers(d, overlays, rest, keep);
      var m := Materialized(d, overlays, rest, keep);
      ServedKey(d, overlays, all[n]);
      forall i | 0 <= i < |m| ensures Key(m[i].namespace, m[i].name) != all[n].key {
        assert m[i] in m;
        var l :| l in rest && m[i] == Served(d, overlays, l);
        ServedKey(d, overlays, l);
      }
    }
  }

  lemma {:induction false} ReachableKeyed(nodes: seq<string>, inventories: map<string, Inventory>)
    ensures forall l :: l in Reachable(nodes, inventories) ==> l.key == EntryKey(l.entry)
  {
    if nodes != [] {
      ReachableKeyed(nodes[..|nodes| - 1], inventories);
    }
  }

  /** from lists the values of live, each once, except under the excluded keys. */
  ghost predicate Enumerates(from: seq<Located>, live: map<string, Located>, except: set<string>) {
    && NamesUnique(from)
    && (forall l :: l in from ==> l.key in live && l.key !in except && l == live[l.key])
    && (forall k :: k in live && k !in except ==> live[k] in from)
  }

  /** After the fan-out the inventory entries and the unconfirmed claims are exactly the view. */
  lemma EntriesAndClaimsAreView(all: seq<Located>, pending: map<string, Pending>, middle: map<string, Pending>,
                                now: int,
                                seen: set<string>, from: seq<Located>)
    requires NamesUnique(all) && SubMap(middle, pending) && seen <= KeysAt(all)
    requires forall k :: k in pending ==> (k in middle <==> k !in KeysAt(all))
    requires Enumerates(from, LivePending(middle, now), seen)
    ensures NamesUnique(all + from)
    ensures forall l :: l in all + from ==> l.key in View(all, pending, now) && View(all, pending, now)[l.key] == l
    ensures forall k :: k in View(all, pending, now) ==> View(all, pending, now)[k] in all + from
  {
    IndexHolds(all);
    forall l | l in all ensures l.key in Index(all) && Index(all)[l.key] == l { IndexFinds(all, l); }
    forall l | l in from ensures l.key !in KeysAt(all) {}
    assert forall i :: 0 <= i < |all| ==> all[i] in all;
    assert forall i :: 0 <= i < |from| ==> from[i] in from;
  }

  lemma {:induction false} KeptConcat<A, B>(serve: A -> B, keep: B -> bool, a: seq<A>, b: seq<A>)
    ensures Kept(serve, keep, a + b) == Kept(serve, keep, a) + Kept(serve, keep, b)
  {
    if b == [] {
      assert a + b == a;
    } else {
      var n := |b| - 1;
      KeptConcat(serve, keep, a, b[..n]);
      assert (a + b)[..|a + b| - 1] == a + b[..n] && (a + b)[|a + b| - 1] == b[n];
    }
  }

  lemma ListedIsView(d: Digests, overlays: map<string, Overlay>, nodes: seq<string>,
                     inventories: map<string, Inventory>,
                     pending: map<string, Pending>, middle: map<string, Pending>, now: int,
                     seen: set<string>, from: seq<Located>, keep: Sandbox -> bool)
    requires NamesUnique(Reachable(nodes, inventories)) && PendingFiled(pending) && SubMap(middle, pending)
    requires forall k :: k in pending ==> (k in middle <==> k !in KeysAt(Reachable(nodes, inventories)))
    requires var found := Materialized(d, overlays, Reachable(nodes, inventories), keep);
             seen == set sb | sb in found :: Key(sb.namespace, sb.name)
    requires Enumerates(from, LivePending(middle, now), seen)
    ensures var found := Materialized(d, overlays, Reachable(nodes, inventories), keep);
            var items := found + Materialized(d, overlays, from, keep);
            var view := View(Reachable(nodes, inventories), pending, now);
            && KeysDistinct(items)
            && forall sb :: sb in items <==> Shows(d, overlays, view, keep, sb)
  {
    var all := Reachable(nodes, inventories);
    ReachableKeyed(nodes, inventories);
    MaterializedMembers(d, overlays, all, keep);
    forall k | k in seen ensures k in KeysAt(all) {
      var sb :| sb in Materialized(d, overlays, all, keep) && k == Key(sb.namespace, sb.name);
      var l :| l in all && sb == Served(d, overlays, l);
      ServedKey(d, overlays, l);
    }
    EntriesAndClaimsAreView(all, pending, middle, now, seen, from);
    KeptConcat(Serve(d, overlays), keep, all, from);
    MaterializedMembers(d, overlays, all + from, keep);
    MaterializedDistinct(d, overlays, all + from, keep);
    var view := View(all, pending, now);
    forall sb
      ensures Shows(d, overlays, view, keep, sb) <==>
                exists l :: l in all + from && sb == Served(d, overlays, l) && keep(sb)
    {
      if l :| l in all + from && sb == Served(d, overlays, l) && keep(sb) {
        assert l.key in view && view[l.key] == l;
      }
    }
  }

  // ---------------------------------------------------------------- evictions

  /** The claims a list evicts: those it finds confirmed and those that have expired. */
  function EvictedBy(all: seq<Located>, pending: map<string, Pending>, now: int): set<string> {
    set k | k in pending && (k in KeysAt(all) || !Unexpired(pending[k], now))
  }

  lemma ExactlyEvicted(all: seq<Located>, pending: map<string, Pending>, middle: map<string, Pending>,
                       after: map<string, Pending>, now: int)
    requires SubMap(middle, pending) && SubMap(after, middle)
    requires forall k :: k in pending ==> (k in middle <==> k !in KeysAt(all))
    requires forall k :: k in middle ==> (k in after <==> Unexpired(middle[k], now))
    ensures after.Keys == pending.Keys - EvictedBy(all, pending, now)
  {
  }

  lemma DropIndexed(all: seq<Located>, pending: map<string, Pending>, middle: map<string, Pending>, later: int)
    requires SubMap(middle, pending) && forall k :: k in pending && k !in middle ==> k in Index(all)
    ensures View(all, middle, later) == View(all, pending, later)
  {
    assert View(all, middle, later).Keys == View(all, pending, later).Keys;
  }

  lemma DropExpired(middle: map<string, Pending>, after: map<string, Pending>, now: int, later: int)
    requires SubMap(after, middle) && now <= later
    requires forall k :: k in middle && k !in after ==> !Unexpired(middle[k], now)
    ensures LivePending(after, later) == LivePending(middle, later)
  {
    assert LivePending(after, later).Keys == LivePending(middle, later).Keys;
  }

  lemma EvictionsAreUnseen(all: seq<Located>, pending: map<string, Pending>, middle: map<string, Pending>,
                           after: map<string, Pending>, now: int)
    requires SubMap(middle, pending) && SubMap(after, middle)
    requires forall k :: k in pending ==> (k in middle <==> k !in KeysAt(all))
    requires forall k :: k in middle && k !in after ==> !Unexpired(middle[k], now)
    ensures SameView(all, pending, after, now)
  {
    IndexHolds(all);
    forall later | now <= later ensures View(all, after, later) == View(all, pending, later) {
      DropIndexed(all, pending, middle, later);
      DropExpired(middle, after, now, later);
    }
  }

  lemma OccursOnce(s: seq<Sandbox>, p: nat)
    requires p < |s| && KeysDistinct(s)
    ensures multiset(s)[s[p]] == 1
  {
    assert s == s[..p] + [s[p]] + s[p + 1..];
    assert s[p] !in s[..p] && s[p] !in s[p + 1..];
  }

  lemma SortedStaysDistinct(a: seq<Sandbox>, b: seq<Sandbox>)
    requires multiset(a) == multiset(b) && KeysDistinct(a)
    ensures KeysDistinct(b)
  {
    forall i, j | 0 <= i < j < |b| ensures !(b[i].namespace == b[j].namespace && b[i].name == b[j].name) {
      SameMultisetSameElements(b, a, b[i]);
      SameMultisetSameElements(b, a, b[j]);
      assert b[i] in b && b[j] in b;
      var p :| 0 <= p < |a| && a[p] == b[i];
      var q :| 0 <= q < |a| && a[q] == b[j];
      if p == q {
        OccursTwice(b, i, j);
        OccursOnce(a, p);
      }
    }
  }

  /** The expired claims are gone from the index, but for those under `rest`. */
  ghost predicate ExpiredBut(before: map<string, Pending>, after: map<string, Pending>, rest: set<string>, now: int) {
    && SubMap(after, before) && rest <= after.Keys
    && forall k :: k in before && k !in rest ==> (k in after <==> Unexpired(before[k], now))
  }

  lemma ExpireOne(before: map<string, Pending>, after: map<string, Pending>, rest: set<string>, now: int, k: string)
    requires ExpiredBut(before, after, rest, now) && k in rest
    ensures ExpiredBut(before, if Unexpired(after[k], now) then after else after - {k}, rest - {k}, now)
  {
  }

  lemma EnumerateOne(from: seq<Located>, live: map<string, Located>, rest: set<string>, seen: set<string>, k: string)
    requires Enumerates(from, live, rest + seen) && k in rest
    requires forall x :: x in live ==> live[x].key == x
    ensures Enumerates(from + if k in live && k !in seen then [live[k]] else [], live, rest - {k} + seen)
  {
    if k in live && k !in seen {
      assert forall i :: 0 <= i < |from| ==> from[i] in from && from[i].key != k;
    } else {
      assert from + [] == from;
    }
  }

  /** The claim that may be served next, if it is live and not seen. */
  lemma ServedOne(pending: map<string, Pending>, after: map<string, Pending>, now: int, seen: set<string>, k: string)
    requires SubMap(after, pending) && k in after
    ensures var p, live := after[k], LivePending(pending, now);
            (if Unexpired(p, now) && k !in seen then [Located(k, p.node, p.entry)] else []) ==
            if k in live && k !in seen then [live[k]] else []
  {
  }

  lemma MaterializedSnoc(d: Digests, overlays: map<string, Overlay>, all: seq<Located>, l: Located,
                         keep: Sandbox -> bool)
    ensures Materialized(d, overlays, all + [l], keep) ==
            Materialized(d, overlays, all, keep) + if keep(Served(d, overlays, l)) then [Served(d, overlays, l)] else []
  {
    assert (all + [l])[..|all|] == all;
  }

  /** The position of the entry served under namespace/name in one inventory. */
  method FindIn(inv: Inventory, namespace: string, name: string) returns (r: Option<nat>)
    requires '/' !in namespace
    ensures r.Some? ==> r.value < |inv.entries| && EntryKey(inv.entries[r.value]) == Key(namespace, name)
    ensures r.None? ==> forall i :: 0 <= i < |inv.entries| ==> EntryKey(inv.entries[i]) != Key(namespace, name)
  {
    for i := 0 to |inv.entries|
      invariant forall j :: 0 <= j < i ==> EntryKey(inv.entries[j]) != Key(namespace, name)
    {
      var ref := ParseClaimRef(inv.entries[i].name);
      ParsedIsCarried(inv.entries[i].name);
      KeyInjective(ref.namespace, ref.name, namespace, name);
      if ref.namespace == namespace && ref.name == name {
        return Some(i);
      }
    }
    r := None;
  }

  lemma ReachableSnoc(nodes: seq<string>, inventories: map<string, Inventory>, n: nat)
    requires n < |nodes|
    ensures Reachable(nodes[..n + 1], inventories) ==
            Reachable(nodes[..n], inventories) +
            if nodes[n] in inventories then Locate(inventories[nodes[n]], |inventories[nodes[n]].entries|) else []
  {
    assert nodes[..n + 1][..n] == nodes[..n];
  }

  lemma {:induction false} ReachablePrefix(nodes: seq<string>, inventories: map<string, Inventory>, n: nat)
    requires n <= |nodes|
    ensures forall l :: l in Reachable(nodes[..n], inventories) ==> l in Reachable(nodes, inventories)
    decreases |nodes|
  {
    if n == |nodes| {
      assert nodes[..n] == nodes;
    } else {
      var m := |nodes| - 1;
      ReachablePrefix(nodes[..m], inventories, n);
      assert nodes[..m][..n] == nodes[..n];
    }
  }

  /** The entry served under namespace/name in the first inventory that has it. */
  method FindEntry(nodes: seq<string>, inventories: map<string, Inventory>, namespace: string, name: string)
    returns (r: Option<Located>)
    requires '/' !in namespace
    ensures r.Some? ==> r.value in Reachable(nodes, inventories) && r.value.key == Key(namespace, name)
    ensures r.None? ==> forall l :: l in Reachable(nodes, inventories) ==> l.key != Key(namespace, name)
  {
    for n := 0 to |nodes|
      invariant forall l :: l in Reachable(nodes[..n], inventories) ==> l.key != Key(namespace, name)
    {
      ReachableSnoc(nodes, inventories, n);
      if nodes[n] in inventories {
        var inv := inventories[nodes[n]];
        var at := FindIn(inv, namespace, name);
        if at.Some? {
          r := Some(Located(Key(namespace, name), inv.node, inv.entries[at.value]));
          ReachablePrefix(nodes, inventories, n + 1);
          assert Locate(inv, |inv.entries|)[at.value] == r.value;
          return;
        }
      }
    }
    assert nodes[..|nodes|] == nodes;
    return None;
  }

  lemma ForgetIndexedIsUnseen(all: seq<Located>, pending: map<string, Pending>, k: string, now: int)
    requires k in Index(all)
    ensures SameView(all, pending, pending - {k}, now) && SubMap(pending - {k}, pending)
  {
  }

  lemma ForgetExpired(pending: map<string, Pending>, gone: set<string>, now: int)
    requires forall k :: k in gone && k in pending ==> !Unexpired(pending[k], now)
    ensures forall later :: now <= later ==> LivePending(pending - gone, later) == LivePending(pending, later)
  {
  }

  lemma ForgetExpiredIsUnseen(all: seq<Located>, pending: map<string, Pending>, gone: set<string>, now: int)
    requires forall k :: k in gone && k in pending ==> !Unexpired(pending[k], now)
    ensures SameView(all, pending, pending - gone, now) && SubMap(pending - gone, pending)
  {
    ForgetExpired(pending, gone, now);
  }

  lemma EmptyNameIsNotPending(pending: map<string, Pending>, e: Entry)
    requires PendingFiled(pending) && ParseClaimRef(e.name).name == ""
    ensures EntryKey(e) !in pending
  {
    if EntryKey(e) in pending {
      var ref := ParseClaimRef(pending[EntryKey(e)].entry.name);
      ParsedIsCarried(pending[EntryKey(e)].entry.name);
      ParsedIsCarried(e.name);
      KeyInjective(ref.namespace, ref.name, ParseClaimRef(e.name).namespace, "");
    }
  }

  /** Whatever the inventories say, reads find the name up to then. */
  ghost predicate ServedUntil(pending: map<string, Pending>, k: string, until: int) {
    forall all, later :: later <= until ==> k in View(all, pending, later)
  }

  lemma ClaimIsServed(pending: map<string, Pending>, k: string, p: Pending)
    ensures ServedUntil(pending[k := p], k, p.at + PENDING_TTL)
  {
    var after := pending[k := p];
    forall all, later | later <= p.at + PENDING_TTL ensures k in View(all, after, later) {
      assert k in LivePending(after, later);
    }
  }

  // ---------------------------------------------------------------- the store

  class ScatterGatherStore {
    const digests: Digests
    var pending: map<string, Pending>
    var pendingGen: nat
    var overlays: map<string, Overlay>

    constructor (digests: Digests)
      ensures this.digests == digests && pending == map[] && pendingGen == 0 && overlays == map[] && Valid()
    {
      this.digests := digests;
      pending, pendingGen, overlays := map[], 0, map[];
    }

    ghost predicate Valid()
      reads this
    {
      PendingFiled(pending)
    }

    ghost function Collection(all: seq<Located>, now: int): map<string, Located>
      reads this
    {
      View(all, pending, now)
    }

    /** Evictions are invisible: the view is the same now and at any later time, and the
        generation counts them. */
    twostate predicate Unseen(all: seq<Located>, now: int)
      reads this
    {
      && SubMap(pending, old(pending))
      && SameView(all, old(pending), pending, now)
      && pendingGen == old(pendingGen) + |old(pending)| - |pending|
    }

    /** forgetClaim: the generation moves only when something was removed. */
    method Forget(key: string)
      modifies this`pending, this`pendingGen
      ensures pending == old(pending) - {key}
      ensures pendingGen == old(pendingGen) + |old(pending)| - |pending|
    {
      if key in pending {
        RemovalShrinks(pending, key);
        pending := pending - {key};
        pendingGen := pendingGen + 1;
      } else {
        assert pending - {key} == pending;
      }
    }

    /** The unconfirmed claim for a key; an expired one is evicted. */
    method PendingFor(key: string, now: int) returns (r: Option<Pending>)
      modifies this`pending, this`pendingGen
      ensures r == if key in old(pending) && Unexpired(old(pending)[key], now) then Some(old(pending)[key]) else None
      ensures pending == if r.None? then old(pending) - {key} else old(pending)
      ensures pendingGen == old(pendingGen) + |old(pending)| - |pending|
    {
      if key !in pending {
        assert pending == pending - {key};
        return None;
      }
      if !Unexpired(pending[key], now) {
        Forget(key);
        return None;
      }
      r := Some(pending[key]);
    }

    /** Route to the inventory that has the entry, else serve the claim the store itself made. */
    method Get(nodes: seq<string>, inventories: map<string, Inventory>, now: int, namespace: string, name: string)
      returns (r: Option<Sandbox>)
      requires Valid() && '/' !in namespace && NamesUnique(Reachable(nodes, inventories))
      modifies this`pending, this`pendingGen
      ensures Valid() && Unseen(Reachable(nodes, inventories), now)
      ensures var view := old(Collection(Reachable(nodes, inventories), now)); var k := Key(namespace, name);
              r == if k in view then Some(Served(digests, overlays, view[k])) else None
    {
      ghost var all := Reachable(nodes, inventories);
      var k := Key(namespace, name);
      var found := FindEntry(nodes, inventories, namespace, name);
      if found.Some? {
        IndexFinds(all, found.value);
        Forget(k);
        ForgetIndexedIsUnseen(all, old(pending), k, now);
        return Some(Served(digests, overlays, found.value));
      }
      ViewOfUnindexed(all, pending, k, now);
      var pc := PendingFor(k, now);
      if pc.Some? {
        return Some(Served(digests, overlays, Located(k, pc.value.node, pc.value.entry)));
      }
      ForgetExpiredIsUnseen(all, old(pending), {k}, now);
      return None;
    }

    /** Confirmed claims leave the pending index. */
    method ReconcilePending(inv: Inventory)
      requires Valid()
      modifies this`pending, this`pendingGen
      ensures Valid() && SubMap(pending, old(pending))
      ensures forall k :: k in old(pending) ==> (k in pending <==> k !in KeysOf(inv.entries))
      ensures pendingGen == old(pendingGen) + |old(pending)| - |pending|
    {
      for i := 0 to |inv.entries|
        invariant Valid() && SubMap(pending, old(pending))
        invariant forall k :: k in old(pending) ==> (k in pending <==> k !in KeysOf(inv.entries[..i]))
        invariant pendingGen == old(pendingGen) + |old(pending)| - |pending|
      {
        var e := inv.entries[i];
        assert inv.entries[..i + 1][..i] == inv.entries[..i];
        assert KeysOf(inv.entries[..i + 1]) == KeysOf(inv.entries[..i]) + {EntryKey(e)};
        var ref := ParseClaimRef(e.name);
        if ref.name != "" {
          Forget(Key(ref.namespace, ref.name));
        } else {
          EmptyNameIsNotPending(old(pending), e);
        }
      }
      assert inv.entries[..|inv.entries|] == inv.entries;
    }

    /** One pending claim: evicted when expired, served when not seen and kept by the filter. */
    method ServeClaim(k: string, seen: set<string>, now: int, keep: Sandbox -> bool)
      returns (served: seq<Sandbox>, ghost l: seq<Located>)
      requires Valid() && k in pending
      modifies this`pending, this`pendingGen
      ensures Valid() && pending == if Unexpired(old(pending)[k], now) then old(pending) else old(pending) - {k}
      ensures pendingGen == old(pendingGen) + |old(pending)| - |pending|
      ensures var p := old(pending)[k];
              l == if Unexpired(p, now) && k !in seen then [Located(k, p.node, p.entry)] else []
      ensures served == Materialized(digests, overlays, l, keep)
    {
      served, l := [], [];
      var pc := pending[k];
      if !Unexpired(pc, now) {
        Forget(k);
      } else if k !in seen {
        var sb := Served(digests, overlays, Located(k, pc.node, pc.entry));
        l := [Located(k, pc.node, pc.entry)];
        MaterializedSnoc(digests, overlays, [], l[0], keep);
        assert [] + l == l;
        if keep(sb) {
          served := [sb];
        }
      }
    }

    /** The pending claims not in seen, filtered; expired ones are evicted on the way. from are
        the claims considered, in the order the index happens to yield them. */
    method Unconfirmed(seen: set<string>, now: int, keep: Sandbox -> bool)
      returns (out: seq<Sandbox>, ghost from: seq<Located>)
      requires Valid()
      modifies this`pending, this`pendingGen
      ensures Valid() && SubMap(pending, old(pending))
      ensures forall k :: k in old(pending) ==> (k in pending <==> Unexpired(old(pending)[k], now))
      ensures pendingGen == old(pendingGen) + |old(pending)| - |pending|
      ensures out == Materialized(digests, overlays, from, keep)
      ensures Enumerates(from, LivePending(old(pending), now), seen)
    {
      out, from := [], [];
      ghost var live := LivePending(old(pending), now);
      var rest := pending.Keys;
      while rest != {}
        invariant Valid() && ExpiredBut(old(pending), pending, rest, now)
        invariant pendingGen == old(pendingGen) + |old(pending)| - |pending|
        invariant out == Materialized(digests, overlays, from, keep)
        invariant Enumerates(from, live, rest + seen)
        decreases rest
      {
        var k :| k in rest;
        EnumerateOne(from, live, rest, seen, k);
        ExpireOne(old(pending), pending, rest, now, k);
        ServedOne(old(pending), pending, now, seen, k);
        rest := rest - {k};
        var served, l := ServeClaim(k, seen, now, keep);
        KeptConcat(Serve(digests, overlays), keep, from, l);
        out, from := out + served, from + l;
      }
    }

    /** One node's entries as filtered sandboxes. */
    method Materialize(inv: Inventory, keep: Sandbox -> bool) returns (out: seq<Sandbox>)
      ensures out == Materialized(digests, overlays, Locate(inv, |inv.entries|), keep)
    {
      out := [];
      for i := 0 to |inv.entries|
        invariant out == Materialized(digests, overlays, Locate(inv, i), keep)
      {
        var l := Located(EntryKey(inv.entries[i]), inv.node, inv.entries[i]);
        var sb := Served(digests, overlays, l);
        MaterializedSnoc(digests, overlays, Locate(inv, i), l, keep);
        if keep(sb) {
          out := out + [sb];
        }
      }
    }

    /** The fan-out: collect every reachable node's sandboxes, evicting the claims they confirm. */
    method Collect(nodes: seq<string>, inventories: map<string, Inventory>, keep: Sandbox -> bool)
      returns (out: seq<Sandbox>)
      requires Valid()
      modifies this`pending, this`pendingGen
      ensures Valid() && SubMap(pending, old(pending))
      ensures out == Materialized(digests, overlays, Reachable(nodes, inventories), keep)
      ensures forall k :: k in old(pending) ==> (k in pending <==> k !in KeysAt(Reachable(nodes, inventories)))
      ensures pendingGen == old(pendingGen) + |old(pending)| - |pending|
    {
      out := [];
      for n := 0 to |nodes|
        invariant Valid() && SubMap(pending, old(pending))
        invariant out == Materialized(digests, overlays, Reachable(nodes[..n], inventories), keep)
        invariant forall k :: k in old(pending) ==> (k in pending <==> k !in KeysAt(Reachable(nodes[..n], inventories)))
        invariant pendingGen == old(pendingGen) + |old(pending)| - |pending|
      {
        assert nodes[..n + 1][..n] == nodes[..n];
        if nodes[n] in inventories {
          var inv := inventories[nodes[n]];
          ReconcilePending(inv);
          var chunk := Materialize(inv, keep);
          ghost var before := Reachable(nodes[..n], inventories);
          KeptConcat(Serve(digests, overlays), keep, before, Locate(inv, |inv.entries|));
          KeysAtConcat(before, inv);
          out := out + chunk;
        } else {
          assert Reachable(nodes[..n + 1], inventories) == Reachable(nodes[..n], inventories);
        }
      }
      assert nodes[..|nodes|] == nodes;
    }

    /** List is the view, filtered and sorted by namespace and name, each sandbox once. It evicts
        exactly the claims it finds confirmed or expired. */
    method List(nodes: seq<string>, inventories: map<string, Inventory>, now: int, keep: Sandbox -> bool)
      returns (items: seq<Sandbox>)
      requires Valid() && NamesUnique(Reachable(nodes, inventories))
      modifies this`pending, this`pendingGen
      ensures Valid() && Unseen(Reachable(nodes, inventories), now)
      ensures Sorted(NotAfter, items) && KeysDistinct(items)
      ensures var view := old(Collection(Reachable(nodes, inventories), now));
              forall sb :: sb in items <==> Shows(digests, overlays, view, keep, sb)
      ensures pending.Keys == old(pending).Keys - EvictedBy(Reachable(nodes, inventories), old(pending), now)
    {
      ghost var all := Reachable(nodes, inventories);
      var found := Collect(nodes, inventories, keep);
      ghost var middle := pending;
      var seen := set sb | sb in found :: Key(sb.namespace, sb.name);
      var more, from := Unconfirmed(seen, now, keep);
      ListedIsView(digests, overlays, nodes, inventories, old(pending), middle, now, seen, from, keep);
      EvictionsAreUnseen(all, old(pending), middle, pending, now);
      ExactlyEvicted(all, old(pending), middle, pending, now);
      NotAfterIsTotalPreorder();
      items := SortBy(NotAfter, found + more);
      SortedStaysDistinct(found + more, items);
      forall sb ensures sb in items <==> sb in found + more { SameMultisetSameElements(items, found + more, sb); }
    }

    /** Claim: refused while an unexpired claim of that name is pending; otherwise what sandboxd
        hands over is remembered, and read under that name until its time to live is over. A refusal
        evicts at most the expired claim of that name. */
    method Claim(namespace: string, name: string, claimUid: string, now: int, reply: NodeReply) returns (r: ClaimResult)
      requires Valid() && Carried(namespace, name) && name != ""
      modifies this`pending, this`pendingGen
      ensures Valid()
      ensures r.Exists? <==> Key(namespace, name) in old(pending) && Unexpired(old(pending)[Key(namespace, name)], now)
      ensures r.Claimed? <==> !r.Exists? && reply.Handed?
      ensures r.NoCapacity? <==> !r.Exists? && reply.AtCapacity?
      ensures r.Claimed? ==>
                var e := PendingEntry(namespace, name, claimUid, reply.id, reply.addr);
                && pending == old(pending)[Key(namespace, name) := Pending(reply.node, e, now)]
                && pendingGen > old(pendingGen) && ServedUntil(pending, Key(namespace, name), now + 180)
      ensures !r.Claimed? ==>
                SubMap(pending, old(pending)) && pendingGen == old(pendingGen) + |old(pending)| - |pending|
      ensures !r.Claimed? ==> forall k :: k in old(pending) && k !in pending ==> !Unexpired(old(pending)[k], now)
    {
      var k := Key(namespace, name);
      var pc := PendingFor(k, now);
      if pc.Some? {
        return Exists;
      }
      if !reply.Handed? {
        return if reply.AtCapacity? then NoCapacity else Error;
      }
      var p := Pending(reply.node, PendingEntry(namespace, name, claimUid, reply.id, reply.addr), now);
      RemoveThenPut(old(pending), k, p);
      ClaimIsServed(old(pending), k, p);
      Remember(namespace, name, p);
      r := Claimed;
    }

    /** rememberClaim: from now on reads can serve the claim. */
    method Remember(namespace: string, name: string, p: Pending)
      requires Valid() && Carried(namespace, name) && name != "" && p.entry.name == Key(namespace, name)
      modifies this`pending, this`pendingGen
      ensures Valid()
      ensures pending == old(pending)[Key(namespace, name) := p] && pendingGen == old(pendingGen) + 1
    {
      ParseUndoesFormatExactly(namespace, name, "");
      assert p.entry.name == FormatClaimRef(namespace, name, "");
      pending := pending[Key(namespace, name) := p];
      pendingGen := pendingGen + 1;
    }

    /** The first pending claim with this id, in any order. */
    method PendingWithId(id: string) returns (k: Option<string>)
      ensures k.Some? ==> k.value in pending && pending[k.value].entry.id == id
      ensures k.None? ==> forall k :: k in pending ==> pending[k].entry.id != id
    {
      var rest := pending.Keys;
      while rest != {}
        invariant rest <= pending.Keys
        invariant forall k :: k in pending && k !in rest ==> pending[k].entry.id != id
        decreases rest
      {
        var key :| key in rest;
        if pending[key].entry.id == id {
          return Some(key);
        }
        rest := rest - {key};
      }
      k := None;
    }

    /** Release: once sandboxd let go of the claim it is served from the pending index no more. */
    method Release(id: string, released: bool) returns (ok: bool)
      requires Valid()
      modifies this`pending, this`pendingGen, this`overlays
      ensures Valid() && ok == (id != "" && released)
      ensures !ok ==> pending == old(pending) && overlays == old(overlays)
      ensures ok ==> ReleasedFrom(id, old(pending), pending, old(overlays), overlays)
      ensures pendingGen == old(pendingGen) + |old(pending)| - |pending|
    {
      if id == "" || !released {
        return false;
      }
      var k := PendingWithId(id);
      if k.Some? {
        ForgottenIsReleased(pending, overlays, k.value);
        Forget(k.value);
        overlays := overlays - {k.value};
      } else {
        NoneIsReleased(pending, overlays, id);
      }
      ok := true;
    }
  }

  // ---------------------------------------------------------------- names across nodes

  ghost predicate SamePair(all: seq<Located>, m: seq<Sandbox>, i: nat, j: nat)
    requires i < |all| == |m| && j < |all|
  {
    all[i].key == all[j].key <==> m[i].namespace == m[j].namespace && m[i].name == m[j].name
  }

  lemma {:induction false} KeptAt<A, B(!new)>(serve: A -> B, keep: B -> bool, xs: seq<A>, i: nat)
    requires (forall y :: keep(y)) && i < |xs|
    ensures |Kept(serve, keep, xs)| == |xs| && Kept(serve, keep, xs)[i] == serve(xs[i])
  {
    var n := |xs| - 1;
    if n == 0 {
      assert Kept(serve, keep, xs[..n]) == [];
    } else {
      KeptAt(serve, keep, xs[..n], if i < n then i else 0);
    }
  }

  lemma ListedPair(d: Digests, overlays: map<string, Overlay>, all: seq<Located>, keep: Sandbox -> bool, i: nat, j: nat)
    requires (forall sb :: keep(sb)) && i < |all| && j < |all|
    requires all[i].key == EntryKey(all[i].entry) && all[j].key == EntryKey(all[j].entry)
    ensures var m := Materialized(d, overlays, all, keep);
            |m| == |all| && SamePair(all, m, i, j)
  {
    var a, b := Served(d, overlays, all[i]), Served(d, overlays, all[j]);
    KeptAt(Serve(d, overlays), keep, all, i);
    KeptAt(Serve(d, overlays), keep, all, j);
    ServedKey(d, overlays, all[i]);
    ServedKey(d, overlays, all[j]);
    KeyInjective(a.namespace, a.name, b.namespace, b.name);
  }

  lemma DistinctExactly(all: seq<Located>, m: seq<Sandbox>)
    requires |all| == |m| && forall i, j :: 0 <= i < j < |all| ==> SamePair(all, m, i, j)
    ensures KeysDistinct(m) <==> NamesUnique(all)
  {
    if KeysDistinct(m) {
      forall i, j | 0 <= i < j < |all| ensures all[i].key != all[j].key { assert SamePair(all, m, i, j); }
    }
    if NamesUnique(all) {
      forall i, j | 0 <= i < j < |m| ensures !(m[i].namespace == m[j].namespace && m[i].name == m[j].name) {
        assert SamePair(all, m, i, j);
      }
    }
  }

  /** An unfiltered fan-out lists every sandbox once exactly when names are unique across nodes:
      the same name published by two nodes is listed twice. */
  lemma ListedOnceExactly(d: Digests, overlays: map<string, Overlay>, all: seq<Located>, keep: Sandbox -> bool)
    requires (forall sb :: keep(sb)) && forall i :: 0 <= i < |all| ==> all[i].key == EntryKey(all[i].entry)
    ensures KeysDistinct(Materialized(d, overlays, all, keep)) <==> NamesUnique(all)
  {
    if all == [] {
      assert Materialized(d, overlays, all, keep) == [];
    } else {
      var m := Materialized(d, overlays, all, keep);
      ListedPair(d, overlays, all, keep, 0, 0);
      forall i, j | 0 <= i < j < |all| ensures SamePair(all, m, i, j) {
        ListedPair(d, overlays, all, keep, i, j);
      }
      DistinctExactly(all, m);
    }
  }
}
