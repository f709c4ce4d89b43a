/** The cheap fingerprint of the served collection, and the watch that skips a poll when the
    fingerprint has not moved. */
module CollectionGeneration {
  import opened Text
  import opened StoreView

  /** A node's inventory under the resource version its publish took, if that is a number. */
  datatype Published = Published(version: Option<nat>, inventory: Inventory)

  datatype State = State(
    published: map<string, Published>,
    latest: nat,                          // newest resource version handed out so far
    unreadable: set<string>,              // nodes whose inventory cannot be read now
    pending: map<string, Pending>,
    pendingGen: nat,
    now: int)

  const INIT := State(map[], 0, {}, map[], 0, 0)

  datatype Step =
    | Publish(node: string, inventory: Inventory, version: Option<nat>)
    | RemoveInventory(node: string)
    | Remember(key: string, claim: Pending)
    | Forget(key: string)
    | SetUnreadable(nodes: set<string>)
    | Elapse(now: int)

  /** All resource versions come from one counter; the pending counter moves exactly when the
      pending index does. */
  ghost predicate Next(s: State, step: Step, t: State) {
    match step
    case Publish(n, inv, v) =>
      && (v.Some? ==> s.latest < v.value)
      && t == s.(published := s.published[n := Published(v, inv)], latest := if v.Some? then v.value else s.latest)
    case RemoveInventory(n) => t == s.(published := s.published - {n})
    case Remember(k, p) => t == s.(pending := s.pending[k := p], pendingGen := s.pendingGen + 1)
    case Forget(k) =>
      t == if k in s.pending then s.(pending := s.pending - {k}, pendingGen := s.pendingGen + 1) else s
    case SetUnreadable(nodes) => t == s.(unreadable := nodes)
    case Elapse(now) => s.now <= now && t == s.(now := now)
  }

  /** `states` is what `steps` make of the empty store. */
  ghost predicate Run(states: seq<State>, steps: seq<Step>) {
    && |states| == |steps| + 1 && states[0] == INIT
    && forall i :: 0 <= i < |steps| ==> Next(states[i], steps[i], states[i + 1])
  }

  // ---------------------------------------------------------------- reading the nodes

  /** Inventories are read one by one while the run goes on: the nodes are enumerated in state
      `start`, node n is read in state at[n], and the pending index with the clock in state `end`. */
  datatype Scan = Scan(start: nat, nodes: seq<string>, at: map<string, nat>, end: nat)

  ghost predicate InBounds(states: seq<State>, c: Scan) {
    && c.start <= c.end < |states|
    && forall n :: n in c.nodes ==> n in c.at && c.start <= c.at[n] <= c.end
  }

  ghost predicate ListsNodes(s: State, nodes: seq<string>) {
    forall n :: n in nodes <==> n in s.published
  }

  ghost predicate ScanOf(states: seq<State>, c: Scan) {
    InBounds(states, c) && ListsNodes(states[c.start], c.nodes)
  }

  /** What the reads find; a node that is gone or cannot be read is left out. */
  function Found(states: seq<State>, c: Scan): map<string, Published>
    requires InBounds(states, c)
  {
    map n | n in c.nodes && n in states[c.at[n]].published && n !in states[c.at[n]].unreadable ::
      states[c.at[n]].published[n]
  }

  // ---------------------------------------------------------------- the fingerprint

  datatype Fingerprint = Fingerprint(version: nat, pendingGen: nat)

  ghost predicate Trusted(nodes: seq<string>, found: map<string, Published>) {
    forall n :: n in nodes ==> n in found && found[n].version.Some?
  }

  ghost predicate IsNewest(published: map<string, Published>, v: nat) {
    && (forall n :: n in published && published[n].version.Some? ==> published[n].version.value <= v)
    && (v == 0 || exists n :: n in published && published[n].version == Some(v))
  }

  /** `fp` is the fingerprint of what was found and the pending counter. */
  ghost predicate Fingerprints(nodes: seq<string>, found: map<string, Published>, pendingGen: nat,
                               fp: Option<Fingerprint>) {
    && (fp.Some? <==> Trusted(nodes, found))
    && (fp.Some? ==> IsNewest(found, fp.value.version) && fp.value.pendingGen == pendingGen)
  }

  /** `fp` is what reading the store's fingerprint gives. */
  ghost predicate Reads(states: seq<State>, c: Scan, fp: Option<Fingerprint>) {
    ScanOf(states, c) && Fingerprints(c.nodes, Found(states, c), states[c.end].pendingGen, fp)
  }

  method ReadGeneration(states: seq<State>, c: Scan) returns (fp: Option<Fingerprint>)
    requires ScanOf(states, c)
    ensures Reads(states, c, fp)
  {
    var max := 0;
    ghost var found := Found(states, c);
    for i := 0 to |c.nodes|
      invariant forall j :: 0 <= j < i ==>
                  c.nodes[j] in found && found[c.nodes[j]].version.Some? && found[c.nodes[j]].version.value <= max
      invariant max == 0 || exists j :: 0 <= j < i && found[c.nodes[j]].version == Some(max)
    {
      var n := c.nodes[i];
      assert n in c.nodes;
      var s := states[c.at[n]];
      if n !in s.published || n in s.unreadable {
        return None;
      }
      var v := s.published[n].version;
      if v.None? {
        return None;
      }
      if v.value > max {
        max := v.value;
      }
    }
    fp := Some(Fingerprint(max, states[c.end].pendingGen));
  }

  // ---------------------------------------------------------------- what a run can change

  ghost predicate KeptOrNew(s: State, t: State, n: string)
    requires n in t.published
  {
    || (n in s.published && t.published[n] == s.published[n])
    || t.published[n].version.None?
    || t.published[n].version.value > s.latest
  }

  ghost predicate Later(s: State, t: State) {
    && s.latest <= t.latest && s.pendingGen <= t.pendingGen && s.now <= t.now
    && (s.pendingGen == t.pendingGen ==> s.pending == t.pending)
    && forall n :: n in t.published ==> KeptOrNew(s, t, n)
  }

  ghost predicate Numbered(s: State) {
    forall n :: n in s.published && s.published[n].version.Some? ==> s.published[n].version.value <= s.latest
  }

  lemma LaterTransitive(s: State, m: State, t: State)
    requires Later(s, m) && Later(m, t)
    ensures Later(s, t)
  {
    forall n | n in t.published ensures KeptOrNew(s, t, n) {
      assert KeptOrNew(m, t, n);
      if n in m.published {
        assert KeptOrNew(s, m, n);
      }
    }
  }

  lemma {:induction false} RunIsLater(states: seq<State>, steps: seq<Step>, i: nat, j: nat)
    requires Run(states, steps) && i <= j < |states|
    ensures Later(states[i], states[j]) && Numbered(states[i])
    decreases j
  {
    if i < j {
      RunIsLater(states, steps, i, j - 1);
      assert Next(states[j - 1], steps[j - 1], states[j]);
      LaterTransitive(states[i], states[j - 1], states[j]);
    } else if 0 < i {
      RunIsLater(states, steps, i - 1, i - 1);
      assert Next(states[i - 1], steps[i - 1], states[i]);
    }
  }

  /** A trusted fingerprint was handed out by the time its scan ends. */
  lemma FingerprintIsHandedOut(states: seq<State>, steps: seq<Step>, c: Scan, fp: Fingerprint)
    requires Run(states, steps) && Reads(states, c, Some(fp))
    ensures fp.version <= states[c.end].latest
  {
    if fp.version > 0 {
      var n :| n in Found(states, c) && Found(states, c)[n].version == Some(fp.version);
      RunIsLater(states, steps, c.at[n], c.end);
    }
  }

  lemma InventoryIsKept(states: seq<State>, steps: seq<Step>, first: Scan, second: Scan, fp: Fingerprint, m: nat,
                        n: string)
    requires Run(states, steps) && Reads(states, first, Some(fp)) && Reads(states, second, Some(fp))
    requires n in second.nodes && first.end <= m <= second.at[n]
    ensures n in states[m].published && n in Found(states, second) && states[m].published[n] == Found(states, second)[n]
  {
    FingerprintIsHandedOut(states, steps, first, fp);
    RunIsLater(states, steps, first.end, m);
    RunIsLater(states, steps, m, second.at[n]);
    assert KeptOrNew(states[m], states[second.at[n]], n);
  }

  /** Two equal trusted fingerprints anywhere in a run: from the end of the first scan on the pending
      index is the same until the end of the second, and every inventory until the second reads it. */
  lemma EqualFingerprints(states: seq<State>, steps: seq<Step>, first: Scan, second: Scan, fp: Fingerprint, m: nat)
    requires Run(states, steps) && Reads(states, first, Some(fp)) && Reads(states, second, Some(fp))
    requires first.end <= m <= second.end
    ensures states[m].pending == states[second.end].pending
    ensures forall n :: n in second.nodes && m <= second.at[n] ==>
              && n in states[m].published && n in Found(states, second)
              && states[m].published[n] == Found(states, second)[n]
  {
    RunIsLater(states, steps, first.end, m);
    RunIsLater(states, steps, m, second.end);
    forall n | n in second.nodes && m <= second.at[n]
      ensures n in states[m].published && n in Found(states, second)
                && states[m].published[n] == Found(states, second)[n]
    {
      InventoryIsKept(states, steps, first, second, fp, m, n);
    }
  }

  lemma SameUnlessRemoved(s: State, t: State)
    requires forall n :: n in t.published ==> n in s.published && s.published[n] == t.published[n]
    ensures s.published == t.published <==> s.published.Keys <= t.published.Keys
  {
    assert s.published.Keys <= t.published.Keys ==> s.published == t.published;
  }

  /** So at any point between the two scans the pending index is the one of the second's start and
      every inventory of its start is there as it is; nothing at all differs exactly when none of that
      point's inventories is removed by then. */
  lemma NothingBetween(states: seq<State>, steps: seq<Step>, first: Scan, m: nat, second: Scan, fp: Fingerprint)
    requires Run(states, steps) && Reads(states, first, Some(fp)) && Reads(states, second, Some(fp))
    requires first.end <= m <= second.start
    ensures states[m].pending == states[second.start].pending
    ensures forall n :: n in states[second.start].published ==>
              n in states[m].published && states[m].published[n] == states[second.start].published[n]
    ensures states[m].published == states[second.start].published <==>
            states[m].published.Keys <= states[second.start].published.Keys
  {
    EqualFingerprints(states, steps, first, second, fp, m);
    EqualFingerprints(states, steps, first, second, fp, second.start);
    SameUnlessRemoved(states[m], states[second.start]);
  }

  // ---------------------------------------------------------------- what a list shows

  function Inventories(published: map<string, Published>): map<string, Inventory> {
    map n | n in published :: published[n].inventory
  }

  /** The version shown for a key, given how one entry is shown (None when it is filtered out). */
  function Shown(show: Located -> Option<string>, view: map<string, Located>, k: string): Option<string> {
    if k in view then show(view[k]) else None
  }

  /** The keys and versions that are shown. */
  function Snapshot(show: Located -> Option<string>, view: map<string, Located>): map<string, string> {
    map k | k in view && show(view[k]).Some? :: show(view[k]).value
  }

  /** The collection in a state, whatever can be read just then. */
  function Collection(show: Located -> Option<string>, s: State, nodes: seq<string>): map<string, string> {
    Snapshot(show, View(Reachable(nodes, Inventories(s.published)), s.pending, s.now))
  }

  /** The entries a list finds. */
  function Entries(states: seq<State>, c: Scan): seq<Located>
    requires InBounds(states, c)
  {
    Reachable(c.nodes, Inventories(Found(states, c)))
  }

  /** A list shows the entries it finds and, under other names, the claims still pending at its end. */
  function ListOf(show: Located -> Option<string>, states: seq<State>, c: Scan): map<string, string>
    requires InBounds(states, c)
  {
    Snapshot(show, LivePending(states[c.end].pending, states[c.end].now)) + Snapshot(show, Index(Entries(states, c)))
  }

  /** The list evicts the claims it finds confirmed; others may claim the name again before its end. */
  ghost predicate Evicts(states: seq<State>, c: Scan)
    requires InBounds(states, c)
  {
    forall l :: l in Entries(states, c) ==> exists m :: c.start <= m <= c.end && l.key !in states[m].pending
  }

  lemma SnapshotOfUnion(show: Located -> Option<string>, a: map<string, Located>, b: map<string, Located>)
    requires a.Keys !! b.Keys
    ensures Snapshot(show, a) + Snapshot(show, b) == Snapshot(show, a + b)
  {
  }

  /** When nothing found is pending, a list shows the view. */
  lemma ListIsSnapshot(show: Located -> Option<string>, all: seq<Located>, pending: map<string, Pending>, now: int)
    requires forall l :: l in all ==> l.key !in pending
    ensures Snapshot(show, LivePending(pending, now)) + Snapshot(show, Index(all)) ==
              Snapshot(show, View(all, pending, now))
  {
    IndexHolds(all);
    SnapshotOfUnion(show, LivePending(pending, now), Index(all));
  }

  lemma SameSnapshot(show: Located -> Option<string>, a: map<string, Located>, b: map<string, Located>)
    ensures Snapshot(show, a) == Snapshot(show, b) <==> forall k :: Shown(show, a, k) == Shown(show, b, k)
  {
    if Snapshot(show, a) == Snapshot(show, b) {
      forall k ensures Shown(show, a, k) == Shown(show, b, k) {
        assert k in Snapshot(show, a) <==> k in Snapshot(show, b);
        assert k in Snapshot(show, a) ==> Snapshot(show, a)[k] == Snapshot(show, b)[k];
      }
    }
    if forall k :: Shown(show, a, k) == Shown(show, b, k) {
      forall k ensures k in Snapshot(show, a) <==> k in Snapshot(show, b)
               ensures k in Snapshot(show, a) ==> Snapshot(show, a)[k] == Snapshot(show, b)[k] {
        assert Shown(show, a, k) == Shown(show, b, k);
      }
    }
  }

  /** Every entry of `more` that `some` lacks is shown just as its pending claim is. */
  ghost predicate Covered(show: Located -> Option<string>, some: seq<Located>, more: seq<Located>,
                          pending: map<string, Pending>, now: int) {
    forall l :: l in more && l !in some ==> Shown(show, LivePending(pending, now), l.key) == show(l)
  }

  /** No claim that only the pending index shows has run out between the two times. */
  ghost predicate NoneExpired(show: Located -> Option<string>, listed: seq<Located>, current: seq<Located>,
                              pending: map<string, Pending>, before: int, now: int) {
    forall k ::
      && k in pending && k !in Index(listed) && k !in Index(current)
      && Unexpired(pending[k], before) && !Unexpired(pending[k], now) ==>
        show(Located(k, pending[k].node, pending[k].entry)) == None
  }

  /** What the list missed and what it has too much are both covered, and no shown claim expired. */
  ghost predicate StillShows(show: Located -> Option<string>, listed: seq<Located>, current: seq<Located>,
                             pending: map<string, Pending>, before: int, now: int) {
    && Covered(show, listed, current, pending, before)
    && Covered(show, current, listed, pending, now)
    && NoneExpired(show, listed, current, pending, before, now)
  }

  lemma PartIndex(some: seq<Located>, all: seq<Located>, k: string)
    requires NamesUnique(all) && forall l :: l in some ==> l in all
    ensures k in Index(some) ==>
              k in Index(all) && Index(some)[k] == Index(all)[k] && Index(some)[k] in some && Index(some)[k].key == k
  {
    IndexHolds(some);
    if k in Index(some) {
      IndexFinds(all, Index(some)[k]);
    }
  }

  lemma PartFinds(some: seq<Located>, all: seq<Located>, l: Located)
    requires NamesUnique(all) && (forall x :: x in some ==> x in all) && l in all
    ensures l.key in Index(some) <==> l in some
    ensures l in some ==> Index(some)[l.key] == l
  {
    IndexHolds(some);
    IndexFinds(all, l);
    PartIndex(some, all, l.key);
  }

  lemma StillShowsAt(show: Located -> Option<string>, whole: seq<Located>, listed: seq<Located>, current: seq<Located>,
                     pending: map<string, Pending>, before: int, now: int, k: string)
    requires NamesUnique(whole) && (forall l :: l in listed ==> l in whole) && (forall l :: l in current ==> l in whole)
    requires before <= now && StillShows(show, listed, current, pending, before, now)
    ensures Shown(show, View(listed, pending, before), k) == Shown(show, View(current, pending, now), k)
  {
    PartIndex(listed, whole, k);
    PartIndex(current, whole, k);
    if k in Index(current) && k !in Index(listed) {
      PartFinds(listed, whole, Index(current)[k]);
    } else if k in Index(listed) && k !in Index(current) {
      PartFinds(current, whole, Index(listed)[k]);
    }
  }

  lemma EqualMeansStillShows(show: Located -> Option<string>, whole: seq<Located>, listed: seq<Located>,
                             current: seq<Located>,
                             pending: map<string, Pending>, before: int, now: int)
    requires NamesUnique(whole) && (forall l :: l in listed ==> l in whole) && (forall l :: l in current ==> l in whole)
    requires forall k :: Shown(show, View(listed, pending, before), k) == Shown(show, View(current, pending, now), k)
    ensures StillShows(show, listed, current, pending, before, now)
  {
    forall l | l in current && l !in listed ensures Shown(show, LivePending(pending, before), l.key) == show(l) {
      PartFinds(listed, whole, l);
      PartFinds(current, whole, l);
      assert Shown(show, View(listed, pending, before), l.key) == Shown(show, View(current, pending, now), l.key);
    }
    forall l | l in listed && l !in current ensures Shown(show, LivePending(pending, now), l.key) == show(l) {
      PartFinds(listed, whole, l);
      PartFinds(current, whole, l);
      assert Shown(show, View(listed, pending, before), l.key) == Shown(show, View(current, pending, now), l.key);
    }
    forall k | k in pending && k !in Index(listed) && k !in Index(current) && Unexpired(pending[k], before)
        && !Unexpired(pending[k], now)
      ensures show(Located(k, pending[k].node, pending[k].entry)) == None
    {
      assert Shown(show, View(listed, pending, before), k) == Shown(show, View(current, pending, now), k);
    }
  }

  /** An older list and the current entries, both drawn from entries with unique names: the list
      still shows the collection exactly when what it lacks and what it has too much is covered by
      claims and no shown claim has expired. */
  lemma StaleListExactly(show: Located -> Option<string>, whole: seq<Located>, listed: seq<Located>,
                         current: seq<Located>,
                         pending: map<string, Pending>, before: int, now: int)
    requires NamesUnique(whole) && (forall l :: l in listed ==> l in whole) && (forall l :: l in current ==> l in whole)
    requires before <= now
    ensures Snapshot(show, View(listed, pending, before)) == Snapshot(show, View(current, pending, now)) <==>
            StillShows(show, listed, current, pending, before, now)
  {
    SameSnapshot(show, View(listed, pending, before), View(current, pending, now));
    if forall k :: Shown(show, View(listed, pending, before), k) == Shown(show, View(current, pending, now), k) {
      EqualMeansStillShows(show, whole, listed, current, pending, before, now);
    }
    if StillShows(show, listed, current, pending, before, now) {
      forall k ensures Shown(show, View(listed, pending, before), k) == Shown(show, View(current, pending, now), k) {
        StillShowsAt(show, whole, listed, current, pending, before, now, k);
      }
    }
  }

  // ---------------------------------------------------------------- the watch

  /** One tick: the fingerprint it reads and, unless it skips or fails, the list it takes. */
  datatype Tick = Tick(gen: Scan, fp: Option<Fingerprint>, list: Scan, failed: bool)

  /** `gen` and `list` say where `lastGen` and `known` come from. */
  datatype Watcher = Watcher(known: map<string, string>, lastGen: Option<Fingerprint>, gen: Scan, list: Scan)

  predicate Skips(w: Watcher, t: Tick) {
    t.fp.Some? && t.fp == w.lastGen
  }

  function AfterTick(show: Located -> Option<string>, states: seq<State>, w: Watcher, t: Tick): Watcher
    requires !t.failed ==> InBounds(states, t.list)
  {
    if Skips(w, t) || t.failed then w
    else if t.fp.Some? then Watcher(ListOf(show, states, t.list), t.fp, t.gen, t.list)
    else w.(known := ListOf(show, states, t.list), list := t.list)
  }

  ghost predicate ListsOf(states: seq<State>, ticks: seq<Tick>) {
    forall i :: 0 <= i < |ticks| && !ticks[i].failed ==> InBounds(states, ticks[i].list)
  }

  function End(t: Tick): nat {
    if t.failed then t.gen.end else t.list.end
  }

  /** A tick of the run: it reads its fingerprint, then lists. */
  ghost predicate TickOf(states: seq<State>, t: Tick) {
    && Reads(states, t.gen, t.fp)
    && (!t.failed ==> ScanOf(states, t.list) && Evicts(states, t.list) && t.gen.end <= t.list.start)
  }

  /** The ticks follow each other. */
  ghost predicate TicksOf(states: seq<State>, ticks: seq<Tick>) {
    && (forall i :: 0 <= i < |ticks| ==> TickOf(states, ticks[i]))
    && forall i, j :: 0 <= i < j < |ticks| ==> End(ticks[i]) <= ticks[j].gen.start
  }

  ghost predicate TickAfter(states: seq<State>, ticks: seq<Tick>, tick: Tick) {
    && Reads(states, tick.gen, tick.fp)
    && forall i :: 0 <= i < |ticks| ==> End(ticks[i]) <= tick.gen.start
  }

  /** The watcher after all ticks; `initial` is what the initial list gave. */
  function Watched(show: Located -> Option<string>, states: seq<State>, initial: map<string, string>,
                   ticks: seq<Tick>): Watcher
    requires ListsOf(states, ticks)
  {
    if ticks == [] then Watcher(initial, None, Scan(0, [], map[], 0), Scan(0, [], map[], 0))
    else
      AfterTick(show, states, Watched(show, states, initial, ticks[..|ticks| - 1]), ticks[|ticks| - 1])
  }

  ghost predicate IsListed(show: Located -> Option<string>, states: seq<State>, known: map<string, string>,
                           list: Scan) {
    ScanOf(states, list) && Evicts(states, list) && known == ListOf(show, states, list)
  }

  /** What is known was listed after the remembered fingerprint was read. */
  ghost predicate Sourced(show: Located -> Option<string>, states: seq<State>, w: Watcher, bound: nat) {
    w.lastGen.Some? ==>
      && Reads(states, w.gen, w.lastGen) && IsListed(show, states, w.known, w.list)
      && w.gen.end <= w.list.start && w.list.end <= bound
  }

  lemma TickKeepsSource(show: Located -> Option<string>, states: seq<State>, w: Watcher, t: Tick, bound: nat)
    requires TickOf(states, t) && Sourced(show, states, w, t.gen.start) && End(t) <= bound
    ensures Sourced(show, states, AfterTick(show, states, w, t), bound)
  {
    assert t.gen.start <= t.gen.end <= End(t);
    if !Skips(w, t) && !t.failed {
      assert IsListed(show, states, ListOf(show, states, t.list), t.list);
    }
  }

  lemma {:induction false} WatcherIsSourced(show: Located -> Option<string>, states: seq<State>,
                                            initial: map<string, string>, ticks: seq<Tick>, bound: nat)
    requires TicksOf(states, ticks) && forall i :: 0 <= i < |ticks| ==> End(ticks[i]) <= bound
    ensures Sourced(show, states, Watched(show, states, initial, ticks), bound)
  {
    if ticks != [] {
      var front, last := ticks[..|ticks| - 1], ticks[|ticks| - 1];
      assert forall i :: 0 <= i < |front| ==> front[i] == ticks[i];
      WatcherIsSourced(show, states, initial, front, last.gen.start);
      TickKeepsSource(show, states, Watched(show, states, initial, front), last, bound);
    }
  }

  lemma {:induction false} ReachableMembers(nodes: seq<string>, inventories: map<string, Inventory>, l: Located)
    ensures l in Reachable(nodes, inventories) <==>
            exists n :: n in nodes && n in inventories && l in Locate(inventories[n], |inventories[n].entries|)
  {
    if nodes != [] {
      var last := |nodes| - 1;
      ReachableMembers(nodes[..last], inventories, l);
      assert nodes == nodes[..last] + [nodes[last]];
    }
  }

  lemma ReachablePart(nodes: seq<string>, more: seq<string>, inventories: map<string, Inventory>,
                      all: map<string, Inventory>)
    requires forall n :: n in nodes && n in inventories ==> n in more && n in all && all[n] == inventories[n]
    ensures forall l :: l in Reachable(nodes, inventories) ==> l in Reachable(more, all)
  {
    forall l | l in Reachable(nodes, inventories) ensures l in Reachable(more, all) {
      ReachableMembers(nodes, inventories, l);
      ReachableMembers(more, all, l);
    }
  }

  /** Every inventory the list found or, where it did not, the current one. */
  function Whole(states: seq<State>, c: Scan, current: State): map<string, Inventory>
    requires InBounds(states, c)
  {
    var found := Found(states, c);
    map n | n in c.nodes && (n in found || n in current.published) ::
      if n in found then found[n].inventory else current.published[n].inventory
  }

  /** Names are unique over what the watcher listed last and what it could not read. */
  ghost predicate ListedUnique(states: seq<State>, w: Watcher, current: State) {
    InBounds(states, w.list) && NamesUnique(Reachable(w.list.nodes, Whole(states, w.list, current)))
  }

  /** What a skipped tick knows of the last list. */
  lemma SinceTheList(show: Located -> Option<string>, states: seq<State>, steps: seq<Step>, w: Watcher, tick: Tick)
    requires Run(states, steps) && Reads(states, tick.gen, tick.fp) && Skips(w, tick)
    requires Sourced(show, states, w, tick.gen.start)
    ensures var current := states[tick.gen.start];
            && states[w.list.end].pending == current.pending
            && (forall l :: l in Entries(states, w.list) ==> l.key !in current.pending)
            && (forall n :: n in current.published ==> n in w.list.nodes)
            && (forall n :: n in current.published && n in Found(states, w.list) ==>
                Found(states, w.list)[n] == current.published[n])
  {
    var current, fp := states[tick.gen.start], tick.fp.value;
    NothingBetween(states, steps, w.gen, w.list.end, tick.gen, fp);
    NothingBetween(states, steps, w.gen, w.list.start, tick.gen, fp);
    forall l | l in Entries(states, w.list) ensures l.key !in current.pending {
      var m :| w.list.start <= m <= w.list.end && l.key !in states[m].pending;
      NothingBetween(states, steps, w.gen, m, tick.gen, fp);
    }
    forall n | n in current.published && n in Found(states, w.list)
      ensures Found(states, w.list)[n] == current.published[n]
    {
      NothingBetween(states, steps, w.gen, w.list.at[n], tick.gen, fp);
    }
  }

  /** The tick a watcher skips, in any run and however the reads of a scan are spread over it: what the
      client was told is still the whole collection exactly when the entries its last list could not
      read, and those removed since, are covered by claims and no shown claim has expired. */
  lemma SkippedTickExactly(show: Located -> Option<string>, states: seq<State>, steps: seq<Step>,
                           initial: map<string, string>, ticks: seq<Tick>, tick: Tick, nodes: seq<string>)
    requires Run(states, steps) && TicksOf(states, ticks) && TickAfter(states, ticks, tick)
    requires Skips(Watched(show, states, initial, ticks), tick) && ListsNodes(states[tick.gen.start], nodes)
    requires ListedUnique(states, Watched(show, states, initial, ticks), states[tick.gen.start])
    ensures var w, current := Watched(show, states, initial, ticks), states[tick.gen.start];
            w.known == Collection(show, current, nodes) <==>
            StillShows(show, Entries(states, w.list), Reachable(nodes, Inventories(current.published)),
                       current.pending, states[w.list.end].now, current.now)
  {
    var w, current := Watched(show, states, initial, ticks), states[tick.gen.start];
    WatcherIsSourced(show, states, initial, ticks, tick.gen.start);
    SinceTheList(show, states, steps, w, tick);
    RunIsLater(states, steps, w.list.end, tick.gen.start);
    var whole, listed := Whole(states, w.list, current), Entries(states, w.list);
    var now := Reachable(nodes, Inventories(current.published));
    ReachablePart(w.list.nodes, w.list.nodes, Inventories(Found(states, w.list)), whole);
    ReachablePart(nodes, w.list.nodes, Inventories(current.published), whole);
    ListIsSnapshot(show, listed, current.pending, states[w.list.end].now);
    StaleListExactly(show, Reachable(w.list.nodes, whole), listed, now, current.pending, states[w.list.end].now,
                     current.now);
  }

  lemma NothingMissed(show: Located -> Option<string>, listed: seq<Located>, current: seq<Located>,
                      pending: map<string, Pending>, before: int, now: int)
    requires (forall l :: l in listed ==> l in current) && (forall l :: l in current ==> l in listed)
    requires forall p :: p in pending.Values ==> Unexpired(p, now)
    ensures StillShows(show, listed, current, pending, before, now)
  {
  }

  /** So skipping loses nothing when the last list read every node, no inventory it listed has been
      removed and no claim has expired. */
  lemma SkippingLosesNothing(show: Located -> Option<string>, states: seq<State>, steps: seq<Step>,
                             initial: map<string, string>, ticks: seq<Tick>, tick: Tick, nodes: seq<string>)
    requires Run(states, steps) && TicksOf(states, ticks) && TickAfter(states, ticks, tick)
    requires Skips(Watched(show, states, initial, ticks), tick) && ListsNodes(states[tick.gen.start], nodes)
    requires ListedUnique(states, Watched(show, states, initial, ticks), states[tick.gen.start])
    requires var w, current := Watched(show, states, initial, ticks), states[tick.gen.start];
             && (forall n :: n in w.list.nodes ==> n in Found(states, w.list) && n in current.published)
             && (forall p :: p in current.pending.Values ==> Unexpired(p, current.now))
    ensures Watched(show, states, initial, ticks).known == Collection(show, states[tick.gen.start], nodes)
  {
    var w, current := Watched(show, states, initial, ticks), states[tick.gen.start];
    WatcherIsSourced(show, states, initial, ticks, tick.gen.start);
    SinceTheList(show, states, steps, w, tick);
    SkippedTickExactly(show, states, steps, initial, ticks, tick, nodes);
    ReachablePart(nodes, w.list.nodes, Inventories(current.published), Inventories(Found(states, w.list)));
    ReachablePart(w.list.nodes, nodes, Inventories(Found(states, w.list)), Inventories(current.published));
    NothingMissed(show, Entries(states, w.list), Reachable(nodes, Inventories(current.published)),
                  current.pending, states[w.list.end].now, current.now);
  }

  // ---------------------------------------------------------------- how skipping goes wrong

  /** All reads of a scan in one state. */
  function Once(k: nat, nodes: seq<string>): Scan {
    Scan(k, nodes, map n | n in nodes :: k, k)
  }

  function Readable(s: State): map<string, Published> {
    map n | n in s.published && n !in s.unreadable :: s.published[n]
  }

  function EntriesIn(s: State, nodes: seq<string>): seq<Located> {
    Reachable(nodes, Inventories(Readable(s)))
  }

  /** The pending claims a list in state `s` evicts. */
  function Evicted(s: State, nodes: seq<string>): set<string> {
    EvictedBy(EntriesIn(s, nodes), s.pending, s.now)
  }

  function ListNow(show: Located -> Option<string>, s: State, nodes: seq<string>): map<string, string> {
    Snapshot(show, View(EntriesIn(s, nodes), s.pending, s.now))
  }

  /** A tick in state `s` reads `fp`, and its list evicts nothing. */
  ghost predicate TicksIn(s: State, nodes: seq<string>, fp: Option<Fingerprint>) {
    && ListsNodes(s, nodes) && Evicted(s, nodes) == {}
    && Fingerprints(nodes, Readable(s), s.pendingGen, fp)
  }

  lemma OnceFinds(states: seq<State>, k: nat, nodes: seq<string>)
    requires k < |states| && ListsNodes(states[k], nodes)
    ensures ScanOf(states, Once(k, nodes)) && Found(states, Once(k, nodes)) == Readable(states[k])
  {
  }

  lemma OnceLists(show: Located -> Option<string>, states: seq<State>, k: nat, nodes: seq<string>)
    requires k < |states| && ListsNodes(states[k], nodes) && Evicted(states[k], nodes) == {}
    ensures ScanOf(states, Once(k, nodes)) && Evicts(states, Once(k, nodes))
    ensures ListOf(show, states, Once(k, nodes)) == ListNow(show, states[k], nodes)
  {
    var s := states[k];
    OnceFinds(states, k, nodes);
    forall l | l in EntriesIn(s, nodes) ensures l.key !in s.pending {
      assert l.key !in Evicted(s, nodes);
    }
    ListIsSnapshot(show, EntriesIn(s, nodes), s.pending, s.now);
  }

  function OnceTick(k: nat, nodes: seq<string>, fp: Option<Fingerprint>): Tick {
    Tick(Once(k, nodes), fp, Once(k, nodes), false)
  }

  lemma OnceTicks(show: Located -> Option<string>, states: seq<State>, k: nat, nodes: seq<string>,
                  fp: Option<Fingerprint>)
    requires k < |states| && TicksIn(states[k], nodes, fp)
    ensures TickOf(states, OnceTick(k, nodes, fp))
    ensures ListOf(show, states, OnceTick(k, nodes, fp).list) == ListNow(show, states[k], nodes)
  {
    OnceFinds(states, k, nodes);
    OnceLists(show, states, k, nodes);
  }

  /** The tick is skipped although a sandbox is there that the client does not know of. */
  ghost predicate Hides(show: Located -> Option<string>, states: seq<State>, initial: map<string, string>,
                        ticks: seq<Tick>, tick: Tick, nodes: seq<string>, key: string) {
    && TicksOf(states, ticks) && TickAfter(states, ticks, tick) && ListsNodes(states[tick.gen.start], nodes)
    && Skips(Watched(show, states, initial, ticks), tick)
    && key !in Watched(show, states, initial, ticks).known && key in Collection(show, states[tick.gen.start], nodes)
  }

  /** The tick is skipped although the client knows of a sandbox that is not there. */
  ghost predicate Invents(show: Located -> Option<string>, states: seq<State>, initial: map<string, string>,
                          ticks: seq<Tick>, tick: Tick, nodes: seq<string>, key: string) {
    && TicksOf(states, ticks) && TickAfter(states, ticks, tick) && ListsNodes(states[tick.gen.start], nodes)
    && Skips(Watched(show, states, initial, ticks), tick)
    && key in Watched(show, states, initial, ticks).known && key !in Collection(show, states[tick.gen.start], nodes)
  }

  lemma PolledOnce(show: Located -> Option<string>, states: seq<State>, initial: map<string, string>, t: Tick)
    requires TickOf(states, t) && t.fp.Some? && !t.failed
    ensures TicksOf(states, [t])
    ensures Watched(show, states, initial, [t]) == Watcher(ListOf(show, states, t.list), t.fp, t.gen, t.list)
  {
    assert [t][..0] == [];
    assert !Skips(Watched(show, states, initial, []), t);
  }

  lemma PolledTwice(show: Located -> Option<string>, states: seq<State>, initial: map<string, string>, t1: Tick,
                    t2: Tick)
    requires TickOf(states, t1) && TickOf(states, t2) && !t1.failed && !t2.failed && t1.list.end <= t2.gen.start
    requires t1.fp.Some? && t2.fp.None?
    ensures TicksOf(states, [t1, t2])
    ensures Watched(show, states, initial, [t1, t2]) == Watcher(ListOf(show, states, t2.list), t1.fp, t1.gen, t2.list)
  {
    PolledOnce(show, states, initial, t1);
    assert [t1, t2][..1] == [t1];
  }

  lemma HiddenSince(show: Located -> Option<string>, states: seq<State>, initial: map<string, string>,
                    t1: Tick, t2: Tick, tick: Tick, nodes: seq<string>, key: string)
    requires TickOf(states, t1) && TickOf(states, t2) && TickOf(states, tick) && !t1.failed && !t2.failed
    requires t1.list.end <= t2.gen.start && t2.list.end <= tick.gen.start && t1.list.end <= tick.gen.start
    requires t1.fp.Some? && t2.fp.None? && tick.fp == t1.fp && ListsNodes(states[tick.gen.start], nodes)
    requires key !in ListOf(show, states, t2.list) && key in Collection(show, states[tick.gen.start], nodes)
    ensures Hides(show, states, initial, [t1, t2], tick, nodes, key)
  {
    PolledTwice(show, states, initial, t1, t2);
  }

  lemma InventedSince(show: Located -> Option<string>, states: seq<State>, initial: map<string, string>,
                      t: Tick, tick: Tick, nodes: seq<string>, key: string)
    requires TickOf(states, t) && TickOf(states, tick) && !t.failed && t.list.end <= tick.gen.start
    requires t.fp.Some? && tick.fp == t.fp && ListsNodes(states[tick.gen.start], nodes)
    requires key in ListOf(show, states, t.list) && key !in Collection(show, states[tick.gen.start], nodes)
    ensures Invents(show, states, initial, [t], tick, nodes, key)
  {
    PolledOnce(show, states, initial, t);
  }

  /** Without the inventory of a node nothing of it is listed, and nothing more is evicted. */
  lemma WithoutItsNode(show: Located -> Option<string>, nodes: seq<string>, all: map<string, Inventory>,
                       fewer: seq<string>, some: map<string, Inventory>, pending: map<string, Pending>, now: int,
                       n: string, l: Located)
    requires forall m :: m in fewer && m in some ==> m in nodes && m in all && all[m] == some[m] && m != n
    requires n in nodes && n in all && NamesUnique(Reachable(nodes, all)) && (forall m :: m in all ==> all[m].node == m)
    requires l in Locate(all[n], |all[n].entries|) && show(l).Some?
               && EvictedBy(Reachable(nodes, all), pending, now) == {}
    ensures l.key in Snapshot(show, View(Reachable(nodes, all), pending, now))
    ensures l.key !in Snapshot(show, View(Reachable(fewer, some), pending, now))
    ensures EvictedBy(Reachable(fewer, some), pending, now) == {}
  {
    var more, less := Reachable(nodes, all), Reachable(fewer, some);
    ReachableMembers(nodes, all, l);
    IndexFinds(more, l);
    assert l.key !in EvictedBy(more, pending, now);
    ReachablePart(fewer, nodes, some, all);
    forall k | k in pending ensures k !in EvictedBy(less, pending, now) {
      assert k !in EvictedBy(more, pending, now);
    }
    if l.key in Index(less) {
      IndexHolds(less);
      var other := Index(less)[l.key];
      ReachableMembers(fewer, some, other);
      IndexFinds(more, other);
    }
  }

  /** A state whose every node is read, with a shown entry of one of them, and in which a list
      evicts nothing, as every list leaves it. */
  ghost predicate Quiet(show: Located -> Option<string>, s: State, nodes: seq<string>, n: string, l: Located,
                        fp: Fingerprint) {
    && s.unreadable == {} && ListsNodes(s, nodes) && Fingerprints(nodes, s.published, s.pendingGen, Some(fp))
    && NamesUnique(Reachable(nodes, Inventories(s.published)))
    && n in s.published && (forall m :: m in s.published ==> s.published[m].inventory.node == m)
    && l in Locate(s.published[n].inventory, |s.published[n].inventory.entries|) && show(l).Some?
    && Evicted(s, nodes) == {}
  }

  lemma RunThroughOutage(states: seq<State>, steps: seq<Step>, n: string)
    requires Run(states, steps) && states[|steps|].unreadable == {}
    ensures var s := states[|steps|];
            Run(states + [s.(unreadable := {n}), s], steps + [SetUnreadable({n}), SetUnreadable({})])
  {
    var k, s := |steps|, states[|steps|];
    var longer, more := states + [s.(unreadable := {n}), s], steps + [SetUnreadable({n}), SetUnreadable({})];
    forall i | 0 <= i < |more| ensures Next(longer[i], more[i], longer[i + 1]) {
      if i < k {
        assert Next(states[i], steps[i], states[i + 1]);
      }
    }
  }

  lemma DuringOutage(show: Located -> Option<string>, s: State, nodes: seq<string>, n: string, l: Located,
                     fp: Fingerprint)
    requires Quiet(show, s, nodes, n, l, fp)
    ensures var hidden := s.(unreadable := {n});
            && TicksIn(s, nodes, Some(fp)) && TicksIn(hidden, nodes, None)
            && l.key !in ListNow(show, hidden, nodes) && l.key in Collection(show, s, nodes)
  {
    var hidden := s.(unreadable := {n});
    assert Readable(s) == s.published;
    assert n !in Readable(hidden);
    WithoutItsNode(show, nodes, Inventories(s.published), nodes, Inventories(Readable(hidden)), s.pending, s.now, n, l);
  }

  lemma HidesAfterOutage(show: Located -> Option<string>, states: seq<State>, initial: map<string, string>,
                         k: nat, nodes: seq<string>, n: string, l: Located, fp: Fingerprint)
    requires k + 2 < |states| && Quiet(show, states[k], nodes, n, l, fp)
    requires states[k + 1] == states[k].(unreadable := {n}) && states[k + 2] == states[k]
    ensures Evicted(states[k + 1], nodes) == {}
    ensures Hides(show, states, initial, [OnceTick(k, nodes, Some(fp)), OnceTick(k + 1, nodes, None)],
                  OnceTick(k + 2, nodes, Some(fp)), nodes, l.key)
  {
    var t1, t2, tick := OnceTick(k, nodes, Some(fp)), OnceTick(k + 1, nodes, None), OnceTick(k + 2, nodes, Some(fp));
    DuringOutage(show, states[k], nodes, n, l, fp);
    OnceTicks(show, states, k, nodes, Some(fp));
    OnceTicks(show, states, k + 1, nodes, None);
    OnceTicks(show, states, k + 2, nodes, Some(fp));
    HiddenSince(show, states, initial, t1, t2, tick, nodes, l.key);
  }

  /** The condition does fail: after any run to a quiet state, a node that cannot be read during one
      poll drops out of what the client knows and, once readable again with nothing published since,
      stays out although its sandboxes are there. The lists of that run evict nothing themselves. */
  lemma HealedNodeStaysHidden(show: Located -> Option<string>, states: seq<State>, steps: seq<Step>,
                              initial: map<string, string>, nodes: seq<string>, n: string, l: Located, fp: Fingerprint)
    requires Run(states, steps) && Quiet(show, states[|steps|], nodes, n, l, fp)
    ensures var k, s := |steps|, states[|steps|];
            var longer := states + [s.(unreadable := {n}), s];
            && Run(longer, steps + [SetUnreadable({n}), SetUnreadable({})])
            && Evicted(longer[k], nodes) == {} && Evicted(longer[k + 1], nodes) == {}
            && Hides(show, longer, initial, [OnceTick(k, nodes, Some(fp)), OnceTick(k + 1, nodes, None)],
                     OnceTick(k + 2, nodes, Some(fp)), nodes, l.key)
  {
    var k, s := |steps|, states[|steps|];
    var longer := states + [s.(unreadable := {n}), s];
    RunThroughOutage(states, steps, n);
    assert longer[k] == s && longer[k + 2] == s;
    HidesAfterOutage(show, longer, initial, k, nodes, n, l, fp);
  }

  /** Removing an inventory is not seen exactly when another one carries the newest version, or none
      has one yet. */
  lemma RemovalUnseenExactly(s: State, nodes: seq<string>, fewer: seq<string>, n: string, fp: Fingerprint)
    requires Fingerprints(nodes, s.published, s.pendingGen, Some(fp)) && ListsNodes(s, nodes) && n in s.published
    requires forall m :: m in fewer <==> m in nodes && m != n
    ensures Fingerprints(fewer, s.published - {n}, s.pendingGen, Some(fp)) <==>
            fp.version == 0 || exists m :: m != n && m in s.published && s.published[m].version == Some(fp.version)
  {
    var left := s.published - {n};
    if m :| m != n && m in s.published && s.published[m].version == Some(fp.version) {
      assert m in left && left[m].version == Some(fp.version);
    }
    assert Trusted(fewer, left);
  }

  lemma RunThenRemove(states: seq<State>, steps: seq<Step>, n: string)
    requires Run(states, steps)
    ensures var s := states[|steps|];
            Run(states + [s.(published := s.published - {n})], steps + [RemoveInventory(n)])
  {
    var s := states[|steps|];
    var longer, more := states + [s.(published := s.published - {n})], steps + [RemoveInventory(n)];
    forall i | 0 <= i < |more| ensures Next(longer[i], more[i], longer[i + 1]) {
      if i < |steps| {
        assert Next(states[i], steps[i], states[i + 1]);
      }
    }
  }

  lemma AfterRemoval(show: Located -> Option<string>, s: State, nodes: seq<string>, fewer: seq<string>,
                     n: string, m: string, l: Located, fp: Fingerprint)
    requires Quiet(show, s, nodes, n, l, fp) && forall x :: x in fewer <==> x in s.published && x != n
    requires m != n && m in s.published && s.published[m].version == Some(fp.version)
    ensures var removed := s.(published := s.published - {n});
            && TicksIn(s, nodes, Some(fp)) && TicksIn(removed, fewer, Some(fp))
            && l.key in ListNow(show, s, nodes) && l.key !in Collection(show, removed, fewer)
  {
    var removed := s.(published := s.published - {n});
    assert Readable(s) == s.published && Readable(removed) == removed.published;
    RemovalUnseenExactly(s, nodes, fewer, n, fp);
    WithoutItsNode(show, nodes, Inventories(s.published), fewer, Inventories(removed.published), s.pending, s.now, n,
                   l);
  }

  lemma InventsAfterRemoval(show: Located -> Option<string>, states: seq<State>, initial: map<string, string>,
                            k: nat, nodes: seq<string>, fewer: seq<string>, n: string, m: string, l: Located,
                            fp: Fingerprint)
    requires k + 1 < |states| && Quiet(show, states[k], nodes, n, l, fp)
    requires states[k + 1] == states[k].(published := states[k].published - {n})
    requires m != n && m in states[k].published && states[k].published[m].version == Some(fp.version)
    requires forall x :: x in fewer <==> x in states[k].published && x != n
    ensures Invents(show, states, initial, [OnceTick(k, nodes, Some(fp))], OnceTick(k + 1, fewer, Some(fp)), fewer,
                    l.key)
  {
    var t, tick := OnceTick(k, nodes, Some(fp)), OnceTick(k + 1, fewer, Some(fp));
    AfterRemoval(show, states[k], nodes, fewer, n, m, l, fp);
    OnceTicks(show, states, k, nodes, Some(fp));
    OnceTicks(show, states, k + 1, fewer, Some(fp));
    InventedSince(show, states, initial, t, tick, fewer, l.key);
  }

  /** Then the client keeps the sandboxes of the removed node although nothing lists them. */
  lemma RemovedNodeStaysShown(show: Located -> Option<string>, states: seq<State>, steps: seq<Step>,
                              initial: map<string, string>, nodes: seq<string>, fewer: seq<string>,
                              n: string, m: string, l: Located, fp: Fingerprint)
    requires Run(states, steps) && Quiet(show, states[|steps|], nodes, n, l, fp)
    requires m != n && m in states[|steps|].published && states[|steps|].published[m].version == Some(fp.version)
    requires forall x :: x in fewer <==> x in states[|steps|].published && x != n
    ensures var k, s := |steps|, states[|steps|];
            var longer := states + [s.(published := s.published - {n})];
            && Run(longer, steps + [RemoveInventory(n)]) && Evicted(longer[k], nodes) == {}
            && Invents(show, longer, initial, [OnceTick(k, nodes, Some(fp))], OnceTick(k + 1, fewer, Some(fp)), fewer,
                       l.key)
  {
    var k, s := |steps|, states[|steps|];
    var longer := states + [s.(published := s.published - {n})];
    RunThenRemove(states, steps, n);
    assert longer[k] == s;
    InventsAfterRemoval(show, longer, initial, k, nodes, fewer, n, m, l, fp);
  }
}
