/** The watch from end to end: ticks decide whether to poll, polls list the store, and the events of
    the polls are all a client ever sees. */
module ClientView {
  import opened Text
  import opened SandboxSynthesis
  import opened StoreView
  import opened CollectionGeneration
  import Stream = WatchStream

  // ---------------------------------------------------------------- polling the store

  function ItemOf(sb: Sandbox): Stream.Item {
    Stream.Item(Key(sb.namespace, sb.name), sb.resourceVersion)
  }

  function ItemsOf(sandboxes: seq<Sandbox>): seq<Stream.Item> {
    if sandboxes == [] then [] else ItemsOf(sandboxes[..|sandboxes| - 1]) + [ItemOf(sandboxes[|sandboxes| - 1])]
  }

  /** How the store shows an entry to a watch with this filter. */
  function ShowOf(d: Digests, overlays: map<string, Overlay>, keep: Sandbox -> bool): Located -> Option<string> {
    l => var sb := Served(d, overlays, l); if keep(sb) then Some(sb.resourceVersion) else None
  }

  /** Everything in the view is filed under the key it is served under. */
  ghost predicate Filed(view: map<string, Located>) {
    forall k :: k in view ==> view[k].key == k == EntryKey(view[k].entry)
  }

  lemma {:induction false} ItemAt(sandboxes: seq<Sandbox>)
    ensures |ItemsOf(sandboxes)| == |sandboxes|
    ensures forall i :: 0 <= i < |sandboxes| ==> ItemsOf(sandboxes)[i] == ItemOf(sandboxes[i])
  {
    if sandboxes != [] {
      ItemAt(sandboxes[..|sandboxes| - 1]);
    }
  }

  lemma ShownKey(d: Digests, overlays: map<string, Overlay>, view: map<string, Located>, keep: Sandbox -> bool,
                 sb: Sandbox)
    requires Filed(view) && Shows(d, overlays, view, keep, sb)
    ensures '/' !in sb.namespace && keep(sb)
    ensures var k := Key(sb.namespace, sb.name); k in view && sb == Served(d, overlays, view[k])
  {
    var k :| k in view && sb == Served(d, overlays, view[k]) && keep(sb);
    ServedKey(d, overlays, view[k]);
  }

  ghost predicate IsListOf(d: Digests, overlays: map<string, Overlay>, view: map<string, Located>,
                           keep: Sandbox -> bool,
                           sandboxes: seq<Sandbox>) {
    && Filed(view) && KeysDistinct(sandboxes)
    && forall sb :: sb in sandboxes <==> Shows(d, overlays, view, keep, sb)
  }

  lemma ItemsDiffer(d: Digests, overlays: map<string, Overlay>, view: map<string, Located>, keep: Sandbox -> bool,
                    sandboxes: seq<Sandbox>, i: nat, j: nat)
    requires IsListOf(d, overlays, view, keep, sandboxes) && i < j < |sandboxes|
    ensures ItemOf(sandboxes[i]).key != ItemOf(sandboxes[j]).key
  {
    var a, b := sandboxes[i], sandboxes[j];
    assert a in sandboxes && b in sandboxes;
    ShownKey(d, overlays, view, keep, a);
    ShownKey(d, overlays, view, keep, b);
    KeyInjective(a.namespace, a.name, b.namespace, b.name);
  }

  lemma ItemIsShown(d: Digests, overlays: map<string, Overlay>, view: map<string, Located>, keep: Sandbox -> bool,
                    sandboxes: seq<Sandbox>, i: nat)
    requires IsListOf(d, overlays, view, keep, sandboxes) && i < |sandboxes|
    ensures var item := ItemOf(sandboxes[i]);
            Shown(ShowOf(d, overlays, keep), view, item.key) == Some(item.version)
  {
    assert sandboxes[i] in sandboxes;
    ShownKey(d, overlays, view, keep, sandboxes[i]);
  }

  lemma ShownIsItem(d: Digests, overlays: map<string, Overlay>, view: map<string, Located>, keep: Sandbox -> bool,
                    sandboxes: seq<Sandbox>, k: string) returns (i: nat)
    requires IsListOf(d, overlays, view, keep, sandboxes) && Shown(ShowOf(d, overlays, keep), view, k).Some?
    ensures i < |sandboxes| && ItemOf(sandboxes[i]).key == k
  {
    var sb := Served(d, overlays, view[k]);
    assert Shows(d, overlays, view, keep, sb);
    ServedKey(d, overlays, view[k]);
    i :| 0 <= i < |sandboxes| && sandboxes[i] == sb;
  }

  lemma SnapshotLookups(show: Located -> Option<string>, view: map<string, Located>)
    ensures forall k :: Stream.Lookup(Snapshot(show, view), k) == Shown(show, view, k)
  {
  }

  /** What the store lists is, item by item, the snapshot of its view. */
  lemma ListedItems(d: Digests, overlays: map<string, Overlay>, view: map<string, Located>, keep: Sandbox -> bool,
                    sandboxes: seq<Sandbox>)
    requires IsListOf(d, overlays, view, keep, sandboxes)
    ensures Stream.KeysUnique(ItemsOf(sandboxes))
    ensures Stream.Contents(ItemsOf(sandboxes)) == Snapshot(ShowOf(d, overlays, keep), view)
  {
    var items, show := ItemsOf(sandboxes), ShowOf(d, overlays, keep);
    ItemAt(sandboxes);
    forall i, j | 0 <= i < j < |items| ensures items[i].key != items[j].key {
      ItemsDiffer(d, overlays, view, keep, sandboxes, i, j);
    }
    Stream.ContentsKeys(items);
    forall k ensures Stream.Lookup(Stream.Contents(items), k) == Shown(show, view, k) {
      if k in Stream.Contents(items) {
        var i :| 0 <= i < |items| && items[i].key == k;
        Stream.LastListed(items, k);
        ItemIsShown(d, overlays, view, keep, sandboxes, i);
      } else if Shown(show, view, k).Some? {
        var _ := ShownIsItem(d, overlays, view, keep, sandboxes, k);
      }
    }
    SnapshotLookups(show, view);
    Stream.SameLookups(Stream.Contents(items), Snapshot(show, view));
  }

  lemma ViewIsFiled(nodes: seq<string>, inventories: map<string, Inventory>, pending: map<string, Pending>, now: int)
    requires PendingFiled(pending)
    ensures Filed(View(Reachable(nodes, inventories), pending, now))
  {
    ReachableKeyed(nodes, inventories);
    IndexHolds(Reachable(nodes, inventories));
  }

  /** The client knows the key at the version of an earlier entry, and the entry now shown under it
      differs from that one in its id, phase, claim reference or address alone. */
  ghost predicate OneChangeShown(d: Digests, before: Stream.Cache, after: Stream.Cache, view: map<string, Located>,
                                 k: string, was: Entry) {
    && k in before && k in after && k in view && OneDiffers(was, view[k].entry)
    && var ref := ParseClaimRef(view[k].entry.name); before[k] == ResourceVersion(d, ref.namespace, ref.name, was)
  }

  lemma OneChangeIsDue(d: Digests, overlays: map<string, Overlay>, keep: Sandbox -> bool, known: Stream.Cache,
                       list: seq<Stream.Item>, view: map<string, Located>, k: string, was: Entry)
    requires Injective(d.version) && Stream.Contents(list) == Snapshot(ShowOf(d, overlays, keep), view)
    requires OneChangeShown(d, known, Stream.Contents(list), view, k, was)
    ensures Stream.Due(known, list, Stream.Modified(Stream.Item(k, Stream.Contents(list)[k])))
  {
    var ref := ParseClaimRef(view[k].entry.name);
    VersionTellsOneChange(d, ref.namespace, ref.name, was, view[k].entry);
    ServedVersion(d, overlays, view[k]);
    Stream.LastIsListed(list, k);
  }

  /** One poll of the store: the client gets from what it knew to exactly the store's view. */
  method PollStore(store: ScatterGatherStore, watch: Stream.InventoryWatch, nodes: seq<string>,
                   inventories: map<string, Inventory>, now: int, keep: Sandbox -> bool)
    returns (events: seq<Stream.Event>)
    requires store.Valid() && NamesUnique(Reachable(nodes, inventories))
    modifies store`pending, store`pendingGen, watch
    ensures store.Valid() && store.Unseen(Reachable(nodes, inventories), now)
    ensures watch.known == Snapshot(ShowOf(store.digests, store.overlays, keep),
                                    old(store.Collection(Reachable(nodes, inventories), now)))
    ensures Stream.Replay(old(watch.known), events) == Some(watch.known)
    ensures Injective(store.digests.version) ==>
              var view := old(store.Collection(Reachable(nodes, inventories), now));
              forall k, was :: OneChangeShown(store.digests, old(watch.known), watch.known, view, k, was) ==>
                Stream.Modified(Stream.Item(k, watch.known[k])) in events
  {
    ghost var view := store.Collection(Reachable(nodes, inventories), now);
    var sandboxes := store.List(nodes, inventories, now, keep);
    ViewIsFiled(nodes, inventories, old(store.pending), now);
    ListedItems(store.digests, store.overlays, view, keep, sandboxes);
    Stream.UniqueKeysAreFollowable(watch.known, ItemsOf(sandboxes));
    ghost var known := watch.known;
    events := watch.Poll(ItemsOf(sandboxes));
    if Injective(store.digests.version) {
      forall k, was | OneChangeShown(store.digests, known, watch.known, view, k, was)
        ensures Stream.Modified(Stream.Item(k, watch.known[k])) in events
      {
        OneChangeIsDue(store.digests, store.overlays, keep, known, ItemsOf(sandboxes), view, k, was);
      }
    }
  }

  // ---------------------------------------------------------------- all ticks of a watch

  ghost predicate Polls(w: Watcher, t: Tick) {
    !Skips(w, t) && !t.failed
  }

  /** The items of each list say what the list shows. */
  ghost predicate ItemsAre(show: Located -> Option<string>, states: seq<State>, ticks: seq<Tick>,
                           lists: seq<seq<Stream.Item>>) {
    && ListsOf(states, ticks) && |lists| == |ticks|
    && forall i :: 0 <= i < |ticks| && !ticks[i].failed ==>
         Stream.Contents(lists[i]) == ListOf(show, states, ticks[i].list)
  }

  /** The client can follow every poll from where the one before left it. */
  ghost predicate AllFollowable(show: Located -> Option<string>, states: seq<State>, initial: seq<Stream.Item>,
                                ticks: seq<Tick>, lists: seq<seq<Stream.Item>>, n: nat)
    requires ItemsAre(show, states, ticks, lists) && n <= |ticks|
  {
    && Stream.Followable(map[], initial)
    && forall i :: 0 <= i < n ==>
         var w := Watched(show, states, Stream.Contents(initial), ticks[..i]);
         Polls(w, ticks[i]) ==> Stream.Followable(w.known, lists[i])
  }

  ghost predicate AllUnique(initial: seq<Stream.Item>, lists: seq<seq<Stream.Item>>) {
    Stream.KeysUnique(initial) && forall i :: 0 <= i < |lists| ==> Stream.KeysUnique(lists[i])
  }

  /** In particular when no list, like those of ListedItems, has a key twice. */
  lemma UniqueListsAreFollowable(show: Located -> Option<string>, states: seq<State>, initial: seq<Stream.Item>,
                                 ticks: seq<Tick>, lists: seq<seq<Stream.Item>>)
    requires ItemsAre(show, states, ticks, lists) && AllUnique(initial, lists)
    ensures AllFollowable(show, states, initial, ticks, lists, |ticks|)
  {
    Stream.UniqueKeysAreFollowable(map[], initial);
    forall i | 0 <= i < |ticks|
      ensures Stream.Followable(Watched(show, states, Stream.Contents(initial), ticks[..i]).known, lists[i])
    {
      Stream.UniqueKeysAreFollowable(Watched(show, states, Stream.Contents(initial), ticks[..i]).known, lists[i]);
    }
  }

  /** The client has the collection exactly under the condition of SkippedTickExactly. */
  ghost predicate KnowsExactly(show: Located -> Option<string>, states: seq<State>, w: Watcher, tick: Tick,
                               nodes: seq<string>, client: Option<Stream.Cache>)
    requires InBounds(states, w.list) && tick.gen.start < |states|
  {
    var current := states[tick.gen.start];
    client == Some(Collection(show, current, nodes)) <==>
    StillShows(show, Entries(states, w.list), Reachable(nodes, Inventories(current.published)),
               current.pending, states[w.list.end].now, current.now)
  }

  ghost predicate SkippedNext(states: seq<State>, ticks: seq<Tick>, w: Watcher, tick: Tick, nodes: seq<string>) {
    && TickAfter(states, ticks, tick) && Skips(w, tick) && ListsNodes(states[tick.gen.start], nodes)
    && ListedUnique(states, w, states[tick.gen.start])
  }

  /** That holds whenever the next tick is skipped. */
  ghost predicate ExactWhenSkipping(show: Located -> Option<string>, states: seq<State>, initial: map<string, string>,
                                    ticks: seq<Tick>, client: Option<Stream.Cache>)
    requires ListsOf(states, ticks)
  {
    var w := Watched(show, states, initial, ticks);
    forall tick, nodes :: SkippedNext(states, ticks, w, tick, nodes) ==>
        KnowsExactly(show, states, w, tick, nodes, client)
  }

  lemma KnownIsExactAt(show: Located -> Option<string>, states: seq<State>, steps: seq<Step>,
                       initial: map<string, string>, ticks: seq<Tick>, tick: Tick, nodes: seq<string>)
    requires Run(states, steps) && TicksOf(states, ticks)
    requires SkippedNext(states, ticks, Watched(show, states, initial, ticks), tick, nodes)
    ensures var w := Watched(show, states, initial, ticks);
            KnowsExactly(show, states, w, tick, nodes, Some(w.known))
  {
    SkippedTickExactly(show, states, steps, initial, ticks, tick, nodes);
  }

  lemma KnownIsExact(show: Located -> Option<string>, states: seq<State>, steps: seq<Step>,
                     initial: map<string, string>, ticks: seq<Tick>)
    requires Run(states, steps) && TicksOf(states, ticks)
    ensures ExactWhenSkipping(show, states, initial, ticks, Some(Watched(show, states, initial, ticks).known))
  {
    var w := Watched(show, states, initial, ticks);
    forall tick, nodes | SkippedNext(states, ticks, w, tick, nodes)
      ensures KnowsExactly(show, states, w, tick, nodes, Some(w.known))
    {
      KnownIsExactAt(show, states, steps, initial, ticks, tick, nodes);
    }
  }

  lemma WatchedNext(show: Located -> Option<string>, states: seq<State>, initial: map<string, string>, ticks: seq<Tick>,
                    i: nat)
    requires ListsOf(states, ticks) && i < |ticks|
    ensures Watched(show, states, initial, ticks[..i + 1]) ==
            AfterTick(show, states, Watched(show, states, initial, ticks[..i]), ticks[i])
  {
    assert ticks[..i + 1][..i] == ticks[..i];
  }

  /** runWatch: whatever the ticks of a run poll, skip or fail to list, a client that replays the
      events ends with exactly what the watcher knows; so when the next tick is skipped it has the
      collection exactly under the condition of SkippedTickExactly. */
  method RunWatch(ghost show: Located -> Option<string>, ghost states: seq<State>, ghost steps: seq<Step>,
                  initial: seq<Stream.Item>, ticks: seq<Tick>, lists: seq<seq<Stream.Item>>)
    returns (events: seq<Stream.Event>)
    requires ItemsAre(show, states, ticks, lists)
    ensures AllUnique(initial, lists) ==> AllFollowable(show, states, initial, ticks, lists, |ticks|)
    ensures AllFollowable(show, states, initial, ticks, lists, |ticks|) ==>
              Stream.Replay(map[], events) == Some(Watched(show, states, Stream.Contents(initial), ticks).known)
    ensures AllFollowable(show, states, initial, ticks, lists, |ticks|) && Run(states, steps)
              && TicksOf(states, ticks) ==>
              ExactWhenSkipping(show, states, Stream.Contents(initial), ticks, Stream.Replay(map[], events))
  {
    var watch := new Stream.InventoryWatch();
    var lastGen: Option<Fingerprint> := None;
    events := watch.Poll(initial);
    ghost var known := Stream.Contents(initial);
    for i := 0 to |ticks|
      invariant watch.known == Watched(show, states, known, ticks[..i]).known
      invariant lastGen == Watched(show, states, known, ticks[..i]).lastGen
      invariant AllFollowable(show, states, initial, ticks, lists, i) ==>
                  Stream.Replay(map[], events) == Some(watch.known)
    {
      WatchedNext(show, states, known, ticks, i);
      if ticks[i].fp.Some? && ticks[i].fp == lastGen {
        continue;
      }
      if ticks[i].failed {
        continue;
      }
      if ticks[i].fp.Some? {
        lastGen := ticks[i].fp;
      }
      var more := watch.Poll(lists[i]);
      if Stream.Replay(map[], events).Some? {
        Stream.ReplayConcat(map[], events, more);
      }
      events := events + more;
    }
    assert ticks[..|ticks|] == ticks;
    if AllUnique(initial, lists) {
      UniqueListsAreFollowable(show, states, initial, ticks, lists);
    }
    if AllFollowable(show, states, initial, ticks, lists, |ticks|) && Run(states, steps) && TicksOf(states, ticks) {
      KnownIsExact(show, states, steps, known, ticks);
    }
  }

}
