/** The watch: each polled list is turned into the events that bring a client's cache from the
    previous list to this one. */
module WatchStream {
  import opened Text

  /** A listed object as far as the watch compares it. */
  datatype Item = Item(key: string, version: string)

  datatype Event = Added(item: Item) | Modified(item: Item) | Deleted(item: Item)

  type Cache = map<string, string>

  /** A client applies an event: an addition must be new, a change or deletion must be known. */
  function Apply(cache: Cache, e: Event): Option<Cache> {
    match e
    case Added(i) => if i.key in cache then None else Some(cache[i.key := i.version])
    case Modified(i) => if i.key in cache then Some(cache[i.key := i.version]) else None
    case Deleted(i) => if i.key in cache then Some(cache - {i.key}) else None
  }

  function Replay(cache: Cache, events: seq<Event>): Option<Cache> {
    if events == [] then Some(cache)
    else match Replay(cache, events[..|events| - 1])
      case None => None
      case Some(c) => Apply(c, events[|events| - 1])
  }

  lemma ReplayAppend(cache: Cache, events: seq<Event>, e: Event)
    ensures Replay(cache, events + [e]) ==
            match Replay(cache, events) case None => None case Some(c) => Apply(c, e)
  {
    assert (events + [e])[..|events|] == events;
  }

  lemma {:induction false} ReplayConcat(cache: Cache, a: seq<Event>, b: seq<Event>)
    requires Replay(cache, a).Some?
    ensures Replay(cache, a + b) == Replay(Replay(cache, a).value, b)
  {
    if b == [] {
      assert a + b == a;
    } else {
      var n := |b| - 1;
      ReplayConcat(cache, a, b[..n]);
      assert (a + b)[..|a + b| - 1] == a + b[..n];
    }
  }

  /** What a list says about every key. */
  function Contents(list: seq<Item>): Cache {
    if list == [] then map[] else Contents(list[..|list| - 1])[list[|list| - 1].key := list[|list| - 1].version]
  }

  ghost predicate KeysUnique(list: seq<Item>) {
    forall i, j :: 0 <= i < j < |list| ==> list[i].key != list[j].key
  }

  lemma {:induction false} ContentsKeys(list: seq<Item>)
    ensures forall i :: 0 <= i < |list| ==> list[i].key in Contents(list)
    ensures forall k :: k in Contents(list) ==> exists i :: 0 <= i < |list| && list[i].key == k
  {
    if list != [] {
      var n := |list| - 1;
      ContentsKeys(list[..n]);
      forall i | 0 <= i < |list| ensures list[i].key in Contents(list) {
        if i < n { assert list[..n][i] == list[i]; }
      }
      forall k | k in Contents(list) ensures exists i :: 0 <= i < |list| && list[i].key == k {
        if k != list[n].key {
          var i :| 0 <= i < n && list[..n][i].key == k;
          assert list[i].key == k;
        }
      }
    }
  }

  lemma {:induction false} LastIsListed(list: seq<Item>, k: string)
    requires k in Contents(list)
    ensures Item(k, Contents(list)[k]) in list
  {
    var n := |list| - 1;
    if list[n].key != k {
      LastIsListed(list[..n], k);
    }
  }

  /** The event, if any, for a listed object. */
  function EventFor(known: Cache, item: Item): seq<Event> {
    if item.key !in known then [Added(item)]
    else if known[item.key] != item.version then [Modified(item)]
    else []
  }

  function EventsFor(known: Cache, list: seq<Item>): seq<Event> {
    if list == [] then [] else EventsFor(known, list[..|list| - 1]) + EventFor(known, list[|list| - 1])
  }

  /** The events a poll owes a client: what is new, what has another version, and what is gone. */
  ghost predicate Due(known: Cache, list: seq<Item>, e: Event) {
    match e
    case Added(i) => i in list && i.key !in known
    case Modified(i) => i in list && i.key in known && known[i.key] != i.version
    case Deleted(i) => i.key in known && known[i.key] == i.version && forall x :: x in list ==> x.key != i.key
  }

  lemma {:induction false} ListedAreDue(known: Cache, list: seq<Item>, e: Event)
    ensures e in EventsFor(known, list) <==> !e.Deleted? && Due(known, list, e)
  {
    if list != [] {
      var n := |list| - 1;
      ListedAreDue(known, list[..n], e);
      assert list == list[..n] + [list[n]];
    }
  }

  /** The client's cache after the event, if any, for `item`. */
  function AfterItem(cache: Cache, known: Cache, item: Item): Option<Cache> {
    if EventFor(known, item) == [] then Some(cache) else Apply(cache, EventFor(known, item)[0])
  }

  lemma EventsForAppend(known: Cache, list: seq<Item>, item: Item)
    ensures EventsFor(known, list + [item]) == EventsFor(known, list) + EventFor(known, item)
    ensures Contents(list + [item]) == Contents(list)[item.key := item.version]
  {
    assert (list + [item])[..|list|] == list;
  }

  lemma ReplayItem(known: Cache, list: seq<Item>, item: Item)
    ensures Replay(known, EventsFor(known, list + [item])) ==
            match Replay(known, EventsFor(known, list)) case None => None case Some(c) => AfterItem(c, known, item)
  {
    EventsForAppend(known, list, item);
    var events := EventsFor(known, list);
    if EventFor(known, item) == [] {
      assert events + [] == events;
    } else {
      assert EventFor(known, item) == [EventFor(known, item)[0]];
      ReplayAppend(known, events, EventFor(known, item)[0]);
    }
  }

  /** No key that was unknown before is listed twice. */
  ghost predicate NewKeysOnce(known: Cache, list: seq<Item>) {
    forall i, j :: 0 <= i < j < |list| && list[i].key == list[j].key ==> list[i].key in known
  }

  lemma NewKeysOnceAppend(known: Cache, list: seq<Item>, item: Item)
    ensures NewKeysOnce(known, list + [item]) <==>
            NewKeysOnce(known, list) && (item.key in known || item.key !in Contents(list))
  {
    var all := list + [item];
    ContentsKeys(list);
    assert forall i :: 0 <= i < |list| ==> all[i] == list[i];
    if NewKeysOnce(known, all) {
      assert NewKeysOnce(known, list) by {
        forall i, j | 0 <= i < j < |list| && list[i].key == list[j].key ensures list[i].key in known {
          assert all[i].key == all[j].key;
        }
      }
      if item.key in Contents(list) {
        var i :| 0 <= i < |list| && list[i].key == item.key;
        assert all[i].key == all[|list|].key;
      }
    }
  }

  /** The events for a list are legal for the client exactly when no key unknown before is
      listed twice. */
  lemma {:induction false} LegalExactly(known: Cache, list: seq<Item>)
    ensures Replay(known, EventsFor(known, list)).Some? <==> NewKeysOnce(known, list)
    ensures Replay(known, EventsFor(known, list)).Some? ==>
              Replay(known, EventsFor(known, list)).value.Keys == known.Keys + Contents(list).Keys
  {
    if list == [] {
      assert Contents(list).Keys == {};
    } else {
      var n := |list| - 1;
      var front := list[..n];
      assert list == front + [list[n]];
      LegalExactly(known, front);
      NewKeysOnceAppend(known, front, list[n]);
      EventsForAppend(known, front, list[n]);
      ReplayItem(known, front, list[n]);
    }
  }

  function Lookup(cache: Cache, k: string): Option<string> {
    if k in cache then Some(cache[k]) else None
  }

  /** The version the last event for `k` carries, or the known one when there is none. */
  function At(known: Cache, list: seq<Item>, k: string): Option<string> {
    if list == [] then Lookup(known, k)
    else
      var last := list[|list| - 1];
      if last.key == k && EventFor(known, last) != [] then Some(last.version) else At(known, list[..|list| - 1], k)
  }

  lemma AtAppend(known: Cache, list: seq<Item>, item: Item, k: string)
    ensures At(known, list + [item], k) ==
            if item.key == k && EventFor(known, item) != [] then Some(item.version) else At(known, list, k)
  {
    assert (list + [item])[..|list|] == list;
  }

  lemma AfterItemAt(cache: Cache, known: Cache, item: Item, k: string)
    requires AfterItem(cache, known, item).Some?
    ensures Lookup(AfterItem(cache, known, item).value, k) ==
            if item.key == k && EventFor(known, item) != [] then Some(item.version) else Lookup(cache, k)
  {
  }

  lemma ReplayedAtAppend(known: Cache, list: seq<Item>, item: Item, k: string)
    requires Replay(known, EventsFor(known, list)).Some? && Replay(known, EventsFor(known, list + [item])).Some?
    requires Lookup(Replay(known, EventsFor(known, list)).value, k) == At(known, list, k)
    ensures Lookup(Replay(known, EventsFor(known, list + [item])).value, k) == At(known, list + [item], k)
  {
    ReplayItem(known, list, item);
    AtAppend(known, list, item, k);
    AfterItemAt(Replay(known, EventsFor(known, list)).value, known, item, k);
  }

  /** The client ends with what the last event for each key says. */
  lemma {:induction false} ReplayedAt(known: Cache, list: seq<Item>, k: string)
    requires Replay(known, EventsFor(known, list)).Some?
    ensures Lookup(Replay(known, EventsFor(known, list)).value, k) == At(known, list, k)
  {
    if list != [] {
      var front, last := list[..|list| - 1], list[|list| - 1];
      assert list == front + [last];
      ReplayItem(known, front, last);
      ReplayedAt(known, front, k);
      ReplayedAtAppend(known, front, last, k);
    }
  }

  /** Every listing of `k` repeats the known version. */
  ghost predicate Repeats(known: Cache, list: seq<Item>, k: string)
    requires k in known
  {
    forall i :: 0 <= i < |list| && list[i].key == k ==> list[i].version == known[k]
  }

  lemma RepeatsAppend(known: Cache, list: seq<Item>, item: Item, k: string)
    requires k in known
    ensures Repeats(known, list + [item], k) <==>
              Repeats(known, list, k) && (item.key == k ==> item.version == known[k])
  {
    var all := list + [item];
    assert all[|list|] == item && forall i :: 0 <= i < |list| ==> all[i] == list[i];
  }

  lemma {:induction false} KnownAt(known: Cache, list: seq<Item>, k: string)
    requires k in known
    ensures At(known, list, k) == Some(known[k]) <==> Repeats(known, list, k)
    ensures k in Contents(list) && Contents(list)[k] != known[k] ==> At(known, list, k) == Some(Contents(list)[k])
    ensures k !in Contents(list) ==> At(known, list, k) == Some(known[k])
  {
    if list != [] {
      var n := |list| - 1;
      var front := list[..n];
      assert list == front + [list[n]];
      KnownAt(known, front, k);
      AtAppend(known, front, list[n], k);
      RepeatsAppend(known, front, list[n], k);
      EventsForAppend(known, front, list[n]);
    }
  }

  lemma {:induction false} NewAt(known: Cache, list: seq<Item>, k: string)
    requires k !in known
    ensures At(known, list, k) == Lookup(Contents(list), k)
  {
    if list != [] {
      var n := |list| - 1;
      var front := list[..n];
      assert list == front + [list[n]];
      NewAt(known, front, k);
      AtAppend(known, front, list[n], k);
      EventsForAppend(known, front, list[n]);
    }
  }

  /** No listing of a known key is lost on the client: the last one differs from the known version, or
      all repeat it. */
  ghost predicate Told(known: Cache, list: seq<Item>, k: string)
    requires k in known && k in Contents(list)
  {
    Contents(list)[k] != known[k] || Repeats(known, list, k)
  }

  /** The client can follow from `known` to `list`. */
  ghost predicate Followable(known: Cache, list: seq<Item>) {
    && NewKeysOnce(known, list)
    && forall k :: k in known && k in Contents(list) ==> Told(known, list, k)
  }

  lemma AtExactly(known: Cache, list: seq<Item>, k: string)
    ensures At(known, list, k) == Lookup(known + Contents(list), k) <==>
              (k in known && k in Contents(list) ==> Told(known, list, k))
  {
    if k in known {
      KnownAt(known, list, k);
    } else {
      NewAt(known, list, k);
    }
  }

  lemma SameLookups(a: Cache, b: Cache)
    requires forall k :: Lookup(a, k) == Lookup(b, k)
    ensures a == b
  {
    forall k ensures (k in a <==> k in b) && (k in a ==> a[k] == b[k]) {
      assert Lookup(a, k) == Lookup(b, k);
    }
  }

  /** The listed events bring the client to the listed version of every listed key exactly when no
      new key is listed twice and no listing of a known key is lost. */
  lemma EventsBringContentsExactly(known: Cache, list: seq<Item>)
    ensures Replay(known, EventsFor(known, list)) == Some(known + Contents(list)) <==> Followable(known, list)
  {
    LegalExactly(known, list);
    if NewKeysOnce(known, list) {
      var cache := Replay(known, EventsFor(known, list)).value;
      if cache == known + Contents(list) {
        forall k | k in known && k in Contents(list) ensures Told(known, list, k) {
          ReplayedAt(known, list, k);
          AtExactly(known, list, k);
        }
      }
      if Followable(known, list) {
        forall k ensures Lookup(cache, k) == Lookup(known + Contents(list), k) {
          ReplayedAt(known, list, k);
          AtExactly(known, list, k);
        }
        SameLookups(cache, known + Contents(list));
      }
    }
  }

  lemma {:induction false} LastListed(list: seq<Item>, k: string)
    requires KeysUnique(list)
    ensures forall i :: 0 <= i < |list| && list[i].key == k ==>
              k in Contents(list) && Contents(list)[k] == list[i].version
  {
    if list != [] {
      var n := |list| - 1;
      var front := list[..n];
      assert list == front + [list[n]];
      LastListed(front, k);
      EventsForAppend(map[], front, list[n]);
      assert forall i :: 0 <= i < n ==> front[i] == list[i];
    }
  }

  /** In particular from anywhere to any list with unique keys. */
  lemma UniqueKeysAreFollowable(known: Cache, list: seq<Item>)
    requires KeysUnique(list)
    ensures Followable(known, list)
  {
    forall k | k in known && k in Contents(list) ensures Told(known, list, k) {
      LastListed(list, k);
    }
  }

  /** What is not listed any more is on the client as it was until its deletion. */
  lemma UnlistedStay(known: Cache, list: seq<Item>)
    requires NewKeysOnce(known, list)
    ensures Replay(known, EventsFor(known, list)).Some?
    ensures forall k :: k in known && k !in Contents(list) ==>
              Lookup(Replay(known, EventsFor(known, list)).value, k) == Some(known[k])
  {
    LegalExactly(known, list);
    forall k | k in known && k !in Contents(list)
      ensures Lookup(Replay(known, EventsFor(known, list)).value, k) == Some(known[k])
    {
      ReplayedAt(known, list, k);
      KnownAt(known, list, k);
    }
  }

  lemma DeletionsKeepExactness(known: Cache, current: Cache, listed: Cache)
    requires listed.Keys == known.Keys + current.Keys
    requires forall k :: k in known && k !in current ==> Lookup(listed, k) == Some(known[k])
    ensures listed - (known.Keys - current.Keys) == current <==> listed == known + current
  {
    if listed - (known.Keys - current.Keys) == current {
      forall k | k in listed ensures listed[k] == (known + current)[k] {
        if k in current {
          assert (listed - (known.Keys - current.Keys))[k] == current[k];
        } else {
          assert Lookup(listed, k) == Some(known[k]);
        }
      }
      assert listed == known + current;
    }
    if listed == known + current {
      assert listed - (known.Keys - current.Keys) == current;
    }
  }

  /** The deletion of a known key that is not among those kept. */
  ghost predicate Gone(known: Cache, kept: set<string>, e: Event) {
    e.Deleted? && e.item.key in known && e.item.key !in kept && e.item.version == known[e.item.key]
  }

  lemma GoneIsDue(known: Cache, list: seq<Item>, e: Event)
    ensures Gone(known, Contents(list).Keys, e) <==> e.Deleted? && Due(known, list, e)
  {
    ContentsKeys(list);
  }

  class InventoryWatch {
    var known: Cache

    constructor ()
      ensures known == map[]
    {
      known := map[];
    }

    /** Events for the listed objects, compared with what was known before. */
    method ListedEvents(list: seq<Item>) returns (events: seq<Event>, current: Cache)
      ensures events == EventsFor(known, list) && current == Contents(list)
    {
      events, current := [], map[];
      for n := 0 to |list|
        invariant events == EventsFor(known, list[..n]) && current == Contents(list[..n])
      {
        var item := list[n];
        assert list[..n + 1][..n] == list[..n];
        current := current[item.key := item.version];
        if item.key !in known {
          events := events + [Added(item)];
        } else if known[item.key] != item.version {
          events := events + [Modified(item)];
        }
      }
      assert list[..|list|] == list;
    }

    /** Events for the objects no longer listed, in any order: they take exactly those away. */
    method DeletedEvents(current: Cache, events: seq<Event>) returns (all: seq<Event>)
      requires Replay(known, events).Some? ==> known.Keys <= Replay(known, events).value.Keys
      ensures Replay(known, all) ==
              match Replay(known, events) case None => None case Some(c) => Some(c - (known.Keys - current.Keys))
      ensures forall e :: e in all <==> e in events || Gone(known, current.Keys, e)
    {
      all := events;
      var rest := known.Keys - current.Keys;
      ghost var gone: set<string> := {};
      ghost var listed := Replay(known, events);
      assert listed.Some? ==> listed.value - gone == listed.value;
      while rest != {}
        invariant rest !! gone && rest + gone == known.Keys - current.Keys
        invariant Replay(known, all) == if listed.None? then None else Some(listed.value - gone)
        invariant forall e :: e in all <==> e in events || (Gone(known, current.Keys, e) && e.item.key in gone)
        decreases rest
      {
        var k :| k in rest;
        ReplayAppend(known, all, Deleted(Item(k, known[k])));
        assert listed.Some? ==> listed.value - (gone + {k}) == (listed.value - gone) - {k};
        all := all + [Deleted(Item(k, known[k]))];
        rest, gone := rest - {k}, gone + {k};
      }
      assert gone == known.Keys - current.Keys;
    }

    /** One poll: replaying its events on the previous contents gives exactly the new ones, exactly
        when the client can follow. */
    method Poll(list: seq<Item>) returns (events: seq<Event>)
      modifies this
      ensures known == Contents(list)
      ensures Replay(old(known), events) == Some(known) <==> Followable(old(known), list)
      ensures forall e :: e in events <==> Due(old(known), list, e)
    {
      var current;
      LegalExactly(known, list);
      EventsBringContentsExactly(known, list);
      events, current := ListedEvents(list);
      if NewKeysOnce(known, list) {
        UnlistedStay(known, list);
        DeletionsKeepExactness(known, current, Replay(known, events).value);
      }
      events := DeletedEvents(current, events);
      forall e ensures e in events <==> Due(known, list, e) {
        ListedAreDue(known, list, e);
        GoneIsDue(known, list, e);
      }
      known := current;
    }
  }

  function Before(lists: seq<seq<Item>>, n: nat): Cache
    requires n <= |lists|
  {
    if n == 0 then map[] else Contents(lists[n - 1])
  }

  /** For any sequence of polled lists the client can follow, each from the contents of the one
      before, the whole event stream replayed from nothing gives exactly the keys and versions of the
      last list. */
  method Watch(lists: seq<seq<Item>>) returns (events: seq<Event>)
    ensures (forall n :: 0 <= n < |lists| ==> Followable(Before(lists, n), lists[n])) ==>
              Replay(map[], events) == Some(Before(lists, |lists|))
  {
    var w := new InventoryWatch();
    events := [];
    for n := 0 to |lists|
      invariant w.known == Before(lists, n)
      invariant (forall i :: 0 <= i < n ==> Followable(Before(lists, i), lists[i])) ==>
                  Replay(map[], events) == Some(w.known)
    {
      var more := w.Poll(lists[n]);
      if Replay(map[], events).Some? {
        ReplayConcat(map[], events, more);
      }
      events := events + more;
    }
  }

  /** Legal is not enough: a known key listed first with a new version and then with the known one
      leaves the client at the new version, whatever else is known. */
  lemma DuplicateKeysMislead(known: Cache, k: string, version: string)
    requires k in known && version != known[k]
    ensures var list := [Item(k, version), Item(k, known[k])];
            var replayed := Replay(known, EventsFor(known, list));
            replayed.Some? && !Followable(known, list)
                && Lookup(replayed.value, k) == Some(version) != Lookup(Contents(list), k)
  {
    var a, b := Item(k, version), Item(k, known[k]);
    assert [a, b] == [a] + [b] && [a] == [] + [a];
    AtAppend(known, [a], b, k);
    AtAppend(known, [], a, k);
    EventsForAppend(known, [a], b);
    LegalExactly(known, [a, b]);
    ReplayedAt(known, [a, b], k);
    assert [a, b][0].version != known[k];
  }
}
