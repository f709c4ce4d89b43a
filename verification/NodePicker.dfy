/** Routing a claim to a node: advertised warm counts debited by the claims already routed under
    the same resource version, and a weighted draw among what is left. */
module NodePicker {
  import opened Text
  import opened Sorting

  datatype PoolKey = PoolKey(template: string, net: string, size: string)

  datatype Capacity = Capacity(key: PoolKey, warm: int)

  datatype Inventory = Inventory(address: string, version: string, pools: seq<Capacity>)

  /** The key with the unset axes spelled out. */
  function Normal(k: PoolKey): PoolKey {
    PoolKey(k.template, if k.net == "" then "none" else k.net, if k.size == "" then "small" else k.size)
  }

  /** The two values of an axis mean the same, where unset means the default. */
  ghost predicate SameAxis(a: string, b: string, byDefault: string) {
    a == b || (a in {"", byDefault} && b in {"", byDefault})
  }

  /** The two keys name one pool. */
  ghost predicate SamePool(a: PoolKey, b: PoolKey) {
    a.template == b.template && SameAxis(a.net, b.net, "none") && SameAxis(a.size, b.size, "small")
  }

  lemma NormalExactly(a: PoolKey, b: PoolKey)
    ensures Normal(a) == Normal(b) <==> SamePool(a, b)
  {
  }

  predicate Matches(c: Capacity, pool: PoolKey) {
    Normal(c.key) == Normal(pool)
  }

  datatype Reservation = Reservation(generation: string, taken: nat)

  type Reservations = map<(string, PoolKey), Reservation>

  function Taken(rs: Reservations, node: string, pool: PoolKey, version: string): nat {
    if (node, pool) in rs && rs[(node, pool)].generation == version then rs[(node, pool)].taken else 0
  }

  predicate HasRow(rows: seq<Capacity>, pool: PoolKey) {
    exists i :: 0 <= i < |rows| && Matches(rows[i], pool)
  }

  /** What the first matching row from i on with anything left offers after `taken` claims. */
  function Offer(rows: seq<Capacity>, i: nat, pool: PoolKey, taken: nat): nat
    requires i <= |rows|
    decreases |rows| - i
  {
    if i == |rows| then 0
    else if Matches(rows[i], pool) && rows[i].warm > taken then rows[i].warm - taken
    else Offer(rows, i + 1, pool, taken)
  }

  lemma {:induction false} OfferMeans(rows: seq<Capacity>, i: nat, pool: PoolKey, taken: nat)
    requires i <= |rows|
    ensures Offer(rows, i, pool, taken) > 0 ==>
              exists j :: i <= j < |rows| && Matches(rows[j], pool)
                  && taken + Offer(rows, i, pool, taken) == rows[j].warm
    ensures Offer(rows, i, pool, taken) == 0 ==>
              forall j :: i <= j < |rows| && Matches(rows[j], pool) ==> rows[j].warm <= taken
    decreases |rows| - i
  {
    if i < |rows| {
      OfferMeans(rows, i + 1, pool, taken);
    }
  }

  /** What a node offers a pool: nothing if it cannot be read or has no address. */
  function Available(rs: Reservations, inventories: map<string, Inventory>, node: string, pool: PoolKey): nat {
    if node !in inventories || inventories[node].address == "" then 0
    else Offer(inventories[node].pools, 0, pool, Taken(rs, node, pool, inventories[node].version))
  }

  // ---------------------------------------------------------------- the weighted draw

  datatype Candidate = Candidate(node: string, available: nat)

  function Total(cs: seq<Candidate>): nat {
    if cs == [] then 0 else Total(cs[..|cs| - 1]) + cs[|cs| - 1].available
  }

  lemma {:induction false} TotalConcat(a: seq<Candidate>, b: seq<Candidate>)
    ensures Total(a + b) == Total(a) + Total(b)
  {
    if b == [] {
      assert a + b == a;
    } else {
      TotalConcat(a, b[..|b| - 1]);
      assert (a + b)[..|a + b| - 1] == a + b[..|b| - 1];
    }
  }

  lemma TotalOfOne(c: Candidate)
    ensures Total([c]) == c.available
  {
    assert [c][..0] == [];
  }

  lemma TotalWithout(cs: seq<Candidate>, i: nat)
    requires i < |cs|
    ensures Total(cs) == Total(cs[..i] + cs[i + 1..]) + cs[i].available
  {
    var c := cs[i];
    assert cs == cs[..i] + cs[i..];
    TotalConcat(cs[..i], cs[i..]);
    assert cs[i..] == [c] + cs[i + 1..];
    TotalConcat([c], cs[i + 1..]);
    TotalOfOne(c);
    TotalConcat(cs[..i], cs[i + 1..]);
  }

  lemma FindEqual(a: seq<Candidate>, b: seq<Candidate>, n: nat) returns (i: nat)
    requires multiset(a) == multiset(b) && n < |a|
    ensures i < |b| && b[i] == a[n]
  {
    assert a[n] in multiset(b);
    i :| 0 <= i < |b| && b[i] == a[n];
  }

  lemma {:induction false} TotalOfPermutation(a: seq<Candidate>, b: seq<Candidate>)
    requires multiset(a) == multiset(b)
    ensures Total(a) == Total(b)
  {
    if a == [] {
      assert |multiset(b)| == |b| == 0;
    } else {
      var n := |a| - 1;
      var i := FindEqual(a, b, n);
      assert a[..n] + a[n + 1..] == a[..n];
      MultisetWithout(a, n);
      MultisetWithout(b, i);
      TotalOfPermutation(a[..n], b[..i] + b[i + 1..]);
      TotalWithout(b, i);
    }
  }

  /** The candidate a draw falls on, subtracting each one's share in turn. */
  function Drawn(cs: seq<Candidate>, draw: nat): (i: nat)
    requires draw < Total(cs)
    ensures i < |cs| && Total(cs[..i]) <= draw < Total(cs[..i + 1])
  {
    var n := |cs| - 1;
    if draw >= Total(cs[..n]) then assert cs[..n + 1] == cs; n
    else
      var i := Drawn(cs[..n], draw);
      assert cs[..n][..i] == cs[..i] && cs[..n][..i + 1] == cs[..i + 1];
      i
  }

  lemma {:induction false} TotalMonotone(cs: seq<Candidate>, i: nat, j: nat)
    requires i <= j <= |cs|
    ensures Total(cs[..i]) <= Total(cs[..j])
  {
    if i < j {
      TotalMonotone(cs, i, j - 1);
      assert cs[..j][..j - 1] == cs[..j - 1];
    }
  }

  lemma DrawnExactly(cs: seq<Candidate>, draw: nat, i: nat)
    requires draw < Total(cs) && i < |cs|
    ensures Drawn(cs, draw) == i <==> Total(cs[..i]) <= draw < Total(cs[..i + 1])
  {
    var k := Drawn(cs, draw);
    if k < i {
      TotalMonotone(cs, k + 1, i);
    } else if i < k {
      TotalMonotone(cs, i + 1, k);
    }
  }

  /** The draws from lo up to hi. */
  function Interval(lo: nat, hi: nat): (r: set<nat>)
    requires lo <= hi
    ensures |r| == hi - lo && forall d :: d in r <==> lo <= d < hi
  {
    if lo == hi then {} else Interval(lo, hi - 1) + {hi - 1}
  }

  /** The draws that fall on candidate i. */
  function DrawsFor(cs: seq<Candidate>, i: nat): set<nat> {
    set d | d in Interval(0, Total(cs)) && Drawn(cs, d) == i
  }

  /** Of all draws, exactly as many fall on a candidate as it has available. */
  lemma EachByItsShare(cs: seq<Candidate>, i: nat)
    requires i < |cs|
    ensures |DrawsFor(cs, i)| == cs[i].available
  {
    var lo, hi := Total(cs[..i]), Total(cs[..i + 1]);
    assert cs[..i + 1][..i] == cs[..i];
    assert cs[..|cs|] == cs;
    TotalMonotone(cs, i + 1, |cs|);
    forall d ensures d in DrawsFor(cs, i) <==> d in Interval(lo, hi) {
      if 0 <= d < Total(cs) {
        DrawnExactly(cs, d, i);
      }
    }
    assert DrawsFor(cs, i) == Interval(lo, hi);
  }

  // ---------------------------------------------------------------- the picker

  predicate NodeNotAfter(a: Candidate, b: Candidate) {
    AtMost(a.node, b.node)
  }

  lemma NodeOrderIsTotalPreorder()
    ensures TotalPreorder(NodeNotAfter)
  {
    AtMostIsTotalPreorder();
    forall a: Candidate, b: Candidate ensures NodeNotAfter(a, b) || NodeNotAfter(b, a) {
      assert AtMost(a.node, b.node) || AtMost(b.node, a.node);
    }
    forall a, b, c | NodeNotAfter(a, b) && NodeNotAfter(b, c) ensures NodeNotAfter(a, c) {
      AtMostTransitive(a.node, b.node, c.node);
    }
  }

  /** Whether the picker looks a node's reservation up. */
  predicate Consulted(inventories: map<string, Inventory>, node: string, pool: PoolKey) {
    node in inventories && inventories[node].address != "" && HasRow(inventories[node].pools, pool)
  }

  /** The reservations after a pick: every consulted one is brought to its node's version, and the
      chosen one is debited once more. */
  ghost predicate Debited(rs: Reservations, after: Reservations, inventories: map<string, Inventory>,
                          nodes: set<string>,
                          pool: PoolKey, chosen: Option<string>) {
    && (forall n, p :: (n, p) in after ==> (n, p) in rs || (n in nodes && p == pool && Consulted(inventories, n, pool)))
    && (forall n, p :: (n, p) in rs && !(n in nodes && p == pool && Consulted(inventories, n, pool)) ==>
          (n, p) in after && after[(n, p)] == rs[(n, p)])
    && (forall n :: n in nodes && Consulted(inventories, n, pool) ==>
          && (n, pool) in after
          && after[(n, pool)] ==
             Reservation(inventories[n].version,
                         Taken(rs, n, pool, inventories[n].version) + if chosen == Some(n) then 1 else 0))
  }

  /** The node can be read and dialed, and a row of the pool advertises more than is taken from it. */
  ghost predicate HasWarm(rs: Reservations, inventories: map<string, Inventory>, n: string, pool: PoolKey) {
    && n in inventories && inventories[n].address != ""
    && exists i :: 0 <= i < |inventories[n].pools| && SamePool(inventories[n].pools[i].key, pool)
                   && inventories[n].pools[i].warm > Taken(rs, n, pool, inventories[n].version)
  }

  lemma AvailableExactly(rs: Reservations, inventories: map<string, Inventory>, n: string, pool: PoolKey)
    ensures Available(rs, inventories, n, pool) > 0 <==> HasWarm(rs, inventories, n, pool)
  {
    if n in inventories {
      var rows := inventories[n].pools;
      OfferMeans(rows, 0, pool, Taken(rs, n, pool, inventories[n].version));
      forall i | 0 <= i < |rows| ensures Matches(rows[i], pool) <==> SamePool(rows[i].key, pool) {
        NormalExactly(rows[i].key, pool);
      }
    }
  }

  /** `cs` is exactly the nodes with something available, each once with its count. */
  ghost predicate Surveyed(rs: Reservations, inventories: map<string, Inventory>, nodes: seq<string>, pool: PoolKey,
                           cs: seq<Candidate>) {
    && (forall c :: c in cs ==>
        c.node in nodes && c.available == Available(rs, inventories, c.node, pool) && c.available > 0)
    && (forall n :: n in nodes && Available(rs, inventories, n, pool) > 0 ==>
          Candidate(n, Available(rs, inventories, n, pool)) in cs)
    && (forall i, j :: 0 <= i < j < |cs| ==> cs[i].node != cs[j].node)
  }

  lemma EmptySurvey(rs: Reservations, inventories: map<string, Inventory>, nodes: seq<string>, pool: PoolKey,
                    cs: seq<Candidate>)
    requires Surveyed(rs, inventories, nodes, pool, cs)
    ensures cs == [] <==> forall n :: n in nodes ==> Available(rs, inventories, n, pool) == 0
  {
    if cs != [] {
      assert cs[0] in cs;
    }
  }

  function Set(nodes: seq<string>): set<string> {
    set n | n in nodes
  }

  lemma ChosenIsConsulted(rs: Reservations, inventories: map<string, Inventory>, n: string, pool: PoolKey)
    requires Available(rs, inventories, n, pool) > 0
    ensures Consulted(inventories, n, pool)
  {
    OfferMeans(inventories[n].pools, 0, pool, Taken(rs, n, pool, inventories[n].version));
  }

  lemma SurveyedNode(rs: Reservations, inventories: map<string, Inventory>, nodes: seq<string>, pool: PoolKey,
                     cs: seq<Candidate>, i: nat)
    requires Surveyed(rs, inventories, nodes, pool, cs) && i < |cs|
    ensures cs[i].node in Set(nodes) && Available(rs, inventories, cs[i].node, pool) > 0
              && Consulted(inventories, cs[i].node, pool)
  {
    assert cs[i] in cs;
    ChosenIsConsulted(rs, inventories, cs[i].node, pool);
  }

  lemma {:induction false} Distinct(a: seq<Candidate>, c: Candidate)
    requires forall i, j :: 0 <= i < j < |a| ==> a[i].node != a[j].node
    ensures multiset(a)[c] <= 1
  {
    if a != [] {
      var n := |a| - 1;
      assert a == a[..n] + [a[n]];
      Distinct(a[..n], c);
      if a[n] == c {
        assert c !in a[..n];
      }
    }
  }

  lemma SurveyedPermutation(rs: Reservations, inventories: map<string, Inventory>, nodes: seq<string>, pool: PoolKey,
                            a: seq<Candidate>, b: seq<Candidate>)
    requires Surveyed(rs, inventories, nodes, pool, a) && multiset(a) == multiset(b)
    ensures Surveyed(rs, inventories, nodes, pool, b) && |a| == |b|
  {
    forall c ensures c in a <==> c in b { SameMultisetSameElements(a, b, c); }
    SameMultisetSameElements(a, b, Candidate("", 0));
    forall i, j | 0 <= i < j < |b| ensures b[i].node != b[j].node {
      if b[i].node == b[j].node {
        assert b[i] in b && b[j] in b;
        OccursTwice(b, i, j);
        Distinct(a, b[i]);
      }
    }
  }

  lemma PositiveTotal(rs: Reservations, inventories: map<string, Inventory>, nodes: seq<string>, pool: PoolKey,
                      cs: seq<Candidate>)
    requires Surveyed(rs, inventories, nodes, pool, cs) && cs != []
    ensures Total(cs) > 0
  {
    assert cs[|cs| - 1] in cs;
  }

  method InNodeOrder(ghost rs: Reservations, inventories: map<string, Inventory>, nodes: seq<string>, pool: PoolKey,
                     candidates: seq<Candidate>)
    returns (sorted: seq<Candidate>)
    requires Surveyed(rs, inventories, nodes, pool, candidates) && candidates != []
    ensures Surveyed(rs, inventories, nodes, pool, sorted) && Sorted(NodeNotAfter, sorted)
    ensures Total(sorted) == Total(candidates) > 0
  {
    NodeOrderIsTotalPreorder();
    sorted := SortBy(NodeNotAfter, candidates);
    SurveyedPermutation(rs, inventories, nodes, pool, candidates, sorted);
    TotalOfPermutation(candidates, sorted);
    PositiveTotal(rs, inventories, nodes, pool, sorted);
  }

  /** The walk over the sorted candidates; it always ends inside the loop. */
  method Walk(cs: seq<Candidate>, start: nat) returns (i: nat)
    requires start < Total(cs)
    ensures i < |cs| && i == Drawn(cs, start)
  {
    assert cs[..|cs|] == cs;
    var draw: nat := start;
    for k := 0 to |cs|
      invariant draw == start - Total(cs[..k])
    {
      assert cs[..k + 1][..k] == cs[..k];
      if draw < cs[k].available {
        DrawnExactly(cs, start, k);
        return k;
      }
      draw := draw - cs[k].available;
    }
    assert false;
  }

  lemma SurveyOne(rs: Reservations, inventories: map<string, Inventory>, nodes: seq<string>, pool: PoolKey,
                  cs: seq<Candidate>, n: string, available: nat)
    requires Surveyed(rs, inventories, nodes, pool, cs) && n !in nodes
    requires available == Available(rs, inventories, n, pool)
    ensures Surveyed(rs, inventories, nodes + [n], pool, if available > 0 then cs + [Candidate(n, available)] else cs)
  {
    assert forall i :: 0 <= i < |cs| ==> cs[i] in cs;
  }

  lemma UntouchedTaken(rs: Reservations, after: Reservations, inventories: map<string, Inventory>, nodes: set<string>,
                       pool: PoolKey, n: string, version: string)
    requires Debited(rs, after, inventories, nodes, pool, None) && n !in nodes
    ensures Taken(after, n, pool, version) == Taken(rs, n, pool, version)
  {
    assert (n, pool) in after ==> (n, pool) in rs;
  }

  lemma DebitOne(rs: Reservations, before: Reservations, after: Reservations, inventories: map<string, Inventory>,
                 nodes: seq<string>, pool: PoolKey, n: string)
    requires Debited(rs, before, inventories, Set(nodes), pool, None) && n !in nodes
    requires after == if Consulted(inventories, n, pool)
                      then
                        var v := inventories[n].version;
                        before[(n, pool) := Reservation(v, Taken(rs, n, pool, v))]
                      else before
    ensures Debited(rs, after, inventories, Set(nodes + [n]), pool, None)
  {
  }

  lemma DebitChosen(rs: Reservations, before: Reservations, after: Reservations, inventories: map<string, Inventory>,
                    nodes: set<string>, pool: PoolKey, n: string)
    requires Debited(rs, before, inventories, nodes, pool, None) && n in nodes && Consulted(inventories, n, pool)
    requires var v := inventories[n].version;
             after == before[(n, pool) := Reservation(v, Taken(before, n, pool, v) + 1)]
    ensures Debited(rs, after, inventories, nodes, pool, Some(n))
  {
  }

  class WarmNodePicker {
    var reservations: Reservations

    constructor ()
      ensures reservations == map[]
    {
      reservations := map[];
    }

    method Debit(node: string, pool: PoolKey, version: string, take: bool) returns (taken: nat)
      modifies this
      ensures taken == (if (node, pool) in old(reservations) && old(reservations)[(node, pool)].generation == version
                        then old(reservations)[(node, pool)].taken else 0) + if take then 1 else 0
      ensures reservations == old(reservations)[(node, pool) := Reservation(version, taken)]
    {
      taken := if (node, pool) in reservations && reservations[(node, pool)].generation == version
               then reservations[(node, pool)].taken else 0;
      if take {
        taken := taken + 1;
      }
      reservations := reservations[(node, pool) := Reservation(version, taken)];
    }

    /** Walks the rows of one node. */
    method RowOffer(node: string, inv: Inventory, pool: PoolKey) returns (available: nat)
      modifies this
      ensures available == Offer(inv.pools, 0, pool, Taken(old(reservations), node, pool, inv.version))
      ensures var taken := Taken(old(reservations), node, pool, inv.version);
              reservations == if HasRow(inv.pools, pool)
                              then old(reservations)[(node, pool) := Reservation(inv.version, taken)]
                              else old(reservations)
    {
      ghost var taken := Taken(reservations, node, pool, inv.version);
      ghost var seen := false;
      for i := 0 to |inv.pools|
        invariant Offer(inv.pools, 0, pool, taken) == Offer(inv.pools, i, pool, taken)
        invariant if seen then HasRow(inv.pools, pool) else forall j :: 0 <= j < i ==> !Matches(inv.pools[j], pool)
        invariant reservations ==
                  if seen then old(reservations)[(node, pool) := Reservation(inv.version, taken)] else old(reservations)
      {
        if Matches(inv.pools[i], pool) {
          var debit := Debit(node, pool, inv.version, false);
          seen := true;
          if inv.pools[i].warm - debit > 0 {
            return inv.pools[i].warm - debit;
          }
        }
      }
      available := 0;
    }

    method Survey(nodes: seq<string>, inventories: map<string, Inventory>, pool: PoolKey)
      returns (cs: seq<Candidate>, total: nat)
      requires forall i, j :: 0 <= i < j < |nodes| ==> nodes[i] != nodes[j]
      modifies this
      ensures Surveyed(old(reservations), inventories, nodes, pool, cs) && total == Total(cs)
      ensures Debited(old(reservations), reservations, inventories, Set(nodes), pool, None)
    {
      cs, total := [], 0;
      for i := 0 to |nodes|
        invariant Surveyed(old(reservations), inventories, nodes[..i], pool, cs) && total == Total(cs)
        invariant Debited(old(reservations), reservations, inventories, Set(nodes[..i]), pool, None)
      {
        var n := nodes[i];
        assert n !in nodes[..i] && nodes[..i + 1] == nodes[..i] + [n];
        ghost var before := reservations;
        var available := 0;
        if n in inventories && inventories[n].address != "" {
          UntouchedTaken(old(reservations), before, inventories, Set(nodes[..i]), pool, n, inventories[n].version);
          available := RowOffer(n, inventories[n], pool);
        }
        DebitOne(old(reservations), before, reservations, inventories, nodes[..i], pool, n);
        SurveyOne(old(reservations), inventories, nodes[..i], pool, cs, n, available);
        if available > 0 {
          assert (cs + [Candidate(n, available)])[..|cs|] == cs;
          cs, total := cs + [Candidate(n, available)], total + available;
        }
      }
      assert nodes[..|nodes|] == nodes;
    }

    /** The debit of the node that was drawn. */
    method TakeFrom(node: string, inventories: map<string, Inventory>, pool: PoolKey,
                    ghost rs: Reservations, ghost nodes: set<string>)
      requires node in nodes && Consulted(inventories, node, pool)
      requires Debited(rs, reservations, inventories, nodes, pool, None)
      modifies this
      ensures Debited(rs, reservations, inventories, nodes, pool, Some(node))
    {
      ghost var before := reservations;
      var taken := Debit(node, pool, inventories[node].version, true);
      DebitChosen(rs, before, reservations, inventories, nodes, pool, node);
    }

    /** One pick. The draw is uniform over the total of what is available. */
    method PickWarmNode(nodes: seq<string>, inventories: map<string, Inventory>, pool: PoolKey, random: nat)
      returns (r: Option<(string, string)>, ghost cs: seq<Candidate>)
      requires forall i, j :: 0 <= i < j < |nodes| ==> nodes[i] != nodes[j]
      modifies this
      ensures Surveyed(old(reservations), inventories, nodes, pool, cs) && Sorted(NodeNotAfter, cs)
      ensures r.None? <==> forall n :: n in nodes ==> !HasWarm(old(reservations), inventories, n, pool)
      ensures r.Some? ==> Total(cs) > 0 && r.value.0 == cs[Drawn(cs, random % Total(cs))].node
      ensures r.Some? ==>
                r.value.0 in nodes && r.value.0 in inventories && r.value.1 == inventories[r.value.0].address != ""
      ensures r.Some? ==> HasWarm(old(reservations), inventories, r.value.0, pool)
      ensures Debited(old(reservations), reservations, inventories, Set(nodes), pool,
                      if r.Some? then Some(r.value.0) else None)
    {
      forall n ensures Available(old(reservations), inventories, n, pool) > 0 <==>
                       HasWarm(old(reservations), inventories, n, pool) {
        AvailableExactly(old(reservations), inventories, n, pool);
      }
      var candidates, total := Survey(nodes, inventories, pool);
      EmptySurvey(old(reservations), inventories, nodes, pool, candidates);
      if candidates == [] {
        cs, r := [], None;
        return;
      }
      var sorted := InNodeOrder(old(reservations), inventories, nodes, pool, candidates);
      cs := sorted;
      var i := Walk(sorted, random % total);
      SurveyedNode(old(reservations), inventories, nodes, pool, sorted, i);
      TakeFrom(sorted[i].node, inventories, pool, old(reservations), Set(nodes));
      r := Some((sorted[i].node, inventories[sorted[i].node].address));
    }
  }

  lemma ChosenHasRoom(rs: Reservations, inventories: map<string, Inventory>, n: string, pool: PoolKey)
    requires Available(rs, inventories, n, pool) > 0
    ensures exists i :: 0 <= i < |inventories[n].pools| && Matches(inventories[n].pools[i], pool)
                        && Taken(rs, n, pool, inventories[n].version) < inventories[n].pools[i].warm
  {
    OfferMeans(inventories[n].pools, 0, pool, Taken(rs, n, pool, inventories[n].version));
  }

  // ---------------------------------------------------------------- runs

  datatype Fleet = Fleet(inventories: map<string, Inventory>, reservations: Reservations)

  datatype Event =
    | Published(node: string, inventory: Inventory)
    | Routed(pool: PoolKey, nodes: set<string>, node: string)     // a pick over the nodes it could read
    | Refused(pool: PoolKey, nodes: set<string>)

  /** A publish replaces one inventory; a pick is one PickWarmNode. */
  ghost predicate Next(f: Fleet, e: Event, g: Fleet) {
    match e
    case Published(n, inv) => g == f.(inventories := f.inventories[n := inv])
    case Routed(pool, nodes, n) =>
      && g.inventories == f.inventories && n in nodes && Available(f.reservations, f.inventories, n, pool) > 0
      && Debited(f.reservations, g.reservations, f.inventories, nodes, pool, Some(n))
    case Refused(pool, nodes) =>
      && g.inventories == f.inventories
           && (forall n :: n in nodes ==> Available(f.reservations, f.inventories, n, pool) == 0)
      && Debited(f.reservations, g.reservations, f.inventories, nodes, pool, None)
  }

  ghost predicate Run(fleets: seq<Fleet>, events: seq<Event>) {
    && |fleets| == |events| + 1 && fleets[0].reservations == map[]
    && forall i :: 0 <= i < |events| ==> Next(fleets[i], events[i], fleets[i + 1])
  }

  /** The picks routed to a node for exactly this key since it last published. */
  function RoutedFor(events: seq<Event>, node: string, key: PoolKey): nat {
    if events == [] then 0
    else
      var e := events[|events| - 1];
      if e.Published? && e.node == node then 0
      else RoutedFor(events[..|events| - 1], node, key) + if e.Routed? && e.node == node && e.pool == key then 1 else 0
  }

  /** The picks routed to a node for a pool, however its key is spelled, since it last published. */
  function RoutedToPool(events: seq<Event>, node: string, pool: PoolKey): nat {
    if events == [] then 0
    else
      var e := events[|events| - 1];
      if e.Published? && e.node == node then 0
      else RoutedToPool(events[..|events| - 1], node, pool) +
           if e.Routed? && e.node == node && Normal(e.pool) == Normal(pool) then 1 else 0
  }

  /** Some advertised row for the pool covers `count` picks. */
  ghost predicate Covers(f: Fleet, node: string, pool: PoolKey, count: nat) {
    && node in f.inventories
    && exists i :: 0 <= i < |f.inventories[node].pools| && Matches(f.inventories[node].pools[i], pool)
                   && count <= f.inventories[node].pools[i].warm
  }

  ghost predicate Bounded(f: Fleet, events: seq<Event>, node: string, key: PoolKey) {
    RoutedFor(events, node, key) > 0 ==>
      && Covers(f, node, key, RoutedFor(events, node, key))
      && RoutedFor(events, node, key) <= Taken(f.reservations, node, key, f.inventories[node].version)
  }

  lemma PickKeepsBound(f: Fleet, g: Fleet, e: Event, events: seq<Event>, node: string, key: PoolKey)
    requires Next(f, e, g) && !e.Published? && Bounded(f, events, node, key)
    ensures Bounded(g, events + [e], node, key)
  {
    assert (events + [e])[..|events|] == events;
    if e.Routed? && e.node == node && e.pool == key {
      ChosenIsConsulted(f.reservations, f.inventories, node, key);
      ChosenHasRoom(f.reservations, f.inventories, node, key);
    } else if RoutedFor(events, node, key) > 0 {
      assert Taken(f.reservations, node, key, f.inventories[node].version) > 0;
      assert (node, key) in f.reservations;
    }
  }

  /** Every key of its own, as it is spelled, stays within what the node advertises. */
  lemma {:induction false} EachKeyIsBounded(fleets: seq<Fleet>, events: seq<Event>, node: string, key: PoolKey)
    requires Run(fleets, events)
    ensures Bounded(fleets[|events|], events, node, key)
  {
    if events != [] {
      var n := |events| - 1;
      var e := events[n];
      assert events == events[..n] + [e];
      assert Run(fleets[..n + 1], events[..n]) by {
        forall i | 0 <= i < n ensures Next(fleets[..n + 1][i], events[..n][i], fleets[..n + 1][i + 1]) {
          assert Next(fleets[i], events[i], fleets[i + 1]);
        }
      }
      EachKeyIsBounded(fleets[..n + 1], events[..n], node, key);
      assert Next(fleets[n], e, fleets[n + 1]);
      if !e.Published? {
        PickKeepsBound(fleets[n], fleets[n + 1], e, events[..n], node, key);
      } else if e.node != node {
        assert RoutedFor(events, node, key) == RoutedFor(events[..n], node, key);
      }
    }
  }

  /** The keys in `keys` name different pools. */
  ghost predicate Apart(keys: set<PoolKey>) {
    forall a, b :: a in keys && b in keys && Normal(a) == Normal(b) ==> a == b
  }

  ghost predicate Uses(events: seq<Event>, keys: set<PoolKey>) {
    forall i :: 0 <= i < |events| && events[i].Routed? ==> events[i].pool in keys
  }

  /** With keys apart, the count over all spellings is the count of one of them. */
  lemma {:induction false} OneSpelling(events: seq<Event>, keys: set<PoolKey>, node: string, key: PoolKey)
    requires Apart(keys) && Uses(events, keys) && key in keys
    ensures RoutedToPool(events, node, key) == RoutedFor(events, node, key)
  {
    if events != [] {
      var n := |events| - 1;
      assert forall i :: 0 <= i < n ==> events[..n][i] == events[i];
      OneSpelling(events[..n], keys, node, key);
    }
  }

  lemma {:induction false} SomeSpelling(events: seq<Event>, keys: set<PoolKey>, node: string, pool: PoolKey)
    returns (key: PoolKey)
    requires Uses(events, keys) && RoutedToPool(events, node, pool) > 0
    ensures key in keys && Normal(key) == Normal(pool)
  {
    var n := |events| - 1;
    var e := events[n];
    if e.Routed? && e.node == node && Normal(e.pool) == Normal(pool) {
      key := e.pool;
    } else {
      assert forall i :: 0 <= i < n ==> events[..n][i] == events[i];
      key := SomeSpelling(events[..n], keys, node, pool);
    }
  }

  lemma {:induction false} SameCount(events: seq<Event>, node: string, a: PoolKey, b: PoolKey)
    requires Normal(a) == Normal(b)
    ensures RoutedToPool(events, node, a) == RoutedToPool(events, node, b)
  {
    if events != [] {
      SameCount(events[..|events| - 1], node, a, b);
    }
  }

  /** No node is routed more picks of a pool, under one publish, than some row of its inventory
      advertises, as long as callers spell every pool in one way only. */
  lemma NeverOvercommitted(fleets: seq<Fleet>, events: seq<Event>, keys: set<PoolKey>, node: string, pool: PoolKey)
    requires Run(fleets, events) && Apart(keys) && Uses(events, keys)
    ensures RoutedToPool(events, node, pool) > 0 ==>
              Covers(fleets[|events|], node, pool, RoutedToPool(events, node, pool))
  {
    if RoutedToPool(events, node, pool) > 0 {
      var key := SomeSpelling(events, keys, node, pool);
      SameCount(events, node, key, pool);
      OneSpelling(events, keys, node, key);
      EachKeyIsBounded(fleets, events, node, key);
    }
  }

  /** Two spellings of one pool each get the whole warm count. */
  lemma TwoSpellingsOvercommit(a: PoolKey, b: PoolKey) returns (fleets: seq<Fleet>, events: seq<Event>)
    requires a != b && Normal(a) == Normal(b)
    ensures Run(fleets, events) && Uses(events, {a, b})
    ensures RoutedToPool(events, "n", a) == 2 && !Covers(fleets[|events|], "n", a, 2)
  {
    var rows := [Capacity(a, 1)];
    var inv := Inventory("addr", "1", rows);
    var invs := map["n" := inv];
    var r1: Reservations := map[("n", a) := Reservation("1", 1)];
    var r2 := r1[("n", b) := Reservation("1", 1)];
    var f0, f1, f2 := Fleet(invs, map[]), Fleet(invs, r1), Fleet(invs, r2);
    var e1, e2 := Routed(a, {"n"}, "n"), Routed(b, {"n"}, "n");
    fleets, events := [f0, f1, f2], [e1, e2];
    assert Matches(rows[0], a) && Matches(rows[0], b);
    assert Consulted(invs, "n", a) && Consulted(invs, "n", b);
    assert Available(map[], invs, "n", a) == 1 && Available(r1, invs, "n", b) == 1;
    assert Next(f0, e1, f1) && Next(f1, e2, f2);
    assert events[..1] == [e1] && [e1][..0] == [];
    assert RoutedToPool([e1], "n", a) == 1;
  }

  ghost predicate Within(fleets: seq<Fleet>, events: seq<Event>, node: string, pool: PoolKey)
    requires Run(fleets, events)
  {
    RoutedToPool(events, node, pool) > 0 ==> Covers(fleets[|events|], node, pool, RoutedToPool(events, node, pool))
  }

  /** Every run of picks under `keys` stays within the advertised counts. */
  ghost predicate AlwaysWithin(keys: set<PoolKey>) {
    forall fleets, events, node, pool :: Run(fleets, events) && Uses(events, keys) ==>
        Within(fleets, events, node, pool)
  }

  /** Exactly the sets of keys without two spellings of one pool are safe to route by. */
  lemma WithinExactly(keys: set<PoolKey>)
    ensures AlwaysWithin(keys) <==> Apart(keys)
  {
    if Apart(keys) {
      forall fleets, events, node, pool | Run(fleets, events) && Uses(events, keys)
        ensures Within(fleets, events, node, pool)
      {
        NeverOvercommitted(fleets, events, keys, node, pool);
      }
    } else {
      var a, b :| a in keys && b in keys && Normal(a) == Normal(b) && a != b;
      var fleets, events := TwoSpellingsOvercommit(a, b);
      assert Uses(events, keys);
      assert !Within(fleets, events, "n", a);
    }
  }
}
