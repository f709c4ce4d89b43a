/** The CocoonSandbox controller: a sandboxd claim is acquired before it is recorded, released
    again when recording fails, and released before the finalizer goes. Every API call may fail
    on every pass; a failed call has no effect. */
module CocoonClaim {
  import opened Text

  datatype Phase = Unset | Running | Failed

  datatype Status = Status(sandboxId: string, ownerAddr: string, hasTokenRef: bool, ready: bool, phase: Phase)

  const UNCLAIMED := Status("", "", false, false, Unset)

  /** What sandboxd answers to a claim. A delivered sandbox is new and has its own id and token;
      the answer may fail to carry one of them, and it may name the address of its owner. */
  datatype Reply =
    | Refused
    | Delivered(id: string, token: string, carriesId: bool, carriesToken: bool, ownerAddr: string)

  /** The token a live sandbox is released with, and the address it is released at. */
  datatype Home = Home(token: string, addr: string)

  predicate Complete(reply: Reply) {
    reply.Delivered? ==> reply.carriesId && reply.carriesToken
  }

  /** Which calls of one reconcile succeed. */
  datatype Calls = Calls(
    read: bool,               // get the CocoonSandbox
    addFinalizer: bool,
    prepare: bool,            // template, node, address and API token lookups
    reply: Reply,
    addr: string,             // the node's address
    dialed: string,           // the address the claim ended at after redirects, "" when unknown
    readSecret: bool,
    writeSecret: bool,
    writeStatus: bool,
    release: bool,
    writeCondition: bool,
    deleteSecret: bool,
    removeFinalizer: bool)

  /** What sandboxd delivers has an id and a token, and a node that is dialed has an address. */
  predicate Usable(c: Calls)
    requires c.reply.Delivered?
  {
    c.reply.id != "" && c.reply.token != "" && c.addr != ""
  }

  function FirstNonEmpty(values: seq<string>): string {
    if values == [] then "" else if values[0] != "" then values[0] else FirstNonEmpty(values[1..])
  }

  lemma FirstOfThree(a: string, b: string, c: string)
    ensures FirstNonEmpty([a, b, c]) == if a != "" then a else if b != "" then b else c
  {
    assert [a, b, c][1..] == [b, c] && [b, c][1..] == [c] && [c][1..] == [];
    assert FirstNonEmpty([b, c]) == if b != "" then b else FirstNonEmpty([c]);
    assert FirstNonEmpty([c]) == c;
  }

  /** A delivered sandbox lives where the answer says, else where the claim was dialed, else at the node. */
  function LivesAt(c: Calls): string
    requires c.reply.Delivered?
  {
    if c.reply.ownerAddr != "" then c.reply.ownerAddr else if c.dialed != "" then c.dialed else c.addr
  }

  class CocoonSandboxController {
    var present: bool
    var deleting: bool
    var finalizer: bool
    var status: Status
    var secret: Option<string>          // the token Secret of this CocoonSandbox
    var live: map<string, Home>         // sandboxd's claimed sandboxes for it, by id
    ghost var used: set<string>         // every id sandboxd ever delivered
    ghost var stranded: set<string>     // ids whose compensating release failed
    ghost var lost: set<string>         // ids whose handle was incomplete

    constructor ()
      ensures Valid() && present && !deleting && !finalizer && status == UNCLAIMED && live == map[]
      ensures stranded == lost == used == {}
    {
      present, deleting, finalizer, status := true, false, false, UNCLAIMED;
      secret, live, used, stranded, lost := None, map[], {}, {}, {};
    }

    /** Recorded in status, ready, and with the address it lives at. */
    ghost predicate Recorded(id: string)
      reads this
    {
      id in live && status.sandboxId == id && status.ready && status.ownerAddr == live[id].addr && status.hasTokenRef
    }

    /** The Secret holds the token of a live recorded sandbox. */
    ghost predicate SecretKept()
      reads this
    {
      status.sandboxId in live ==> secret == Some(live[status.sandboxId].token)
    }

    /** No live claim is forgotten: each is recorded, or its compensating release failed. */
    ghost predicate Accounted()
      reads this
    {
      forall id :: id in live ==> Recorded(id) || id in stranded
    }

    /** Nor is any other, but for those sandboxd gave out with an incomplete handle. */
    ghost predicate AccountedButLost()
      reads this
    {
      && (forall id :: id in live ==> Recorded(id) || id in stranded || id in lost)
      && (forall id :: id in lost ==> id in live && id !in stranded && id != status.sandboxId)
    }

    ghost predicate Valid()
      reads this
    {
      && AccountedButLost()
      && (forall id :: id in live ==> id != "" && live[id].token != "" && live[id].addr != "" && id in used)
      && (forall id :: id in stranded ==> id in used && id != status.sandboxId)
      && (status.sandboxId != "" ==>
          status.ready && status.ownerAddr != "" && status.hasTokenRef && status.sandboxId in used)
      && (status.ready ==> status.sandboxId != "")
      && (status.ready <==> status.phase.Running?)
      && (status.hasTokenRef ==> status.sandboxId != "")
    }

    /** No live claim is forgotten exactly when no handle was incomplete. */
    lemma AccountedExactly()
      requires Valid()
      ensures Accounted() <==> lost == {}
    {
      if lost != {} {
        var id :| id in lost;
        assert id in live && !Recorded(id) && id !in stranded;
      }
    }

    /** sandboxd's release: a live sandbox goes only where it lives and for its own token; an unknown id
        counts as released. */
    method Release(addr: string, id: string, token: string, ok: bool) returns (done: bool)
      modifies this`live
      ensures done <==> ok && (id in old(live) ==> old(live)[id] == Home(token, addr))
      ensures live == if done then old(live) - {id} else old(live)
    {
      done := ok && (id !in live || live[id] == Home(token, addr));
      if done {
        live := live - {id};
      }
    }

    method UpsertTokenSecret(token: string, readOk: bool, writeOk: bool) returns (ok: bool)
      modifies this`secret
      ensures secret == if ok then Some(token) else old(secret)
      ensures ok <==> readOk && (old(secret) == Some(token) || writeOk)
    {
      if !readOk {
        return false;
      }
      if secret.Some? && secret.value == token {
        return true;
      }
      if !writeOk {
        return false;
      }
      secret := Some(token);
      ok := true;
    }

    /** releaseFailedClaim: give the claim back, or strand it. */
    method ReleaseFailedClaim(addr: string, id: string, token: string, ok: bool)
      requires id in live && live[id] == Home(token, addr)
      modifies this`live, this`stranded
      ensures live == if ok then old(live) - {id} else old(live)
      ensures stranded == if ok then old(stranded) else old(stranded) + {id}
    {
      var done := Release(addr, id, token, ok);
      if !done {
        stranded := stranded + {id};
      }
    }

    /** Every call of a claim succeeds, and the handle is complete. */
    ghost predicate ClaimSucceeds(c: Calls)
      reads this
    {
      && c.prepare && c.reply.Delivered? && Complete(c.reply) && c.readSecret
      && (secret == Some(c.reply.token) || c.writeSecret) && c.writeStatus
    }

    /** A complete handle: store its token and record it in status, or give it back where it lives. */
    method Record(c: Calls) returns (ok: bool)
      requires Valid() && status.sandboxId == ""
      requires c.prepare && c.reply.Delivered? && Complete(c.reply) && Usable(c) && c.reply.id !in used
      modifies this`status, this`secret, this`live, this`used, this`stranded
      ensures Valid() && used == old(used) + {c.reply.id}
      ensures ok <==> old(ClaimSucceeds(c))
      ensures ok ==> Recorded(c.reply.id) && SecretKept() && stranded == old(stranded)
      ensures status == if ok then Status(c.reply.id, LivesAt(c), true, true, Running) else old(status)
      ensures live == if !ok && c.release then old(live)
                      else old(live)[c.reply.id := Home(c.reply.token, LivesAt(c))]
      ensures stranded == if ok || c.release then old(stranded) else old(stranded) + {c.reply.id}
    {
      var id, token := c.reply.id, c.reply.token;
      live, used := live[id := Home(token, LivesAt(c))], used + {id};
      var ownerAddr := FirstNonEmpty([c.reply.ownerAddr, c.dialed, c.addr]);
      FirstOfThree(c.reply.ownerAddr, c.dialed, c.addr);
      var stored := UpsertTokenSecret(token, c.readSecret, c.writeSecret);
      if !stored || !c.writeStatus {
        ReleaseFailedClaim(ownerAddr, id, token, c.release);
        assert c.release ==> live == old(live);
        return false;
      }
      status := Status(id, ownerAddr, true, true, Running);
      ok := true;
    }

    /** claim: acquire, store the token, record in status. Exactly an incomplete handle leaves
        a live claim unaccounted for. */
    method Claim(c: Calls) returns (ok: bool)
      requires Valid() && status.sandboxId == ""
      requires c.reply.Delivered? ==> Usable(c) && c.reply.id !in used
      modifies this`status, this`secret, this`live, this`used, this`stranded, this`lost
      ensures Valid()
      ensures lost == if c.prepare && !Complete(c.reply) then old(lost) + {c.reply.id} else old(lost)
      ensures ok <==> old(ClaimSucceeds(c))
      ensures ok ==> Recorded(c.reply.id) && SecretKept() && stranded == old(stranded)
      ensures live == if !c.prepare || c.reply.Refused? || (!ok && c.release && Complete(c.reply)) then old(live)
                      else old(live)[c.reply.id := Home(c.reply.token, LivesAt(c))]
      ensures status == if ok then Status(c.reply.id, LivesAt(c), true, true, Running) else old(status)
      ensures !ok && c.release ==> stranded == old(stranded)
      ensures old(used) <= used <= old(used) + (if c.reply.Delivered? then {c.reply.id} else {})
      ensures old(stranded) <= stranded
    {
      if !c.prepare || c.reply.Refused? {
        return false;
      }
      if !c.reply.carriesId || !c.reply.carriesToken {
        live, used := live[c.reply.id := Home(c.reply.token, LivesAt(c))], used + {c.reply.id};
        lost := lost + {c.reply.id};
        return false;
      }
      ok := Record(c);
    }

    /** A claim that fails leaves a condition that says so. */
    method ClaimOrFail(c: Calls)
      requires Valid() && status.sandboxId == ""
      requires c.reply.Delivered? ==> Usable(c) && c.reply.id !in used
      modifies this`status, this`secret, this`live, this`used, this`stranded, this`lost
      ensures Valid() && SecretKept()
      ensures status == if old(ClaimSucceeds(c)) then Status(c.reply.id, LivesAt(c), true, true, Running)
                        else if c.writeCondition then old(status).(phase := Failed) else old(status)
      ensures old(ClaimSucceeds(c)) ==> Recorded(c.reply.id)
      ensures old(Accounted()) ==> (Accounted() <==> !c.prepare || Complete(c.reply))
      ensures lost == if c.prepare && !Complete(c.reply) then old(lost) + {c.reply.id} else old(lost)
      ensures c.release ==> stranded == old(stranded)
      ensures old(used) <= used <= old(used) + (if c.reply.Delivered? then {c.reply.id} else {})
      ensures old(stranded) <= stranded
    {
      AccountedExactly();
      var ok := Claim(c);
      if !ok && c.writeCondition {
        status := status.(ready := false, phase := Failed);
      }
      AccountedExactly();
    }

    function SecretToken(): string
      reads this
    {
      if status.hasTokenRef && secret.Some? then secret.value else ""
    }

    /** Whether the deletion has a release call to make. */
    predicate CallsRelease()
      reads this
    {
      status.ownerAddr != "" && status.sandboxId != "" && SecretToken() != ""
    }

    /** The deletion gets past its release: it has none to make, or makes it where the sandbox lives, with
        its token, and the call succeeds. */
    ghost predicate PastRelease(c: Calls)
      reads this
    {
      && (status.hasTokenRef ==> c.readSecret)
      && (CallsRelease() ==>
            c.release && (status.sandboxId in live ==>
                            live[status.sandboxId] == Home(SecretToken(), status.ownerAddr)))
    }

    /** reconcileDelete: release the recorded sandbox, delete the Secret, drop the finalizer. It goes
        exactly when every call that is made succeeds, which a release with the wrong token does not;
        and then, for any contents of the Secret, the recorded sandbox lives exactly when it was live
        and no token could be read. */
    method ReconcileDelete(c: Calls)
      requires status.sandboxId in live ==> status.ownerAddr != "" && status.sandboxId != ""
      modifies this`present, this`finalizer, this`secret, this`live
      ensures old(finalizer) ==>
                (!finalizer <==> old(PastRelease(c)) && (status.hasTokenRef ==> c.deleteSecret) && c.removeFinalizer)
      ensures secret == if old(finalizer && PastRelease(c) && status.hasTokenRef) && c.deleteSecret then None
                        else old(secret)
      ensures old(finalizer && PastRelease(c) && CallsRelease()) ==> live == old(live) - {status.sandboxId}
      ensures old(finalizer) && !finalizer ==>
                (status.sandboxId in live <==> old(status.sandboxId in live) && old(SecretToken()) == "")
      ensures forall id :: id != status.sandboxId ==> (id in live <==> id in old(live))
      ensures forall id :: id in live ==> id in old(live) && live[id] == old(live)[id]
      ensures old(Valid()) ==> Valid()
      ensures old(Valid() && SecretKept()) ==> SecretKept()
      ensures !old(finalizer) ==> live == old(live) && secret == old(secret) && present == old(present)
      ensures present ==> finalizer == old(finalizer)
      ensures old(present) && !present ==> old(finalizer) && !finalizer
    {
      if !finalizer {
        return;
      }
      var token := "";
      if status.hasTokenRef {
        if !c.readSecret {
          return;
        }
        token := if secret.Some? then secret.value else "";
      }
      if status.ownerAddr != "" && status.sandboxId != "" && token != "" {
        var done := Release(status.ownerAddr, status.sandboxId, token, c.release);
        if !done {
          return;
        }
      }
      if status.hasTokenRef {
        if !c.deleteSecret {
          return;
        }
        secret := None;
      }
      if !c.removeFinalizer {
        return;
      }
      finalizer, present := false, false;
    }

    /** An object that is not being deleted: first its finalizer, then its claim, then nothing more. */
    method ReconcileLive(c: Calls)
      requires Valid()
      requires c.reply.Delivered? ==> Usable(c) && c.reply.id !in used
      modifies this`finalizer, this`status, this`secret, this`live, this`used, this`stranded, this`lost
      ensures Valid() && (old(SecretKept()) ==> SecretKept())
      ensures !old(finalizer) ==>
                finalizer == c.addFinalizer && status == old(status) && secret == old(secret) && live == old(live)
      ensures old(finalizer) ==> finalizer
      ensures old(finalizer && status.sandboxId == "" && ClaimSucceeds(c)) ==> Recorded(c.reply.id)
      ensures old(finalizer && status.sandboxId == "" && !ClaimSucceeds(c)) ==>
                status == if c.writeCondition then old(status).(phase := Failed) else old(status)
      ensures old(status.ready) ==> status == old(status) && live == old(live) && secret == old(secret)
      ensures c.release ==> stranded == old(stranded)
      ensures old(stranded) <= stranded
      ensures lost == if old(finalizer && status.sandboxId == "") && c.prepare && !Complete(c.reply)
                      then old(lost) + {c.reply.id} else old(lost)
      ensures old(used) <= used <= old(used) + (if c.reply.Delivered? then {c.reply.id} else {})
    {
      if !finalizer {
        if c.addFinalizer { finalizer := true; }
        return;
      }
      if status.sandboxId != "" && status.ready {
        return;
      }
      ClaimOrFail(c);
    }

    /** One reconcile keeps every live claim accounted for but one with an incomplete handle, and lets
        the finalizer go with the recorded sandbox live exactly when its token is not in the Secret. */
    method Reconcile(c: Calls)
      requires Valid()
      requires c.reply.Delivered? ==> Usable(c) && c.reply.id !in used
      modifies this`present, this`finalizer, this`status, this`secret, this`live, this`used, this`stranded, this`lost
      ensures Valid()
      ensures old(SecretKept()) ==> SecretKept()
      ensures old(finalizer) && !finalizer ==>
                && deleting && !present
                && (status.sandboxId in live <==> old(status.sandboxId in live) && old(SecretToken()) == "")
      ensures c.release ==> stranded == old(stranded)
      ensures old(lost) <= lost <= old(lost) + (if Complete(c.reply) then {} else {c.reply.id})
      ensures old(present && !deleting && finalizer && status.sandboxId == "") && c.read && c.prepare
                && !Complete(c.reply) ==>
                c.reply.id in lost
      ensures old(used) <= used <= old(used) + (if c.reply.Delivered? then {c.reply.id} else {})
      ensures old(stranded) <= stranded
      ensures old(present && status.ready && !deleting) ==>
                status == old(status) && live == old(live) && secret == old(secret)
      ensures !old(finalizer) ==> live == old(live)
      ensures !old(present) || !c.read ==> unchanged(this)
      ensures old(present && !deleting && !finalizer) && c.read ==>
                present && finalizer == c.addFinalizer && status == old(status) && secret == old(secret)
      ensures old(present && !deleting && finalizer && status.sandboxId == "" && ClaimSucceeds(c)) && c.read ==>
                Recorded(c.reply.id)
      ensures old(present && deleting && finalizer) && c.read ==>
                (!present <==> old(PastRelease(c)) && (status.hasTokenRef ==> c.deleteSecret) && c.removeFinalizer)
      ensures old(finalizer) && present ==> finalizer
      ensures old(present) && !present ==> old(finalizer) && !finalizer
    {
      if !present || !c.read {
        return;
      }
      if deleting {
        ReconcileDelete(c);
        return;
      }
      ReconcileLive(c);
    }

    /** The owner deletes the object; with a finalizer it lingers. */
    method RequestDeletion()
      requires Valid()
      modifies this`deleting, this`present
      ensures Valid() && (old(SecretKept()) ==> SecretKept()) && deleting && present == (old(present) && finalizer)
    {
      deleting := true;
      if !finalizer {
        present := false;
      }
    }
  }

  /** The deletion of an object whose Secret was lost: every call succeeds, the finalizer goes, and the
      sandbox lives on. */
  method DeletedWithLostSecret(r: CocoonSandboxController, c: Calls)
    requires r.Valid() && r.finalizer && r.secret == None && r.status.sandboxId in r.live
    requires c.readSecret && c.deleteSecret && c.removeFinalizer
    modifies r
    ensures r.Valid() && !r.finalizer && !r.present && r.status == old(r.status) && r.status.sandboxId in r.live
  {
    r.ReconcileDelete(c);
  }

  datatype Event =
    | Deletion
    | Edit(secret: Option<string>)      // somebody else writes or deletes the Secret
    | Pass(calls: Calls)

  predicate Delivers(e: Event) {
    e.Pass? && e.calls.reply.Delivered?
  }

  /** sandboxd never delivers an id twice, and always with a token. */
  ghost predicate FreshIds(events: seq<Event>) {
    && (forall e :: e in events && Delivers(e) ==> Usable(e.calls))
    && (forall i, j :: 0 <= i < j < |events| && Delivers(events[i]) && Delivers(events[j]) ==>
          events[i].calls.reply.id != events[j].calls.reply.id)
  }

  /** Without a finalizer nothing has been claimed yet. */
  ghost predicate Sound(r: CocoonSandboxController)
    reads r
  {
    r.Valid() && (!r.finalizer && r.present ==> r.live == map[])
  }

  /** The token of a live recorded sandbox is at hand, and a gone object left none behind. */
  ghost predicate Safe(r: CocoonSandboxController)
    reads r
  {
    r.SecretKept() && (!r.present ==> r.status.sandboxId !in r.live)
  }

  method Handle(r: CocoonSandboxController, e: Event)
    requires Sound(r)
    requires Delivers(e) ==> Usable(e.calls) && e.calls.reply.id !in r.used
    modifies r
    ensures Sound(r)
    ensures old(Safe(r)) && !e.Edit? ==> Safe(r)
    ensures r.used <= old(r.used) + (if Delivers(e) then {e.calls.reply.id} else {})
    ensures (e.Pass? ==> Complete(e.calls.reply)) ==> r.lost == old(r.lost)
    ensures (e.Pass? ==> e.calls.release) ==> r.stranded == old(r.stranded)
  {
    match e
    case Deletion => r.RequestDeletion();
    case Edit(secret) => r.secret := secret;
    case Pass(calls) => r.Reconcile(calls);
  }

  /** Any sequence of reconciles, with deletion requests and edits of the Secret at any point and any
      failures: no live claim is ever forgotten but those of incomplete handles; if nobody else edits the
      Secret it holds the token of every live recorded claim, and an object that is gone left none of
      those behind; and nothing is stranded unless a compensating release failed. */
  method Run(r: CocoonSandboxController, events: seq<Event>)
    requires r.Valid() && !r.finalizer && r.live == map[] && r.present && r.used == {}
    requires FreshIds(events)
    modifies r
    ensures r.Valid() && (r.Accounted() <==> r.lost == {})
    ensures (forall e :: e in events && e.Pass? ==> Complete(e.calls.reply)) ==> r.lost == {}
    ensures (forall e :: e in events ==> !e.Edit?) ==>
              && r.SecretKept()
              && forall id :: id in r.live ==>
                   (r.Recorded(id) && r.secret == Some(r.live[id].token)) || id in r.stranded || id in r.lost
    ensures (forall e :: e in events ==> !e.Edit?) && !r.present ==>
              r.status.sandboxId !in r.live && forall id :: id in r.live ==> id in r.stranded || id in r.lost
    ensures (forall e :: e in events && e.Pass? ==> e.calls.release) ==> r.stranded == old(r.stranded)
  {
    assert r.lost == {};
    for n := 0 to |events|
      invariant Sound(r)
      invariant (forall i :: 0 <= i < n ==> !events[i].Edit?) ==> Safe(r)
      invariant forall id :: id in r.used ==>
                  exists i :: 0 <= i < n && Delivers(events[i]) && events[i].calls.reply.id == id
      invariant (forall i :: 0 <= i < n && events[i].Pass? ==> Complete(events[i].calls.reply)) ==> r.lost == {}
      invariant (forall i :: 0 <= i < n && events[i].Pass? ==> events[i].calls.release) ==>
                  r.stranded == old(r.stranded)
    {
      assert events[n] in events;
      Handle(r, events[n]);
    }
    r.AccountedExactly();
  }
}
