/** The node-local claim gateway: credentials of delivered sandboxes are held under a lock, taken
    out for the release call and put back when it fails. */
module ClaimGateway {
  import opened Text

  /** A delivered sandbox's id and its own token, both needed to release it. */
  datatype Delivered = Delivered(id: string, token: string)

  type Holdings = map<string, Delivered>

  datatype Reply = AtCapacity | Failed | Handed(sandbox: Delivered)

  datatype ClaimResult = Unauthorized | NoNodeCapacity | Error | Assigned(sandbox: Delivered)

  datatype ReleaseResult = Refused | ReleaseFailed | Released

  /** A release call that reached sandboxd, and whether it succeeded. */
  datatype Call = Call(sandbox: Delivered, ok: bool)

  // ---------------------------------------------------------------- interleavings

  /** Where a caller is between its locked sections. */
  datatype Caller =
    | Idle
    | Arriving(sandbox: Delivered)                  // delivered, not yet held
    | Releasing(name: string, sandbox: Delivered)   // taken out, call under way
    | Restoring(name: string, sandbox: Delivered)   // call failed, not yet put back

  datatype State = State(
    holdings: Holdings,
    callers: map<nat, Caller>,
    delivered: map<string, string>,                 // every id ever handed over, with its token
    calls: seq<Call>)

  const INIT := State(map[], map[], map[], [])

  datatype Step =
    | Deliver(caller: nat, sandbox: Delivered)
    | Hold(caller: nat)
    | TakeOut(caller: nat, name: string)
    | CallSandboxd(caller: nat, ok: bool)
    | PutBack(caller: nat)

  function At(s: State, c: nat): Caller {
    if c in s.callers then s.callers[c] else Idle
  }

  function Move(s: State, c: nat, to: Caller): State {
    s.(callers := if to.Idle? then s.callers - {c} else s.callers[c := to])
  }

  /** sandboxd hands every id out once; everything else is the gateway's own code. */
  predicate Enabled(s: State, step: Step) {
    match step
    case Deliver(c, d) => At(s, c).Idle? && d.id !in s.delivered
    case Hold(c) => At(s, c).Arriving?
    case TakeOut(c, name) => At(s, c).Idle?
    case CallSandboxd(c, ok) => At(s, c).Releasing?
    case PutBack(c) => At(s, c).Restoring?
  }

  function Next(s: State, step: Step): State
    requires Enabled(s, step)
  {
    match step
    case Deliver(c, d) => Move(s, c, Arriving(d)).(delivered := s.delivered[d.id := d.token])
    case Hold(c) =>
      var d := At(s, c).sandbox;
      Move(s, c, Idle).(holdings := s.holdings[d.id := d])
    case TakeOut(c, name) =>
      if name in s.holdings then Move(s, c, Releasing(name, s.holdings[name])).(holdings := s.holdings - {name}) else s
    case CallSandboxd(c, ok) =>
      var p := At(s, c);
      Move(s, c, if ok then Idle else Restoring(p.name, p.sandbox)).(calls := s.calls + [Call(p.sandbox, ok)])
    case PutBack(c) =>
      var p := At(s, c);
      Move(s, c, Idle).(holdings := s.holdings[p.name := p.sandbox])
  }

  ghost predicate Run(states: seq<State>, steps: seq<Step>) {
    && |states| == |steps| + 1 && states[0] == INIT
    && forall i :: 0 <= i < |steps| ==> Enabled(states[i], steps[i]) && states[i + 1] == Next(states[i], steps[i])
  }

  /** The places a delivered sandbox can be. */
  datatype Place = Held | With(caller: nat) | Gone

  ghost predicate IsAt(s: State, p: Place, id: string) {
    match p
    case Held => id in s.holdings
    case With(c) => !At(s, c).Idle? && At(s, c).sandbox.id == id
    case Gone => exists i :: 0 <= i < |s.calls| && s.calls[i].ok && s.calls[i].sandbox.id == id
  }

  ghost predicate SomePlace(s: State, id: string) {
    exists p :: IsAt(s, p, id)
  }

  ghost predicate OnePlace(s: State, id: string) {
    forall p, q :: IsAt(s, p, id) && IsAt(s, q, id) ==> p == q
  }

  /** The credential is the one handed over. */
  ghost predicate Genuine(s: State, d: Delivered) {
    d.id in s.delivered && s.delivered[d.id] == d.token
  }

  ghost predicate Credentials(s: State) {
    && (forall n :: n in s.holdings ==> s.holdings[n].id == n && Genuine(s, s.holdings[n]))
    && (forall c :: !At(s, c).Idle? ==> Genuine(s, At(s, c).sandbox))
    && (forall c :: At(s, c).Releasing? || At(s, c).Restoring? ==> At(s, c).name == At(s, c).sandbox.id)
    && (forall i :: 0 <= i < |s.calls| ==> Genuine(s, s.calls[i].sandbox))
  }

  lemma OthersStay(s: State, step: Step, c: nat)
    requires Enabled(s, step) && c != step.caller
    ensures At(Next(s, step), c) == At(s, c)
  {
  }

  lemma NextKeepsCredentials(s: State, step: Step)
    requires Credentials(s) && Enabled(s, step)
    ensures Credentials(Next(s, step))
  {
    var t := Next(s, step);
    forall c ensures !At(t, c).Idle? ==> Genuine(t, At(t, c).sandbox)
             ensures At(t, c).Releasing? || At(t, c).Restoring? ==> At(t, c).name == At(t, c).sandbox.id {
      assert At(s, step.caller).Idle? || Genuine(s, At(s, step.caller).sandbox);
      if c != step.caller {
        OthersStay(s, step, c);
        assert At(s, c).Idle? || Genuine(s, At(s, c).sandbox);
      }
    }
  }

  /** The sandbox a step moves, and where to. */
  function Moved(s: State, step: Step): Option<(string, Place)>
    requires Enabled(s, step)
  {
    match step
    case Deliver(c, d) => Some((d.id, With(c)))
    case Hold(c) => Some((At(s, c).sandbox.id, Held))
    case TakeOut(c, name) => if name in s.holdings then Some((name, With(c))) else None
    case CallSandboxd(c, ok) => Some((At(s, c).sandbox.id, if ok then Gone else With(c)))
    case PutBack(c) => Some((At(s, c).sandbox.id, Held))
  }

  ghost predicate Placed(s: State) {
    forall id :: id in s.delivered ==> SomePlace(s, id) && OnePlace(s, id)
  }

  lemma Undelivered(s: State, p: Place, id: string)
    requires Credentials(s) && id !in s.delivered
    ensures !IsAt(s, p, id)
  {
  }

  lemma CallsGrow(s: State, step: Step, id: string)
    requires Enabled(s, step)
    ensures IsAt(Next(s, step), Gone, id) <==>
            IsAt(s, Gone, id) || (step.CallSandboxd? && step.ok && At(s, step.caller).sandbox.id == id)
  {
    var t := Next(s, step);
    if step.CallSandboxd? {
      assert t.calls == s.calls + [Call(At(s, step.caller).sandbox, step.ok)];
      assert forall i :: 0 <= i < |s.calls| ==> t.calls[i] == s.calls[i];
      assert t.calls[|s.calls|] == Call(At(s, step.caller).sandbox, step.ok);
    }
  }

  /** Every step moves at most one sandbox, and that one from one place to one other. */
  lemma StepMoves(s: State, step: Step, p: Place, id: string)
    requires Credentials(s) && Placed(s) && Enabled(s, step)
    ensures IsAt(Next(s, step), p, id) <==>
            if Moved(s, step).Some? && Moved(s, step).value.0 == id then p == Moved(s, step).value.1 else IsAt(s, p, id)
  {
    var t := Next(s, step);
    var c := step.caller;
    if p.With? && p.caller != c {
      OthersStay(s, step, p.caller);
    }
    if step.Deliver? {
      Undelivered(s, p, step.sandbox.id);
    } else if step.TakeOut? {
      if step.name in s.holdings {
        assert Genuine(s, s.holdings[step.name]);
        assert IsAt(s, Held, step.name) && OnePlace(s, step.name);
        assert id == step.name && IsAt(s, p, id) ==> p == Held;
      }
    } else {
      var d := At(s, c).sandbox;
      assert Genuine(s, d);
      assert IsAt(s, With(c), d.id) && OnePlace(s, d.id);
      assert id == d.id && IsAt(s, p, id) ==> p == With(c);
      assert step.PutBack? ==> At(s, c).name == d.id;
    }
    CallsGrow(s, step, id);
  }

  lemma NextKeepsPlaced(s: State, step: Step)
    requires Credentials(s) && Placed(s) && Enabled(s, step)
    ensures Placed(Next(s, step))
  {
    var t := Next(s, step);
    forall id | id in t.delivered ensures SomePlace(t, id) && OnePlace(t, id) {
      forall p, q | IsAt(t, p, id) && IsAt(t, q, id) ensures p == q {
        StepMoves(s, step, p, id);
        StepMoves(s, step, q, id);
        assert id in s.delivered ==> OnePlace(s, id);
      }
      if Moved(s, step).Some? && Moved(s, step).value.0 == id {
        StepMoves(s, step, Moved(s, step).value.1, id);
      } else {
        assert SomePlace(s, id);
        var p :| IsAt(s, p, id);
        StepMoves(s, step, p, id);
      }
    }
  }

  /** No call for a sandbox follows a successful one. */
  ghost predicate ReleasedOnce(s: State) {
    forall i, j :: 0 <= i < j < |s.calls| && s.calls[i].ok ==> s.calls[i].sandbox.id != s.calls[j].sandbox.id
  }

  lemma NextKeepsReleasedOnce(s: State, step: Step)
    requires Credentials(s) && Placed(s) && ReleasedOnce(s) && Enabled(s, step)
    ensures ReleasedOnce(Next(s, step))
  {
    if step.CallSandboxd? {
      var d := At(s, step.caller).sandbox;
      assert Genuine(s, d);
      assert IsAt(s, With(step.caller), d.id) && OnePlace(s, d.id);
      assert !IsAt(s, Gone, d.id);
    }
  }

  /** In every interleaving: each delivered sandbox is in exactly one place, every call to sandboxd
      carries a delivered id with its own token, and none follows a success. */
  lemma {:induction false} EveryRunKeeps(states: seq<State>, steps: seq<Step>, i: nat)
    requires Run(states, steps) && i < |states|
    ensures Credentials(states[i]) && Placed(states[i]) && ReleasedOnce(states[i])
  {
    if i > 0 {
      EveryRunKeeps(states, steps, i - 1);
      assert Enabled(states[i - 1], steps[i - 1]) && states[i] == Next(states[i - 1], steps[i - 1]);
      NextKeepsCredentials(states[i - 1], steps[i - 1]);
      NextKeepsPlaced(states[i - 1], steps[i - 1]);
      NextKeepsReleasedOnce(states[i - 1], steps[i - 1]);
    }
  }

  /** Whenever no caller is between two sections, every delivered sandbox not yet released is held
      and a release of it reaches sandboxd with its own token. */
  lemma QuietMeansRetryable(states: seq<State>, steps: seq<Step>, i: nat, id: string, c: nat)
    requires Run(states, steps) && i < |states| && id in states[i].delivered
    requires forall x :: At(states[i], x).Idle?
    ensures IsAt(states[i], Gone, id) <==> id !in states[i].holdings
    ensures !IsAt(states[i], Gone, id) ==>
              At(Next(states[i], TakeOut(c, id)), c) == Releasing(id, Delivered(id, states[i].delivered[id]))
  {
    EveryRunKeeps(states, steps, i);
    var s := states[i];
    assert SomePlace(s, id) && OnePlace(s, id);
    var p :| IsAt(s, p, id);
    assert p.With? ==> At(s, p.caller).Idle?;
    assert IsAt(s, Held, id) <==> id in s.holdings;
    if id in s.holdings {
      assert Genuine(s, s.holdings[id]);
    }
  }

  /** Until the caller of a failed release acts again it keeps the credential, whatever others do; and
      all it can do then is to put the credential back as it was delivered. */
  lemma {:induction false} FailedReleaseComesBack(states: seq<State>, steps: seq<Step>, i: nat, j: nat, c: nat)
    requires Run(states, steps) && i < j < |states| && steps[i] == CallSandboxd(c, false)
    requires forall k :: i < k < j ==> steps[k].caller != c
    ensures At(states[i], c).Releasing?
              && At(states[j], c) == Restoring(At(states[i], c).name, At(states[i], c).sandbox)
    ensures j < |steps| && steps[j].caller == c ==>
              var d := At(states[i], c).sandbox;
              steps[j] == PutBack(c) && d.id in states[j + 1].holdings && states[j + 1].holdings[d.id] == d
  {
    assert Enabled(states[i], steps[i]) && states[i + 1] == Next(states[i], steps[i]);
    EveryRunKeeps(states, steps, i);
    assert At(states[i], c).name == At(states[i], c).sandbox.id;
    if j > i + 1 {
      FailedReleaseComesBack(states, steps, i, j - 1, c);
      assert Enabled(states[j - 1], steps[j - 1]) && states[j] == Next(states[j - 1], steps[j - 1]);
      OthersStay(states[j - 1], steps[j - 1], c);
    }
    if j < |steps| && steps[j].caller == c {
      assert Enabled(states[j], steps[j]) && states[j + 1] == Next(states[j], steps[j]);
    }
  }

  // ---------------------------------------------------------------- the object

  /** A claim alone: delivered, then held. */
  function AfterClaim(s: State, d: Delivered): State
    requires s.callers == map[] && d.id !in s.delivered
  {
    Next(Next(s, Deliver(0, d)), Hold(0))
  }

  /** A release alone: taken out, called, and put back if the call failed. */
  function AfterRelease(s: State, name: string, ok: bool): State
    requires s.callers == map[] && name in s.holdings
  {
    var called := Next(Next(s, TakeOut(0, name)), CallSandboxd(0, ok));
    if ok then called else Next(called, PutBack(0))
  }

  lemma NothingBetweenClaims(s: State, d: Delivered)
    requires s.callers == map[] && d.id !in s.delivered
    ensures AfterClaim(s, d) == State(s.holdings[d.id := d], map[], s.delivered[d.id := d.token], s.calls)
  {
    var none: map<nat, Caller> := map[];
    assert none[0 := Arriving(d)] - {0} == none;
  }

  lemma NothingBetweenReleases(s: State, name: string, ok: bool)
    requires s.callers == map[] && name in s.holdings
    ensures AfterRelease(s, name, ok) ==
            State(if ok then s.holdings - {name} else s.holdings, map[],
                  s.delivered, s.calls + [Call(s.holdings[name], ok)])
  {
    var d := s.holdings[name];
    var none: map<nat, Caller> := map[];
    assert none[0 := Releasing(name, d)] - {0} == none;
    assert none[0 := Releasing(name, d)][0 := Restoring(name, d)] - {0} == none;
    assert (s.holdings - {name})[name := d] == s.holdings;
  }

  /** One caller that runs from start to end is a run of its locked sections and its call. */
  class NodeClaimGateway {
    var holdings: Holdings
    ghost var delivered: map<string, string>
    ghost var calls: seq<Call>

    ghost function View(): State
      reads this
    {
      State(holdings, map[], delivered, calls)
    }

    constructor ()
      ensures View() == INIT
    {
      holdings, delivered, calls := map[], map[], [];
    }

    /** `reply` is what sandboxd answers if it is asked; it hands every id out once. */
    method Claim(authorized: bool, reply: Reply) returns (r: ClaimResult)
      requires reply.Handed? ==> reply.sandbox.id !in delivered
      modifies this
      ensures r.Assigned? <==> authorized && reply.Handed?
      ensures r.Assigned? ==> r.sandbox == reply.sandbox && View() == AfterClaim(old(View()), r.sandbox)
      ensures !r.Assigned? ==> View() == old(View())
      ensures (r.Unauthorized? <==> !authorized) && (r.NoNodeCapacity? <==> authorized && reply.AtCapacity?)
    {
      if !authorized {
        return Unauthorized;
      }
      match reply
      case AtCapacity => r := NoNodeCapacity;
      case Failed => r := Error;
      case Handed(d) =>
        NothingBetweenClaims(View(), d);
        delivered := delivered[d.id := d.token];
        holdings := holdings[d.id := d];
        r := Assigned(d);
    }

    /** `ok` is the outcome of the sandboxd call if one is made. */
    method Release(name: string, ok: bool) returns (r: ReleaseResult)
      modifies this
      ensures r.Refused? <==> name !in old(holdings)
      ensures !r.Refused? ==> (r.Released? <==> ok)
      ensures View() == if r.Refused? then old(View()) else AfterRelease(old(View()), name, ok)
    {
      if name !in holdings {
        assert holdings - {name} == holdings;
        return Refused;
      }
      NothingBetweenReleases(View(), name, ok);
      var d := holdings[name];
      holdings := holdings - {name};
      calls := calls + [Call(d, ok)];
      if !ok {
        holdings := holdings[name := d];
        return ReleaseFailed;
      }
      r := Released;
    }
  }
}
