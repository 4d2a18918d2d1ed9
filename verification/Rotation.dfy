/** Controller-key rotation, recovery and the recovery of a pending secret, with failures and stops
    at every wait. */
module Rotation {
  import opened Prelude
  import opened Contract
  import opened PrivateState

  /** How a secret determines its public key. */
  type Derive = Secret -> Point

  // ---------------------------------------------------------------------------
  // The protocol as a machine
  // ---------------------------------------------------------------------------

  /** What survives a stop: the two slots, the controller key on the ledger, and the keys of submissions
      that were cut off and may still become final. */
  datatype World = World(slots: Slots, chainKey: Point, inFlight: set<Point>)

  /** The wait at which an operation is. Rotation and recovery differ only in who signs. */
  datatype Control =
    | Idle
    | SavingPending(secret: Secret, key: Point)
    | Submitting(secret: Secret, key: Point)
    | ClearingAfterError
    | Promoting(secret: Secret)
    | ClearingAfterPromotion
    | ReadingPending
    | SavingActive(secret: Secret)
    | ClearingRecovered

  datatype State = State(world: World, control: Control)

  /** What happens next. A store call that fails, and a stop, may still have taken effect. A submission
      that is cut off without effect stays in flight; it settles at any later time, whatever the
      operation that is then under way. */
  datatype Event =
    | StartRotation(secret: Secret, key: Point)
    | StartPendingRecovery(finalized: bool)
    | StoreOk
    | StoreFails(applied: bool)
    | ChainAccepts
    | ChainErr(applied: bool)
    | Stop(applied: bool)
    | Settle(key: Point, accepted: bool)

  function Put(w: World, slot: Slot, secret: Secret): World { w.(slots := w.slots[slot := secret]) }

  function Cleared(w: World): World { w.(slots := w.slots - {Pending}) }

  /** The world after the call at which the operation waits takes effect. */
  function Applied(s: State): World {
    match s.control
    case SavingPending(secret, _) => Put(s.world, Pending, secret)
    case Submitting(_, key) => s.world.(chainKey := key)
    case ClearingAfterError => Cleared(s.world)
    case Promoting(secret) => Put(s.world, Active, secret)
    case ClearingAfterPromotion => Cleared(s.world)
    case SavingActive(secret) => Put(s.world, Active, secret)
    case ClearingRecovered => Cleared(s.world)
    case _ => s.world
  }

  function Maybe(s: State, applied: bool): World { if applied then Applied(s) else s.world }

  /** The world after a stop. */
  function CutOff(s: State, applied: bool): World {
    if s.control.Submitting? && !applied then s.world.(inFlight := s.world.inFlight + {s.control.key})
    else Maybe(s, applied)
  }

  function Settled(w: World, key: Point, accepted: bool): World {
    w.(inFlight := w.inFlight - {key}, chainKey := if accepted then key else w.chainKey)
  }

  /** Where the operation goes when its call succeeds. */
  function Onward(s: State): Control {
    match s.control
    case SavingPending(secret, key) => Submitting(secret, key)
    case Submitting(secret, _) => Promoting(secret)
    case Promoting(_) => ClearingAfterPromotion
    case ReadingPending => if Pending in s.world.slots then SavingActive(s.world.slots[Pending]) else Idle
    case SavingActive(_) => ClearingRecovered
    case _ => Idle
  }

  /** One step; events that do not fit the current wait are impossible. */
  function Next(s: State, e: Event): Option<State> {
    match e
    case StartRotation(secret, key) =>
      if s.control.Idle? then Some(State(s.world, SavingPending(secret, key))) else None
    case StartPendingRecovery(finalized) =>
      if !s.control.Idle? then None
      else Some(State(s.world, if finalized then ReadingPending else Idle))
    case StoreOk =>
      if s.control.Idle? || s.control.Submitting? then None else Some(State(Applied(s), Onward(s)))
    case StoreFails(applied) =>
      if s.control.Idle? || s.control.Submitting? then None else Some(State(Maybe(s, applied), Idle))
    case ChainAccepts =>
      if s.control.Submitting? then Some(State(Applied(s), Onward(s))) else None
    case ChainErr(applied) =>
      if s.control.Submitting? then Some(State(Maybe(s, applied), ClearingAfterError)) else None
    case Stop(applied) => Some(State(CutOff(s, applied), Idle))
    case Settle(key, accepted) =>
      if key in s.world.inFlight then Some(State(Settled(s.world, key, accepted), s.control)) else None
  }

  /** A whole run: operations one after the other, each with whatever happens to it. */
  function Execute(s: State, events: seq<Event>): Option<State>
    decreases |events|
  {
    if events == [] then Some(s)
    else match Execute(s, events[..|events| - 1])
      case None => None
      case Some(t) => Next(t, events[|events| - 1])
  }

  // ---------------------------------------------------------------------------
  // Safety
  // ---------------------------------------------------------------------------

  predicate HoldsKey(derive: Derive, w: World, slot: Slot, key: Point) {
    slot in w.slots && derive(w.slots[slot]) == key
  }

  predicate Holds(derive: Derive, w: World, slot: Slot) { HoldsKey(derive, w, slot, w.chainKey) }

  /** The secret of the controller key on the ledger is in one of the slots. */
  predicate Safe(derive: Derive, w: World) { Holds(derive, w, Active) || Holds(derive, w, Pending) }

  /** What is asked of the callers and of the backend: a rotation starts only when the Active slot
      holds the controller secret and nothing is in flight, and with a matching pair of keys; a
      confirmation that a rotation is final is true; and a submission that is reported as failed did
      not take effect. */
  predicate Honest(derive: Derive, s: State, e: Event) {
    match e
    case StartRotation(secret, key) =>
      derive(secret) == key && Holds(derive, s.world, Active) && s.world.inFlight == {}
    case StartPendingRecovery(finalized) => finalized ==> Holds(derive, s.world, Pending)
    case ChainErr(applied) => !applied
    case _ => true
  }

  predicate HonestRun(derive: Derive, s: State, events: seq<Event>) {
    forall i :: 0 <= i < |events| && Execute(s, events[..i]).Some? ==> Honest(derive, Execute(s, events[..i]).value, events[i])
  }

  /** An event inside one operation, with true reports from the backend, or a late settlement. */
  predicate IsReport(e: Event) { !e.StartRotation? && !e.StartPendingRecovery? && e != ChainErr(true) }

  /** At most one key is in flight, and if it is not the controller key, Pending holds its secret. */
  predicate Covered(derive: Derive, w: World) {
    && (forall j, k :: j in w.inFlight && k in w.inFlight ==> j == k)
    && (forall k :: k in w.inFlight ==> k == w.chainKey || HoldsKey(derive, w, Pending, k))
  }

  /** Where the secret is at each wait. */
  predicate Kept(derive: Derive, s: State) {
    match s.control
    case Idle => Safe(derive, s.world) && Covered(derive, s.world)
    case SavingPending(secret, key) =>
      Holds(derive, s.world, Active) && derive(secret) == key && s.world.inFlight == {}
    case Submitting(secret, key) =>
      && Holds(derive, s.world, Active) && derive(secret) == key && s.world.inFlight == {}
      && Pending in s.world.slots && s.world.slots[Pending] == secret
    case ClearingAfterError => Holds(derive, s.world, Active) && s.world.inFlight == {}
    case Promoting(secret) =>
      derive(secret) == s.world.chainKey && Holds(derive, s.world, Pending) && s.world.inFlight == {}
    case ClearingAfterPromotion => Holds(derive, s.world, Active) && s.world.inFlight == {}
    case ReadingPending => Holds(derive, s.world, Pending) && Covered(derive, s.world)
    case SavingActive(secret) =>
      && derive(secret) == s.world.chainKey && Pending in s.world.slots && s.world.slots[Pending] == secret
      && Covered(derive, s.world)
    case ClearingRecovered => Holds(derive, s.world, Active) && forall k :: k in s.world.inFlight ==> k == s.world.chainKey
  }

  lemma KeptIsSafe(derive: Derive, s: State)
    requires Kept(derive, s)
    ensures Safe(derive, s.world)
  {
  }

  lemma StepKeeps(derive: Derive, s: State, e: Event)
    requires Kept(derive, s) && Honest(derive, s, e) && Next(s, e).Some?
    ensures Kept(derive, Next(s, e).value)
  {
    match e
    case Settle(key, accepted) => SettleKeeps(derive, s, key, accepted);
    case Stop(applied) => StopKeeps(derive, s, applied);
    case StoreFails(applied) => StoreKeeps(derive, s, applied);
    case StoreOk => StoreKeeps(derive, s, true);
    case _ =>
  }

  lemma SettleKeeps(derive: Derive, s: State, key: Point, accepted: bool)
    requires Kept(derive, s) && key in s.world.inFlight
    ensures Kept(derive, State(Settled(s.world, key, accepted), s.control))
  {
    var w := Settled(s.world, key, accepted);
    assert w.inFlight <= s.world.inFlight;
    assert s.control.Idle? || s.control.ReadingPending? || s.control.SavingActive? ==> w.inFlight == {};
  }

  lemma StopKeeps(derive: Derive, s: State, applied: bool)
    requires Kept(derive, s)
    ensures Kept(derive, State(CutOff(s, applied), Idle))
  {
    if s.control.Submitting? {
      assert s.world.inFlight + {s.control.key} == {s.control.key};
    } else {
      StoreKeeps(derive, s, applied);
    }
  }

  /** A store call, applied or not. */
  lemma StoreKeeps(derive: Derive, s: State, applied: bool)
    requires Kept(derive, s) && !s.control.Submitting?
    ensures Kept(derive, State(Maybe(s, applied), Idle))
    ensures !s.control.Idle? ==> Kept(derive, State(Applied(s), Onward(s)))
  {
    match s.control
    case SavingActive(_) =>
    case ClearingRecovered =>
    case _ =>
  }

  /** Crash-safe rotation. Through any number of rotations, recoveries and pending recoveries, with any
      store call failing, the process stopping at any wait and cut-off submissions becoming final or
      not at any later time, the secret of the controller key on the ledger is in the Active or the
      Pending slot at every point. */
  lemma {:induction false} RunsAreSafe(derive: Derive, s: State, events: seq<Event>)
    requires Kept(derive, s) && HonestRun(derive, s, events) && Execute(s, events).Some?
    ensures Kept(derive, Execute(s, events).value) && Safe(derive, Execute(s, events).value.world)
    decreases |events|
  {
    if events != [] {
      var front := events[..|events| - 1];
      forall i | 0 <= i < |front| && Execute(s, front[..i]).Some?
        ensures Honest(derive, Execute(s, front[..i]).value, front[i])
      {
        assert front[..i] == events[..i];
      }
      RunsAreSafe(derive, s, front);
      StepKeeps(derive, Execute(s, front).value, events[|events| - 1]);
    }
    KeptIsSafe(derive, Execute(s, events).value);
  }

  // ---------------------------------------------------------------------------
  // Why each assumption is needed
  // ---------------------------------------------------------------------------

  /** Saving the new secret is safe exactly when the Active slot holds the controller secret or the
      saved secret is itself the controller secret: a secret that only Pending holds is overwritten. */
  lemma SavingPendingIsSafeIff(derive: Derive, w: World, secret: Secret, key: Point)
    ensures Safe(derive, Applied(State(w, SavingPending(secret, key))))
        <==> Holds(derive, w, Active) || derive(secret) == w.chainKey
  {
  }

  /** With the new secret pending, acceptance is safe exactly when the submitted key belongs to it or
      to the old secret. */
  lemma AcceptanceIsSafeIff(derive: Derive, w: World, secret: Secret, key: Point)
    requires Pending in w.slots && w.slots[Pending] == secret
    ensures Safe(derive, Applied(State(w, Submitting(secret, key))))
        <==> derive(secret) == key || (Active in w.slots && derive(w.slots[Active]) == key)
  {
  }

  /** After an error report the pending secret is cleared, which is safe exactly when the Active slot
      holds the controller secret. If the submission took effect all the same with a new key, it
      does not. */
  lemma ClearingIsSafeIff(derive: Derive, w: World)
    ensures Safe(derive, Applied(State(w, ClearingAfterError))) <==> Holds(derive, w, Active)
  {
  }

  lemma AppliedErrorLosesSecret(derive: Derive, w: World, secret: Secret, key: Point)
    requires Holds(derive, w, Active) && derive(secret) == key && key != w.chainKey
    ensures var events := [StartRotation(secret, key), StoreOk, ChainErr(true), StoreOk];
            var end := Execute(State(w, Idle), events);
            end.Some? && !Safe(derive, end.value.world) && end.value.control == Idle
  {
    RotationRun(w, secret, key, [ChainErr(true), StoreOk]);
    var a := State(Put(w, Pending, secret), Submitting(secret, key));
    TwoSteps(a, ChainErr(true), StoreOk);
    assert [StartRotation(secret, key), StoreOk] + [ChainErr(true), StoreOk]
        == [StartRotation(secret, key), StoreOk, ChainErr(true), StoreOk];
  }

  /** Saving a new secret while another key is in flight is safe against its late acceptance exactly when
      the Active slot holds the secret of that key, or the new secret is it. */
  lemma OverwritingInFlightIsSafeIff(derive: Derive, w: World, secret: Secret, key: Point, late: Point)
    requires late in w.inFlight
    ensures Safe(derive, Settled(Applied(State(w, SavingPending(secret, key))), late, true))
        <==> HoldsKey(derive, w, Active, late) || derive(secret) == late
  {
  }

  /** A second rotation started while the first is in flight can lose the secret: the first becomes final
      after its pending secret has been overwritten. */
  lemma LateAcceptanceLosesSecret(derive: Derive, w: World, s1: Secret, k1: Point, s2: Secret, k2: Point)
    requires Holds(derive, w, Active) && w.inFlight == {}
    requires derive(s1) == k1 && derive(s2) == k2 && k1 != w.chainKey && k1 != k2
    ensures var events := [StartRotation(s1, k1), StoreOk, Stop(false), StartRotation(s2, k2), StoreOk, Settle(k1, true)];
            var end := Execute(State(w, Idle), events);
            end.Some? && !Safe(derive, end.value.world)
  {
    var first, second := [StartRotation(s1, k1), StoreOk], [StartRotation(s2, k2), StoreOk];
    var w1 := Put(w, Pending, s1).(inFlight := w.inFlight + {k1});
    var w2 := Put(w1, Pending, s2);
    RotationRun(w1, s2, k2, [Settle(k1, true)]);
    OneStep(State(w2, Submitting(s2, k2)), Settle(k1, true));
    RotationRun(w, s1, k1, [Stop(false)]);
    OneStep(State(Put(w, Pending, s1), Submitting(s1, k1)), Stop(false));
    ExecuteConcat(State(w, Idle), first + [Stop(false)], second + [Settle(k1, true)]);
    assert first + [Stop(false)] + (second + [Settle(k1, true)])
        == [StartRotation(s1, k1), StoreOk, Stop(false), StartRotation(s2, k2), StoreOk, Settle(k1, true)];
  }

  /** Promoting the pending secret is safe exactly when it is the controller secret. */
  lemma PendingRecoveryIsSafeIff(derive: Derive, w: World)
    requires Pending in w.slots
    ensures var saved := Applied(State(w, SavingActive(w.slots[Pending])));
            && (Safe(derive, saved) <==> Holds(derive, w, Pending))
            && (Safe(derive, Applied(State(saved, ClearingRecovered))) <==> Holds(derive, w, Pending))
  {
  }

  lemma RotationRun(w: World, secret: Secret, key: Point, rest: seq<Event>)
    ensures Execute(State(w, Idle), [StartRotation(secret, key), StoreOk] + rest)
         == Execute(State(Put(w, Pending, secret), Submitting(secret, key)), rest)
  {
    TwoSteps(State(w, Idle), StartRotation(secret, key), StoreOk);
    ExecuteConcat(State(w, Idle), [StartRotation(secret, key), StoreOk], rest);
  }

  lemma TwoSteps(s: State, d: Event, e: Event)
    requires Next(s, d).Some?
    ensures Execute(s, [d, e]) == Next(Next(s, d).value, e)
  {
    OneStep(s, d);
    OneMoreStep(s, [d], e);
    assert [d] + [e] == [d, e];
  }

  lemma {:induction false} ExecuteConcat(s: State, a: seq<Event>, b: seq<Event>)
    ensures Execute(s, a + b) == match Execute(s, a) case None => None case Some(t) => Execute(t, b)
    decreases |b|
  {
    if b == [] {
      assert a + b == a;
    } else {
      var k := |b| - 1;
      assert (a + b)[..|a + b| - 1] == a + b[..k] && (a + b)[|a + b| - 1] == b[k];
      ExecuteConcat(s, a, b[..k]);
      assert a + b != [];
      assert Execute(s, a + b)
          == match Execute(s, a + b[..k]) case None => None case Some(t) => Next(t, b[k]);
    }
  }

  // ---------------------------------------------------------------------------
  // Recovery of a lost key
  // ---------------------------------------------------------------------------

  /** The Active slot is the same in both worlds. */
  predicate SameActive(a: World, b: World) {
    (Active in a.slots <==> Active in b.slots) && (Active in a.slots ==> a.slots[Active] == b.slots[Active])
  }

  /** The chain has the key, or may still take it. */
  predicate Issued(w: World, key: Point) { w.chainKey == key || key in w.inFlight }

  /** Where the secret of a recovery is. Nothing is asked of the slots at the start, since recovery is for
      the case that the controller secret is lost. */
  predicate Recovering(derive: Derive, s: State, secret: Secret, key: Point) {
    match s.control
    case SavingPending(x, k) => x == secret && k == key && !Issued(s.world, key)
    case Submitting(x, k) =>
      && x == secret && k == key && !Issued(s.world, key)
      && Pending in s.world.slots && s.world.slots[Pending] == secret
    case ClearingAfterError => !Issued(s.world, key)
    case Promoting(x) => x == secret && Pending in s.world.slots && s.world.slots[Pending] == secret
    case ClearingAfterPromotion => Active in s.world.slots && s.world.slots[Active] == secret
    case Idle => Issued(s.world, key) ==> HoldsKey(derive, s.world, Active, key) || HoldsKey(derive, s.world, Pending, key)
    case _ => false
  }

  /** Recovery from any state of the store, lost secret or not and with anything else in flight, with any
      failures and stops: if the chain has taken the new key or may still take it, its secret is in one
      of the slots; and as long as the chain has not reported acceptance, the Active slot is as before. */
  lemma {:induction false} RecoveryRun(derive: Derive, w: World, secret: Secret, key: Point, events: seq<Event>)
    requires derive(secret) == key && !Issued(w, key) && forall e :: e in events ==> IsReport(e)
    requires Execute(State(w, SavingPending(secret, key)), events).Some?
    ensures var end := Execute(State(w, SavingPending(secret, key)), events).value;
            && Recovering(derive, end, secret, key)
            && (Issued(end.world, key) ==>
                  HoldsKey(derive, end.world, Active, key) || HoldsKey(derive, end.world, Pending, key))
            && (end.world.chainKey == key || end.world.chainKey == w.chainKey || end.world.chainKey in w.inFlight)
            && (end.world.inFlight <= w.inFlight + {key})
            && (ChainAccepts !in events ==>
                  !end.control.Promoting? && !end.control.ClearingAfterPromotion? && SameActive(end.world, w))
    decreases |events|
  {
    if events != [] {
      var k := |events| - 1;
      var front, last := events[..k], events[k];
      assert last in events && forall e :: e in front ==> e in events;
      assert events == front + [last];
      RecoveryRun(derive, w, secret, key, front);
      RecoveryStep(derive, Execute(State(w, SavingPending(secret, key)), front).value, secret, key, last);
    }
  }

  lemma RecoveryStep(derive: Derive, s: State, secret: Secret, key: Point, e: Event)
    requires Recovering(derive, s, secret, key) && derive(secret) == key
    requires IsReport(e) && Next(s, e).Some?
    ensures var n := Next(s, e).value;
            && Recovering(derive, n, secret, key)
            && (n.world.chainKey == key || n.world.chainKey == s.world.chainKey || n.world.chainKey in s.world.inFlight)
            && (n.world.inFlight <= s.world.inFlight + {key})
            && (!e.ChainAccepts? && !s.control.Promoting? && !s.control.ClearingAfterPromotion? ==>
                  !n.control.Promoting? && !n.control.ClearingAfterPromotion? && SameActive(n.world, s.world))
  {
    match e
    case ChainAccepts => assert s.control.Submitting?;
    case ChainErr(applied) => assert !applied;
    case Settle(late, accepted) => assert Issued(Settled(s.world, late, accepted), key) ==> Issued(s.world, key);
    case _ =>
  }

  // ---------------------------------------------------------------------------
  // The operations
  // ---------------------------------------------------------------------------

  /** What the operations below return satisfies this: however one of them ends, the secret is safe if
      it was kept at the start. */
  lemma OperationIsSafe(derive: Derive, s: State, events: seq<Event>)
    requires Kept(derive, s) && Execute(s, events).Some? && forall e :: e in events ==> IsReport(e)
    ensures Safe(derive, Execute(s, events).value.world)
  {
    forall i | 0 <= i < |events| && Execute(s, events[..i]).Some?
      ensures Honest(derive, Execute(s, events[..i]).value, events[i])
    {
      assert events[i] in events;
    }
    RunsAreSafe(derive, s, events);
  }

  /** What becomes of a submission: it is final, it is refused, or the process stops while waiting; in
      the last case it may have become final already, or be in flight. */
  datatype ChainFate = Accepted | Rejected | StopsInFlight | StopsAfter

  datatype ChainReply = Finalized | ContractErr | NoReply

  /** The controller key on the ledger, behind a backend whose error reports are true. */
  class Chain {
    const fate: nat -> ChainFate
    var controllerKey: Point
    var inFlight: set<Point>
    var calls: nat

    constructor (fate: nat -> ChainFate, controllerKey: Point)
      ensures this.controllerKey == controllerKey && inFlight == {} && this.fate == fate
    {
      this.fate := fate;
      this.controllerKey := controllerKey;
      this.inFlight := {};
      this.calls := 0;
    }

    /** `rotate_controller_key` or `recover_controller_key` of the contract. */
    method Submit(key: Point) returns (r: ChainReply, ghost applied: bool)
      modifies this
      ensures calls == old(calls) + 1
      ensures var f := old(fate(calls));
              && (r.Finalized? <==> f.Accepted?)
              && (r.ContractErr? <==> f.Rejected?)
              && (applied <==> f.Accepted? || f.StopsAfter?)
              && controllerKey == (if f.Accepted? || f.StopsAfter? then key else old(controllerKey))
              && inFlight == (if f.StopsInFlight? then old(inFlight) + {key} else old(inFlight))
    {
      var now := fate(calls);
      calls := calls + 1;
      match now
      case Accepted =>
        controllerKey := key;
        return Finalized, true;
      case Rejected => return ContractErr, false;
      case StopsInFlight =>
        inFlight := inFlight + {key};
        return NoReply, false;
      case StopsAfter =>
        controllerKey := key;
        return NoReply, true;
    }

    /** A submission in flight becomes final, or is dropped. */
    method SettleLate(key: Point, accepted: bool)
      requires key in inFlight
      modifies this
      ensures controllerKey == if accepted then key else old(controllerKey)
      ensures inFlight == old(inFlight) - {key}
    {
      if accepted {
        controllerKey := key;
      }
      inFlight := inFlight - {key};
    }
  }

  datatype RotationReply = Rotated | PendingNotSaved | ContractFailed | RotationOrphaned | RotationStopped

  ghost function Seen(store: Store, chain: Chain): World
    reads store, chain
  {
    World(store.slots, chain.controllerKey, chain.inFlight)
  }

  /** The Pending slot is the same in both worlds. */
  predicate SamePending(a: World, b: World) {
    (Pending in a.slots <==> Pending in b.slots) && (Pending in a.slots ==> a.slots[Pending] == b.slots[Pending])
  }

  /** The part of a rotation after the submission was reported as failed. */
  method Abandon(store: Store, chain: Chain) returns (r: RotationReply, ghost last: Event)
    modifies store`calls, store`slots
    ensures Next(State(old(Seen(store, chain)), ClearingAfterError), last) == Some(State(Seen(store, chain), Idle))
    ensures IsReport(last)
    ensures var f := old(store.fate(store.calls));
            && (r.RotationStopped? <==> !store.Unbound() && f.Stops?)
            && (r.ContractFailed? <==> store.Unbound() || !f.Stops?)
            && store.slots == if !store.Unbound() && Lands(f) then old(store.slots) - {Pending} else old(store.slots)
  {
    var cleared, applied := ClearPending(store);
    last := EndOf(cleared, applied);
    r := if cleared.Stopped? then RotationStopped else ContractFailed;
  }

  /** The part of a rotation after the chain accepted. */
  method Promote(store: Store, chain: Chain, newSecret: Secret) returns (r: RotationReply, ghost events: seq<Event>)
    requires Pending in store.slots && store.slots[Pending] == newSecret
    modifies store`calls, store`slots
    ensures Execute(State(old(Seen(store, chain)), Promoting(newSecret)), events) == Some(State(Seen(store, chain), Idle))
    ensures forall e :: e in events ==> IsReport(e)
    ensures var f0, f1 := old(store.fate(store.calls)), old(store.fate(store.calls + 1));
            && (r.RotationOrphaned? <==> store.Unbound() || f0.Fails?)
            && (r.Rotated? <==> !store.Unbound() && f0.Works? && !f1.Stops?)
            && (r.RotationStopped? <==> !store.Unbound() && (f0.Stops? || (f0.Works? && f1.Stops?)))
            && store.slots ==
               var promoted := if !store.Unbound() && Lands(f0) then old(store.slots)[Active := newSecret] else old(store.slots);
               if !store.Unbound() && f0.Works? && Lands(f1) then promoted - {Pending} else promoted
  {
    ghost var promoting := State(Seen(store, chain), Promoting(newSecret));
    var promoted, applied := SavePrivateState(store, newSecret, Active);
    events := [EndOf(promoted, applied)];
    OneStep(promoting, events[0]);
    if !promoted.Done? {
      return if promoted.Failed? then RotationOrphaned else RotationStopped, events;
    }
    var cleared, applied1 := ClearPending(store);
    ghost var last := EndOf(cleared, applied1);
    OneMoreStep(promoting, events, last);
    return if cleared.Stopped? then RotationStopped else Rotated, events + [last];
  }

  /** What decides a rotation: whether the store has its address, the fates of its first three calls to
      the storage, and the fate of the submission. */
  datatype Fates = Fates(unbound: bool, first: Fate, second: Fate, third: Fate, chain: ChainFate)

  /** The submission is reached. */
  predicate Submits(f: Fates) { !f.unbound && f.first.Works? }

  /** When each reply is given. */
  ghost predicate ReplyFits(f: Fates, r: RotationReply) {
    && (r.PendingNotSaved? <==> f.unbound || f.first.Fails?)
    && (r.ContractFailed? <==> Submits(f) && f.chain.Rejected? && !f.second.Stops?)
    && (r.RotationOrphaned? <==> Submits(f) && f.chain.Accepted? && f.second.Fails?)
    && (r.Rotated? <==> Submits(f) && f.chain.Accepted? && f.second.Works? && !f.third.Stops?)
  }

  /** What a rotation leaves: the key and the submissions in flight, then each slot. */
  ghost predicate WorldFits(f: Fates, before: World, after: World, secret: Secret, key: Point) {
    && after.chainKey == (if Submits(f) && (f.chain.Accepted? || f.chain.StopsAfter?) then key else before.chainKey)
    && after.inFlight == (if Submits(f) && f.chain.StopsInFlight? then before.inFlight + {key} else before.inFlight)
    && (if Submits(f) && f.chain.Accepted? && Lands(f.second) then Active in after.slots && after.slots[Active] == secret
        else SameActive(after, before))
    && (if Submits(f) && ((f.chain.Rejected? && Lands(f.second))
                          || (f.chain.Accepted? && f.second.Works? && Lands(f.third))) then Pending !in after.slots
        else if !f.unbound && Lands(f.first) then Pending in after.slots && after.slots[Pending] == secret
        else SamePending(after, before))
  }

  /** When everything works the rotation is done: the chain has the new key, Active its secret, and
      Pending nothing. */
  lemma WorkingRotation(f: Fates, before: World, after: World, secret: Secret, key: Point, r: RotationReply)
    requires ReplyFits(f, r) && WorldFits(f, before, after, secret, key)
    requires !f.unbound && f.first.Works? && f.second.Works? && f.third.Works? && f.chain.Accepted?
    ensures r == Rotated && after == World(map[Active := secret], key, before.inFlight)
  {
    forall slot: Slot ensures slot in after.slots <==> slot == Active {
    }
    assert after.slots == map[Active := secret];
  }

  /** When the chain refuses and the store works, everything is as before, with nothing pending. */
  lemma RefusedRotation(f: Fates, before: World, after: World, secret: Secret, key: Point, r: RotationReply)
    requires ReplyFits(f, r) && WorldFits(f, before, after, secret, key)
    requires !f.unbound && f.first.Works? && f.second.Works? && f.chain.Rejected?
    ensures r == ContractFailed && after == before.(slots := before.slots - {Pending})
  {
    forall slot: Slot ensures slot in after.slots <==> slot == Active && slot in before.slots {
    }
    assert after.slots == before.slots - {Pending};
  }

  /** The fates that the next rotation meets. */
  ghost function FatesOf(store: Store, chain: Chain): Fates
    reads store, chain
  {
    Fates(store.Unbound(), store.fate(store.calls), store.fate(store.calls + 1), store.fate(store.calls + 2),
          chain.fate(chain.calls))
  }

  /** `rotate_controller_key`, and `recover_controller_key`, which has the same steps. Reply and effect
      are those of the fates that the calls meet. The events say what happened; they are a run of the
      machine from the start of the operation to its end. */
  method RotateControllerKey(store: Store, chain: Chain, newSecret: Secret, newKey: Point)
    returns (r: RotationReply, ghost events: seq<Event>)
    modifies store`calls, store`slots, chain
    ensures ReplyFits(old(FatesOf(store, chain)), r)
    ensures WorldFits(old(FatesOf(store, chain)), old(Seen(store, chain)), Seen(store, chain), newSecret, newKey)
    ensures Execute(State(old(Seen(store, chain)), SavingPending(newSecret, newKey)), events)
         == Some(State(Seen(store, chain), Idle))
    ensures forall e :: e in events ==> IsReport(e)
    ensures !old(store.Unbound()) && (forall n :: store.fate(n).Works?) && old(chain.fate(chain.calls)).Accepted? ==>
              r == Rotated && store.slots == map[Active := newSecret] && chain.controllerKey == newKey
    ensures !old(store.Unbound()) && (forall n :: store.fate(n).Works?) && old(chain.fate(chain.calls)).Rejected? ==>
              && r == ContractFailed && chain.controllerKey == old(chain.controllerKey)
              && store.slots == old(store.slots) - {Pending}
  {
    ghost var before, fates := Seen(store, chain), FatesOf(store, chain);
    r, events := RotationSteps(store, chain, newSecret, newKey);
    if !fates.unbound && (forall n :: store.fate(n).Works?) && fates.chain.Accepted? {
      WorkingRotation(fates, before, Seen(store, chain), newSecret, newKey, r);
    }
    if !fates.unbound && (forall n :: store.fate(n).Works?) && fates.chain.Rejected? {
      RefusedRotation(fates, before, Seen(store, chain), newSecret, newKey, r);
    }
  }

  method RotationSteps(store: Store, chain: Chain, newSecret: Secret, newKey: Point)
    returns (r: RotationReply, ghost events: seq<Event>)
    modifies store`calls, store`slots, chain
    ensures ReplyFits(old(FatesOf(store, chain)), r)
    ensures WorldFits(old(FatesOf(store, chain)), old(Seen(store, chain)), Seen(store, chain), newSecret, newKey)
    ensures Execute(State(old(Seen(store, chain)), SavingPending(newSecret, newKey)), events)
         == Some(State(Seen(store, chain), Idle))
    ensures forall e :: e in events ==> IsReport(e)
  {
    ghost var start := State(Seen(store, chain), SavingPending(newSecret, newKey));
    var saved, applied0 := SavePrivateState(store, newSecret, Pending);
    ghost var first := EndOf(saved, applied0);
    OneStep(start, first);
    if !saved.Done? {
      return if saved.Failed? then PendingNotSaved else RotationStopped, [first];
    }
    var submitted, applied1 := chain.Submit(newKey);
    ghost var second :=
      if submitted.Finalized? then ChainAccepts else if submitted.ContractErr? then ChainErr(false) else Stop(applied1);
    OneMoreStep(start, [first], second);
    ghost var front := [first] + [second];
    if submitted.NoReply? {
      return RotationStopped, front;
    }
    if submitted.ContractErr? {
      ghost var last: Event;
      r, last := Abandon(store, chain);
      OneMoreStep(start, front, last);
      events := front + [last];
    } else {
      ghost var rest: seq<Event>;
      r, rest := Promote(store, chain, newSecret);
      ExecuteConcat(start, front, rest);
      events := front + rest;
    }
  }

  ghost function EndOf(r: Reply<()>, applied: bool): Event {
    if r.Done? then StoreOk else if r.Failed? then StoreFails(applied) else Stop(applied)
  }

  lemma OneStep(s: State, e: Event)
    ensures Execute(s, [e]) == Next(s, e)
  {
    assert [e][..0] == [];
  }

  lemma OneMoreStep(s: State, front: seq<Event>, e: Event)
    requires Execute(s, front).Some?
    ensures Execute(s, front + [e]) == Next(Execute(s, front).value, e)
  {
    assert (front + [e])[..|front|] == front;
  }

  datatype RecoveryReply = Recovered(secret: Secret) | NotFinalized | NothingPending | StoreError | RecoveryStopped

  /** The two writes of a pending recovery. */
  method MakeActive(store: Store, chain: Chain, pending: Secret) returns (r: RecoveryReply, ghost events: seq<Event>)
    modifies store`calls, store`slots
    ensures Execute(State(old(Seen(store, chain)), SavingActive(pending)), events) == Some(State(Seen(store, chain), Idle))
    ensures forall e :: e in events ==> IsReport(e)
    ensures var f0, f1 := old(store.fate(store.calls)), old(store.fate(store.calls + 1));
            && (r.Recovered? <==> !store.Unbound() && f0.Works? && f1.Works?)
            && (r.StoreError? <==> store.Unbound() || f0.Fails? || (f0.Works? && f1.Fails?))
            && (r.Recovered? ==> r.secret == pending)
            && !r.NotFinalized? && !r.NothingPending?
            && store.slots ==
               var promoted := if !store.Unbound() && Lands(f0) then old(store.slots)[Active := pending] else old(store.slots);
               if !store.Unbound() && f0.Works? && Lands(f1) then promoted - {Pending} else promoted
  {
    ghost var saving := State(Seen(store, chain), SavingActive(pending));
    var saved, applied0 := SavePrivateState(store, pending, Active);
    events := [EndOf(saved, applied0)];
    OneStep(saving, events[0]);
    if !saved.Done? {
      return if saved.Failed? then StoreError else RecoveryStopped, events;
    }
    var cleared, applied1 := ClearPending(store);
    ghost var last := EndOf(cleared, applied1);
    OneMoreStep(saving, events, last);
    return (if cleared.Done? then Recovered(pending) else if cleared.Failed? then StoreError else RecoveryStopped),
           events + [last];
  }

  /** One of the two writes after a successful read reports a failure. */
  predicate WriteFails(f: Fates) { f.first.Works? && (f.second.Fails? || (f.second.Works? && f.third.Fails?)) }

  /** When each reply of a pending recovery is given; `pending` is what the Pending slot holds. */
  ghost predicate RecoveryReplyFits(finalized: bool, f: Fates, pending: Option<Secret>, r: RecoveryReply) {
    && (r.NotFinalized? <==> !finalized)
    && (r.NothingPending? <==> finalized && (f.unbound || (f.first.Works? && pending.None?)))
    && (r.StoreError? <==> finalized && !f.unbound && (f.first.Fails? || (pending.Some? && WriteFails(f))))
    && (r.Recovered? <==> finalized && Submits(f) && pending.Some? && f.second.Works? && f.third.Works?)
    && (r.Recovered? ==> r.secret == pending.value)
  }

  /** What a pending recovery leaves in each slot. */
  ghost predicate RecoveryWorldFits(finalized: bool, f: Fates, before: World, after: World) {
    var promotes := finalized && Submits(f) && Pending in before.slots;
    && after.chainKey == before.chainKey && after.inFlight == before.inFlight
    && (if promotes && Lands(f.second) then Active in after.slots && after.slots[Active] == before.slots[Pending]
        else SameActive(after, before))
    && (if promotes && f.second.Works? && Lands(f.third) then Pending !in after.slots else SamePending(after, before))
  }

  ghost function PendingOf(w: World): Option<Secret> { if Pending in w.slots then Some(w.slots[Pending]) else None }

  /** `recover_pending_controller_private_state`: reply and effect are those of the confirmation, of the
      Pending slot and of the fates that the calls meet. */
  method RecoverPending(store: Store, chain: Chain, rotationFinalized: bool)
    returns (r: RecoveryReply, ghost events: seq<Event>)
    modifies store`calls, store`slots
    ensures RecoveryReplyFits(rotationFinalized, old(FatesOf(store, chain)), PendingOf(old(Seen(store, chain))), r)
    ensures RecoveryWorldFits(rotationFinalized, old(FatesOf(store, chain)), old(Seen(store, chain)), Seen(store, chain))
    ensures Execute(State(old(Seen(store, chain)), if rotationFinalized then ReadingPending else Idle), events)
         == Some(State(Seen(store, chain), Idle))
    ensures forall e :: e in events ==> IsReport(e)
    ensures rotationFinalized && !old(store.Unbound()) && (forall n :: store.fate(n).Works?) && Pending in old(store.slots) ==>
              r == Recovered(old(store.slots)[Pending]) && store.slots == map[Active := old(store.slots)[Pending]]
  {
    ghost var before, fates := Seen(store, chain), FatesOf(store, chain);
    r, events := RecoverySteps(store, chain, rotationFinalized);
    if rotationFinalized && !fates.unbound && (forall n :: store.fate(n).Works?) && Pending in before.slots {
      WorkingRecovery(fates, before, Seen(store, chain), r);
    }
  }

  lemma WorkingRecovery(f: Fates, before: World, after: World, r: RecoveryReply)
    requires Pending in before.slots
    requires RecoveryReplyFits(true, f, PendingOf(before), r) && RecoveryWorldFits(true, f, before, after)
    requires !f.unbound && f.first.Works? && f.second.Works? && f.third.Works?
    ensures r == Recovered(before.slots[Pending]) && after.slots == map[Active := before.slots[Pending]]
  {
    forall slot: Slot ensures slot in after.slots <==> slot == Active {
    }
  }

  method RecoverySteps(store: Store, chain: Chain, rotationFinalized: bool)
    returns (r: RecoveryReply, ghost events: seq<Event>)
    modifies store`calls, store`slots
    ensures RecoveryReplyFits(rotationFinalized, old(FatesOf(store, chain)), PendingOf(old(Seen(store, chain))), r)
    ensures RecoveryWorldFits(rotationFinalized, old(FatesOf(store, chain)), old(Seen(store, chain)), Seen(store, chain))
    ensures Execute(State(old(Seen(store, chain)), if rotationFinalized then ReadingPending else Idle), events)
         == Some(State(Seen(store, chain), Idle))
    ensures forall e :: e in events ==> IsReport(e)
  {
    if !rotationFinalized {
      return NotFinalized, [];
    }
    ghost var reading := State(Seen(store, chain), ReadingPending);
    var pending := RequirePrivateState(store, Pending);
    ghost var first := if pending.Done? then StoreOk else if pending.Failed? then StoreFails(false) else Stop(false);
    OneStep(reading, first);
    if !pending.Done? {
      return (if pending == Failed(MissingPrivateState) then NothingPending
              else if pending.Failed? then StoreError else RecoveryStopped), [first];
    }
    ghost var rest: seq<Event>;
    r, rest := MakeActive(store, chain, pending.value);
    ExecuteConcat(reading, [first], rest);
    events := [first] + rest;
  }
}
