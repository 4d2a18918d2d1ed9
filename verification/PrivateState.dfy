/** The store of controller secrets: two slots behind calls that can fail or never return. */
module PrivateState {
  import opened Prelude

  datatype Slot = Active | Pending

  type Secret = Bytes32

  type Slots = map<Slot, Secret>

  /** What becomes of one call to the storage: it works, it reports a failure, or the process stops
      while waiting for it. In the last two cases the write may have happened or not. */
  datatype Fate = Works | Fails(applied: bool) | Stops(applied: bool)

  /** The write of a call with this fate takes place. */
  predicate Lands(f: Fate) { f.Works? || f.applied }

  datatype StateError = AddressNotSet | StoreFailed | MissingPrivateState | NotConfirmed

  /** The end of an operation. `Stopped` is the process stopping at one of the waits. */
  datatype Reply<+T> = Done(value: T) | Failed(error: StateError) | Stopped {
    predicate IsFailure() { !Done? }

    function PropagateFailure<U>(): Reply<U>
      requires !Done?
    {
      if Failed? then Failed(error) else Stopped
    }

    function Extract(): T
      requires Done?
    {
      value
    }
  }

  /** `PrivateStateStore`. With calls that always work it is the in-memory store. */
  class Store {
    const requireAddress: bool
    const fate: nat -> Fate
    var contractAddress: Option<string>
    var slots: Slots
    var calls: nat

    constructor (requireAddress: bool, fate: nat -> Fate)
      ensures slots == map[] && contractAddress == None && this.requireAddress == requireAddress && this.fate == fate
    {
      this.requireAddress := requireAddress;
      this.fate := fate;
      contractAddress := None;
      slots := map[];
      calls := 0;
    }

    /** The store is strict and has no address yet. */
    predicate Unbound()
      reads this
    {
      requireAddress && contractAddress.None?
    }

    method SetContractAddress(address: string)
      modifies this`contractAddress
      ensures contractAddress == Some(address) && !Unbound()
    {
      contractAddress := Some(address);
    }

    /** The reply of a call that reaches the storage is the one of its fate. */
    ghost predicate Replies<T>(r: Reply<T>, f: Fate)
      reads this
    {
      && (r == Failed(AddressNotSet) <==> Unbound())
      && (r.Done? <==> !Unbound() && f.Works?)
      && (r == Failed(StoreFailed) <==> !Unbound() && f.Fails?)
      && (r.Stopped? <==> !Unbound() && f.Stops?)
    }

    method Get(slot: Slot) returns (r: Reply<Option<Secret>>)
      modifies this`calls
      ensures calls == old(calls) + 1
      ensures Replies(r, old(fate(calls)))
      ensures r.Done? ==> r.value == if slot in slots then Some(slots[slot]) else None
    {
      var now := fate(calls);
      calls := calls + 1;
      if requireAddress && contractAddress.None? {
        return Failed(AddressNotSet);
      }
      match now
      case Works => return Done(if slot in slots then Some(slots[slot]) else None);
      case Fails(_) => return Failed(StoreFailed);
      case Stops(_) => return Stopped;
    }

    method Set(slot: Slot, secret: Secret) returns (r: Reply<()>, ghost applied: bool)
      modifies this`calls, this`slots
      ensures calls == old(calls) + 1
      ensures Replies(r, old(fate(calls)))
      ensures applied <==> !Unbound() && Lands(old(fate(calls)))
      ensures slots == if applied then old(slots)[slot := secret] else old(slots)
    {
      var now := fate(calls);
      calls := calls + 1;
      if requireAddress && contractAddress.None? {
        return Failed(AddressNotSet), false;
      }
      var writes := now.Works? || now.applied;
      if writes {
        slots := slots[slot := secret];
      }
      return (if now.Works? then Done(()) else if now.Fails? then Failed(StoreFailed) else Stopped), writes;
    }

    method Remove(slot: Slot) returns (r: Reply<()>, ghost applied: bool)
      modifies this`calls, this`slots
      ensures calls == old(calls) + 1
      ensures Replies(r, old(fate(calls)))
      ensures applied <==> !Unbound() && Lands(old(fate(calls)))
      ensures slots == if applied then old(slots) - {slot} else old(slots)
    {
      var now := fate(calls);
      calls := calls + 1;
      if requireAddress && contractAddress.None? {
        return Failed(AddressNotSet), false;
      }
      var writes := now.Works? || now.applied;
      if writes {
        slots := slots - {slot};
      }
      return (if now.Works? then Done(()) else if now.Fails? then Failed(StoreFailed) else Stopped), writes;
    }
  }

  /** `restore_private_state`: an unbound store reads as empty. */
  method RestorePrivateState(store: Store, slot: Slot) returns (r: Reply<Option<Secret>>)
    modifies store`calls
    ensures store.calls == old(store.calls) + 1
    ensures store.Unbound() ==> r == Done(None)
    ensures !store.Unbound() ==> store.Replies(r, old(store.fate(store.calls)))
    ensures !store.Unbound() && r.Done? ==> r.value == if slot in store.slots then Some(store.slots[slot]) else None
  {
    r := store.Get(slot);
    if r == Failed(AddressNotSet) {
      return Done(None);
    }
    if r.Failed? {
      return Failed(StoreFailed);
    }
  }

  /** `require_private_state`: like the above, with a missing secret as an error. */
  method RequirePrivateState(store: Store, slot: Slot) returns (r: Reply<Secret>)
    modifies store`calls
    ensures store.calls == old(store.calls) + 1
    ensures var f, present := old(store.fate(store.calls)), slot in store.slots;
            && (r.Done? <==> !store.Unbound() && f.Works? && present)
            && (r == Failed(MissingPrivateState) <==> store.Unbound() || (f.Works? && !present))
            && (r == Failed(StoreFailed) <==> !store.Unbound() && f.Fails?)
            && (r.Stopped? <==> !store.Unbound() && f.Stops?)
    ensures r.Done? ==> r.value == store.slots[slot]
  {
    var value :- RestorePrivateState(store, slot);
    if value.None? {
      return Failed(MissingPrivateState);
    }
    return Done(value.value);
  }

  /** A write through the API: any failure is reported as one of the store. */
  ghost predicate WriteReplies(unbound: bool, f: Fate, r: Reply<()>, applied: bool) {
    && (r.Done? <==> !unbound && f.Works?)
    && (r == Failed(StoreFailed) <==> unbound || f.Fails?)
    && (r.Stopped? <==> !unbound && f.Stops?)
    && (applied <==> !unbound && Lands(f))
  }

  /** `save_private_state`. */
  method SavePrivateState(store: Store, secret: Secret, slot: Slot) returns (r: Reply<()>, ghost applied: bool)
    modifies store`calls, store`slots
    ensures store.calls == old(store.calls) + 1
    ensures WriteReplies(store.Unbound(), old(store.fate(store.calls)), r, applied)
    ensures store.slots == if applied then old(store.slots)[slot := secret] else old(store.slots)
  {
    r, applied := store.Set(slot, secret);
    if r.Failed? {
      r := Failed(StoreFailed);
    }
  }

  /** `clear_pending_controller_private_state`. */
  method ClearPending(store: Store) returns (r: Reply<()>, ghost applied: bool)
    modifies store`calls, store`slots
    ensures store.calls == old(store.calls) + 1
    ensures WriteReplies(store.Unbound(), old(store.fate(store.calls)), r, applied)
    ensures store.slots == if applied then old(store.slots) - {Pending} else old(store.slots)
  {
    r, applied := store.Remove(Pending);
    if r.Failed? {
      r := Failed(StoreFailed);
    }
  }

  /** `init_private_state`. An existing secret is returned and never overwritten. With no faults the
      secret that is returned is the one in the Active slot from then on, the generated one if the slot
      was empty. On an unbound store the generated secret is handed out and nothing remembers it. */
  method InitPrivateState(store: Store, generated: Secret) returns (r: Reply<Secret>)
    modifies store`calls, store`slots
    ensures store.Unbound() ==> r == Done(generated) && store.slots == old(store.slots)
    ensures !store.Unbound() && Active in old(store.slots) ==>
              && store.slots == old(store.slots)
              && (r.Done? <==> old(store.fate(store.calls)).Works?)
              && (r.Done? ==> r.value == old(store.slots)[Active])
    ensures !store.Unbound() && Active !in old(store.slots) ==>
              var f0, f1 := old(store.fate(store.calls)), old(store.fate(store.calls + 1));
              && (r.Done? <==> f0.Works? && f1.Works?)
              && (r.Done? ==> r.value == generated)
              && store.slots == if f0.Works? && Lands(f1) then old(store.slots)[Active := generated] else old(store.slots)
    ensures r.Failed? ==> r.error == StoreFailed
    ensures (forall n :: store.fate(n).Works?) ==> r.Done?
  {
    var existing :- RestorePrivateState(store, Active);
    if existing.Some? {
      return Done(existing.value);
    }
    var written, applied := store.Set(Active, generated);
    if written.Done? || written == Failed(AddressNotSet) {
      return Done(generated);
    }
    return if written.Failed? then Failed(StoreFailed) else Stopped;
  }
}
