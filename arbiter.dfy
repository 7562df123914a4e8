/**
 * One instance of the hook as a heap object. The host's persistent slot and previous-value ref
 * are the fields `slot` and `marker`; the calls to onChange are appended to `notifications`. The
 * external value is passed to every call, since the host supplies it afresh each cycle; no mode
 * is ever stored.
 */
module Arbiter {
  import opened Optional
  import opened UncontrollableState
  import opened ControllableState

  class ControllableHook<T(==)> {
    var slot: Option<T>
    var marker: Option<T>
    var notifications: seq<Option<T>>

    /** The abstract state the step functions of the store and the arbiter work on. */
    function State(): Store<T>
      reads this
    {
      Store(slot, marker, notifications)
    }

    /** Mount: the store is created, always, and seeded once from the default value. */
    constructor (defaultValue: Option<T>)
      ensures State() == InitStore(defaultValue)
      ensures slot == defaultValue && marker == defaultValue && notifications == []
    {
      slot := defaultValue;
      marker := defaultValue;
      notifications := [];
    }

    /** finalValue in a cycle whose external value is `external`. */
    method Read(external: Option<T>) returns (v: Option<T>)
      ensures v == FinalValue(external, slot)
      ensures IsControlled(external) ==> v == external
      ensures !IsControlled(external) ==> v == slot
    {
      var isControlled := IsControlled(external);
      if isControlled {
        v := external;
      } else {
        v := slot;
      }
    }

    /** setState, as created in a cycle whose external value is `external`. */
    method SetState(external: Option<T>, next: Next<T>)
      modifies this
      ensures State() == SetStateStep(old(State()), external, next)
      ensures marker == old(marker)
      ensures IsControlled(external) ==> slot == old(slot)
      ensures IsControlled(external) ==> notifications == old(notifications) + ControlledNotice(external, next)
      ensures !IsControlled(external) ==> slot == Resolve(next, old(slot)) && notifications == old(notifications)
    {
      var isControlled := IsControlled(external);
      if isControlled {
        var newValue := Resolve(next, external);
        if ArgumentDiffers(external, next) {
          notifications := notifications + [newValue];
        }
      } else {
        slot := Resolve(next, slot);
      }
    }

    /** The store's post-commit effect. */
    method Commit()
      modifies this
      ensures State() == CommitStep(old(State()))
      ensures slot == old(slot) && marker == slot
      ensures old(slot) != old(marker) ==> notifications == old(notifications) + [old(slot)]
      ensures old(slot) == old(marker) ==> notifications == old(notifications)
    {
      if marker != slot {
        notifications := notifications + [slot];
        marker := slot;
      }
    }
  }

  function Increment(prev: Option<int>): Option<int>
  {
    if prev.Some? then Some(prev.value + 1) else None
  }

  /**
   * Uncontrolled, default 0: set 1, commit, add one with an updater, commit, set 2 again, commit.
   * The caller sees 1, then 2; onChange hears 1 and 2, and nothing for the repeated 2.
   */
  method UncontrolledScenario() returns (seen: seq<Option<int>>, log: seq<Option<int>>)
    ensures seen == [Some(0), Some(1), Some(2), Some(2)]
    ensures log == [Some(1), Some(2)]
  {
    var hook := new ControllableHook<int>(Some(0));
    var v0 := hook.Read(None);
    hook.SetState(None, Literal(Some(1)));
    hook.Commit();
    var v1 := hook.Read(None);
    hook.SetState(None, Updater(Increment));
    hook.Commit();
    var v2 := hook.Read(None);
    hook.SetState(None, Literal(Some(2)));
    hook.Commit();
    var v3 := hook.Read(None);
    seen := [v0, v1, v2, v3];
    log := hook.notifications;
  }

  /**
   * Controlled with external value 5: setting 6 reports 6, adding one with an updater reports 6,
   * setting 5 reports nothing, and an updater that returns its argument still reports 5. The slot
   * and the caller's view stay unchanged throughout.
   */
  method ControlledScenario() returns (seen: Option<int>, slot: Option<int>, log: seq<Option<int>>)
    ensures seen == Some(5) && slot == None
    ensures log == [Some(6), Some(6), Some(5)]
  {
    var hook := new ControllableHook<int>(None);
    hook.SetState(Some(5), Literal(Some(6)));
    hook.SetState(Some(5), Updater(Increment));
    hook.SetState(Some(5), Literal(Some(5)));
    hook.SetState(Some(5), Updater((prev: Option<int>) => prev));
    hook.Commit();
    seen := hook.Read(Some(5));
    slot := hook.slot;
    log := hook.notifications;
  }
}
