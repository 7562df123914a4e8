/**
 * The ownership arbiter of useControllableState. On every call the host passes the external
 * `value` of that evaluation cycle; the arbiter is controlled exactly when that value is defined.
 * It exposes one value (the external one, or the internal store's slot) and one setter that either
 * only notifies (controlled) or writes the store (uncontrolled). The mode is never stored.
 */
module ControllableState {
  import opened Optional
  import opened UncontrollableState

  /** The mode decision: controlled exactly when the external value is not undefined. */
  predicate IsControlled<T>(external: Option<T>): (b: bool)
    ensures b <==> external != None
  {
    external.Some?
  }

  /** finalValue: the value the caller sees in this cycle. */
  function FinalValue<T>(external: Option<T>, slot: Option<T>): (r: Option<T>)
    ensures IsControlled(external) ==> r == external
    ensures !IsControlled(external) ==> r == slot
    ensures r.None? <==> external.None? && slot.None?
  {
    if IsControlled(external) then external else slot
  }

  /**
   * The controlled branch's guard compares the raw setter argument with the external value. An
   * updater is a function and never equals a defined external value, so it always passes the guard.
   */
  predicate ArgumentDiffers<T(==)>(external: Option<T>, next: Next<T>): (b: bool)
    ensures next.Updater? ==> b
    ensures next.Literal? ==> (b <==> next.value != external)
  {
    match next
    case Literal(v) => v != external
    case Updater(_) => true
  }

  /** What a controlled setter call reports: the resolved argument, when the raw argument passes the guard. */
  function ControlledNotice<T(==)>(external: Option<T>, next: Next<T>): (n: seq<Option<T>>)
    ensures |n| <= 1
    ensures next.Updater? ==> n == [next.f(external)]
    ensures next.Literal? ==> (n == [] <==> next.value == external)
    ensures next.Literal? && next.value != external ==> n == [next.value]
  {
    if ArgumentDiffers(external, next) then [Resolve(next, external)] else []
  }

  /**
   * setState: in controlled mode only notify (the store is left alone), in uncontrolled mode
   * forward the argument to the store's setter, which reports nothing before the next commit.
   */
  function SetStateStep<T(==)>(s: Store<T>, external: Option<T>, next: Next<T>): (r: Store<T>)
    ensures r.marker == s.marker
    ensures s.notified <= r.notified && |r.notified| <= |s.notified| + 1
    ensures IsControlled(external) ==>
              r.slot == s.slot && r.notified == s.notified + ControlledNotice(external, next)
    ensures !IsControlled(external) ==> r == SetValueStep(s, next)
  {
    if IsControlled(external) then
      s.(notified := s.notified + ControlledNotice(external, next))
    else
      SetValueStep(s, next)
  }

  /** One step of a single-threaded run: a setter call made in a cycle whose external value is given, or a commit. */
  datatype Op<!T> = SetState(external: Option<T>, next: Next<T>) | Commit

  function Apply<T(==)>(s: Store<T>, op: Op<T>): Store<T>
  {
    match op
    case SetState(external, next) => SetStateStep(s, external, next)
    case Commit => CommitStep(s)
  }

  /** The store after the operations `ops`, performed in order; the notification log only grows, by at most one entry per operation. */
  function Run<T(==)>(s: Store<T>, ops: seq<Op<T>>): (r: Store<T>)
    ensures s.notified <= r.notified
    ensures |r.notified| <= |s.notified| + |ops|
    decreases |ops|
  {
    if ops == [] then s else Apply(Run(s, ops[..|ops| - 1]), ops[|ops| - 1])
  }

  /** Controlled setter calls only. */
  predicate ControlledWrites<T>(ops: seq<Op<T>>)
  {
    forall i :: 0 <= i < |ops| ==> ops[i].SetState? && IsControlled(ops[i].external)
  }

  /** Uncontrolled setter calls only. */
  predicate UncontrolledWrites<T>(ops: seq<Op<T>>)
  {
    forall i :: 0 <= i < |ops| ==> ops[i].SetState? && !IsControlled(ops[i].external)
  }

  /** Controlled setter calls and commits, no uncontrolled write. */
  predicate ControlledPhase<T>(ops: seq<Op<T>>)
  {
    forall i :: 0 <= i < |ops| ==> ops[i].Commit? || IsControlled(ops[i].external)
  }

  /** Uncontrolled setter calls and commits, no controlled write: the store alone drives onChange. */
  predicate StoreOnly<T>(ops: seq<Op<T>>)
  {
    forall i :: 0 <= i < |ops| ==> ops[i].Commit? || !IsControlled(ops[i].external)
  }

  /** Everything the controlled setter calls in `ops` report, in order. */
  function ControlledNotices<T(==)>(ops: seq<Op<T>>): seq<Option<T>>
    decreases |ops|
  {
    if ops == [] then []
    else
      ControlledNotices(ops[..|ops| - 1]) +
      match ops[|ops| - 1]
      case SetState(external, next) =>
        if IsControlled(external) then ControlledNotice(external, next) else []
      case Commit => []
  }

  /** The value last reported to onChange, or the default value when nothing was reported. */
  function LastReported<T>(defaultValue: Option<T>, log: seq<Option<T>>): Option<T>
  {
    if log == [] then defaultValue else log[|log| - 1]
  }

  /** The first report differs from the default value and no report repeats the one before it. */
  predicate NoRepeats<T(==)>(defaultValue: Option<T>, log: seq<Option<T>>)
  {
    (|log| > 0 ==> log[0] != defaultValue) &&
    forall i :: 0 <= i < |log| - 1 ==> log[i] != log[i + 1]
  }

  /** The store's invariant while it alone drives onChange: the marker is the last value reported. */
  predicate Tracks<T(==)>(s: Store<T>, defaultValue: Option<T>)
  {
    s.marker == LastReported(defaultValue, s.notified) && NoRepeats(defaultValue, s.notified)
  }
}
