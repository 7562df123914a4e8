/**
 * The internal value store of useUncontrollableState: a persistent slot seeded once from the
 * default value, a previous-value marker, and the post-commit step that tells onChange about a
 * transition of the slot. The calls to onChange are recorded in an append-only log.
 */
module UncontrollableState {
  import opened Optional

  /** An argument of a state setter: a plain value (possibly undefined) or an updater of the previous value. */
  datatype Next<!T> = Literal(value: Option<T>) | Updater(f: Option<T> -> Option<T>)

  /** The value a setter argument stands for when `prev` is the current value. */
  function Resolve<T>(next: Next<T>, prev: Option<T>): (r: Option<T>)
    ensures next.Literal? ==> r == next.value
    ensures next.Updater? ==> r == next.f(prev)
  {
    match next
    case Literal(v) => v
    case Updater(f) => f(prev)
  }

  /**
   * The state one hook instance keeps across evaluation cycles: the slot, the marker of the last
   * value reported, and every value onChange has been called with, oldest first.
   */
  datatype Store<T> = Store(slot: Option<T>, marker: Option<T>, notified: seq<Option<T>>)

  /** A fresh store: the slot holds the default value and the marker remembers that same value. */
  function InitStore<T>(defaultValue: Option<T>): (s: Store<T>)
    ensures s.slot == defaultValue && s.marker == s.slot && s.notified == []
  {
    Store(defaultValue, defaultValue, [])
  }

  /** The store's setter: the slot takes the resolved argument; nothing is reported until the next commit. */
  function SetValueStep<T>(s: Store<T>, next: Next<T>): (r: Store<T>)
    ensures r.marker == s.marker && r.notified == s.notified
    ensures next.Literal? ==> r.slot == next.value
    ensures next.Updater? ==> r.slot == next.f(s.slot)
  {
    s.(slot := Resolve(next, s.slot))
  }

  /**
   * The post-commit effect: a slot that differs from the marker is reported once and becomes the
   * new marker; otherwise nothing happens.
   */
  function CommitStep<T(==)>(s: Store<T>): (r: Store<T>)
    ensures r.slot == s.slot && r.marker == r.slot
    ensures s.notified <= r.notified && |r.notified| <= |s.notified| + 1
    ensures |r.notified| == |s.notified| + 1 <==> s.slot != s.marker
    ensures |r.notified| == |s.notified| + 1 ==> r.notified[|s.notified|] == s.slot
  {
    if s.marker != s.slot then
      s.(notified := s.notified + [s.slot], marker := s.slot)
    else
      s
  }

  /** After a commit the store is settled: a second commit with no write in between reports nothing. */
  lemma CommitIdempotent<T>(s: Store<T>)
    ensures CommitStep(CommitStep(s)) == CommitStep(s)
    ensures CommitStep(s).slot == CommitStep(s).marker
  {
  }

  /** The effect that runs right after mount reports nothing: the marker starts equal to the slot. */
  lemma InitialCommitQuiet<T>(defaultValue: Option<T>)
    ensures CommitStep(InitStore(defaultValue)) == InitStore(defaultValue)
    ensures CommitStep(InitStore(defaultValue)).notified == []
  {
  }
}
