/** Properties of the arbiter and its store over single calls and over whole runs. */
module ControllableStateLemmas {
  import opened Optional
  import opened UncontrollableState
  import opened ControllableState

  /** A controlled setter call with a plain value reports that value exactly when it differs from the external value. */
  lemma ControlledLiteral<T>(s: Store<T>, v: T, x: Option<T>)
    ensures SetStateStep(s, Some(v), Literal(x)).slot == s.slot
    ensures SetStateStep(s, Some(v), Literal(x)).marker == s.marker
    ensures x == Some(v) ==> SetStateStep(s, Some(v), Literal(x)).notified == s.notified
    ensures x != Some(v) ==> SetStateStep(s, Some(v), Literal(x)).notified == s.notified + [x]
  {
  }

  /**
   * A controlled setter call with an updater always reports the updater's result, even when that
   * result equals the external value: the guard looks at the raw argument, not at the result.
   */
  lemma ControlledUpdaterAlwaysNotifies<T>(s: Store<T>, v: T, f: Option<T> -> Option<T>)
    ensures SetStateStep(s, Some(v), Updater(f)).slot == s.slot
    ensures SetStateStep(s, Some(v), Updater(f)).marker == s.marker
    ensures SetStateStep(s, Some(v), Updater(f)).notified == s.notified + [f(Some(v))]
  {
  }

  /** An uncontrolled setter call writes the resolved value into the slot and reports nothing yet. */
  lemma UncontrolledWriteDefers<T>(s: Store<T>, next: Next<T>)
    ensures SetStateStep(s, None, next).slot == Resolve(next, s.slot)
    ensures SetStateStep(s, None, next).marker == s.marker
    ensures SetStateStep(s, None, next).notified == s.notified
  {
  }

  /**
   * Controlled setter calls never touch the store: after any number of them the slot and the
   * marker are as before, so dropping the external value later shows the old slot again, and the
   * only reports are those of the calls themselves.
   */
  lemma {:induction false} ControlledWritesLeaveStore<T>(s: Store<T>, ops: seq<Op<T>>)
    requires ControlledWrites(ops)
    ensures Run(s, ops).slot == s.slot && Run(s, ops).marker == s.marker
    ensures Run(s, ops).notified == s.notified + ControlledNotices(ops)
    ensures FinalValue(None, Run(s, ops).slot) == FinalValue(None, s.slot)
  {
    if ops != [] {
      ControlledWritesLeaveStore(s, ops[..|ops| - 1]);
    }
  }

  /**
   * A settled store stays quiet in the background while the arbiter is controlled: with controlled
   * writes and commits interleaved, every report comes from a controlled setter call.
   */
  lemma {:induction false} SettledStoreStaysQuiet<T>(s: Store<T>, ops: seq<Op<T>>)
    requires s.slot == s.marker
    requires ControlledPhase(ops)
    ensures Run(s, ops).slot == s.slot && Run(s, ops).marker == s.marker
    ensures Run(s, ops).notified == s.notified + ControlledNotices(ops)
  {
    if ops != [] {
      SettledStoreStaysQuiet(s, ops[..|ops| - 1]);
    }
  }

  /** Uncontrolled writes change only the slot; the marker and the log wait for the commit. */
  lemma {:induction false} UncontrolledWritesDefer<T>(s: Store<T>, ops: seq<Op<T>>)
    requires UncontrolledWrites(ops)
    ensures Run(s, ops).marker == s.marker && Run(s, ops).notified == s.notified
  {
    if ops != [] {
      UncontrolledWritesDefer(s, ops[..|ops| - 1]);
    }
  }

  /**
   * Any number of uncontrolled writes followed by one commit report at most once: the last
   * written value, and nothing when it equals the marker. A last plain value wins outright.
   */
  lemma {:induction false} LastWriteWins<T>(s: Store<T>, ops: seq<Op<T>>)
    requires UncontrolledWrites(ops)
    ensures ops != [] && ops[|ops| - 1].next.Literal? ==> Run(s, ops).slot == ops[|ops| - 1].next.value
    ensures CommitStep(Run(s, ops)).notified ==
              s.notified + (if Run(s, ops).slot != s.marker then [Run(s, ops).slot] else [])
  {
    UncontrolledWritesDefer(s, ops);
  }

  /** One uncontrolled write or one commit keeps the store tracking its reports. */
  lemma StepKeepsTracking<T>(s: Store<T>, defaultValue: Option<T>, op: Op<T>)
    requires Tracks(s, defaultValue)
    requires op.Commit? || !IsControlled(op.external)
    ensures Tracks(Apply(s, op), defaultValue)
  {
    if op.Commit? && s.marker != s.slot {
      var r := Apply(s, op);
      assert r.notified == s.notified + [s.slot];
      forall i | 0 <= i < |r.notified| - 1
        ensures r.notified[i] != r.notified[i + 1]
      {
        if i < |s.notified| - 1 {
          assert r.notified[i] == s.notified[i] && r.notified[i + 1] == s.notified[i + 1];
        }
      }
    }
  }

  /** The tracking invariant holds along every run in which the store alone drives onChange. */
  lemma {:induction false} StoreRunKeepsTracking<T>(s: Store<T>, defaultValue: Option<T>, ops: seq<Op<T>>)
    requires Tracks(s, defaultValue)
    requires StoreOnly(ops)
    ensures Tracks(Run(s, ops), defaultValue)
  {
    if ops != [] {
      StoreRunKeepsTracking(s, defaultValue, ops[..|ops| - 1]);
      StepKeepsTracking(Run(s, ops[..|ops| - 1]), defaultValue, ops[|ops| - 1]);
    }
  }

  /**
   * Uncontrolled from mount on, onChange never reports the default value first and never reports
   * the same value twice in a row; after a commit the last report is the current value.
   */
  lemma {:induction false} UncontrolledNeverRepeats<T>(defaultValue: Option<T>, ops: seq<Op<T>>)
    requires StoreOnly(ops)
    ensures NoRepeats(defaultValue, Run(InitStore(defaultValue), ops).notified)
    ensures Run(InitStore(defaultValue), ops).marker ==
              LastReported(defaultValue, Run(InitStore(defaultValue), ops).notified)
    ensures ops != [] && ops[|ops| - 1].Commit? ==>
              LastReported(defaultValue, Run(InitStore(defaultValue), ops).notified) ==
              Run(InitStore(defaultValue), ops).slot
  {
    StoreRunKeepsTracking(InitStore(defaultValue), defaultValue, ops);
  }
}
