# useControllableState — a Dafny model

This project models the state hook `useControllableState` of the `react-components` package. A
component that uses it can run in two modes:

- **Controlled**: the owner passes a defined `value` and hears about changes through `onChange`.
- **Uncontrolled**: the hook keeps the value itself, in a persistent slot seeded from `defaultValue`.
  It still reports changes through `onChange`.

The hook decides the mode afresh on every evaluation cycle, as "is `value` defined?". It exposes one
value, `finalValue`, and one setter, `setState`. A controlled `setState` only notifies. An
uncontrolled one writes the internal slot. A post-commit effect then reports each transition of the
slot once, using a previous-value marker.

Modelling choices:

- JavaScript `undefined` is `None` of `Optional.Option`. JS `!==` is Dafny's `!=` on `T(==)`.
- A setter argument is `Next<T>`: either `Literal(v)`, a plain value that may be undefined, or
  `Updater(f)`, a function of the previous value.
- The `onChange` callback is an append-only log of the values it was called with.
  The store and the arbiter share that one log, because both call the same callback.
- `UncontrollableState` holds the internal value store as step functions on a `Store` value:
  the slot, the marker and the log.
- `ControllableState` holds the arbiter: the mode decision, `finalValue`, `setState` dispatch, and
  runs of several calls (`Op`, `Run`).
- `ControllableStateLemmas` proves the properties over single calls and over whole runs.
- `Arbiter.ControllableHook` is the hook instance as a class. It has the fields `slot`, `marker` and
  `notifications`, and its methods are proved equal to the step functions.
- The external `value` is a parameter of every `Read` and `SetState` call, because the host supplies
  it afresh each cycle.

Two consequences of the controlled branch are modelled as the code has them:

- Line 25 compares the raw argument `nextValue`, not the resolved `newValue`. So a controlled
  updater always notifies, even when its result equals `value`.
- A controlled `setState(undefined)` notifies with `undefined`.

## Model

| member | source | states |
|---|---|---|
| UncontrollableState.Resolve | packages/react-components/src/hooks/useControlledState.ts:24-27 | a literal stands for itself; an updater stands for its result on the previous value (the external value at line 24, the slot in React's setter behind line 27) |
| UncontrollableState.InitStore | packages/react-components/src/hooks/useControlledState.ts:43-45 | the slot starts as the default value and the marker starts equal to the slot; nothing is reported |
| UncontrollableState.SetValueStep | packages/react-components/src/hooks/useControlledState.ts:27 | the store's setter puts the literal, or the updater applied to the current slot, into the slot; the marker and the log are unchanged until the commit |
| UncontrollableState.CommitStep | packages/react-components/src/hooks/useControlledState.ts:47-52 | the log gains exactly one entry, the slot, if and only if the slot differs from the marker; afterwards the marker equals the slot; the slot is unchanged |
| UncontrollableState.CommitIdempotent | packages/react-components/src/hooks/useControlledState.ts:47-52 | a second commit with no write in between changes nothing, so the effect's re-runs report nothing |
| UncontrollableState.InitialCommitQuiet | packages/react-components/src/hooks/useControlledState.ts:43-52 | the effect that runs right after mount reports nothing |
| ControllableState.IsControlled | packages/react-components/src/hooks/useControlledState.ts:18 | the arbiter is controlled exactly when the external value is present (not undefined) |
| ControllableState.FinalValue | packages/react-components/src/hooks/useControlledState.ts:18-19 | the caller sees the external value whenever it is defined, and the slot otherwise; the result is undefined only when both are |
| ControllableState.ArgumentDiffers | packages/react-components/src/hooks/useControlledState.ts:25 | the guard on the raw argument: an updater always passes it, a literal passes exactly when it differs from the external value |
| ControllableState.ControlledNotice | packages/react-components/src/hooks/useControlledState.ts:22-25 | a controlled call reports at most one value; an updater always reports its result on the external value; a literal reports itself exactly when it differs from the external value |
| ControllableState.SetStateStep | packages/react-components/src/hooks/useControlledState.ts:21-29 | controlled: the slot and the marker are untouched and only the controlled notice is appended; uncontrolled: exactly the store's setter; never more than one report, and the log only grows |
| ControllableState.Run | packages/react-components/src/hooks/useControlledState.ts:21-52 | over any sequence of setter calls and commits, the log only grows, by at most one entry per call |
| ControllableStateLemmas.ControlledLiteral | packages/react-components/src/hooks/useControlledState.ts:24-25 | a controlled literal equal to the external value appends nothing; a different literal appends exactly that literal; the slot and the marker do not change |
| ControllableStateLemmas.ControlledUpdaterAlwaysNotifies | packages/react-components/src/hooks/useControlledState.ts:23-25 | a controlled updater `f` appends exactly `f(value)`, even when that equals `value`, because the guard tests the raw argument |
| ControllableStateLemmas.UncontrolledWriteDefers | packages/react-components/src/hooks/useControlledState.ts:26-27 | an uncontrolled call sets the slot to the resolved argument and leaves the marker and the log alone |
| ControllableStateLemmas.ControlledWritesLeaveStore | packages/react-components/src/hooks/useControlledState.ts:17-25 | after any number of controlled calls, the slot and the marker are as before, and dropping the external value shows the old slot again; the log gains exactly the calls' own notices |
| ControllableStateLemmas.SettledStoreStaysQuiet | packages/react-components/src/hooks/useControlledState.ts:22-52 | while controlled, a settled store kept live in the background never reports: every entry comes from a controlled call |
| ControllableStateLemmas.UncontrolledWritesDefer | packages/react-components/src/hooks/useControlledState.ts:26-27 | any number of uncontrolled writes leave the marker and the log unchanged |
| ControllableStateLemmas.LastWriteWins | packages/react-components/src/hooks/useControlledState.ts:27-52 | uncontrolled writes followed by one commit report at most once, the last written value, and not at all if it equals the marker; a last literal is the value that wins |
| ControllableStateLemmas.StepKeepsTracking | packages/react-components/src/hooks/useControlledState.ts:47-52 | one uncontrolled write or commit keeps the marker equal to the last report and keeps the log free of repeats |
| ControllableStateLemmas.StoreRunKeepsTracking | packages/react-components/src/hooks/useControlledState.ts:47-52 | the same invariant holds along any run of uncontrolled writes and commits |
| ControllableStateLemmas.UncontrolledNeverRepeats | packages/react-components/src/hooks/useControlledState.ts:43-52 | from mount, uncontrolled, the first report is never the default value, no report repeats the previous one, and after a commit the last report is the current value |
| Arbiter.ControllableHook.constructor | packages/react-components/src/hooks/useControlledState.ts:43-45 | the store is created on mount with slot and marker equal to the default value and an empty log |
| Arbiter.ControllableHook.Read | packages/react-components/src/hooks/useControlledState.ts:18-19 | returns the external value when it is defined and the slot otherwise, deciding the mode from the argument alone |
| Arbiter.ControllableHook.SetState | packages/react-components/src/hooks/useControlledState.ts:21-29 | the new state is the arbiter's setter step applied to the old state: controlled leaves the slot and marker alone and appends the notice; uncontrolled writes the slot only |
| Arbiter.ControllableHook.Commit | packages/react-components/src/hooks/useControlledState.ts:47-52 | the new state is the commit step: report the slot once if it differs from the marker, then the marker equals the slot |
| Arbiter.UncontrolledScenario | packages/react-components/src/hooks/useControlledState.ts:17-52 | uncontrolled from 0: set 1, increment, set 2; the caller sees 0, 1, 2, 2 and onChange hears 1 and 2 only |
| Arbiter.ControlledScenario | packages/react-components/src/hooks/useControlledState.ts:21-25 | controlled at 5: set 6, increment, set 5, identity updater; onChange hears 6, 6, 5; the slot and the caller's view do not change |

## Left out

- The React runtime is not modelled: `useState`, `useRef`, `useEffect` scheduling and `useCallback`
  memoisation (lines 21, 29, 43-52). The slot and the marker are fields. The effect is an explicit
  commit, which a run places wherever the host would run it.
- Dependency arrays and callback identity (lines 29, 52) only decide when the effect or the closure
  is re-created. `CommitIdempotent` covers re-runs of the effect.
- React skips a state write that repeats the current value. The model performs the write. The write
  cannot be observed either way, because it leaves the slot unchanged; a later commit reports the
  same thing with or without it.
- The runtime `typeof nextValue === 'function'` test (line 24) is replaced by the `Literal`/`Updater`
  variants. So a `T` that is itself a function type is not modelled. Such a `T` could be
  misread as an updater, or could equal the external value.
- Reference equality and value equality are not distinguished. Both are Dafny equality on `T(==)`.
- ControllableStateLemmas.ControlledLiteral: promises silence for a literal equal to the external
  value; JS `!==` is not reflexive on NaN, so line 25 notifies on `setState(NaN)` while `value` is NaN.
- UncontrollableState.CommitIdempotent: promises that a re-run of the effect reports nothing; with a
  NaN slot, line 48 reports NaN again on every re-run (every render when `onChange` is an inline
  function or the default of line 15).
- UncontrollableState.CommitStep: its equality is reflexive, so a NaN slot that the source reports
  on every effect run is reported at most once here.
- ControllableStateLemmas.UncontrolledNeverRepeats: promises no consecutive repeated report; with a
  NaN slot the source reports NaN repeatedly.
- The default no-op `onChange` (lines 15, 41) is the same as ignoring the log. The TypeScript
  interfaces and the import and export lines are not modelled.
- Rendering, concurrency and React's batching internals are not modelled. A run is a single-threaded
  sequence of setter calls and commits. A controlled updater in the model always receives the
  external value of its own cycle.
