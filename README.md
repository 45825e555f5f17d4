# Reactive dependency engine of `InputsArray.js`

This project models the small reactivity runtime at the top of `InputsArray.js`
and proves properties of it in Dafny. The runtime works like this:

- `reactive(target)` wraps a raw object in a proxy.
- The proxy's `get` returns the raw value and calls
  `track(target, key)`. If an effect is in the single global `activeEffect`
  slot, `track` records that effect in the registry `targetMap`, under
  target → key → set of effects.
- The proxy's `set` assigns the new value. It calls `trigger(target, key)`
  only when the assignment succeeded and `JSON.stringify` of the old and new
  values differ.
- `trigger` calls every effect recorded for that key, in insertion order.
- `effect(eff)` puts `eff` in the slot, runs it once, and empties the slot.

The file also contains the rule by which `focusElement` updates
`currentFocusIndex`. That rule is modelled as a pure function.

Modules:

- `Wrappers`: `Option`.
- `Json`: the value datatype and `Stringify`, the tree of the text that
  `JSON.stringify` produces. It also holds the change test `Changed`, the
  inverse `ToValue`, and the round-trip lemmas.
- `Reactivity`:
  - pure functions on the registry: `AfterTrack` for one `track`, and
    `TrackAll` for a sequence of reads;
  - the lemmas about those functions;
  - the class `Engine`. Its fields are the slot (`active`), the registry
    (`targetMap`) and the raw objects behind the proxies (`store`). Its
    methods are `Reactive`, `Track`, `Get`, `Set`, `Trigger` and `RunEffect`.
    Each method is proved against the pure functions.
- `Focus`: `focusElement` as written, and the corrected rule.
- `Scenarios`: short client programs on a fresh `Engine`. Each one states, from
  the engine's contracts and the registry lemmas, which effects a write calls.

How JavaScript is represented:

- An effect (a closure) is an identity plus the list of proxy reads its body
  performs. Running an effect replays those reads.
- A `Set` of effects is a duplicate-free `seq`, in insertion order.
- Object identity is a natural number.
- `Reflect.set`'s outcome is the boolean parameter `succeeds` of `Set`.
- Two JSON texts are equal exactly when their trees are equal. So comparing
  `Stringify` results stands for comparing the strings.

Two points about the code shape the model:

- `effect` has no `try`/`finally` (lines 4-8), so `RunEffect` clears the slot
  only on normal return. Throwing effects are not modelled.
- Change detection is by `JSON.stringify` (line 51), not by a recursive
  equality. `Json.Changed` models the serialisation. That includes
  `undefined` becoming `null` inside arrays and disappearing from objects, and
  the order of properties mattering. `ChangedIffDifferent` proves that on
  values without a nested `undefined`, this test is exactly structural
  inequality.

## Model

| member | source | states |
|---|---|---|
| `Json.Stringify` | InputsArray.js:51 | The serialisation is absent (`JSON.stringify` returns `undefined`) exactly for a top-level `undefined`. |
| `Json.Changed` | InputsArray.js:51 | The write's change test; two equal values are never a change. |
| `Json.StringifyToValue` | InputsArray.js:51 | Round trip: every JSON text is the serialisation of the value it denotes, and that value has no nested `undefined`. |
| `Json.ToValueStringify` | InputsArray.js:51 | Round trip: serialising a value with no nested `undefined`, then reading it back, gives the same value. |
| `Json.ChangedIffDifferent` | InputsArray.js:51 | With no nested `undefined`, a write notifies if and only if the new value differs structurally from the old. So a new but equal array notifies nothing. |
| `Json.NestedUndefinedIsNoChange` | InputsArray.js:51 | Serialising loses a nested `undefined`: `[undefined]` to `[null]` and `{x: undefined}` to `{}` are not changes. `undefined` to `null` is a change. |
| `Reactivity.AfterTrack` | InputsArray.js:11-26 | After `track`, the per-target map and the per-key set exist. The active effect is appended at the end unless already present. With an empty slot the set is unchanged. |
| `Reactivity.AfterTrackFrame` | InputsArray.js:11-26 | One `track` of (target, key) leaves the set of every other (target, key) pair unchanged. |
| `Reactivity.AfterTrackKeepsEntry` | InputsArray.js:13-21 | One `track` never removes an existing per-target map or per-key set. |
| `Reactivity.TrackAllWithoutActive` | InputsArray.js:13-25 | Any number of reads with an empty slot leave every dependency set as it was. |
| `Reactivity.TrackAllWithActive` | InputsArray.js:17-25 | Reads with effect `e` in the slot add `e` exactly once, at the end, to the set of each key read, unless it is already there. Sets of keys not read are unchanged. |
| `Reactivity.TrackAllCreatesEntries` | InputsArray.js:13-21 | Every key read gets a per-target map and a per-key set, even with an empty slot. |
| `Reactivity.TrackAllKeepsEntries` | InputsArray.js:13-21 | Entries, once created, are never removed by any sequence of reads. |
| `Reactivity.AfterTrackWellFormed` | InputsArray.js:22-25 | One `track` keeps every dependency set free of duplicates. |
| `Reactivity.TrackAllWellFormed` | InputsArray.js:22-25 | Any sequence of reads keeps every dependency set free of duplicates. |
| `Reactivity.TrackAgainChangesNothing` | InputsArray.js:22 | Reading the same key a second time with the same slot leaves the registry exactly as after the first read. |
| `Reactivity.RerunRegistersNothingNew` | InputsArray.js:4-8 | Running an effect a second time through `effect` registers nothing new. |
| `Reactivity.RegistrationOrder` | InputsArray.js:24 | Two effects that read a key sit in its set in the order they first read it, after the effects already there. |
| `Reactivity.Engine.constructor` | InputsArray.js:2-10 | The slot starts empty, the registry empty, and there are no wrapped objects. |
| `Reactivity.Engine.Reactive` | InputsArray.js:41-58 | Wrapping adds one new raw object and leaves the registry and the slot untouched. |
| `Reactivity.Engine.Track` | InputsArray.js:11-26 | The registry afterwards is `AfterTrack` of the registry before and the current slot. Every dependency set stays free of duplicates. |
| `Reactivity.Engine.Get` | InputsArray.js:43-46 | Returns exactly the raw stored value (`undefined` for a missing key), without wrapping it. The store is unchanged. The registry is updated by `track` with the current slot. |
| `Reactivity.Engine.RunBody` | InputsArray.js:6 | An effect's body performs its reads in order. Each read returns the raw value, and the registry afterwards is `TrackAll` of the reads with the current slot. |
| `Reactivity.Engine.RunEffect` | InputsArray.js:4-8 | The slot holds `eff` while its reads run and is empty afterwards, whatever it held before. A falsy `eff` is not called and the registry is unchanged. |
| `Reactivity.Engine.Trigger` | InputsArray.js:27-39 | Calls exactly the effects in the set of (target, key), each once, in insertion order. A key with no entry calls nothing. The effects run with an empty slot, so every dependency set, of every (target, key), is the same afterwards. |
| `Reactivity.Engine.Set` | InputsArray.js:48-55 | Returns the assignment's outcome. On success only `store[target][key]` changes. The set is triggered if and only if the assignment succeeded and the old raw value and the new value serialise differently. No dependency is recorded: every dependency set is the same afterwards. |
| `Scenarios.WriteAfterEffect` | InputsArray.js:4-58 | State `{items: []}`, an effect reads `items`, then `items = [1]`: the effect runs exactly once. |
| `Scenarios.ReadOutsideEffect` | InputsArray.js:22 | A read outside any effect returns the value and registers nothing. A later different write calls no effect. |
| `Scenarios.ReadTwiceCalledOnce` | InputsArray.js:22-25 | An effect that reads a key twice is called once per write. |
| `Scenarios.EqualWriteIsSilent` | InputsArray.js:51-53 | Writing a new but equal array calls nothing. Writing a different array calls the effect. |
| `Scenarios.CascadeRegistersNothing` | InputsArray.js:34-37 | A write calls the effect that read the key exactly once. Because the effect re-runs with an empty slot, its key's set afterwards is still exactly that effect. (That a next write then calls it once again follows from `Engine.Set`'s contract; this member does not state it.) |
| `Scenarios.SilentWrites` | InputsArray.js:28-33 | A write to a key no effect read calls nothing. A failed assignment calls nothing and returns false. |
| `Scenarios.CallOrder` | InputsArray.js:34-37 | Effects are called in the order in which they first read the key. |
| `Focus.FocusElement` | InputsArray.js:85-108 | `focusElement` as written, including the `focusEmptyInput` call: at most one element receives `focus()`; the new index never exceeds `length`; it is negative exactly when a negative index was requested; whenever it is non-negative it lies in 0..length and names the element focused. |
| `Focus.FocusIndexRule` | InputsArray.js:85-108 | `'empty'` or `index == length` gives `length`; `index > length` gives 0; `0 <= index < length` gives `index`; `index < 0` gives `index`, because line 107 overwrites line 87. |
| `Focus.FocusTargetRule` | InputsArray.js:91-108 | Which element receives `focus()`: the empty input for `'empty'`, for `length`, and for a negative index; input `index` when it is in range; input 0, if there is one, for `index > length`. |
| `Focus.NegativeIndexDesync` | InputsArray.js:100-107 | `focusElement(-1)` with two inputs focuses the empty input at position 2 but leaves the index at -1. |
| `Focus.FocusElementIntended` | InputsArray.js:85-108 | Corrected rule: the index always lies in 0..length and names the element focused last. For a non-negative index it agrees with the code as written. |

## Left out

- DOM and UI work: element creation, `innerHTML`, `appendChild`, `focus()`, attributes, event listeners and `console.log` (lines 60-83, 110-202). The `focus()` calls of `focusElement` appear only as the list `FocusOutcome.focused`.
- The `InputsArray` class's array bookkeeping: `setValues`, `setValueTo`, `addNewValue`, `deleteActiveInput`, `createReactiveInputs`, `render` and the handlers. They sequence DOM rebuilding on top of the engine.
- Writes performed inside an effect body, and an `effect` called inside another effect. Effect bodies are lists of reads, so there is no reentrant `trigger`. `Engine.Set` and `Engine.Trigger` are therefore modelled only between operations, when the slot is empty (`Engine.Valid`).
- Effect bodies whose reads depend on the values they read. A body is a fixed list of reads.
- Throwing effects. Without `try`/`finally` (lines 4-8), a throwing effect would leave the slot set. A failing effect stopping the rest of a `trigger` is not modelled either.
- `Set.forEach` over a set that grows during iteration. With an empty slot nothing is added during a `trigger` (an `ensures` of `Engine.Trigger`, proved from `TrackAllWithoutActive`), so iterating the set as it was at the start is the same as iterating it live.
- The `if (effect)` test at line 36. Sets only ever hold effects that passed the test at line 22, so it always holds.
- `JSON.stringify` beyond the value kinds of `Json.Value`. Not modelled: fractional numbers, `NaN` and `Infinity`, `-0` (serialised as `0`), integers beyond 2^53 (in JavaScript they are doubles, so neighbouring ones cannot be told apart; `Num` is an unbounded integer), functions and symbols (serialised like `undefined`: no text at the top level, `null` in an array, the property dropped in an object), DOM nodes (serialised as `{}`), `toJSON`, and cyclic values, which throw.
- The order of object properties. `Json.Obj` lists its fields in JavaScript's own-property order (integer-like keys first, ascending, then the other keys in insertion order), but the model does not compute that order: a value must be built with its fields already in it. Built in plain insertion order, `{b: 1, 1: 2}` and `{1: 2, b: 1}` would count as `Changed`, though `JSON.stringify` writes both alike.
- In-place mutation of a nested object. In the model, nested arrays and objects are immutable values. So a mutation through a value `Get` returned (the source does this at lines 132-133, 139 and 180), which the shallow proxy does not intercept, cannot be expressed. Shallowness shows only as `Get` returning the raw value and `Set` comparing whole values.
- Inherited properties. `Reflect.get` (line 44) and `target[key]` (line 49) walk the prototype chain, so `state.toString` gives a function; in the model a key that is not an own property reads as `undefined`.
- The proxy's `receiver` argument. `Reflect.set` failing is the parameter `succeeds`, and its causes (frozen objects, non-writable properties) are not modelled.
- An object that never went through `reactive` cannot be reached through a proxy in JavaScript. The model has no proxies, so `Engine.Get` and `Engine.Track` accept any identity: reading an unknown object gives `undefined`, and tracking it records an entry.
- `WeakMap` garbage collection. Also not modelled: wrapping one raw object twice, where two proxies share one registry entry. `Engine.Reactive` always wraps a new object.

## Findings

| source | as written | input that shows it | evidently intended | confidence | as-written member | corrected member |
|---|---|---|---|---|---|---|
| InputsArray.js:100-107 | For an index below 0, `focusElement` focuses the empty input, whose `focusEmptyInput` sets `currentFocusIndex` to `length` (line 87). Line 107 then overwrites that with the negative index. | `focusElement(-1)` with two inputs, as ArrowUp on the first input sends it (line 159): the empty input has focus and `currentFocusIndex` is -1. The next ArrowUp sends -2 and focuses the empty input again, instead of the last input. A Delete would splice at -1, removing the last string. | `currentFocusIndex` equals `length`, the position of the focused empty input. | medium; not executed | `Focus.NegativeIndexDesync` | `Focus.FocusElementIntended` |
