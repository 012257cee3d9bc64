# composeHooks, modelled in Dafny

`composeHooks(hooks)(Component)` wraps a React component. The wrapper calls a set of named
hooks on every render. It merges what they return into one props object and renders
`Component` with that object, overlaid with the caller's own props. This project models
that function (src/index.js) and proves what it does.

- `values.dfy` (module `JsValues`): the JavaScript values a hook can return. It also gives
  truthiness (`!x`, `if (x)`) and `Object.entries`, which throws on null and undefined,
  yields one entry per character of a string and no entries for numbers, booleans and
  functions.
- `compose_hooks.dfy` (module `ComposeHooks`): the model of src/index.js.
  - The component guard and the identity on absent hooks (`Compose`).
  - Resolving the hook mapping (`Resolve`).
  - The `reduce` over the hooks and the inner `forEach` over an object result. These are
    spec functions (`Put`, `Spread`, `ApplyHook`, `MergeHooks`) and imperative methods
    proved equal to them: `Merge` loops over the hooks, and `Reduce`, the reduce callback,
    loops over an object result's entries, updating a map and an event log.
  - The props overlay (`Overlay`) and one render pass (`Rendering`, carried out by the
    method `Render`).
- `properties.dfy` (module `ComposeProperties`): lemmas about one render. They say which
  keys the accumulator gets and the value each one holds (last writer wins). They say
  when a warning is logged and which hooks are called. They also say how the caller's props
  take part.
- `scenarios.dfy` (module `Scenarios`): the cases in src/__tests__/index.test.js, stated
  against the model.
- `findings.dfy` (module `Findings`): two places where the code does not do what its
  tests expect. For each there is a counterexample under the code as written and a
  corrected hook step with the intended behaviour proved.

Side effects are an event log. It records `FactoryCalled` when the factory is called with
the props, `HookCalled(name)` when a literal hook is called, and `Warned(key, value)` for
each `console.warn`. The hooks' own behaviour belongs to React and its state. During one
render it is a parameter `run: nat -> Value`: `run(id)` is what function `Func(id)`
returns when called.

Four behaviours of the code are easy to miss, and the model keeps each as written:
- In factory form the mapping's values are used as results without being called
  (src/index.js:23).
- Every non-array result goes through `Object.entries` (src/index.js:30), so a function
  result gives no props and a string gives one prop per character.
- The collision warning fires only when the existing value is truthy (src/index.js:31).
  Overwriting a falsy value is silent (`Scenarios.FalsyOverwriteIsSilent`).
- An array result is written under the hook's name without any warning (src/index.js:25-28),
  even when that name already holds a value.

## Model

| member | source | states |
|---|---|---|
| `ComposeHooks.Compose` | src/index.js:3-10 | composing fails with "Component must be provided to compose" exactly when the component is falsy, whatever `hooks` is; otherwise absent hooks give back the component itself, and given hooks give a wrapper around it |
| `ComposeHooks.Resolve` | src/index.js:17-19 | a literal mapping is used as it is with no call; a factory is called once with the render's props, and its result's entries are the mapping, which fails exactly when it returns null or undefined |
| `ComposeHooks.Invoke` | src/index.js:23 | calling a hook succeeds exactly when it is a function; calling anything else is a TypeError |
| `JsValues.Truthy` | src/index.js:4 | a value is falsy exactly when it is undefined, null, false, 0 or the empty string; every function, array and object is truthy, even an empty one (used at src/index.js:4, 8 and 31) |
| `ComposeHooks.HookReturn` | src/index.js:23 | in factory form the mapping's value is the result as it is, never called; in literal form a function is called and its result is what `run` gives, and anything else is a TypeError |
| `ComposeHooks.Overwrites` | src/index.js:31 | a write warns only on a key already present, and there exactly when its value is not one of the falsy values |
| `ComposeProperties.ComposedRendering` | src/index.js:3-44 | with a truthy component, `composeHooks(hooks)(component)` succeeds and renders as the component itself when hooks are absent, and as the wrapper over exactly the given hooks otherwise |
| `ComposeHooks.Put` | src/index.js:31-36 | writing one entry sets that key and leaves every other key as it was (a map update); the log gains at most one event, and gains one exactly when the key already holds a truthy value, namely `Warned(key, value)` |
| `ComposeHooks.Spread` | src/index.js:30-37 | spreading an object result adds exactly its keys to the accumulator and only appends to the log |
| `ComposeHooks.ApplyHook` | src/index.js:22-39 | a hook that cannot be called throws with the state unchanged; an array result is stored whole under the hook's name, with no warning; a null or undefined result throws; any other result adds exactly the keys of its entries; a literal hook's call is logged before anything else |
| `ComposeHooks.MergeHooks` | src/index.js:21-41 | the reduce only appends to the log, and a state that has thrown stays as it is |
| `ComposeHooks.Merge` | src/index.js:21-41 | the loop over the hook entries, stopping at the first hook that throws, computes exactly the reduce started from an empty accumulator |
| `ComposeHooks.Reduce` | src/index.js:22-39 | the reduce callback, with its loop over an object result's entries updating the accumulator and log in place, computes exactly one `ApplyHook` step |
| `ComposeHooks.Overlay` | src/index.js:43 | the final props have the keys of both objects; every caller key keeps the caller's value, even a falsy one, and every other key keeps the hook value |
| `ComposeHooks.Rendering` | src/index.js:12-44 | an unwrapped component renders with exactly the caller's props and logs nothing; a wrapped one renders the wrapped component, and every caller prop reaches it unchanged |
| `ComposeHooks.Render` | src/index.js:12-44 | the render pass (resolve, merge, overlay) computes exactly `Rendering` |
| `JsValues.Entries` | src/index.js:30 | `Object.entries` throws a TypeError exactly on null and undefined; it gives an object's own entries, no entries for booleans, numbers and functions, and one entry per character or element for strings and arrays |
| `ComposeProperties.SpreadLastWriter` | src/index.js:30-37 | after an object result is spread, each of its keys holds the value of its last entry, and every other key is untouched |
| `ComposeProperties.SpreadWarnings` | src/index.js:31-35 | for an object result (keys distinct), the warnings logged are one `Warned(key, value)` per entry whose key already held a truthy value, in entry order, and nothing else |
| `ComposeProperties.MergeLastWriter` | src/index.js:21-41 | after the whole reduce, each key holds the last value written to it across all hooks and entries in declaration order: an array under its hook's name, otherwise an entry under its own key |
| `ComposeProperties.MergeKeys` | src/index.js:21-41 | the accumulator's keys are exactly the names of the array-returning hooks plus the keys of every other result; no hook's name appears otherwise |
| `ComposeProperties.FactoryMergeOnlyWarns` | src/index.js:23 | in factory form the reduce calls nothing: every event it adds is a warning |
| `ComposeProperties.LiteralHooksCalledInOrder` | src/index.js:21-23 | in literal form a reduce that completes calls every hook exactly once, in entry order |
| `ComposeProperties.RenderedProps` | src/index.js:21-43 | the final props hold the caller's value for each caller key; each other key holds the last hook write for it; a key neither gives is absent |
| `ComposeProperties.FactoryCalledOnce` | src/index.js:17-23 | in factory form each render calls the factory once, first, and calls no hook; everything else logged is a warning |
| `ComposeProperties.LiteralRenderCalls` | src/index.js:17-23 | in literal form each completed render calls every hook exactly once, in entry order |
| `ComposeProperties.LiteralLogIgnoresProps` | src/index.js:43 | the caller's props cause no warning and change no call: with a literal mapping, renders with any two props objects log the same events and end the same way |
| `Scenarios.PassesCustomHooks` | src/__tests__/index.test.js:27-36 | `{useCount, useChange}` hands on count, increment, decrement, value and onChange, with no warning |
| `Scenarios.PassesProps` | src/__tests__/index.test.js:38-43 | a caller prop `foo` reaches the component |
| `Scenarios.ArrayHookPassedWhole` | src/__tests__/index.test.js:54-65 | a hook returning `[count, setCount]` is handed on whole under its name, with no warning |
| `Scenarios.IdentityWithoutHooks` | src/__tests__/index.test.js:99-103 | with no hooks the component is returned unchanged and renders with exactly the caller's props |
| `Scenarios.ThrowsWithoutComponent` | src/__tests__/index.test.js:105-109 | composing with no component and no hooks fails with "Component must be provided to compose" |
| `Scenarios.PropsWinOnCollision` | src/__tests__/index.test.js:111-117 | without caller props the component gets the hook's `value` 'hi' and `onChange`; with a caller `value` the caller's value replaces it, `onChange` stays, and no warning is logged |
| `Scenarios.WarnsOnHookNameCollision` | src/__tests__/index.test.js:119-129 | with `{useChange, useChangeTwo}` the final `value` is 'duplicate-hook-prop', and exactly one warning names `value` and that value |
| `Scenarios.FalsyOverwriteIsSilent` | src/index.js:31-36 | a key first set to 0 and then to 1 ends as 1; the component gets exactly that prop and the log holds the two calls and no warning |
| `Scenarios.NonFunctionHookThrows` | src/index.js:23 | a literal hook that is not a function throws a TypeError at its turn, after earlier hooks ran |
| `Scenarios.NullResultThrows` | src/index.js:30 | a hook returning null makes the render throw a TypeError |
| `Findings.FactoryHookNotInvoked` | src/index.js:23 | as written, the factory test's hook is never called, so the component gets only the caller's props |
| `Findings.ScalarHookResultDropped` | src/index.js:25-30 | as written, a hook returning a function and one returning a string are not handed on under their names; only per-character index props appear |
| `Findings.IntendedApplyHook` | src/index.js:22-39 | corrected hook step: a non-function hook throws; a result that is not a plain object is stored whole under the hook's name; an object result adds its keys; the call is always logged first |
| `Findings.IntendedMerge` | src/index.js:21-41 | the corrected reduce keeps a state that has thrown as it is |
| `Findings.IntendedRendering` | src/index.js:12-44 | the corrected render still hands on every caller prop unchanged |
| `Findings.IntendedCallsEveryHook` | src/index.js:21-23 | corrected, a completed reduce calls every hook exactly once, in entry order, in both forms |
| `Findings.IntendedFactoryCallsHooks` | src/index.js:17-23 | corrected, a factory render calls every hook of the returned mapping |
| `Findings.IntendedAgreesOnArraysAndObjects` | src/index.js:21-41 | the corrected and as-written reduces are equal on every literal mapping of functions returning arrays or plain objects |
| `Findings.IntendedFactoryHookInvoked` | src/__tests__/index.test.js:88-96 | corrected, the factory test's `value` reaches the component |
| `Findings.IntendedScalarHooksPassed` | src/__tests__/index.test.js:67-86 | corrected, the function and the string arrive whole under `setFoo` and `bar` |

## Left out

- React itself is left out: JSX, element creation, rendering and `useState`. A rendered element is the value `Element(component, props)`. What each hook returns during a render is the parameter `run`.
- React's handling of the special props `key` and `ref`, which it takes out of the props it passes on, is left out. That is host-framework behaviour.
- `console.warn` is not real output here. A warning is logged as the key and value it reports, not as the formatted message, because turning an arbitrary value into a string is out of scope.
- Hooks and factories that throw are left out. `run` and the factory are total Dafny functions, so only the TypeErrors that composeHooks itself causes are modelled.
- JavaScript numbers are Dafny integers, so NaN, -0 and fractions are left out. Strings are sequences of Dafny characters, not UTF-16 code units.
- `Object.entries` on a function or number that has its own enumerable properties is left out, and so are non-plain objects (Map, Date, class instances). An object is the list of its own enumerable entries.
- The engine's rule that lists integer-like keys before other keys is left out. An object's entries are taken in the order given.
- `hooks` is a truthy value that is neither nothing nor a function, for example a non-empty string. Such a value is given through its `Object.entries` list (`Literal`). It is not classified from a raw value.
- `ComposeProperties.SpreadWarnings`: it requires an object result's keys to be distinct, as they are in every JavaScript object. It is not stated for entry lists that repeat a key.
- The accumulator `acc` (src/index.js:40) is a plain `{}`, so in JavaScript `acc[key]` at line 31 also reads members inherited from `Object.prototype`. The first write of `toString`, `valueOf`, `constructor`, `hasOwnProperty` and the like therefore finds a truthy function and warns, and a write of `__proto__` at lines 26 and 36 creates no own key. The model's accumulator is a map with no inherited members: such a first write is silent, and `__proto__` is an ordinary key in `MergeKeys` and `RenderedProps`.
- `run: nat -> Value` gives one result per function per render, so a function called twice in one render (`{a: useChange, b: useChange}`) returns the same value both times. Two calls that hand back different closures or state are not represented.
- The props are a Dafny map, so their key order is not modelled. React treats props as an unordered bag.
- The caller's props object is never written. Dafny values are immutable, so this holds by construction and no lemma states it.
- The demo consumer src/test.js, webpack.config.js and the stale test file src/__tests__/index.js hold no logic of composeHooks and are not part of this model.

## Findings

| source | as written | input that shows it | evidently intended | confidence | as-written member | corrected member |
|---|---|---|---|---|---|---|
| src/index.js:23 | in factory form, `hookReturnValue` is the mapping's value itself; the function is never called | the factory `props => ({ useChange: () => useChange(props.initialValue) })` of src/__tests__/index.test.js:91-93, which expects `value` to be 'test-value' | call each hook in both forms, as that test does | high; not executed | `Findings.FactoryHookNotInvoked` | `Findings.IntendedApplyHook` |
| src/index.js:25-30 | every result that is not an array goes through `Object.entries`, so a function gives no props and a string gives one prop per character | `{ setFoo: useFoo, bar: useBar }` of src/__tests__/index.test.js:67-86, where the hooks return a setter and the string 'Click me' | store any non-object result whole under the hook's name | high; not executed | `Findings.ScalarHookResultDropped` | `Findings.IntendedApplyHook` |

The rest of the model keeps the code as written. `Findings.IntendedRendering` is the render pass built on the corrected hook step. `Findings.IntendedAgreesOnArraysAndObjects` shows that the two agree wherever every hook returns an array or a plain object.
