# mocha-filter: filter registry and chain gating

mocha-filter lets a test suite register named filter predicates and then
write `it.onlyCI("title", fn)`, `describe.ignore(...)` or longer chains such
as `it.a().b().c("title", fn)`. Each of the six mocha globals `describe`, `it`,
`before`, `after`, `beforeEach` and `afterEach` gets one member per filter
name. A member is a bare function with no properties of its own, so a chain
goes through calls. A member called with no arguments evaluates its
predicate and returns a new set of members carrying `passed && notFailed`. A member called with
arguments evaluates its predicate and calls the mocha function only when
`passed && notFailed` holds.

The model has three modules:

- `Filters` (`filters.dfy`) holds filter names and predicates. It defines the
  initial registry (the one protected entry `ignore`, whose predicate is
  always false) and the value-level rules: registration of one name, a run
  of registrations, and the overlay `setupMocha` applies to a caller's map.
- `Chain` (`chain.dfy`) holds the gating rule as a fold, `Carried`, over the
  truthiness of the predicates evaluated along a chain. Its lemmas prove that
  the fold is the conjunction of all results, that it composes over longer
  chains, and that failure is monotonic.
- `Mocha` (`mocha.dfy`) holds the module state as a class, `FilterModule`.
  The registry object `checks` and every map a caller passes in are
  `FilterTable` objects, updated in place. The members attached to the six
  functions are a map from (function, name) to a `Member`. A `Member` is the
  closure `ext` creates. It keeps a reference to the map it was built from and
  looks its name up there only when called, as the JS closure does. Calls that
  reach a mocha function are appended to `log`. Every predicate evaluation is
  appended to `evaluations`.

What a user predicate returns is an input: each evaluation takes a boolean
giving its JS truthiness. A returned `"skip"` is just truthy. The built-in
`ignore` is false on every evaluation. Mocha's functions are identifiers, and
their arguments are opaque values passed through unchanged.

## Model

| member | source | states |
|---|---|---|
| Filters.InitialRegistry | index.js:11-19 | the registry starts with exactly the key `ignore`, and its predicate is falsy on every evaluation |
| Filters.Truthy | index.js:15-17 | the built-in `ignore` never passes; a user predicate passes exactly when its evaluation is truthy |
| Filters.Overlay | index.js:29-33 | the caller's map afterwards has the union of both key sets; registry values win on shared names; supplied-only names keep their values |
| Filters.OverlayIdempotent | index.js:29-33 | copying the registry into an already merged map a second time changes nothing |
| Filters.Register | index.js:84-97 | a protected name leaves the registry unchanged; any other name now maps to the new predicate, possibly overwriting; every other entry is unchanged |
| Filters.RegisterAll | index.js:107-109 | the run of `addFilter` calls over a list of keys, in order: the last key, when unprotected, holds its own predicate afterwards, so a later registration of a name overrides an earlier one; `RegisterAllRegistersEveryKey` states the effect on every key |
| Filters.RegisterAllRegistersEveryKey | index.js:100-110 | the corrected `addFilters` that the doc comment describes: registering every key in order maps every unprotected key to its predicate and leaves every other entry as it was (the loop as written skips the last key) |
| Filters.AddFiltersKeys | index.js:106-107 | the loop visits keys `0 .. len-2`: nothing for zero or one key, otherwise every key but the last, in order |
| Filters.AddFiltersDropsLastKey | index.js:106-109 | as written, the last key's registry entry is left as it was, and a map of zero or one key registers nothing |
| Filters.AddFiltersMissesThird | index.js:106-109 | `addFilters({a, b, c})` on the initial registry registers `a` and `b` but not `c` |
| Chain.Carried | index.js:54-58 | the `passed && notFailed` flag carried along a chain, folded over the predicate results in order; a set flag means the starting flag was set |
| Chain.CarriedIsConjunction | index.js:51-58 | the flag carried along a chain is the starting flag and every predicate result, both directions |
| Chain.CarriedAppend | index.js:51-58 | a longer chain carries what the shorter chain carried into its extension |
| Chain.CarriedStep | index.js:52-58 | one more member call carries its own result and the flag so far |
| Chain.FailureSticks | index.js:54-58 | once the carried flag is false, no longer chain makes it true again |
| Chain.IgnoreBlocksChain | index.js:15-17 | no chain that passes through `ignore` ever runs the mocha function |
| Mocha.FilterTable.constructor | index.js:96-97 | a JS object used as a filter map, here the one-entry `{name: filter}` that `addFilter` builds; it holds exactly the entries it is given and is updated in place |
| Mocha.Attached | index.js:72-81 | after population every mocha function has one member per active name, built by `ext(fn, true)` over the active map, replacing a member of the same name; no member is removed |
| Mocha.Ext | index.js:40-67 | `ext(fn, notFailed)` yields exactly one member per name of the map, each carrying that function, map and flag |
| Mocha.EveryFunctionVisited | index.js:35 | the list of functions `setupMocha` walks holds all six mocha functions |
| Mocha.ChainOneMore | index.js:51-58 | one more member looked up in the same map appends its predicate to the chain, and its flag is its result and the flag so far |
| Mocha.FilterModule.constructor | index.js:11-112 | loading the module builds the initial registry (lines 11-19), protects `ignore`, and runs the load-time `setupMocha()` (line 112), which gives each of the six functions an `ignore` member over the registry |
| Mocha.FilterModule.SetupMocha | index.js:26-82 | no map: the registry is active. A map with falsy `skipOriginals` is overlaid in place with the registry. A map with truthy `skipOriginals` is left as it is. Every function gets one member per active name, and other members stay |
| Mocha.FilterModule.CopyRegistry | index.js:29-33 | the `for…in` copy leaves the caller's map equal to the overlay of the registry on it, in any key order |
| Mocha.FilterModule.PopulateFunctions | index.js:72-81 | all six functions get the members `ext(fn, true)` builds from the active map; members of other names are untouched |
| Mocha.FilterModule.Populate | index.js:72-74 | every member built for one function becomes its property, replacing one of the same name; nothing else changes |
| Mocha.FilterModule.AddFilter | index.js:91-98 | a protected name returns `false` and changes nothing. Any other name returns `undefined`, is set in the registry, and gets a member on every function over a fresh one-entry map; all other members stay |
| Mocha.FilterModule.AddFilters | index.js:105-110 | the registry becomes the in-order registration of every key but the last; each registered unprotected key has members over its own one-entry map; other members are untouched |
| Mocha.FilterModule.Call | index.js:51-60 | a member evaluates its predicate once; with arguments it runs the mocha function with those arguments exactly when `passed && notFailed`; without arguments it returns the members over the same map carrying `passed && notFailed`; a name missing from its map throws |
| Mocha.FilterModule.InvokeChain | index.js:51-58 | evaluating `fn.a().b()…z(args)` evaluates each predicate once, in order. The function runs exactly when the conjunction of the chain's results holds. A name not in the map throws, and nothing runs |
| Mocha.FilterModule.AddFilterThenCall | index.js:91-98 | after `addFilter(name, p)` the registry maps `name` to `p` and every mocha function has a member `name` over a fresh one-entry map, other members unchanged; then `fn.name(args)`, for any of the six functions, evaluates `p` exactly once and calls `fn` exactly when that evaluation is truthy |

## Findings

| source | as written | input that shows it | evidently intended | confidence | as-written member | corrected member |
|---|---|---|---|---|---|---|
| index.js:107 | the loop bound `i < keys.length - 1` stops before the last key | `addFilters({a: pa, b: pb, c: pc})` registers `a` and `b`; `c` is never registered, and a one-key map registers nothing | every key of the map is registered, as the doc comment on `addFilters` describes | high; not executed | Filters.AddFiltersMissesThird | Filters.RegisterAllRegistersEveryKey |

`Mocha.FilterModule.AddFilters` models the loop as written, and
`Filters.AddFiltersDropsLastKey` states the general form of the defect.
`Filters.RegisterAll` applied to all the keys is the corrected definition.
`Filters.RegisterAllRegistersEveryKey` proves that it registers every
unprotected key.

## Left out

- The mocha globals are identifiers, and a call that reaches one is a log entry. What mocha does with a declared test or hook is not modelled.
- Properties on JS function objects are a map from (function, name) to member. Names that clash with built-in function properties (`length`, `name`, `call`, …) are not modelled specially.
- User predicate bodies are not modelled, so neither is an exception thrown inside one. Each evaluation's truthiness is an input.
- The caller's maps can be changed only through `setupMocha`. A caller deleting or changing keys after the call is not modelled. A member whose name is missing from its map models the resulting TypeError as `Threw`.
- `setupMocha` takes a map object or `null`. Other falsy values behave like `null` in the source and are not modelled separately. Inherited enumerable properties seen by `for…in` are not modelled.
- Mocha.FilterModule.SetupMocha: requires that the supplied map is not the registry object. The registry is private to the module, so no caller can pass it.
- Mocha.FilterModule.AddFilters: takes the map's values and its `Object.keys` order as a map and a sequence of distinct keys. Its contract does not state that the six members of one key share a single map object. `AddFilter` states that for one call.
- Mocha.FilterModule.InvokeChain: on a throw it does not state which predicates were evaluated before the throw.
- `addFilters(null)` or `addFilters(undefined)` throws in `Object.keys` (index.js:106). That error path is not modelled: the model's `addFilters` takes a map.
- `addFilter` calls `setupMocha` through `module.exports`. Replacing that export from outside is not modelled.
- Mocha state persisting across test files is not modelled; the module-load call is the constructor.
