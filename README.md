# ember-decorators-polyfill: the ember-data decorator patch

This project models `vendor/ember-decorators-polyfill/data-fix.js` in Dafny. The file makes
ember-data's declaration factories (`DS.attr`, `DS.belongsTo` and `DS.hasMany`) usable as native
class-field decorators, both bare (`@attr name`) and called (`@attr() name`), while their classic
uses (`attr('string')`) keep working. It has three parts:

- **The field-descriptor classifier** (`DataFix.IsFieldDescriptor`). It tells a native decorator
  application `(target, key, desc)` from a classic factory call by inspecting the arguments alone.
- **The optional-params wrapper** (`DataFix.ApplyMacro`). This is what calling
  `computedMacroWithOptionalParams(fn)` does. On a field descriptor it calls `fn()` with no
  arguments and applies the decorator that call returns to the triple. On anything else it applies
  `fn` to the arguments unchanged. The model records the foreign calls it makes, in order, and the
  value it returns.
- **The one-shot resolver swap** (module `ResolverSwap`). The script saves the current `require`
  as `mainRequire` and installs `patchDataDecorators` as `window.require`. The first call that loads
  ember-data does the following:
  - it wraps the three factories on the `DS` object in place;
  - it rewrites the exports of the `@ember-data/model/index` registry entry, if that entry exists;
  - it hands `window.require` back to the saved resolver, or to whatever other resolver
    `window.require` holds once ember-data has loaded. That resolver is a layer that replaced the
    patch, or the original that such a layer put back while ember-data was loading.

  A call whose ember-data load fails delegates to `mainRequire` and changes nothing beyond what the
  loader assigned to `window.require`.

  The pure functions `Patch`, `Resolve`, `Step` and `ResolveAll` state each step over a `World`
  value. A run is a sequence of requests of three kinds: `window.require` calls, another layer
  installing its own resolver, and direct calls of the patch through a kept reference (which is how
  a layer that replaced the patch and forwards to it reaches it). `CallValue` says what calling a
  value does, and ties the wrappers the patch installs to `DataFix.ApplyMacro`. The
  classes `Namespace` (the `DS` object) and `Runtime` (the globals and the closure variable) hold
  the same state as mutable fields. Their methods are proved to produce exactly the new state those
  functions give.

JavaScript values are the datatype `JsValues.Value`:

- `undefined`, `null`, booleans, numbers, strings and symbols;
- objects, each with the set of property names the `in` operator finds;
- foreign functions;
- the wrapper closures (`Macro(fn)`);
- the function `patchDataDecorators` itself (`Patcher`).

`typeof` is `JsValues.TypeOf`.

A symbol key does not mark a native application: data-fix.js:9 tests `typeof key === 'string'`, so
`IsFieldDescriptor` is false for a symbol key.

## Model

| member | source | states |
|---|---|---|
| JsValues.TypeOf | vendor/ember-decorators-polyfill/data-fix.js:7-10 | `typeof` is "object" exactly for `null` and objects, "function" exactly for function values (foreign ones, the wrappers and the patch itself), "string" exactly for strings and "undefined" exactly for `undefined` |
| JsValues.At | vendor/ember-decorators-polyfill/data-fix.js:3-3 | destructuring `[target, key, desc]` reads the element at each index when there is one, and `undefined` past the end |
| DataFix.IsFieldDescriptor | vendor/ember-decorators-polyfill/data-fix.js:2-16 | true exactly when there are three arguments, the first is a non-null object (not a function or a string), the second is a string (not a symbol or a number), and the third is `undefined` or an object having both `enumerable` and `configurable`; an argument list of any other length, including 0, 1, 2 or 4, is classified as a classic call |
| DataFix.ApplyMacro | vendor/ember-decorators-polyfill/data-fix.js:20-25 | the wrapped macro makes two calls exactly when the arguments are a field descriptor: first `fn()` with zero arguments, then the returned decorator applied to the unchanged triple. Otherwise it makes one call, `fn` applied to the unchanged arguments. The first call always goes to `fn`, and the result is what the last call returns |
| DataFix.BareEqualsCalled | vendor/ember-decorators-polyfill/data-fix.js:20-25 | applying a wrapped factory bare to a field gives the same result as calling the wrapped factory with no arguments and applying what it returns to the same field |
| DataFix.ClassicCallPassesThrough | vendor/ember-decorators-polyfill/data-fix.js:21-24 | any argument list that is not a field descriptor reaches the factory unchanged, in a single call, and its result is returned as is |
| ResolverSwap.MergeExports | vendor/ember-decorators-polyfill/data-fix.js:58-62 | the merged exports have the old keys plus `attr`, `belongsTo` and `hasMany`; those three are bound to the given factories, and every other key keeps its old value |
| ResolverSwap.PatchRegistry | vendor/ember-decorators-polyfill/data-fix.js:57-65 | no registry entry is added or removed, every entry other than `@ember-data/model/index` is unchanged, and that entry, when present, gets the merged exports |
| ResolverSwap.Patch | vendor/ember-decorators-polyfill/data-fix.js:27-70 | line 36 tests `window.require` as the ember-data load left it. A failed load changes nothing beyond what the loader assigned to `window.require`: the saved original, the registry and `DS` stay the same, and the call returns `mainRequire(moduleName)`. A successful load does three things: it wraps each of the three factories once; it patches the registry as PatchRegistry says; and it installs a resolver. That resolver is the saved original when `window.require` is still the patch. Otherwise it is whatever `window.require` then holds, and that also becomes `mainRequire`. Either way the patch is no longer installed, and the result is what that resolver returns for the module |
| ResolverSwap.Resolve | vendor/ember-decorators-polyfill/data-fix.js:27-27 | a call of `window.require` runs the patch while it is installed; with any other resolver installed it changes nothing and returns that resolver's answer |
| ResolverSwap.Step | vendor/ember-decorators-polyfill/data-fix.js:67-67 | once the patch has uninstalled itself, a request that neither calls it nor installs it again leaves the factories, the registry and the saved original as they are, and keeps the patch uninstalled; a `window.require` call then changes nothing at all |
| ResolverSwap.Wrap | vendor/ember-decorators-polyfill/data-fix.js:49-51 | each of the three factories is replaced by a function value that is never the factory it wraps |
| ResolverSwap.CallValue | vendor/ember-decorators-polyfill/data-fix.js:21-24 | calling a wrapper on a field descriptor calls its factory with no arguments and applies the returned decorator to the arguments. Calling it any other way applies the factory to the arguments. Any value that is not a wrapper is called as a foreign function |
| ResolverSwap.WrapDispatches | vendor/ember-decorators-polyfill/data-fix.js:20-25 | each wrapped factory, called with any arguments, behaves as the optional-params wrapper of the factory it replaced: on a field descriptor it calls the factory with no arguments and applies the result to the triple, otherwise it calls the factory with the arguments unchanged |
| ResolverSwap.PatchInstallsOptionalParams | vendor/ember-decorators-polyfill/data-fix.js:49-64 | after a successful patch, `DS.attr`, `DS.belongsTo` and `DS.hasMany`, and the same three exports of `@ember-data/model/index` when that entry exists, behave as the optional-params wrappers of the original factories |
| ResolverSwap.PatchedExactlyWhenSomeLoadSucceeds | vendor/ember-decorators-polyfill/data-fix.js:30-69 | from the freshly installed state, any sequence of `window.require` calls whose ember-data loads leave `window.require` alone ends in the patched state exactly when at least one of them loaded ember-data, and ends in the initial state when none did |
| ResolverSwap.PatchAppliedAtMostOnce | vendor/ember-decorators-polyfill/data-fix.js:27-70 | in any run, with other layers installing resolvers and the patch reached through `window.require` or through a kept reference, the factories end up either untouched with the registry untouched, or wrapped exactly once with the registry patched once and the patch uninstalled, provided nothing reaches the patch again after its first successful load |
| ResolverSwap.AfterPatchUnreached | vendor/ember-decorators-polyfill/data-fix.js:67-67 | once the patch is uninstalled, requests that do not reach it leave the factories, the registry and the saved original unchanged and keep it uninstalled; `window.require` calls alone change nothing at all |
| ResolverSwap.ReassignedDuringLoadIsAdopted | vendor/ember-decorators-polyfill/data-fix.js:31-69 | when loading ember-data puts another resolver (such as the original require) into `window.require`, a successful patch has four effects. That resolver becomes `mainRequire`, and `window.require` is handed to it. The factories are wrapped once and the registry patched once. The call is answered by that resolver |
| ResolverSwap.ForwardingLayerIsAdopted | vendor/ember-decorators-polyfill/data-fix.js:36-41 | when another layer has replaced `window.require` and forwards a call to the patch, that layer becomes `mainRequire` and is what `window.require` is handed back to. The factories are wrapped once, which holds only for a layer that does not forward again the line-69 call it then receives |
| ResolverSwap.CallAfterPatchWrapsTwice | vendor/ember-decorators-polyfill/data-fix.js:67-67 | the at-most-once guarantee comes only from the patch uninstalling itself: a direct call of the patch after a successful `window.require` wraps the factories a second time |
| ResolverSwap.Runtime.Load | vendor/ember-decorators-polyfill/data-fix.js:18-27 | running the script saves the current `require` as `mainRequire` and installs the patch as `window.require` |
| ResolverSwap.Runtime.PatchDataDecorators | vendor/ember-decorators-polyfill/data-fix.js:27-70 | the imperative patch leaves `window.require` as the ember-data load left it, overwrites the `DS` fields in place, reassigns the registry entry and then the resolver. It leaves exactly the state `Patch` gives and returns its value |
| ResolverSwap.Runtime.WrapFactories | vendor/ember-decorators-polyfill/data-fix.js:43-55 | overwrites `DS.attr`, `DS.belongsTo` and `DS.hasMany` in place with wrappers of their previous values, and returns the three wrappers |
| ResolverSwap.Runtime.PatchModelIndex | vendor/ember-decorators-polyfill/data-fix.js:57-65 | reassigns the registry to exactly what PatchRegistry gives for the wrappers |
| ResolverSwap.Runtime.Require | vendor/ember-decorators-polyfill/data-fix.js:27-41 | a call through the installed resolver leaves exactly the state `Resolve` gives, and the saved original is never the patch |

## Left out

- Module loading is not modelled. `mainRequire(name)`, or any resolver `r` applied to `name`, is the
  uninterpreted parameter `resolve(r, name)`. Whether `mainRequire('ember-data')` throws is the
  boolean `loads`. What `window.require` holds when that load ends is the value `afterLoad`. Other
  effects of the loader's code are not modelled, such as touching the registry or calling
  `window.require` again. Exceptions from `resolve` itself are not modelled either.
- `DS` is the object held in `Runtime.ds`, the same object on every load because the loader caches
  modules. A `default` export that is missing would throw at data-fix.js:43-47; that case is not
  modelled.
- `mainRequire.entries` is one registry, shared by whichever resolver is `mainRequire`. A layer
  without its own `entries` would throw at data-fix.js:57; that case is not modelled. Each entry
  is reduced to its `module.exports` bindings. The order of keys in the exports object is not
  modelled.
- `window.require` and the global `require` are assigned together everywhere in the file, so they
  are one field (`installed`).
- Resolvers installed by other layers are opaque. A `window.require` call that reaches one changes
  nothing here. A layer that forwards to the patch is modelled by the explicit `CallPatch` requests
  it makes, not by its own code.
- ResolverSwap.PatchAppliedAtMostOnce: holds only for runs in which nothing reaches the patch again
  after its first successful load. The uninstall at data-fix.js:67 takes the patch out of
  `window.require`, but a kept reference can still call it, and CallAfterPatchWrapsTwice shows the
  double wrap that follows.
- ResolverSwap.PatchedExactlyWhenSomeLoadSucceeds: covers only runs made of `window.require` calls,
  in which no other layer installs a resolver and no ember-data load assigns `window.require`.
  PatchAppliedAtMostOnce covers the other runs.
- ResolverSwap.ForwardingLayerIsAdopted: holds only for a layer that answers the call that
  data-fix.js:69 makes to it. A layer that forwards that call to the patch as well re-enters it:
  `window.require` is then that layer, not the patch, so the patch wraps a second time and recurses.
  The model cannot see this, because a layer's own code is the opaque `resolve`.
- ResolverSwap.Wrap: the model gives every wrapper of the same factory the same value `Macro(fn)`.
  In JavaScript each call of `computedMacroWithOptionalParams` makes a distinct closure. Under the
  precondition of PatchAppliedAtMostOnce only one such closure per factory is ever created.
- ResolverSwap.MergeExports: an `Exports` map stands for the own enumerable properties of
  `module.exports`, with their current values. `Object.assign` copies only those, and reads a getter
  once into a plain value. Non-enumerable or inherited properties of the old exports (such as a
  non-enumerable `__esModule` marker) are missing from the JavaScript copy, and the model does not
  represent them.
- ResolverSwap.CallValue: the factory inside a wrapper, and the decorator it returns, are called as
  foreign functions through `call`. A wrapper of a wrapper, which only a second patch would create,
  is not dispatched twice.
- DataFix.ApplyMacro: the behaviour of the ember-data factories, and of the decorators they
  return, is the uninterpreted parameter `call`. Exceptions they throw are not modelled. Nor is the
  wrapper's own TypeError, which `Function.apply.call` at data-fix.js:23 throws when `fn()`
  returns something that cannot be called. In the model, `call` is applied to whatever `fn()`
  returned.
- `index.js` (the version gate below 3.10.0-alpha.1 and the babel transpilation of the vendor
  tree) is build glue and is not part of this model.
- `vendor/ember-decorators-polyfill/index.js` is not part of this model. That file holds the
  decorator adapter for computed properties, actions and injection.
- The unit tests exercise that adapter and the host framework (caching, invalidation, binding,
  injection, the store). They contain no logic of this file beyond what the lemmas above state.
