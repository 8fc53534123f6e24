/**
 * The one-shot swap of the module resolution entry point (`window.require`)
 * that patches ember-data's attribute and relationship factories the first
 * time anything is resolved, and then hands resolution back.
 *
 * The pure part (World, Patch, Resolve, Step, ResolveAll) states each step as a
 * function of the state before it; the classes Namespace and Runtime hold the
 * same state as mutable fields and their methods are proved against those
 * functions.
 */
module ResolverSwap {
  import opened JsValues
  import DataFix

  /** Module name of the entry whose exports are rewritten. */
  const ModelIndex: string := "@ember-data/model/index"

  /**
   * The exported bindings of one module, `module.exports`: its own enumerable
   * properties, each with its current value. Non-enumerable and inherited
   * properties, which `Object.assign` does not copy, are not represented.
   */
  type Exports = map<string, Value>

  /** `mainRequire.entries`: module name to that module's exports. */
  type Registry = map<string, Exports>

  /** `resolve(r, m)` is what calling the resolver function `r` with module name `m` returns. */
  type Resolver = (Value, string) -> Value

  /** The three declaration factories of the ember-data namespace `DS`. */
  datatype Factories = Factories(attr: Value, belongsTo: Value, hasMany: Value)

  /**
   * Each factory replaced by computedMacroWithOptionalParams of itself: a
   * function value that is never the factory it wraps. What calling it does
   * is WrapDispatches below.
   */
  function Wrap(f: Factories): (r: Factories)
    ensures TypeOf(r.attr) == TFunction && TypeOf(r.belongsTo) == TFunction && TypeOf(r.hasMany) == TFunction
    ensures r.attr != f.attr && r.belongsTo != f.belongsTo && r.hasMany != f.hasMany
  {
    WrapperIsNew(f.attr);
    WrapperIsNew(f.belongsTo);
    WrapperIsNew(f.hasMany);
    Factories(Macro(f.attr), Macro(f.belongsTo), Macro(f.hasMany))
  }

  /** A wrapper is never the value it wraps. */
  lemma {:induction false} WrapperIsNew(v: Value)
    ensures Macro(v) != v
  {
    if v.Macro? {
      WrapperIsNew(v.fn);
    }
  }

  /**
   * `Object.assign({}, exports, { attr, belongsTo, hasMany })`: a copy of the
   * exports with exactly those three bindings set to the given factories.
   */
  function MergeExports(exports: Exports, f: Factories): (r: Exports)
    ensures r.Keys == exports.Keys + {"attr", "belongsTo", "hasMany"}
    ensures r["attr"] == f.attr && r["belongsTo"] == f.belongsTo && r["hasMany"] == f.hasMany
    ensures forall k :: k in exports && k != "attr" && k != "belongsTo" && k != "hasMany" ==>
      r[k] == exports[k]
  {
    exports["attr" := f.attr]["belongsTo" := f.belongsTo]["hasMany" := f.hasMany]
  }

  /**
   * The registry after the patch: the model index entry, when there is one,
   * gets merged exports; no other entry changes and none is added or removed.
   */
  function PatchRegistry(entries: Registry, f: Factories): (r: Registry)
    ensures r.Keys == entries.Keys
    ensures forall m :: m in entries && m != ModelIndex ==> r[m] == entries[m]
    ensures ModelIndex in entries ==> r[ModelIndex] == MergeExports(entries[ModelIndex], f)
  {
    if ModelIndex in entries then entries[ModelIndex := MergeExports(entries[ModelIndex], f)]
    else entries
  }

  /**
   * The process-wide state the patch reads and writes: the installed
   * resolver (`window.require`, which is also the global `require`), the
   * closure variable `mainRequire`, the registry, and the factories of `DS`.
   */
  datatype World = World(installed: Value, main: Value, entries: Registry, ds: Factories)

  /** The saved original is never the patch itself, so restoring it really uninstalls the patch. */
  predicate Valid(w: World)
  {
    w.main != Patcher
  }

  /** A new state and the value a resolution call returned. */
  datatype Resolution = Resolution(world: World, value: Value)

  /**
   * One call of patchDataDecorators(name). `loads` says whether
   * `mainRequire('ember-data')` succeeds, and `afterLoad` is the value of
   * `window.require` when that load returns or throws: the loader runs code of
   * its own, which may assign `window.require` (`afterLoad` is the value it had
   * on entry when the loader leaves it alone). The test at line 36 is made
   * against `afterLoad`.
   */
  function Patch(w: World, loads: bool, afterLoad: Value, name: string, resolve: Resolver): (o: Resolution)
    // Loading ember-data failed: delegate; nothing but what the loader assigned changes.
    ensures !loads ==> o.world == w.(installed := afterLoad) && o.value == resolve(w.main, name)
    // Loaded: resolution is handed to the saved original, or to whatever replaced the patch.
    ensures loads ==> o.world.installed == o.world.main
    ensures loads && afterLoad == Patcher ==> o.world.main == w.main
    ensures loads && afterLoad != Patcher ==> o.world.main == afterLoad
    ensures Valid(w) ==> Valid(o.world)
    ensures loads && Valid(w) ==> o.world.installed != Patcher
    // Loaded: the three factories are wrapped, and the registry is patched as PatchRegistry says.
    ensures loads ==> o.world.ds == Wrap(w.ds)
    ensures loads ==> o.world.entries == PatchRegistry(w.entries, o.world.ds)
    // Either way the caller gets what the saved (and possibly replaced) resolver returns.
    ensures o.value == resolve(o.world.main, name)
  {
    if !loads then Resolution(w.(installed := afterLoad), resolve(w.main, name))
    else
      var main := if afterLoad != Patcher then afterLoad else w.main;
      var wrapped := Wrap(w.ds);
      var after := World(main, main, PatchRegistry(w.entries, wrapped), wrapped);
      Resolution(after, resolve(main, name))
  }

  /**
   * A call of `window.require(name)`: the patch while it is installed; any
   * other installed resolver is foreign and leaves this state alone.
   */
  function Resolve(w: World, loads: bool, afterLoad: Value, name: string, resolve: Resolver): (o: Resolution)
    ensures w.installed != Patcher ==> o.world == w && o.value == resolve(w.installed, name)
    ensures w.installed == Patcher ==> o == Patch(w, loads, afterLoad, name, resolve)
  {
    if w.installed == Patcher then Patch(w, loads, afterLoad, name, resolve)
    else Resolution(w, resolve(w.installed, name))
  }

  /**
   * One event that can reach this state:
   * - `WindowRequire`: a call of `window.require(name)`, with whether loading
   *   ember-data would succeed at that moment and what `window.require` is
   *   when that load ends (both used only if the patch is installed);
   * - `InstallResolver`: another layer assigns `layer` to `window.require`;
   * - `CallPatch`: patchDataDecorators is called through a reference someone
   *   kept, such as a layer that replaced it and forwards to it, with the same
   *   two facts about its ember-data load.
   */
  datatype Request =
    | WindowRequire(name: string, loads: bool, afterLoad: Value)
    | InstallResolver(layer: Value)
    | CallPatch(name: string, loads: bool, afterLoad: Value)

  /** The state after one request. */
  function Step(w: World, req: Request, resolve: Resolver): (r: World)
    // Once the patch is uninstalled, a request that does not reach it keeps what the patch wrote...
    ensures w.installed != Patcher && !ReachesPatch(req) ==>
      r.ds == w.ds && r.entries == w.entries && r.main == w.main && r.installed != Patcher
    // ...and a `window.require` call then goes to a foreign resolver and changes nothing here.
    ensures w.installed != Patcher && req.WindowRequire? ==> r == w
  {
    match req
    case WindowRequire(name, loads, afterLoad) => Resolve(w, loads, afterLoad, name, resolve).world
    case InstallResolver(layer) => w.(installed := layer)
    case CallPatch(name, loads, afterLoad) => Patch(w, loads, afterLoad, name, resolve).world
  }

  /** The state after serving the requests one after another. */
  function ResolveAll(w: World, requests: seq<Request>, resolve: Resolver): (r: World)
    decreases |requests|
  {
    if requests == [] then w
    else ResolveAll(Step(w, requests[0], resolve), requests[1..], resolve)
  }

  /** The request runs the patch body up to a successful ember-data load. */
  predicate PatchSucceeds(w: World, req: Request)
  {
    || (req.WindowRequire? && w.installed == Patcher && req.loads)
    || (req.CallPatch? && req.loads)
  }

  /** The request calls the patch, or installs it again, without going through the swap. */
  predicate ReachesPatch(req: Request)
  {
    req.CallPatch? || (req.InstallResolver? && req.layer == Patcher)
  }

  /** After the first request that patches, no request reaches the patch again. */
  predicate NoReentry(w: World, requests: seq<Request>, resolve: Resolver)
    decreases |requests|
  {
    if requests == [] then true
    else if PatchSucceeds(w, requests[0]) then
      forall i :: 1 <= i < |requests| ==> !ReachesPatch(requests[i])
    else NoReentry(Step(w, requests[0], resolve), requests[1..], resolve)
  }

  /** The state a successful patch produces from the freshly installed state `w0`. */
  function Patched(w0: World): World
  {
    World(w0.main, w0.main, PatchRegistry(w0.entries, Wrap(w0.ds)), Wrap(w0.ds))
  }

  /**
   * Once the patch is no longer installed, requests that do not reach it
   * leave the factories, the registry and the saved original alone, and the
   * patch stays uninstalled. With only `window.require` calls nothing at all
   * changes.
   */
  lemma {:induction false} AfterPatchUnreached(w: World, requests: seq<Request>, resolve: Resolver)
    requires w.installed != Patcher
    requires forall i :: 0 <= i < |requests| ==> !ReachesPatch(requests[i])
    ensures var r := ResolveAll(w, requests, resolve);
      r.ds == w.ds && r.entries == w.entries && r.main == w.main && r.installed != Patcher
    ensures (forall i :: 0 <= i < |requests| ==> requests[i].WindowRequire?) ==>
      ResolveAll(w, requests, resolve) == w
    decreases |requests|
  {
    if requests != [] {
      var next := Step(w, requests[0], resolve);
      assert !ReachesPatch(requests[0]);
      assert forall i :: 0 <= i < |requests[1..]| ==> requests[1..][i] == requests[i + 1];
      AfterPatchUnreached(next, requests[1..], resolve);
    }
  }

  /**
   * From the freshly installed state, a sequence of `window.require` calls
   * whose loads leave `window.require` alone ends patched exactly when
   * loading ember-data succeeded on at least one of them, and ends where it
   * started otherwise: a failed load keeps the patch waiting for the next
   * call, and the first successful one is the only one that patches.
   */
  lemma {:induction false} PatchedExactlyWhenSomeLoadSucceeds(w0: World, requests: seq<Request>, resolve: Resolver)
    requires Valid(w0) && w0.installed == Patcher
    requires forall i :: 0 <= i < |requests| ==> requests[i].WindowRequire? && requests[i].afterLoad == Patcher
    ensures ResolveAll(w0, requests, resolve)
         == if exists i :: 0 <= i < |requests| && requests[i].loads then Patched(w0) else w0
    decreases |requests|
  {
    if requests != [] {
      var rest := requests[1..];
      assert forall i :: 0 <= i < |rest| ==> rest[i] == requests[i + 1];
      if requests[0].loads {
        assert Step(w0, requests[0], resolve) == Patched(w0);
        AfterPatchUnreached(Patched(w0), rest, resolve);
      } else {
        assert Step(w0, requests[0], resolve) == w0;
        PatchedExactlyWhenSomeLoadSucceeds(w0, rest, resolve);
        if exists i :: 0 <= i < |requests| && requests[i].loads {
          var i :| 0 <= i < |requests| && requests[i].loads;
          assert rest[i - 1].loads;
        } else {
          assert forall j :: 0 <= j < |rest| ==> !rest[j].loads;
        }
      }
    }
  }

  /**
   * The factories are wrapped at most once, whatever other layers install
   * and however the patch is reached (through `window.require`, or through a
   * layer that replaced it and forwards to it), provided nothing reaches the
   * patch again after the first successful load. They end up either
   * untouched, with the registry untouched, or wrapped exactly once, with
   * the registry patched once; in the second case the patch is no longer
   * installed.
   */
  lemma {:induction false} PatchAppliedAtMostOnce(w: World, requests: seq<Request>, resolve: Resolver)
    requires Valid(w)
    requires NoReentry(w, requests, resolve)
    ensures var r := ResolveAll(w, requests, resolve);
      || (r.ds == w.ds && r.entries == w.entries)
      || (&& r.ds == Wrap(w.ds)
          && r.entries == PatchRegistry(w.entries, Wrap(w.ds))
          && r.installed != Patcher
          && Valid(r))
    decreases |requests|
  {
    if requests != [] {
      var next := Step(w, requests[0], resolve);
      var rest := requests[1..];
      if PatchSucceeds(w, requests[0]) {
        assert next.ds == Wrap(w.ds) && next.entries == PatchRegistry(w.entries, Wrap(w.ds));
        assert forall i :: 0 <= i < |rest| ==> rest[i] == requests[i + 1];
        AfterPatchUnreached(next, rest, resolve);
      } else {
        assert next.ds == w.ds && next.entries == w.entries && Valid(next);
        PatchAppliedAtMostOnce(next, rest, resolve);
      }
    }
  }

  /**
   * The case the comment at data-fix.js:37-39 describes: a layer installed
   * before this script (so it is `mainRequire`) puts the original resolver
   * back while ember-data loads. The patch adopts that resolver as
   * `mainRequire`, hands `window.require` to it, wraps the factories once,
   * and answers the call through it.
   */
  lemma ReassignedDuringLoadIsAdopted(w0: World, original: Value, name: string, resolve: Resolver)
    requires Valid(w0) && w0.installed == Patcher && original != Patcher
    ensures var o := Resolve(w0, true, original, name, resolve);
      && o.world.main == original && o.world.installed == original
      && o.world.ds == Wrap(w0.ds) && o.world.entries == PatchRegistry(w0.entries, Wrap(w0.ds))
      && o.value == resolve(original, name)
    ensures var r := ResolveAll(w0, [WindowRequire(name, true, original)], resolve);
      r == Resolve(w0, true, original, name, resolve).world
  {
  }

  /**
   * The branch at data-fix.js:36-41 reached another way: a layer that
   * replaced the patch in `window.require` and forwards a call to it becomes
   * the saved original, and is what `window.require` is handed back to. The
   * patch then answers through that layer (line 69).
   */
  lemma ForwardingLayerIsAdopted(w0: World, layer: Value, name: string, resolve: Resolver)
    requires Valid(w0) && w0.installed == Patcher && layer != Patcher
    ensures var r := ResolveAll(w0, [InstallResolver(layer), CallPatch(name, true, layer)], resolve);
      r.main == layer && r.installed == layer && r.ds == Wrap(w0.ds)
      && r.entries == PatchRegistry(w0.entries, Wrap(w0.ds))
  {
    var requests := [InstallResolver(layer), CallPatch(name, true, layer)];
    var after := Step(w0, InstallResolver(layer), resolve);
    var last := Step(after, CallPatch(name, true, layer), resolve);
    assert requests[1..] == [CallPatch(name, true, layer)] && requests[1..][1..] == [];
    assert ResolveAll(w0, requests, resolve) == ResolveAll(after, [CallPatch(name, true, layer)], resolve);
    assert ResolveAll(after, [CallPatch(name, true, layer)], resolve) == ResolveAll(last, [], resolve) == last;
  }

  /**
   * Why the precondition of PatchAppliedAtMostOnce is needed: the patch only
   * runs once because it uninstalls itself. Calling it again through a kept
   * reference after a successful patch wraps the factories a second time.
   */
  lemma CallAfterPatchWrapsTwice(w0: World, name: string, after1: Value, after2: Value, resolve: Resolver)
    requires Valid(w0) && w0.installed == Patcher
    ensures var r := ResolveAll(w0, [WindowRequire(name, true, after1), CallPatch(name, true, after2)], resolve);
      r.ds == Wrap(Wrap(w0.ds)) && r.ds != Wrap(w0.ds)
  {
    var requests := [WindowRequire(name, true, after1), CallPatch(name, true, after2)];
    var once := Step(w0, WindowRequire(name, true, after1), resolve);
    var twice := Step(once, CallPatch(name, true, after2), resolve);
    assert once.ds == Wrap(w0.ds);
    assert requests[1..] == [CallPatch(name, true, after2)] && requests[1..][1..] == [];
    assert ResolveAll(w0, requests, resolve) == ResolveAll(once, [CallPatch(name, true, after2)], resolve);
    assert ResolveAll(once, [CallPatch(name, true, after2)], resolve) == ResolveAll(twice, [], resolve) == twice;
    assert Wrap(Wrap(w0.ds)).attr != Wrap(w0.ds).attr;
  }

  /**
   * What calling a value does: a wrapper made by
   * computedMacroWithOptionalParams dispatches as DataFix.ApplyMacro says;
   * any other function is foreign, and `call` says what it returns.
   */
  function CallValue(call: (Value, seq<Value>) -> Value, v: Value, args: seq<Value>): (r: Value)
    ensures v.Macro? && DataFix.IsFieldDescriptor(args) ==> r == call(call(v.fn, []), args)
    ensures v.Macro? && !DataFix.IsFieldDescriptor(args) ==> r == call(v.fn, args)
    ensures !v.Macro? ==> r == call(v, args)
  {
    if v.Macro? then DataFix.ApplyMacro(call, v.fn, args).result else call(v, args)
  }

  /** The behaviour data-fix.js gives a wrapped factory: optional parentheses on a field, pass-through otherwise. */
  predicate OptionalParams(call: (Value, seq<Value>) -> Value, wrapped: Value, fn: Value, args: seq<Value>)
  {
    CallValue(call, wrapped, args)
      == if DataFix.IsFieldDescriptor(args) then call(call(fn, []), args) else call(fn, args)
  }

  /** Each wrapped factory, called with any arguments, behaves as the optional-params wrapper of the factory it replaced. */
  lemma WrapDispatches(call: (Value, seq<Value>) -> Value, f: Factories, args: seq<Value>)
    ensures OptionalParams(call, Wrap(f).attr, f.attr, args)
    ensures OptionalParams(call, Wrap(f).belongsTo, f.belongsTo, args)
    ensures OptionalParams(call, Wrap(f).hasMany, f.hasMany, args)
  {
  }

  /**
   * After a successful patch, the factories on `DS` and the ones the model
   * index exports are those wrappers: used on a field they call the original
   * factory with no arguments and apply the result, used any other way they
   * call the original factory with the arguments unchanged.
   */
  lemma PatchInstallsOptionalParams(w: World, afterLoad: Value, name: string, resolve: Resolver,
                                    call: (Value, seq<Value>) -> Value, args: seq<Value>)
    ensures var o := Patch(w, true, afterLoad, name, resolve).world;
      && OptionalParams(call, o.ds.attr, w.ds.attr, args)
      && OptionalParams(call, o.ds.belongsTo, w.ds.belongsTo, args)
      && OptionalParams(call, o.ds.hasMany, w.ds.hasMany, args)
    ensures var o := Patch(w, true, afterLoad, name, resolve).world;
      ModelIndex in w.entries ==>
      && OptionalParams(call, o.entries[ModelIndex]["attr"], w.ds.attr, args)
      && OptionalParams(call, o.entries[ModelIndex]["belongsTo"], w.ds.belongsTo, args)
      && OptionalParams(call, o.entries[ModelIndex]["hasMany"], w.ds.hasMany, args)
  {
  }

  /** The ember-data namespace object `DS`, whose factory fields the patch overwrites in place. */
  class Namespace {
    var attr: Value
    var belongsTo: Value
    var hasMany: Value

    constructor (attr: Value, belongsTo: Value, hasMany: Value)
      ensures this.attr == attr && this.belongsTo == belongsTo && this.hasMany == hasMany
    {
      this.attr, this.belongsTo, this.hasMany := attr, belongsTo, hasMany;
    }

    function Fields(): Factories
      reads this
    {
      Factories(attr, belongsTo, hasMany)
    }
  }

  /**
   * The global state around data-fix.js. `ds` is the default export of
   * ember-data, the same object on every load since the loader caches modules.
   */
  class Runtime {
    var installed: Value      // window.require and the global require
    var mainRequire: Value    // the closure variable mainRequire
    var entries: Registry     // mainRequire.entries, reduced to each module's exports
    const ds: Namespace

    /** The same invariant as the function Valid on World: the saved original is never the patch, i.e. Valid(State()). */
    ghost predicate Valid()
      reads this
    {
      mainRequire != Patcher
    }

    function State(): World
      reads this, ds
    {
      World(installed, mainRequire, entries, ds.Fields())
    }

    /** Running the script: save the current `require` and install the patch in its place. */
    constructor Load(require: Value, entries: Registry, ds: Namespace)
      requires require != Patcher
      ensures Valid()
      ensures installed == Patcher && mainRequire == require
      ensures this.entries == entries && this.ds == ds
    {
      mainRequire := require;
      installed := Patcher;
      this.entries := entries;
      this.ds := ds;
    }

    /**
     * patchDataDecorators(moduleName); `loads` says whether `mainRequire('ember-data')`
     * succeeds, and `afterLoad` is what that load leaves in `window.require`.
     */
    method PatchDataDecorators(moduleName: string, loads: bool, afterLoad: Value, resolve: Resolver) returns (r: Value)
      requires Valid()
      modifies this, ds
      ensures Valid()
      ensures Resolution(State(), r) == Patch(old(State()), loads, afterLoad, moduleName, resolve)
    {
      installed := afterLoad;
      if !loads {
        r := resolve(mainRequire, moduleName);
        return;
      }
      if installed != Patcher {
        mainRequire := installed;
      }
      var wrapped := WrapFactories();
      PatchModelIndex(wrapped);
      installed := mainRequire;
      r := resolve(mainRequire, moduleName);
    }

    /** Lines 43-55: each factory of `DS` is replaced, in place, by its wrapper. */
    method WrapFactories() returns (wrapped: Factories)
      modifies ds
      ensures wrapped == Wrap(old(ds.Fields())) && ds.Fields() == wrapped
    {
      var dataAttr, dataBelongsTo, dataHasMany := ds.attr, ds.belongsTo, ds.hasMany;
      var attr, belongsTo, hasMany := Macro(dataAttr), Macro(dataBelongsTo), Macro(dataHasMany);
      ds.attr := attr;
      ds.belongsTo := belongsTo;
      ds.hasMany := hasMany;
      wrapped := Factories(attr, belongsTo, hasMany);
    }

    /** Lines 57-65: the model index entry, when registered, gets the merged exports. */
    method PatchModelIndex(wrapped: Factories)
      modifies this`entries
      ensures entries == PatchRegistry(old(entries), wrapped)
    {
      if ModelIndex in entries {
        var newExports := MergeExports(entries[ModelIndex], wrapped);
        entries := entries[ModelIndex := newExports];
      }
    }

    /** window.require(moduleName): reaches the patch only while it is installed. */
    method Require(moduleName: string, loads: bool, afterLoad: Value, resolve: Resolver) returns (r: Value)
      requires Valid()
      modifies this, ds
      ensures Valid()
      ensures Resolution(State(), r) == Resolve(old(State()), loads, afterLoad, moduleName, resolve)
    {
      if installed == Patcher {
        r := PatchDataDecorators(moduleName, loads, afterLoad, resolve);
      } else {
        r := resolve(installed, moduleName);
      }
    }
  }
}
