/**
 * The two pure helpers of the ember-data decorator patch: the test that tells a
 * native class-field decorator application `(target, key, desc)` from a classic
 * factory call, and the wrapper that lets a macro factory be used both bare
 * (`@attr name`) and called (`@attr() name`, `attr('string')`).
 */
module DataFix {
  import opened JsValues

  /**
   * True when the arguments are what decorator lowering passes to a field or
   * accessor decorator: exactly three of them, a non-null object target, a
   * string key, and a descriptor that is either absent (`undefined`, as some
   * TypeScript lowerings pass) or an object with `enumerable` and
   * `configurable`. The body follows the `typeof` tests of data-fix.js:7-14;
   * the ensures clause states the same test on the shape of the values.
   */
  function IsFieldDescriptor(args: seq<Value>): (b: bool)
    ensures b <==>
      && |args| == 3
      && args[0].Obj?
      && args[1].Str?
      && (args[2].Undefined? ||
          (args[2].Obj? && "enumerable" in args[2].keys && "configurable" in args[2].keys))
  {
    var target, key, desc := At(args, 0), At(args, 1), At(args, 2);
    && |args| == 3
    && TypeOf(target) == TObject
    && target != Null
    && TypeOf(key) == TString
    && ((TypeOf(desc) == TObject && desc != Null
         && HasProperty(desc, "enumerable") && HasProperty(desc, "configurable"))
        || desc == Undefined)
  }

  /** One call of a function value that this file does not define, with `this` undefined. */
  datatype Invocation = Invocation(callee: Value, args: seq<Value>)

  /** What applying a wrapped macro did: the foreign calls it made, in order, and what it returned. */
  datatype Applied = Applied(calls: seq<Invocation>, result: Value)

  /**
   * A call of `computedMacroWithOptionalParams(fn)` with arguments `args`.
   * `call(f, xs)` is what the foreign function `f` returns when applied to
   * `xs`. On a field descriptor the factory is first called with no
   * arguments, and the decorator it returns is applied to the triple;
   * otherwise the factory itself is applied to the arguments.
   */
  function ApplyMacro(call: (Value, seq<Value>) -> Value, fn: Value, args: seq<Value>): (r: Applied)
    ensures 1 <= |r.calls| <= 2
    ensures r.calls[0].callee == fn
    ensures |r.calls| == 2 <==> IsFieldDescriptor(args)
    ensures |r.calls| == 2 ==> r.calls[0].args == [] && r.calls[1].callee == call(fn, [])
    ensures r.calls[|r.calls| - 1].args == args
    ensures r.result == call(r.calls[|r.calls| - 1].callee, r.calls[|r.calls| - 1].args)
  {
    if IsFieldDescriptor(args) then
      var decorator := call(fn, []);
      Applied([Invocation(fn, []), Invocation(decorator, args)], call(decorator, args))
    else
      Applied([Invocation(fn, args)], call(fn, args))
  }

  /**
   * The point of the wrapper: applying a wrapped factory bare to a field
   * (`@attr name`) has the same effect as calling it with no arguments and
   * applying what that returns (`@attr() name`).
   */
  lemma BareEqualsCalled(call: (Value, seq<Value>) -> Value, fn: Value, target: Value, key: Value, desc: Value)
    requires IsFieldDescriptor([target, key, desc])
    ensures ApplyMacro(call, fn, [target, key, desc]).result
         == call(ApplyMacro(call, fn, []).result, [target, key, desc])
  {
  }

  /**
   * Anything but a field descriptor reaches the factory unchanged, so classic
   * uses (`attr()`, `attr('string')`, `belongsTo('post', { async: false })`)
   * behave as if there were no wrapper.
   */
  lemma ClassicCallPassesThrough(call: (Value, seq<Value>) -> Value, fn: Value, args: seq<Value>)
    requires !IsFieldDescriptor(args)
    ensures ApplyMacro(call, fn, args).result == call(fn, args)
    ensures ApplyMacro(call, fn, args).calls == [Invocation(fn, args)]
  {
  }
}
