/**
 * The small universe of JavaScript values that the ember-data decorator patch
 * inspects or moves around, together with the `typeof` operator over it.
 */
module JsValues {

  /** A JavaScript value, as far as the patch can tell values apart. */
  datatype Value =
    | Undefined
    | Null
    | Bool(b: bool)
    | Num(n: int)                      // only `typeof` is ever asked of a number
    | Str(s: string)
    | Sym(id: nat)
    | Obj(id: nat, keys: set<string>)  // keys: every name the `in` operator finds, own or inherited
    | Fun(id: nat)                     // a function defined outside this file (a loader, an ember-data factory)
    | Macro(fn: Value)                 // the arrow function computedMacroWithOptionalParams(fn) returns
    | Patcher                          // the function object patchDataDecorators

  /** The answers `typeof` can give for the values above. */
  datatype TypeTag = TUndefined | TObject | TBoolean | TNumber | TString | TSymbol | TFunction

  /** `typeof v`; note that `typeof null` is "object". */
  function TypeOf(v: Value): (t: TypeTag)
    ensures t == TObject <==> v.Null? || v.Obj?
    ensures t == TFunction <==> v.Fun? || v.Macro? || v.Patcher?
    ensures t == TString <==> v.Str?
    ensures t == TUndefined <==> v.Undefined?
  {
    match v
    case Undefined => TUndefined
    case Null => TObject
    case Bool(_) => TBoolean
    case Num(_) => TNumber
    case Str(_) => TString
    case Sym(_) => TSymbol
    case Obj(_, _) => TObject
    case Fun(_) => TFunction
    case Macro(_) => TFunction
    case Patcher => TFunction
  }

  /** `name in v` for a value already known to be a non-null object. */
  predicate HasProperty(v: Value, name: string)
    requires v.Obj?
  {
    name in v.keys
  }

  /** Array destructuring: an element past the end reads as `undefined`. */
  function At(args: seq<Value>, i: nat): (v: Value)
    ensures i < |args| ==> v == args[i]
    ensures i >= |args| ==> v == Undefined
  {
    if i < |args| then args[i] else Undefined
  }
}
