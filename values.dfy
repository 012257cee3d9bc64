/** The slice of JavaScript's value semantics that composeHooks relies on:
    the kinds of value a hook can return, truthiness (`if (x)`, `!x`),
    `Array.isArray` and `Object.entries`. */
module JsValues {

  datatype Option<+T> = None | Some(value: T)

  /** A JavaScript value. Numbers are integers (no NaN, no -0); a function is
      a bare identity whose behaviour is given separately; an object is the
      ordered list of its own enumerable entries. */
  datatype Value =
    | Undefined
    | Null
    | Bool(b: bool)
    | Num(n: int)
    | Str(s: string)
    | Func(id: nat)
    | Arr(elems: seq<Value>)
    | Obj(entries: seq<(string, Value)>)

  /** What a JavaScript `throw` carries: the built-in TypeError raised by
      calling a non-function or taking the entries of null/undefined, or an
      `Error` constructed with a message. */
  datatype JsError = TypeError | Error(message: string)

  datatype Result<+T> = Ok(value: T) | Err(error: JsError)

  /** The falsy values of this value domain (NaN is not modelled). */
  const FalsyValues: set<Value> := {Undefined, Null, Bool(false), Num(0), Str("")}

  /** JavaScript truthiness: false, 0, "", null and undefined are falsy;
      every function, array and object is truthy, even an empty one. */
  predicate Truthy(v: Value): (r: bool)
    ensures r <==> v !in FalsyValues
    ensures v.Func? || v.Arr? || v.Obj? ==> r
  {
    match v
    case Undefined => false
    case Null => false
    case Bool(b) => b
    case Num(n) => n != 0
    case Str(s) => s != ""
    case _ => true
  }

  /** The set of keys of an entry list. */
  function Keys(entries: seq<(string, Value)>): set<string> {
    set i | 0 <= i < |entries| :: entries[i].0
  }

  /** No key occurs twice, as in the entries of any JavaScript object. */
  predicate DistinctKeys(entries: seq<(string, Value)>) {
    forall i, j :: 0 <= i < j < |entries| ==> entries[i].0 != entries[j].0
  }

  function DigitChar(d: nat): char
    requires d < 10
  {
    "0123456789"[d]
  }

  /** The decimal spelling of an index, as JavaScript writes array and string
      indices when it lists them as object keys. */
  function IndexKey(n: nat): (s: string)
    ensures |s| >= 1
    decreases n
  {
    if n < 10 then [DigitChar(n)] else IndexKey(n / 10) + [DigitChar(n % 10)]
  }

  /** `Object.entries(v)`: null and undefined throw a TypeError; a string
      yields one entry per character and an array one per element, keyed by
      index; an object yields its own entries; booleans, numbers and
      functions have no own enumerable entries. */
  function Entries(v: Value): (r: Result<seq<(string, Value)>>)
    ensures r.Err? <==> v.Undefined? || v.Null?
    ensures r.Err? ==> r.error == TypeError
    ensures v.Obj? ==> r == Ok(v.entries)
    ensures v.Bool? || v.Num? || v.Func? ==> r == Ok([])
    ensures v.Str? ==> r.Ok? && |r.value| == |v.s|
    ensures v.Arr? ==> r.Ok? && |r.value| == |v.elems|
  {
    match v
    case Undefined => Err(TypeError)
    case Null => Err(TypeError)
    case Str(s) => Ok(seq(|s|, i requires 0 <= i < |s| => (IndexKey(i), Str([s[i]]))))
    case Arr(xs) => Ok(seq(|xs|, i requires 0 <= i < |xs| => (IndexKey(i), xs[i])))
    case Obj(es) => Ok(es)
    case _ => Ok([])
  }
}
