/** Model of `composeHooks` (src/index.js): the component guard, the identity
    on absent hooks, and the per-render wrapper that resolves the hook
    mapping, folds the hook results into a fresh accumulator while logging
    collision warnings, and overlays the caller's props. */
module ComposeHooks {
  import opened JsValues

  /** A props object; React treats it as an unordered bag of keys. */
  type Props = map<string, Value>

  /** One entry of the hook mapping: the hook's declared name and its value. */
  type Hook = (string, Value)

  const ComponentMissingMessage := "Component must be provided to compose"

  /** The `hooks` argument. Absent stands for every falsy value (undefined,
      null, false, 0, ""); a factory is a function of the render's props; any
      other value is given by its `Object.entries` list. */
  datatype HooksSpec =
    | Absent
    | Literal(hooks: seq<Hook>)
    | Factory(make: Props -> Value)

  type GivenSpec = s: HooksSpec | !s.Absent? witness Literal([])

  /** What `composeHooks(hooks)(Component)` returns: the component itself, or
      the wrapping render function closed over `hooks` and `Component`. */
  datatype Composed =
    | Same(component: Value)
    | Wrapped(spec: GivenSpec, inner: Value)

  /** The observable side effects of one render, in order: the factory being
      called with the props, a literal hook being called, a `console.warn`
      (kept as the key and value it reports rather than as formatted text). */
  datatype Event = FactoryCalled | HookCalled(name: string) | Warned(key: string, value: Value)

  datatype Status = Done | Threw(error: JsError)

  /** The state of the reduce: whether a hook threw, the accumulator `acc`,
      and the events so far. */
  datatype Run = Run(status: Status, acc: Props, log: seq<Event>)

  /** `<Component {...p} />`: the component rendered with props p. */
  datatype Element = Element(component: Value, props: Props)

  /** The outcome of one render pass: an element, or an exception; with the
      events emitted on the way in both cases. */
  datatype Outcome =
    | Rendered(element: Element, log: seq<Event>)
    | Thrown(error: JsError, log: seq<Event>)

  /** `composeHooks(hooks)(component)`: the component guard comes before
      anything looks at `hooks`. */
  function Compose(hooks: HooksSpec, component: Value): (r: Result<Composed>)
    ensures r.Err? <==> !Truthy(component)
    ensures r.Err? ==> r.error == Error(ComponentMissingMessage)
    ensures r.Ok? && hooks.Absent? ==> r.value.Same? && r.value.component == component
    ensures r.Ok? && !hooks.Absent? ==> r.value.Wrapped? && r.value.spec == hooks && r.value.inner == component
  {
    if !Truthy(component) then Err(Error(ComponentMissingMessage))
    else if hooks.Absent? then Ok(Same(component))
    else Ok(Wrapped(hooks, component))
  }

  /** The hook mapping of one render (`hooksObject`, lines 17-19) as entries,
      with the factory call it makes. */
  function Resolve(spec: GivenSpec, props: Props): (r: (Result<seq<Hook>>, seq<Event>))
    ensures spec.Literal? ==> r == (Ok(spec.hooks), [])
    ensures spec.Factory? ==> r.1 == [FactoryCalled] && r.0 == Entries(spec.make(props))
    ensures spec.Factory? ==> (r.0.Err? <==> spec.make(props).Null? || spec.make(props).Undefined?)
  {
    match spec
    case Literal(hooks) => (Ok(hooks), [])
    case Factory(make) => (Entries(make(props)), [FactoryCalled])
  }

  /** Calls a value with no arguments; `run(id)` is what function `id`
      returns during this render. Calling a non-function is a TypeError. */
  function Invoke(run: nat -> Value, f: Value): (r: Result<Value>)
    ensures r.Ok? <==> f.Func?
    ensures r.Err? ==> r.error == TypeError
  {
    if f.Func? then Ok(run(f.id)) else Err(TypeError)
  }

  /** `hookReturnValue` (line 23): in factory form the mapping's value is
      taken as it is; in literal form it is called. */
  function HookReturn(isFactory: bool, run: nat -> Value, hookValue: Value): (r: Result<Value>)
    ensures isFactory ==> r == Ok(hookValue)
    ensures !isFactory ==> (r.Ok? <==> hookValue.Func?) && (r.Ok? ==> r.value == run(hookValue.id))
    ensures r.Err? ==> r.error == TypeError
  {
    if isFactory then Ok(hookValue) else Invoke(run, hookValue)
  }

  /** True when writing `key` finds a truthy value already there (line 31). */
  predicate Overwrites(acc: Props, key: string): (r: bool)
    ensures r ==> key in acc
    ensures key in acc ==> (r <==> acc[key] !in FalsyValues)
  {
    key in acc && Truthy(acc[key])
  }

  /** One step of the inner forEach (lines 31-36): warn if the key holds a
      truthy value, then write it. */
  function Put(acc: Props, log: seq<Event>, key: string, value: Value): (r: (Props, seq<Event>))
    ensures r.0 == acc[key := value]
    ensures |log| <= |r.1| <= |log| + 1 && r.1[..|log|] == log
    ensures |r.1| == |log| + 1 <==> Overwrites(acc, key)
    ensures |r.1| == |log| + 1 ==> r.1[|log|] == Warned(key, value)
  {
    (acc[key := value], if Overwrites(acc, key) then log + [Warned(key, value)] else log)
  }

  /** The inner forEach over an object result's entries (lines 30-37). */
  function Spread(acc: Props, log: seq<Event>, entries: seq<(string, Value)>): (r: (Props, seq<Event>))
    ensures r.0.Keys == acc.Keys + Keys(entries)
    ensures |log| <= |r.1| && r.1[..|log|] == log
    decreases |entries|
  {
    if entries == [] then (acc, log)
    else
      var step := Put(acc, log, entries[0].0, entries[0].1);
      var r := Spread(step.0, step.1, entries[1..]);
      assert Keys(entries) == {entries[0].0} + Keys(entries[1..]) by {
        assert forall i :: 0 < i < |entries| ==> entries[i] == entries[1..][i - 1];
      }
      assert r.1[..|log|] == r.1[..|step.1|][..|log|];
      r
  }

  /** The reduce callback for one hook (lines 22-39), on a state that has not
      thrown. An array is stored whole under the hook's name; anything else
      is spread through `Object.entries`, which throws on null/undefined. */
  function ApplyHook(isFactory: bool, run: nat -> Value, acc: Props, log: seq<Event>, hook: Hook): (r: Run)
    ensures |log| <= |r.log| && r.log[..|log|] == log
    ensures HookReturn(isFactory, run, hook.1).Err? ==> r == Run(Threw(TypeError), acc, log)
    ensures HookReturn(isFactory, run, hook.1).Ok? ==>
      var v := HookReturn(isFactory, run, hook.1).value;
      var called := if isFactory then log else log + [HookCalled(hook.0)];
      (v.Arr? ==> r == Run(Done, acc[hook.0 := v], called)) &&
      (v.Null? || v.Undefined? ==> r == Run(Threw(TypeError), acc, called)) &&
      (!v.Arr? && !v.Null? && !v.Undefined? ==>
        r.status == Done && r.acc.Keys == acc.Keys + Keys(Entries(v).value) &&
        |called| <= |r.log| && r.log[..|called|] == called)
  {
    match HookReturn(isFactory, run, hook.1)
    case Err(e) => Run(Threw(e), acc, log)
    case Ok(v) =>
      var called := if isFactory then log else log + [HookCalled(hook.0)];
      if v.Arr? then Run(Done, acc[hook.0 := v], called)
      else
        match Entries(v)
        case Err(e) => Run(Threw(e), acc, called)
        case Ok(entries) =>
          var s := Spread(acc, called, entries);
          Run(Done, s.0, s.1)
  }

  /** The reduce over the hook mapping's entries (lines 21-41). A hook that
      throws ends the render: nothing after it runs. */
  function MergeHooks(isFactory: bool, run: nat -> Value, st: Run, hooks: seq<Hook>): (r: Run)
    ensures |st.log| <= |r.log| && r.log[..|st.log|] == st.log
    ensures st.status.Threw? ==> r == st
    decreases |hooks|
  {
    if hooks == [] || st.status.Threw? then st
    else
      var next := ApplyHook(isFactory, run, st.acc, st.log, hooks[0]);
      var r := MergeHooks(isFactory, run, next, hooks[1..]);
      PrefixChain(st.log, next.log, r.log);
      r
  }

  /** A prefix of a prefix is a prefix. */
  lemma PrefixChain(a: seq<Event>, b: seq<Event>, c: seq<Event>)
    requires |a| <= |b| <= |c| && b[..|a|] == a && c[..|b|] == b
    ensures c[..|a|] == a
  {
    assert c[..|a|] == c[..|b|][..|a|];
  }

  /** `{...hooksProps, ...props}` (line 43): the caller's props win. */
  function Overlay(hooksProps: Props, props: Props): (r: Props)
    ensures r.Keys == hooksProps.Keys + props.Keys
    ensures forall k :: k in props ==> r[k] == props[k]
    ensures forall k :: k in hooksProps && k !in props ==> r[k] == hooksProps[k]
  {
    hooksProps + props
  }

  /** One render pass of a composed component with the caller's `props`. */
  function Rendering(c: Composed, props: Props, run: nat -> Value): (out: Outcome)
    ensures c.Same? ==> out == Rendered(Element(c.component, props), [])
    ensures c.Wrapped? && out.Rendered? ==>
      out.element.component == c.inner &&
      props.Keys <= out.element.props.Keys &&
      forall k :: k in props ==> out.element.props[k] == props[k]
  {
    match c
    case Same(component) => Rendered(Element(component, props), [])
    case Wrapped(spec, inner) =>
      var resolved := Resolve(spec, props);
      match resolved.0
      case Err(e) => Thrown(e, resolved.1)
      case Ok(hooks) =>
        var r := MergeHooks(spec.Factory?, run, Run(Done, map[], resolved.1), hooks);
        match r.status
        case Threw(e) => Thrown(e, r.log)
        case Done => Rendered(Element(inner, Overlay(r.acc, props)), r.log)
  }

  /** The reduce as the source runs it: a loop over the hook entries that
      updates the accumulator in place. */
  method Merge(isFactory: bool, run: nat -> Value, log0: seq<Event>, hooks: seq<Hook>) returns (r: Run)
    ensures r == MergeHooks(isFactory, run, Run(Done, map[], log0), hooks)
  {
    r := Run(Done, map[], log0);
    var i := 0;
    while i < |hooks|
      invariant 0 <= i <= |hooks| && r.status.Done?
      invariant MergeHooks(isFactory, run, r, hooks[i..]) == MergeHooks(isFactory, run, Run(Done, map[], log0), hooks)
    {
      assert hooks[i..][1..] == hooks[i + 1..];
      r := Reduce(isFactory, run, r.acc, r.log, hooks[i]);
      if r.status.Threw? {
        return;
      }
      i := i + 1;
    }
    assert hooks[i..] == [];
  }

  /** The reduce callback for one hook (lines 22-39), with the forEach over
      an object result's entries as an inner loop. */
  method Reduce(isFactory: bool, run: nat -> Value, acc0: Props, log0: seq<Event>, hook: Hook) returns (r: Run)
    ensures r == ApplyHook(isFactory, run, acc0, log0, hook)
  {
    var hookKey := hook.0;
    var hookValue := hook.1;
    var acc := acc0;
    var log := log0;
    var ret: Value;
    if isFactory {
      ret := hookValue;
    } else {
      if !hookValue.Func? {
        return Run(Threw(TypeError), acc, log);
      }
      ret := run(hookValue.id);
      log := log + [HookCalled(hookKey)];
    }
    if ret.Arr? {
      return Run(Done, acc[hookKey := ret], log);
    }
    var entries := Entries(ret);
    if entries.Err? {
      return Run(Threw(entries.error), acc, log);
    }
    var es := entries.value;
    ghost var spread := Spread(acc, log, es);
    var j := 0;
    while j < |es|
      invariant 0 <= j <= |es|
      invariant Spread(acc, log, es[j..]) == spread
    {
      var key := es[j].0;
      var value := es[j].1;
      assert es[j..][1..] == es[j + 1..];
      if key in acc && Truthy(acc[key]) {
        log := log + [Warned(key, value)];
      }
      acc := acc[key := value];
      j := j + 1;
    }
    assert es[j..] == [];
    r := Run(Done, acc, log);
  }

  /** The render function returned by `composeHooks` (lines 12-44), or the
      unwrapped component rendered directly. */
  method Render(c: Composed, props: Props, run: nat -> Value) returns (out: Outcome)
    ensures out == Rendering(c, props, run)
  {
    match c
    case Same(component) =>
      out := Rendered(Element(component, props), []);
    case Wrapped(spec, inner) =>
      var isFactory := spec.Factory?;
      var hooksObject: Result<seq<Hook>>;
      var log: seq<Event> := [];
      if isFactory {
        hooksObject := Entries(spec.make(props));
        log := [FactoryCalled];
      } else {
        hooksObject := Ok(spec.hooks);
      }
      if hooksObject.Err? {
        return Thrown(hooksObject.error, log);
      }
      var r := Merge(isFactory, run, log, hooksObject.value);
      if r.status.Threw? {
        return Thrown(r.status.error, r.log);
      }
      out := Rendered(Element(inner, Overlay(r.acc, props)), r.log);
  }
}
