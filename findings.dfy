/** Two places where composeHooks, as written, does not do what its own test
    suite expects; for each, an input that shows it, and a corrected hook step
    with the intended behaviour proved about it.

    1. Factory form (src/index.js:23): the values of the mapping a factory
       returns are taken as the hooks' results without being called, so a
       factory `props => ({ useChange: () => useChange(props.initialValue) })`
       (src/__tests__/index.test.js:91-93) contributes nothing.
    2. Non-array results (src/index.js:25-30): everything that is not an
       array goes through `Object.entries`, so a hook returning a function or
       a string (src/__tests__/index.test.js:67-86) is not passed under its
       name; a string is even spread into one prop per character. */
module Findings {
  import opened JsValues
  import opened ComposeHooks
  import opened ComposeProperties

  const Presenter := Func(20)
  const TestProps: Props := map["initialValue" := Str("test-value")]
  const UseChangeOfInitial := Obj([("value", Str("test-value")), ("onChange", Func(10))])

  predicate AllDigits(k: string) {
    forall i :: 0 <= i < |k| ==> k[i] in "0123456789"
  }

  lemma {:induction false} IndexKeyDigits(n: nat)
    ensures AllDigits(IndexKey(n))
    decreases n
  {
    if n >= 10 {
      IndexKeyDigits(n / 10);
      var s := IndexKey(n / 10) + [DigitChar(n % 10)];
      assert forall i :: 0 <= i < |IndexKey(n / 10)| ==> s[i] == IndexKey(n / 10)[i];
    }
  }

  /** `Object.entries` of a string is keyed by indices only. */
  lemma StringEntryKeys(s: string)
    ensures forall k :: k in Keys(Entries(Str(s)).value) ==> AllDigits(k)
  {
    var es := Entries(Str(s)).value;
    forall k | k in Keys(es) ensures AllDigits(k) {
      var i :| 0 <= i < |es| && es[i].0 == k;
      IndexKeyDigits(i);
    }
  }

  // ----- As written -----

  /** Finding 1, as written: the factory's hook is never called, so the
      component receives only the caller's props and no `value`. */
  lemma FactoryHookNotInvoked(make: Props -> Value, run: nat -> Value)
    requires make(TestProps) == Obj([("useChange", Func(0))])
    requires run(0) == UseChangeOfInitial
    ensures Rendering(Wrapped(Factory(make), Presenter), TestProps, run)
         == Rendered(Element(Presenter, TestProps), [FactoryCalled])
  {
    var hooks := [("useChange", Func(0))];
    var st := Run(Done, map[], [FactoryCalled]);
    assert ApplyHook(true, run, map[], [FactoryCalled], hooks[0]) == st;
    assert MergeHooks(true, run, st, hooks) == MergeHooks(true, run, st, hooks[1..]);
    assert hooks[1..] == [];
    assert Overlay(map[], TestProps) == TestProps;
  }

  /** Finding 2, as written: a hook returning a function (`setFoo`) and one
      returning a string (`bar`, which the test has return 'Click me') are
      not passed under their names; only per-character index props appear. */
  lemma ScalarHookResultDropped(run: nat -> Value)
    requires run(4).Func? && run(5).Str?
    ensures var out := Rendering(Wrapped(Literal([("setFoo", Func(4)), ("bar", Func(5))]), Presenter), map[], run);
      out.Rendered? && "setFoo" !in out.element.props && "bar" !in out.element.props &&
      out.element.props.Keys == Keys(Entries(run(5)).value)
  {
    ScalarMerge(run);
    StringEntryKeys(run(5).s);
    HookNamesAreNotIndices();
  }

  lemma ScalarMerge(run: nat -> Value)
    requires run(4).Func? && run(5).Str?
    ensures var r := MergeHooks(false, run, Run(Done, map[], []), [("setFoo", Func(4)), ("bar", Func(5))]);
      r.status.Done? && r.acc.Keys == Keys(Entries(run(5)).value)
  {
    var hooks := [("setFoo", Func(4)), ("bar", Func(5))];
    var st := Run(Done, map[], []);
    var s1 := ApplyHook(false, run, map[], [], hooks[0]);
    var s2 := ApplyHook(false, run, s1.acc, s1.log, hooks[1]);
    assert MergeHooks(false, run, st, hooks) == MergeHooks(false, run, s1, hooks[1..]);
    assert MergeHooks(false, run, s1, hooks[1..]) == MergeHooks(false, run, s2, hooks[2..]);
    assert hooks[2..] == [];
    MergeKeys(false, run, st, hooks);
    assert Contributed(false, run, hooks[2..]) == {};
  }

  lemma HookNamesAreNotIndices()
    ensures !AllDigits("setFoo") && !AllDigits("bar")
  {
    assert "setFoo"[0] !in "0123456789";
    assert "bar"[0] !in "0123456789";
  }

  // ----- Corrected -----

  /** The hook step the repository's tests call for: every hook is called,
      in factory form too; a plain object's entries are spread as before;
      any other result, array or not, is stored whole under the hook's name.
      Warnings stay as the code has them. */
  function IntendedApplyHook(run: nat -> Value, acc: Props, log: seq<Event>, hook: Hook): (r: Run)
    ensures !hook.1.Func? ==> r == Run(Threw(TypeError), acc, log)
    ensures hook.1.Func? && !run(hook.1.id).Obj? ==>
      r == Run(Done, acc[hook.0 := run(hook.1.id)], log + [HookCalled(hook.0)])
    ensures hook.1.Func? && run(hook.1.id).Obj? ==>
      r.status == Done && r.acc.Keys == acc.Keys + Keys(run(hook.1.id).entries) &&
      |r.log| > |log| && r.log[..|log| + 1] == log + [HookCalled(hook.0)]
  {
    match Invoke(run, hook.1)
    case Err(e) => Run(Threw(e), acc, log)
    case Ok(v) =>
      var called := log + [HookCalled(hook.0)];
      if v.Obj? then
        var s := Spread(acc, called, v.entries);
        assert s.1[..|log| + 1] == s.1[..|called|];
        Run(Done, s.0, s.1)
      else Run(Done, acc[hook.0 := v], called)
  }

  function IntendedMerge(run: nat -> Value, st: Run, hooks: seq<Hook>): (r: Run)
    ensures st.status.Threw? ==> r == st
    decreases |hooks|
  {
    if hooks == [] || st.status.Threw? then st
    else IntendedMerge(run, IntendedApplyHook(run, st.acc, st.log, hooks[0]), hooks[1..])
  }

  /** A render pass with the corrected hook step; resolution and the overlay
      are unchanged. */
  function IntendedRendering(c: Composed, props: Props, run: nat -> Value): (out: Outcome)
    ensures c.Wrapped? && out.Rendered? ==> forall k :: k in props ==> k in out.element.props && out.element.props[k] == props[k]
  {
    match c
    case Same(component) => Rendered(Element(component, props), [])
    case Wrapped(spec, inner) =>
      var resolved := Resolve(spec, props);
      match resolved.0
      case Err(e) => Thrown(e, resolved.1)
      case Ok(hooks) =>
        var r := IntendedMerge(run, Run(Done, map[], resolved.1), hooks);
        match r.status
        case Threw(e) => Thrown(e, r.log)
        case Done => Rendered(Element(inner, Overlay(r.acc, props)), r.log)
  }

  lemma IntendedHookCall(run: nat -> Value, st: Run, hook: Hook)
    requires IntendedApplyHook(run, st.acc, st.log, hook).status.Done?
    ensures Calls(IntendedApplyHook(run, st.acc, st.log, hook).log) == Calls(st.log) + [hook.0]
  {
    var next := IntendedApplyHook(run, st.acc, st.log, hook);
    var called := st.log + [HookCalled(hook.0)];
    assert Calls(called) == Calls(st.log) + [hook.0] by {
      assert called[..|called| - 1] == st.log;
    }
    var v := run(hook.1.id);
    if v.Obj? {
      SpreadOnlyWarns(st.acc, called, v.entries);
      WarningsAfter(called, next.log);
    }
  }

  /** Corrected, every hook is called once, in entry order, in both forms. */
  lemma {:induction false} IntendedCallsEveryHook(run: nat -> Value, st: Run, hooks: seq<Hook>)
    requires st.status.Done?
    requires IntendedMerge(run, st, hooks).status.Done?
    ensures Calls(IntendedMerge(run, st, hooks).log) == Calls(st.log) + Names(hooks)
    decreases |hooks|
  {
    if hooks == [] {
      assert Names(hooks) == [];
    } else {
      var next := IntendedApplyHook(run, st.acc, st.log, hooks[0]);
      IntendedCallsEveryHook(run, next, hooks[1..]);
      IntendedHookCall(run, st, hooks[0]);
      NamesCons(hooks);
    }
  }

  /** Corrected, a factory's hooks are all called. */
  lemma IntendedFactoryCallsHooks(make: Props -> Value, inner: Value, props: Props, run: nat -> Value)
    requires IntendedRendering(Wrapped(Factory(make), inner), props, run).Rendered?
    ensures Calls(IntendedRendering(Wrapped(Factory(make), inner), props, run).log) == Names(Entries(make(props)).value)
  {
    IntendedCallsEveryHook(run, Run(Done, map[], [FactoryCalled]), Entries(make(props)).value);
    assert Calls([FactoryCalled]) == [];
  }

  /** Corrected and as written agree on every literal mapping whose hooks
      are functions returning arrays or plain objects, which is all the
      repository's other tests use. */
  lemma {:induction false} IntendedAgreesOnArraysAndObjects(run: nat -> Value, st: Run, hooks: seq<Hook>)
    requires forall i :: 0 <= i < |hooks| ==> hooks[i].1.Func? && (run(hooks[i].1.id).Arr? || run(hooks[i].1.id).Obj?)
    ensures IntendedMerge(run, st, hooks) == MergeHooks(false, run, st, hooks)
    decreases |hooks|
  {
    if hooks != [] && st.status.Done? {
      var next := IntendedApplyHook(run, st.acc, st.log, hooks[0]);
      assert next == ApplyHook(false, run, st.acc, st.log, hooks[0]);
      IntendedAgreesOnArraysAndObjects(run, next, hooks[1..]);
    }
  }

  /** Finding 1, corrected: the factory's hook is called with the props it
      closed over and its `value` reaches the component. */
  lemma IntendedFactoryHookInvoked(make: Props -> Value, run: nat -> Value)
    requires make(TestProps) == Obj([("useChange", Func(0))])
    requires run(0) == UseChangeOfInitial
    ensures var out := IntendedRendering(Wrapped(Factory(make), Presenter), TestProps, run);
      out.Rendered? && "value" in out.element.props && out.element.props["value"] == Str("test-value")
  {
    var hooks := [("useChange", Func(0))];
    var st := Run(Done, map[], [FactoryCalled]);
    var s1 := IntendedApplyHook(run, map[], [FactoryCalled], hooks[0]);
    IntendedUseChangeStep(run);
    assert IntendedMerge(run, st, hooks) == IntendedMerge(run, s1, hooks[1..]);
    assert hooks[1..] == [];
  }

  lemma IntendedUseChangeStep(run: nat -> Value)
    requires run(0) == UseChangeOfInitial
    ensures var s1 := IntendedApplyHook(run, map[], [FactoryCalled], ("useChange", Func(0)));
      s1.status.Done? && "value" in s1.acc && s1.acc["value"] == Str("test-value")
  {
    var es := UseChangeOfInitial.entries;
    var called := [FactoryCalled, HookCalled("useChange")];
    assert Spread(map[], called, es) == Spread(map["value" := Str("test-value")], called, es[1..]);
    assert es[2..] == [];
  }

  /** Finding 2, corrected: the function and the string arrive whole under
      the hooks' names. */
  lemma IntendedScalarHooksPassed(run: nat -> Value)
    requires run(4) == Func(14) && run(5) == Str("Click me")
    ensures IntendedRendering(Wrapped(Literal([("setFoo", Func(4)), ("bar", Func(5))]), Presenter), map[], run)
         == Rendered(Element(Presenter, map["setFoo" := Func(14), "bar" := Str("Click me")]),
                     [HookCalled("setFoo"), HookCalled("bar")])
  {
    var hooks := [("setFoo", Func(4)), ("bar", Func(5))];
    var st := Run(Done, map[], []);
    var s1 := Run(Done, map["setFoo" := Func(14)], [HookCalled("setFoo")]);
    var s2 := Run(Done, map["setFoo" := Func(14), "bar" := Str("Click me")], [HookCalled("setFoo"), HookCalled("bar")]);
    assert IntendedApplyHook(run, map[], [], hooks[0]) == s1;
    assert IntendedApplyHook(run, s1.acc, s1.log, hooks[1]) == s2;
    assert IntendedMerge(run, st, hooks) == IntendedMerge(run, s1, hooks[1..]);
    assert IntendedMerge(run, s1, hooks[1..]) == IntendedMerge(run, s2, hooks[2..]);
    assert hooks[2..] == [];
    assert Overlay(s2.acc, map[]) == s2.acc;
  }
}
