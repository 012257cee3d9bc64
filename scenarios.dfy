/** The behaviours the repository's test suite (src/__tests__/index.test.js)
    exercises, stated against the model. Each hook of the tests is a function
    value; `run` says what it returns during the render:
      useChange    Func(0) -> { value: 'hi', onChange }
      useChangeTwo Func(1) -> { value: 'duplicate-hook-prop' }
      useCount     Func(2) -> { count: 0, increment, decrement }
      useUseState  Func(3) -> [0, setCount]                              */
module Scenarios {
  import opened JsValues
  import opened ComposeHooks

  const TestComponent := Func(20)
  const UseChangeResult := Obj([("value", Str("hi")), ("onChange", Func(10))])
  const UseChangeTwoResult := Obj([("value", Str("duplicate-hook-prop"))])
  const UseCountResult := Obj([("count", Num(0)), ("increment", Func(11)), ("decrement", Func(12))])
  const UseUseStateResult := Arr([Num(0), Func(13)])

  /** 'passes custom hooks to component': every entry of every object result
      reaches the component. */
  lemma PassesCustomHooks(run: nat -> Value)
    requires run(0) == UseChangeResult && run(2) == UseCountResult
    ensures Rendering(Wrapped(Literal([("useCount", Func(2)), ("useChange", Func(0))]), TestComponent), map[], run)
         == Rendered(Element(TestComponent, map["count" := Num(0), "increment" := Func(11), "decrement" := Func(12),
                                                "value" := Str("hi"), "onChange" := Func(10)]),
                     [HookCalled("useCount"), HookCalled("useChange")])
  {
    var m1 := map["count" := Num(0), "increment" := Func(11), "decrement" := Func(12)];
    var s1 := Run(Done, m1, [HookCalled("useCount")]);
    var s2 := Run(Done, m1["value" := Str("hi")]["onChange" := Func(10)], [HookCalled("useCount"), HookCalled("useChange")]);
    TwoHookRendering(run, [("useCount", Func(2)), ("useChange", Func(0))], TestComponent, s1, s2) by {
      UseCountFirst(run);
      UseChangeAfterCount(run);
    }
  }

  lemma OverlayNoProps(m: Props)
    ensures Overlay(m, map[]) == m
  {
  }

  /** A literal render pass in terms of its merge. */
  lemma LiteralRendering(hooks: seq<Hook>, inner: Value, props: Props, run: nat -> Value, r: Run)
    requires MergeHooks(false, run, Run(Done, map[], []), hooks) == r && r.status.Done?
    ensures Rendering(Wrapped(Literal(hooks), inner), props, run) == Rendered(Element(inner, Overlay(r.acc, props)), r.log)
  {
  }

  /** A two-hook literal render pass with no props of the caller's, one
      ApplyHook at a time. */
  lemma TwoHookRendering(run: nat -> Value, hooks: seq<Hook>, inner: Value, s1: Run, s2: Run)
    requires |hooks| == 2 && s1.status.Done? && s2.status.Done?
    requires ApplyHook(false, run, map[], [], hooks[0]) == s1
    requires ApplyHook(false, run, s1.acc, s1.log, hooks[1]) == s2
    ensures Rendering(Wrapped(Literal(hooks), inner), map[], run) == Rendered(Element(inner, s2.acc), s2.log)
  {
    TwoHooks(run, hooks, s1, s2);
    LiteralRendering(hooks, inner, map[], run, s2);
    OverlayNoProps(s2.acc);
  }

  /** A two-hook merge, one ApplyHook at a time. */
  lemma TwoHooks(run: nat -> Value, hooks: seq<Hook>, s1: Run, s2: Run)
    requires |hooks| == 2 && s1.status.Done?
    requires ApplyHook(false, run, map[], [], hooks[0]) == s1
    requires ApplyHook(false, run, s1.acc, s1.log, hooks[1]) == s2
    ensures MergeHooks(false, run, Run(Done, map[], []), hooks) == s2
  {
    assert MergeHooks(false, run, Run(Done, map[], []), hooks) == MergeHooks(false, run, s1, hooks[1..]);
    assert MergeHooks(false, run, s1, hooks[1..]) == MergeHooks(false, run, s2, hooks[2..]);
    assert hooks[2..] == [];
  }

  lemma UseCountFirst(run: nat -> Value)
    requires run(2) == UseCountResult
    ensures ApplyHook(false, run, map[], [], ("useCount", Func(2)))
         == Run(Done, map["count" := Num(0), "increment" := Func(11), "decrement" := Func(12)], [HookCalled("useCount")])
  {
    var l1 := [HookCalled("useCount")];
    var es := UseCountResult.entries;
    assert Spread(map[], l1, es) == Spread(map["count" := Num(0)], l1, es[1..]);
    assert Spread(map["count" := Num(0)], l1, es[1..])
        == Spread(map["count" := Num(0), "increment" := Func(11)], l1, es[2..]);
    assert es[3..] == [];
  }

  lemma UseChangeAfterCount(run: nat -> Value)
    requires run(0) == UseChangeResult
    ensures var m1 := map["count" := Num(0), "increment" := Func(11), "decrement" := Func(12)];
      ApplyHook(false, run, m1, [HookCalled("useCount")], ("useChange", Func(0)))
      == Run(Done, m1["value" := Str("hi")]["onChange" := Func(10)], [HookCalled("useCount"), HookCalled("useChange")])
  {
    var m1 := map["count" := Num(0), "increment" := Func(11), "decrement" := Func(12)];
    var l2 := [HookCalled("useCount"), HookCalled("useChange")];
    var es := UseChangeResult.entries;
    assert Spread(m1, l2, es) == Spread(m1["value" := Str("hi")], l2, es[1..]);
    assert es[2..] == [];
  }

  /** 'passes props to component': the caller's own props are handed on. */
  lemma PassesProps(run: nat -> Value)
    requires run(0) == UseChangeResult
    ensures var out := Rendering(Wrapped(Literal([("useChange", Func(0))]), TestComponent), map["foo" := Str("bar")], run);
      out.Rendered? && "foo" in out.element.props && out.element.props["foo"] == Str("bar")
  {
  }

  /** 'works with custom hook that returns array': the array arrives whole
      under the hook's name, with no warning. */
  lemma ArrayHookPassedWhole(run: nat -> Value)
    requires run(3) == UseUseStateResult
    ensures var out := Rendering(Wrapped(Literal([("simpleHook", Func(3))]), TestComponent), map[], run);
      out.Rendered? && out.element.props == map["simpleHook" := UseUseStateResult] &&
      out.log == [HookCalled("simpleHook")]
  {
  }

  /** 'returns component if no hooks'. */
  lemma IdentityWithoutHooks(props: Props, run: nat -> Value)
    ensures var c := Compose(Absent, TestComponent);
      c.Ok? && c.value.Same? && c.value.component == TestComponent &&
      Rendering(c.value, props, run) == Rendered(Element(TestComponent, props), [])
  {
  }

  /** 'throws if no component': `composeHooks()()` throws before looking at
      the (absent) hooks. */
  lemma ThrowsWithoutComponent()
    ensures var c := Compose(Absent, Undefined);
      c.Err? && c.error == Error("Component must be provided to compose")
  {
  }

  /** 'if prop and hook names collide, props win': the hook's `value`
      reaches the component when the caller passes none, and the caller's
      `value` replaces it, silently, when the caller passes one. */
  lemma PropsWinOnCollision(run: nat -> Value)
    requires run(0) == UseChangeResult
    ensures Rendering(Wrapped(Literal([("useChange", Func(0))]), TestComponent), map[], run)
         == Rendered(Element(TestComponent, map["value" := Str("hi"), "onChange" := Func(10)]), [HookCalled("useChange")])
    ensures Rendering(Wrapped(Literal([("useChange", Func(0))]), TestComponent), map["value" := Str("newValue")], run)
         == Rendered(Element(TestComponent, map["value" := Str("newValue"), "onChange" := Func(10)]), [HookCalled("useChange")])
  {
    var m1 := map["value" := Str("hi"), "onChange" := Func(10)];
    UseChangeAlone(run, map[]);
    OverlayNoProps(m1);
    UseChangeAlone(run, map["value" := Str("newValue")]);
    OverlayNewValue();
  }

  lemma OverlayNewValue()
    ensures Overlay(map["value" := Str("hi"), "onChange" := Func(10)], map["value" := Str("newValue")])
         == map["value" := Str("newValue"), "onChange" := Func(10)]
  {
  }

  lemma UseChangeAlone(run: nat -> Value, props: Props)
    requires run(0) == UseChangeResult
    ensures Rendering(Wrapped(Literal([("useChange", Func(0))]), TestComponent), props, run)
         == Rendered(Element(TestComponent, Overlay(map["value" := Str("hi"), "onChange" := Func(10)], props)), [HookCalled("useChange")])
  {
    UseChangeFirst(run);
    OneHookRendering(run, ("useChange", Func(0)), TestComponent, props,
                     Run(Done, map["value" := Str("hi"), "onChange" := Func(10)], [HookCalled("useChange")]));
  }

  /** A one-hook literal render pass in terms of its ApplyHook. */
  lemma OneHookRendering(run: nat -> Value, hook: Hook, inner: Value, props: Props, s1: Run)
    requires s1.status.Done? && ApplyHook(false, run, map[], [], hook) == s1
    ensures Rendering(Wrapped(Literal([hook]), inner), props, run) == Rendered(Element(inner, Overlay(s1.acc, props)), s1.log)
  {
    assert MergeHooks(false, run, Run(Done, map[], []), [hook]) == MergeHooks(false, run, s1, []);
    LiteralRendering([hook], inner, props, run, s1);
  }

  /** 'warns on hook name collisions': the later hook's value wins and one
      warning names the key and the new value. */
  lemma WarnsOnHookNameCollision(run: nat -> Value)
    requires run(0) == UseChangeResult && run(1) == UseChangeTwoResult
    ensures Rendering(Wrapped(Literal([("useChange", Func(0)), ("useChangeTwo", Func(1))]), TestComponent), map[], run)
         == Rendered(Element(TestComponent, map["value" := Str("duplicate-hook-prop"), "onChange" := Func(10)]),
                     [HookCalled("useChange"), HookCalled("useChangeTwo"), Warned("value", Str("duplicate-hook-prop"))])
  {
    var m1 := map["value" := Str("hi"), "onChange" := Func(10)];
    var s1 := Run(Done, m1, [HookCalled("useChange")]);
    var s2 := Run(Done, map["value" := Str("duplicate-hook-prop"), "onChange" := Func(10)],
                  [HookCalled("useChange"), HookCalled("useChangeTwo"), Warned("value", Str("duplicate-hook-prop"))]);
    UseChangeFirst(run);
    UseChangeTwoAfterChange(run);
    TwoHookRendering(run, [("useChange", Func(0)), ("useChangeTwo", Func(1))], TestComponent, s1, s2);
  }

  lemma UseChangeFirst(run: nat -> Value)
    requires run(0) == UseChangeResult
    ensures ApplyHook(false, run, map[], [], ("useChange", Func(0)))
         == Run(Done, map["value" := Str("hi"), "onChange" := Func(10)], [HookCalled("useChange")])
  {
    var es := UseChangeResult.entries;
    assert Spread(map[], [HookCalled("useChange")], es) == Spread(map["value" := Str("hi")], [HookCalled("useChange")], es[1..]);
    assert es[2..] == [];
  }

  lemma UseChangeTwoAfterChange(run: nat -> Value)
    requires run(1) == UseChangeTwoResult
    ensures var m1 := map["value" := Str("hi"), "onChange" := Func(10)];
      ApplyHook(false, run, m1, [HookCalled("useChange")], ("useChangeTwo", Func(1)))
      == Run(Done, map["value" := Str("duplicate-hook-prop"), "onChange" := Func(10)],
             [HookCalled("useChange"), HookCalled("useChangeTwo"), Warned("value", Str("duplicate-hook-prop"))])
  {
    var m1 := map["value" := Str("hi"), "onChange" := Func(10)];
    assert Overwrites(m1, "value");
    assert UseChangeTwoResult.entries[1..] == [];
    assert m1["value" := Str("duplicate-hook-prop")] == map["value" := Str("duplicate-hook-prop"), "onChange" := Func(10)];
  }

  /** A hook that overwrites a falsy value is not reported: `{x: 0}` then
      `{x: 1}` logs no warning although the key is already present. */
  lemma FalsyOverwriteIsSilent(run: nat -> Value)
    requires run(5) == Obj([("x", Num(0))]) && run(6) == Obj([("x", Num(1))])
    ensures Rendering(Wrapped(Literal([("a", Func(5)), ("b", Func(6))]), TestComponent), map[], run)
         == Rendered(Element(TestComponent, map["x" := Num(1)]), [HookCalled("a"), HookCalled("b")])
  {
    var s1 := Run(Done, map["x" := Num(0)], [HookCalled("a")]);
    var s2 := Run(Done, map["x" := Num(1)], [HookCalled("a"), HookCalled("b")]);
    TwoHookRendering(run, [("a", Func(5)), ("b", Func(6))], TestComponent, s1, s2) by {
      assert ApplyHook(false, run, map[], [], ("a", Func(5))) == s1;
      assert !Overwrites(s1.acc, "x");
      assert ApplyHook(false, run, s1.acc, s1.log, ("b", Func(6))) == s2;
    }
  }

  /** A literal mapping whose value is not a function throws a TypeError when
      the render reaches it; the hooks before it have already run. */
  lemma NonFunctionHookThrows(run: nat -> Value)
    requires run(0) == UseChangeResult
    ensures var out := Rendering(Wrapped(Literal([("useChange", Func(0)), ("oops", Num(3))]), TestComponent), map[], run);
      out == Thrown(TypeError, [HookCalled("useChange")])
  {
  }

  /** A hook returning null throws inside `Object.entries`. */
  lemma NullResultThrows(run: nat -> Value)
    requires run(7) == Null
    ensures Rendering(Wrapped(Literal([("useNothing", Func(7))]), TestComponent), map[], run)
         == Thrown(TypeError, [HookCalled("useNothing")])
  {
  }
}
