/** What composeHooks promises about one render: which keys the accumulator
    ends up with and which value each holds, when a collision warning is
    logged, which hooks are called, and how the caller's props take part. */
module ComposeProperties {
  import opened JsValues
  import opened ComposeHooks

  // ----- Reference definitions -----

  /** The value of the last entry for key k, searching from the end. */
  function LastValue(entries: seq<(string, Value)>, k: string): Option<Value>
    decreases |entries|
  {
    if entries == [] then None
    else if entries[|entries| - 1].0 == k then Some(entries[|entries| - 1].1)
    else LastValue(entries[..|entries| - 1], k)
  }

  /** The writes one hook makes to the accumulator: its whole result under its
      name when that is an array, otherwise the result's entries. */
  function HookWrites(isFactory: bool, run: nat -> Value, hook: Hook): seq<(string, Value)> {
    match HookReturn(isFactory, run, hook.1)
    case Err(_) => []
    case Ok(v) =>
      if v.Arr? then [(hook.0, v)]
      else match Entries(v)
        case Err(_) => []
        case Ok(entries) => entries
  }

  /** All writes of a hook mapping, in order. */
  function Writes(isFactory: bool, run: nat -> Value, hooks: seq<Hook>): seq<(string, Value)>
    decreases |hooks|
  {
    if hooks == [] then [] else HookWrites(isFactory, run, hooks[0]) + Writes(isFactory, run, hooks[1..])
  }

  /** The keys a hook mapping contributes: the names of the hooks whose
      result is an array, and the keys of every other result. */
  function Contributed(isFactory: bool, run: nat -> Value, hooks: seq<Hook>): set<string>
    decreases |hooks|
  {
    if hooks == [] then {}
    else
      var own := match HookReturn(isFactory, run, hooks[0].1)
        case Err(_) => {}
        case Ok(v) =>
          if v.Arr? then {hooks[0].0}
          else match Entries(v)
            case Err(_) => {}
            case Ok(entries) => Keys(entries);
      own + Contributed(isFactory, run, hooks[1..])
  }

  /** The warnings an object result causes when its keys are distinct: one per
      entry whose key holds a truthy value in the accumulator it starts from. */
  function CollisionWarnings(acc: Props, entries: seq<(string, Value)>): seq<Event>
    decreases |entries|
  {
    if entries == [] then []
    else
      (if Overwrites(acc, entries[0].0) then [Warned(entries[0].0, entries[0].1)] else [])
      + CollisionWarnings(acc, entries[1..])
  }

  /** The names of the hooks called in a log, in order. */
  function Calls(log: seq<Event>): seq<string>
    decreases |log|
  {
    if log == [] then []
    else Calls(log[..|log| - 1]) + (if log[|log| - 1].HookCalled? then [log[|log| - 1].name] else [])
  }

  function Names(hooks: seq<Hook>): seq<string> {
    seq(|hooks|, i requires 0 <= i < |hooks| => hooks[i].0)
  }

  lemma NamesCons(hooks: seq<Hook>)
    requires hooks != []
    ensures Names(hooks) == [hooks[0].0] + Names(hooks[1..])
  {
  }

  predicate OnlyWarnings(events: seq<Event>) {
    forall j :: 0 <= j < |events| ==> events[j].Warned?
  }

  // ----- Last writer wins -----

  lemma {:induction false} LastValueFront(entries: seq<(string, Value)>, k: string)
    requires entries != []
    ensures LastValue(entries, k) ==
      if LastValue(entries[1..], k).Some? then LastValue(entries[1..], k)
      else if entries[0].0 == k then Some(entries[0].1) else None
    decreases |entries|
  {
    var n := |entries|;
    if n == 1 {
      assert entries[1..] == [];
    } else if entries[n - 1].0 != k {
      assert entries[1..][..n - 2] == entries[..n - 1][1..];
      LastValueFront(entries[..n - 1], k);
    }
  }

  lemma {:induction false} LastValueConcat(a: seq<(string, Value)>, b: seq<(string, Value)>, k: string)
    ensures LastValue(a + b, k) == if LastValue(b, k).Some? then LastValue(b, k) else LastValue(a, k)
    decreases |b|
  {
    if b == [] {
      assert a + b == a;
    } else {
      var n := |b|;
      assert (a + b)[..|a + b| - 1] == a + b[..n - 1];
      LastValueConcat(a, b[..n - 1], k);
    }
  }

  /** After the forEach over an object result, every key holds the value of
      its last entry, and keys the result does not mention are untouched. */
  lemma {:induction false} SpreadLastWriter(acc: Props, log: seq<Event>, entries: seq<(string, Value)>, k: string)
    ensures var r := Spread(acc, log, entries).0;
      match LastValue(entries, k)
      case Some(v) => k in r && r[k] == v
      case None => (k in r <==> k in acc) && (k in acc ==> r[k] == acc[k])
    decreases |entries|
  {
    if entries != [] {
      var step := Put(acc, log, entries[0].0, entries[0].1);
      SpreadLastWriter(step.0, step.1, entries[1..], k);
      LastValueFront(entries, k);
    }
  }

  // ----- Warnings -----

  lemma {:induction false} CollisionWarningsFrame(acc: Props, key: string, value: Value, entries: seq<(string, Value)>)
    requires key !in Keys(entries)
    ensures CollisionWarnings(acc[key := value], entries) == CollisionWarnings(acc, entries)
    decreases |entries|
  {
    if entries != [] {
      assert entries[0].0 in Keys(entries);
      assert Keys(entries[1..]) <= Keys(entries) by {
        assert forall i :: 0 <= i < |entries| - 1 ==> entries[1..][i] == entries[i + 1];
      }
      CollisionWarningsFrame(acc, key, value, entries[1..]);
    }
  }

  lemma DistinctKeysTail(entries: seq<(string, Value)>)
    requires entries != [] && DistinctKeys(entries)
    ensures DistinctKeys(entries[1..]) && entries[0].0 !in Keys(entries[1..])
  {
    var rest := entries[1..];
    forall i, j | 0 <= i < j < |rest| ensures rest[i].0 != rest[j].0 {
      assert rest[i] == entries[i + 1] && rest[j] == entries[j + 1];
    }
    forall i | 0 <= i < |rest| ensures rest[i].0 != entries[0].0 {
      assert rest[i] == entries[i + 1];
    }
  }

  /** For an object result (whose keys are distinct), the forEach logs one
      warning per entry whose key already holds a truthy value, in entry
      order, and nothing else: overwriting a falsy or absent value is silent. */
  lemma {:induction false} SpreadWarnings(acc: Props, log: seq<Event>, entries: seq<(string, Value)>)
    requires DistinctKeys(entries)
    ensures Spread(acc, log, entries).1 == log + CollisionWarnings(acc, entries)
    decreases |entries|
  {
    if entries != [] {
      var step := Put(acc, log, entries[0].0, entries[0].1);
      var rest := entries[1..];
      DistinctKeysTail(entries);
      SpreadWarnings(step.0, step.1, rest);
      CollisionWarningsFrame(acc, entries[0].0, entries[0].1, rest);
      var w := if Overwrites(acc, entries[0].0) then [Warned(entries[0].0, entries[0].1)] else [];
      assert step.1 == log + w;
      assert CollisionWarnings(acc, entries) == w + CollisionWarnings(acc, rest);
      assert (log + w) + CollisionWarnings(acc, rest) == log + (w + CollisionWarnings(acc, rest));
    }
  }

  lemma {:induction false} SpreadOnlyWarns(acc: Props, log: seq<Event>, entries: seq<(string, Value)>)
    ensures OnlyWarnings(Spread(acc, log, entries).1[|log|..])
    decreases |entries|
  {
    if entries != [] {
      var step := Put(acc, log, entries[0].0, entries[0].1);
      SpreadOnlyWarns(step.0, step.1, entries[1..]);
      var r := Spread(acc, log, entries).1;
      forall j | |log| <= j < |r| ensures r[j].Warned? {
        if j >= |step.1| {
          assert r[j] == r[|step.1|..][j - |step.1|];
        }
      }
    }
  }

  // ----- The accumulator after the whole reduce -----

  lemma {:induction false} WritesOfHook(isFactory: bool, run: nat -> Value, st: Run, hook: Hook)
    requires st.status.Done?
    requires ApplyHook(isFactory, run, st.acc, st.log, hook).status.Done?
    ensures var next := ApplyHook(isFactory, run, st.acc, st.log, hook).acc;
      forall k :: match LastValue(HookWrites(isFactory, run, hook), k)
        case Some(v) => k in next && next[k] == v
        case None => (k in next <==> k in st.acc) && (k in st.acc ==> next[k] == st.acc[k])
  {
    var v := HookReturn(isFactory, run, hook.1).value;
    var called := if isFactory then st.log else st.log + [HookCalled(hook.0)];
    forall k
      ensures var next := ApplyHook(isFactory, run, st.acc, st.log, hook).acc;
        match LastValue(HookWrites(isFactory, run, hook), k)
        case Some(w) => k in next && next[k] == w
        case None => (k in next <==> k in st.acc) && (k in st.acc ==> next[k] == st.acc[k])
    {
      if v.Arr? {
        assert HookWrites(isFactory, run, hook) == [(hook.0, v)];
        assert ApplyHook(isFactory, run, st.acc, st.log, hook).acc == st.acc[hook.0 := v];
        assert [(hook.0, v)][..0] == [];
        assert LastValue([(hook.0, v)], k) == if k == hook.0 then Some(v) else None;
      } else {
        assert Entries(v).Ok?;
        assert HookWrites(isFactory, run, hook) == Entries(v).value;
        assert ApplyHook(isFactory, run, st.acc, st.log, hook).acc == Spread(st.acc, called, Entries(v).value).0;
        SpreadLastWriter(st.acc, called, Entries(v).value, k);
      }
    }
  }

  /** The accumulator a render passes on: each key holds the value of the
      last write among all hooks and all their entries, in declaration
      order; keys no hook writes keep their starting value. */
  lemma {:induction false} MergeLastWriter(isFactory: bool, run: nat -> Value, st: Run, hooks: seq<Hook>, k: string)
    requires MergeHooks(isFactory, run, st, hooks).status.Done?
    ensures var r := MergeHooks(isFactory, run, st, hooks).acc;
      match LastValue(Writes(isFactory, run, hooks), k)
      case Some(v) => k in r && r[k] == v
      case None => (k in r <==> k in st.acc) && (k in st.acc ==> r[k] == st.acc[k])
    decreases |hooks|
  {
    if hooks != [] {
      var next := ApplyHook(isFactory, run, st.acc, st.log, hooks[0]);
      MergeLastWriter(isFactory, run, next, hooks[1..], k);
      WritesOfHook(isFactory, run, st, hooks[0]);
      LastValueConcat(HookWrites(isFactory, run, hooks[0]), Writes(isFactory, run, hooks[1..]), k);
    }
  }

  /** The keys of the accumulator are exactly the starting keys plus the names
      of the array-returning hooks and the keys of the other results. */
  lemma {:induction false} MergeKeys(isFactory: bool, run: nat -> Value, st: Run, hooks: seq<Hook>)
    requires MergeHooks(isFactory, run, st, hooks).status.Done?
    ensures MergeHooks(isFactory, run, st, hooks).acc.Keys == st.acc.Keys + Contributed(isFactory, run, hooks)
    decreases |hooks|
  {
    if hooks != [] {
      var next := ApplyHook(isFactory, run, st.acc, st.log, hooks[0]);
      MergeKeys(isFactory, run, next, hooks[1..]);
    }
  }

  // ----- Which functions are called -----

  lemma {:induction false} CallsAppend(a: seq<Event>, b: seq<Event>)
    ensures Calls(a + b) == Calls(a) + Calls(b)
    decreases |b|
  {
    if b == [] {
      assert a + b == a;
    } else {
      assert (a + b)[..|a + b| - 1] == a + b[..|b| - 1];
      CallsAppend(a, b[..|b| - 1]);
    }
  }

  lemma {:induction false} CallsOfWarnings(events: seq<Event>)
    requires OnlyWarnings(events)
    ensures Calls(events) == []
    decreases |events|
  {
    if events != [] {
      CallsOfWarnings(events[..|events| - 1]);
    }
  }

  lemma {:induction false} OnlyWarningsAppend(a: seq<Event>, b: seq<Event>)
    requires OnlyWarnings(a) && OnlyWarnings(b)
    ensures OnlyWarnings(a + b)
  {
    forall j | 0 <= j < |a + b| ensures (a + b)[j].Warned? {
      if j >= |a| { assert (a + b)[j] == b[j - |a|]; }
    }
  }

  /** In factory form nothing in the mapping is called: the reduce adds
      warnings to the log and nothing else. */
  lemma {:induction false} FactoryMergeOnlyWarns(run: nat -> Value, st: Run, hooks: seq<Hook>)
    ensures var r := MergeHooks(true, run, st, hooks); OnlyWarnings(r.log[|st.log|..])
    decreases |hooks|
  {
    if hooks != [] && st.status.Done? {
      var next := ApplyHook(true, run, st.acc, st.log, hooks[0]);
      var r := MergeHooks(true, run, next, hooks[1..]);
      FactoryMergeOnlyWarns(run, next, hooks[1..]);
      FactoryHookOnlyWarns(run, st, hooks[0]);
      SuffixSplit(st.log, next.log, r.log);
      OnlyWarningsAppend(next.log[|st.log|..], r.log[|next.log|..]);
    }
  }

  /** What a log gained over a prefix, split at an intermediate prefix. */
  lemma SuffixSplit(a: seq<Event>, b: seq<Event>, c: seq<Event>)
    requires |a| <= |b| <= |c| && c[..|b|] == b && b[..|a|] == a
    ensures c[|a|..] == b[|a|..] + c[|b|..]
  {
  }

  /** One hook in factory form logs warnings only. */
  lemma FactoryHookOnlyWarns(run: nat -> Value, st: Run, hook: Hook)
    ensures OnlyWarnings(ApplyHook(true, run, st.acc, st.log, hook).log[|st.log|..])
  {
    var v := HookReturn(true, run, hook.1).value;
    if !v.Arr? && Entries(v).Ok? {
      SpreadOnlyWarns(st.acc, st.log, Entries(v).value);
    }
  }

  /** One literal hook that completes logs its own call and otherwise only
      warnings. */
  lemma LiteralHookCall(run: nat -> Value, st: Run, hook: Hook)
    requires st.status.Done?
    requires ApplyHook(false, run, st.acc, st.log, hook).status.Done?
    ensures Calls(ApplyHook(false, run, st.acc, st.log, hook).log) == Calls(st.log) + [hook.0]
  {
    var next := ApplyHook(false, run, st.acc, st.log, hook);
    var called := st.log + [HookCalled(hook.0)];
    assert Calls(called) == Calls(st.log) + [hook.0] by {
      assert called[..|called| - 1] == st.log;
    }
    var v := HookReturn(false, run, hook.1).value;
    if !v.Arr? {
      SpreadOnlyWarns(st.acc, called, Entries(v).value);
      WarningsAfter(called, next.log);
    }
  }

  /** A log that extends another by warnings only has the same calls. */
  lemma WarningsAfter(log: seq<Event>, log': seq<Event>)
    requires |log| <= |log'| && log'[..|log|] == log && OnlyWarnings(log'[|log|..])
    ensures Calls(log') == Calls(log)
  {
    assert log' == log + log'[|log|..];
    CallsAppend(log, log'[|log|..]);
    CallsOfWarnings(log'[|log|..]);
  }

  /** In literal form, a render that completes has called every hook exactly
      once, in entry order. */
  lemma {:induction false} LiteralHooksCalledInOrder(run: nat -> Value, st: Run, hooks: seq<Hook>)
    requires st.status.Done?
    requires MergeHooks(false, run, st, hooks).status.Done?
    ensures Calls(MergeHooks(false, run, st, hooks).log) == Calls(st.log) + Names(hooks)
    decreases |hooks|
  {
    if hooks == [] {
      assert Names(hooks) == [];
    } else {
      var next := ApplyHook(false, run, st.acc, st.log, hooks[0]);
      assert MergeHooks(false, run, st, hooks) == MergeHooks(false, run, next, hooks[1..]);
      assert next.status.Done?;
      LiteralHooksCalledInOrder(run, next, hooks[1..]);
      LiteralHookCall(run, st, hooks[0]);
      NamesCons(hooks);
    }
  }

  // ----- One render pass -----

  /** `composeHooks(hooks)(component)` rendered: the component unchanged when
      hooks are absent, the wrapper over exactly these hooks otherwise. */
  lemma ComposedRendering(hooks: HooksSpec, component: Value, props: Props, run: nat -> Value)
    requires Truthy(component)
    ensures Compose(hooks, component).Ok?
    ensures hooks.Absent? ==> Rendering(Compose(hooks, component).value, props, run) == Rendered(Element(component, props), [])
    ensures !hooks.Absent? ==> Rendering(Compose(hooks, component).value, props, run) == Rendering(Wrapped(hooks, component), props, run)
  {
  }

  /** The props a composed component hands on: the caller's value for every
      key the caller gives, else the last hook write for that key; no other
      keys. */
  lemma RenderedProps(spec: GivenSpec, inner: Value, props: Props, run: nat -> Value, k: string)
    requires Rendering(Wrapped(spec, inner), props, run).Rendered?
    ensures var out := Rendering(Wrapped(spec, inner), props, run).element.props;
      var hooks := Resolve(spec, props).0.value;
      if k in props then k in out && out[k] == props[k]
      else match LastValue(Writes(spec.Factory?, run, hooks), k)
        case Some(v) => k in out && out[k] == v
        case None => k !in out
  {
    var resolved := Resolve(spec, props);
    MergeLastWriter(spec.Factory?, run, Run(Done, map[], resolved.1), resolved.0.value, k);
  }

  /** A factory is called once per render, before anything else, and the
      values of the mapping it returns are never called. */
  lemma FactoryCalledOnce(spec: GivenSpec, inner: Value, props: Props, run: nat -> Value)
    requires spec.Factory?
    ensures var out := Rendering(Wrapped(spec, inner), props, run);
      |out.log| >= 1 && out.log[0] == FactoryCalled && OnlyWarnings(out.log[1..]) && Calls(out.log) == []
  {
    var resolved := Resolve(spec, props);
    var out := Rendering(Wrapped(spec, inner), props, run);
    if resolved.0.Ok? {
      FactoryMergeOnlyWarns(run, Run(Done, map[], [FactoryCalled]), resolved.0.value);
    }
    assert out.log == [FactoryCalled] + out.log[1..];
    CallsAppend([FactoryCalled], out.log[1..]);
    CallsOfWarnings(out.log[1..]);
    assert Calls([FactoryCalled]) == [];
  }

  /** A literal mapping's hooks are each called exactly once, in entry order,
      on every render that completes. */
  lemma LiteralRenderCalls(hooks: seq<Hook>, inner: Value, props: Props, run: nat -> Value)
    requires Rendering(Wrapped(Literal(hooks), inner), props, run).Rendered?
    ensures Calls(Rendering(Wrapped(Literal(hooks), inner), props, run).log) == Names(hooks)
  {
    LiteralHooksCalledInOrder(run, Run(Done, map[], []), hooks);
  }

  /** The caller's props never cause a warning and never change which hooks
      run: with a literal mapping, two renders with different props have the
      same outcome kind and the same log. */
  lemma LiteralLogIgnoresProps(hooks: seq<Hook>, inner: Value, p1: Props, p2: Props, run: nat -> Value)
    ensures var o1 := Rendering(Wrapped(Literal(hooks), inner), p1, run);
      var o2 := Rendering(Wrapped(Literal(hooks), inner), p2, run);
      o1.log == o2.log && o1.Rendered? == o2.Rendered?
  {
  }
}
