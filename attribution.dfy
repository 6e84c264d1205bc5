/**
 * How the test watcher attributes a failure to a stage of the JUnit
 * lifecycle. The watcher keeps three flags in extension stores: `BEFOREALL`
 * in the class-wide store, `BEFOREEACH` and `TEST` in the store of the
 * current test method. Each hook either writes flags or reads them to decide
 * whether to collect diagnostics, and under which stage name.
 *
 * `React` is what one hook does to the flags; the `Run…` functions replay the
 * order in which JUnit 5 calls the hooks around the user's lifecycle methods,
 * so that the attribution of a whole test method, and of a whole test class,
 * can be stated and proved.
 */
module Attribution {
  import opened Wrappers
  import opened Text
  import opened Diagnostics

  // ---------------------------------------------------------------- the flags

  /** The per-method store: `None` for a key that was never put. */
  datatype MethodStore = MethodStore(beforeEach: Option<bool>, test: Option<bool>)

  /**
   * The watcher's flags. `beforeAll` is `None` while the class-wide store is
   * still `null` (before the `beforeAll` callback, which always puts the key);
   * `store` is `None` while the per-method store is still `null`.
   */
  datatype Flags = Flags(beforeAll: Option<bool>, store: Option<MethodStore>)

  /** The flags of a freshly created watcher. */
  const Initial: Flags := Flags(None, None)

  /** The hooks of the watcher that read or write flags. */
  datatype Hook =
    | BeforeAllCallback
      /** `newContext`: the first `@BeforeEach` of a test method, whose store is new. */
    | InterceptBeforeEach(newContext: bool)
    | InterceptTest
    | HandleTestException
    | InterceptAfterEach
    | TestFailed
    | InterceptAfterAll
    | AfterAllCallback(executionException: bool)

  /**
   * How a hook ends: `Returned` (for an intercepting hook, after letting the
   * intercepted method run), `Rethrew` the exception it was handed, or raised
   * a `NullPointerException` by reading or writing a `null` store or
   * unboxing a key that was never put.
   */
  datatype Outcome = Returned | Rethrew | NullPointer

  /** The new flags, the stage collected (if any), and how the hook ended. */
  datatype Reaction = Reaction(next: Flags, collect: Option<Stage>, outcome: Outcome)

  /** One hook. */
  function React(f: Flags, h: Hook): Reaction {
    match h
    case BeforeAllCallback =>
      Reaction(f.(beforeAll := Some(false)), None, Returned)
    case InterceptBeforeEach(newContext) =>
      var s := if newContext || f.store.None? then MethodStore(None, None) else f.store.value;
      if f.beforeAll.None? then Reaction(f.(store := Some(s)), None, NullPointer)
      else Reaction(Flags(Some(true), Some(s.(beforeEach := Some(false)))), None, Returned)
    case InterceptTest =>
      if f.store.None? then Reaction(f, None, NullPointer)
      else Reaction(f.(store := Some(MethodStore(Some(true), Some(true)))), None, Returned)
    case HandleTestException =>
      if f.store.None? then Reaction(f, None, NullPointer)
      else Reaction(f.(store := Some(f.store.value.(test := Some(false)))), Some(Test), Rethrew)
    case InterceptAfterEach =>
      if f.store.None? || f.store.value.beforeEach.None? then Reaction(f, None, NullPointer)
      else Reaction(f, if f.store.value.beforeEach.value then None else Some(BeforeEach), Returned)
    case TestFailed =>
      if f.store.None? || f.store.value.beforeEach.None? then Reaction(f, None, NullPointer)
      else if !f.store.value.beforeEach.value then Reaction(f, None, Returned)
      else if f.store.value.test.None? then Reaction(f, None, NullPointer)
      else Reaction(f, if f.store.value.test.value then Some(AfterEach) else None, Returned)
    case InterceptAfterAll =>
      if f.beforeAll.None? then Reaction(f, None, NullPointer)
      else Reaction(f, if f.beforeAll.value then None else Some(BeforeAll), Returned)
    case AfterAllCallback(ex) =>
      Reaction(f, if ex then Some(AfterAll) else None, Returned)
  }

  // ---------------------------------------------------------------- per-hook facts

  /**
   * `testFailed` never reads `TEST` once `BEFOREEACH` is false: it neither
   * collects nor fails, whether or not `TEST` was put.
   */
  lemma TestFailedShortCircuits(b: Option<bool>, t: Option<bool>)
    ensures var f := Flags(b, Some(MethodStore(Some(false), t)));
      React(f, TestFailed) == Reaction(f, None, Returned)
  {
  }

  /**
   * Only `handleTestExecutionException` collects under `test`, only
   * `interceptAfterEachMethod` under `beforeEach`, only `testFailed` under
   * `afterEach`, only `interceptAfterAllMethod` under `beforeAll` and only the
   * `afterAll` callback under `afterAll`; the hooks that write flags collect nothing.
   */
  lemma CollectingHooks(f: Flags, h: Hook)
    ensures React(f, h).collect == Some(Test) ==> h == HandleTestException
    ensures React(f, h).collect == Some(BeforeEach) ==> h == InterceptAfterEach
    ensures React(f, h).collect == Some(AfterEach) ==> h == TestFailed
    ensures React(f, h).collect == Some(BeforeAll) ==> h == InterceptAfterAll
    ensures React(f, h).collect == Some(AfterAll) ==> h.AfterAllCallback?
    ensures React(f, h).collect.Some? ==> React(f, h).outcome != NullPointer
  {
  }

  /** Only the four writing hooks change the flags. */
  lemma ReadingHooksKeepFlags(f: Flags, h: Hook)
    requires h in {InterceptAfterEach, TestFailed, InterceptAfterAll} || h.AfterAllCallback?
    ensures React(f, h).next == f
  {
  }

  /** `handleTestExecutionException` never returns normally: it rethrows, or fails on a `null` store. */
  lemma HandlerAlwaysThrows(f: Flags)
    ensures React(f, HandleTestException).outcome != Returned
    ensures React(f, HandleTestException).outcome == Rethrew <==> f.store.Some?
  {
  }

  // ---------------------------------------------------------------- the JUnit lifecycle

  /** The flags and the stages collected so far, in order. */
  datatype Run = Run(flags: Flags, collected: seq<Stage>)

  /** Call one hook. */
  function Fire(r: Run, h: Hook): (Run, Outcome) {
    var x := React(r.flags, h);
    (Run(x.next, r.collected + Listed(x.collect)), x.outcome)
  }

  /** A run and whether the test method (or the class) has failed. */
  datatype Phase = Phase(run: Run, failed: bool)

  /**
   * The outcomes of the user's lifecycle methods for one test method: one
   * entry per declared `@BeforeEach` and `@AfterEach` method (true when it
   * completes), and whether the test body completes.
   */
  datatype MethodRun = MethodRun(beforeEach: seq<bool>, body: bool, afterEach: seq<bool>)

  /**
   * The `@BeforeEach` methods, each through `interceptBeforeEachMethod`; JUnit
   * stops at the first that fails (or whose interceptor throws).
   */
  function RunBefores(r: Run, bodies: seq<bool>, first: bool): Phase
    decreases |bodies|
  {
    if bodies == [] then Phase(r, false)
    else
      var (r', o) := Fire(r, InterceptBeforeEach(first));
      if o != Returned || !bodies[0] then Phase(r', true)
      else RunBefores(r', bodies[1..], false)
  }

  /**
   * The test body through `interceptTestMethod`; any exception from the body
   * or the interceptor is handed to `handleTestExecutionException`.
   */
  function RunBody(r: Run, body: bool): Phase {
    var (r', o) := Fire(r, InterceptTest);
    if o == Returned && body then Phase(r', false)
    else Phase(Fire(r', HandleTestException).0, true)
  }

  /** The `@AfterEach` methods, each through `interceptAfterEachMethod`; all of them run. */
  function RunAfters(r: Run, bodies: seq<bool>): Phase
    decreases |bodies|
  {
    if bodies == [] then Phase(r, false)
    else
      var (r', o) := Fire(r, InterceptAfterEach);
      var rest := RunAfters(r', bodies[1..]);
      Phase(rest.run, o != Returned || !bodies[0] || rest.failed)
  }

  /**
   * One test method: before-each methods, the body if they all completed,
   * the after-each methods, then `testFailed` when anything failed
   * (`testSuccessful` only logs). An exception from `testFailed` itself is
   * swallowed by JUnit.
   */
  function RunMethod(r: Run, m: MethodRun): Phase {
    var b := RunBefores(r, m.beforeEach, true);
    var t := if b.failed then b else RunBody(b.run, m.body);
    var a := RunAfters(t.run, m.afterEach);
    if t.failed || a.failed then Phase(Fire(a.run, TestFailed).0, true) else Phase(a.run, false)
  }

  /** The test methods of a class, in order. */
  function RunMethods(r: Run, ms: seq<MethodRun>): Run
    decreases |ms|
  {
    if ms == [] then r else RunMethods(RunMethod(r, ms[0]).run, ms[1..])
  }

  /** The `@AfterAll` methods, each through `interceptAfterAllMethod`; all of them run. */
  function RunAfterAlls(r: Run, bodies: seq<bool>): Phase
    decreases |bodies|
  {
    if bodies == [] then Phase(r, false)
    else
      var (r', o) := Fire(r, InterceptAfterAll);
      var rest := RunAfterAlls(r', bodies[1..]);
      Phase(rest.run, o != Returned || !bodies[0] || rest.failed)
  }

  /**
   * The outcomes of the user's methods for one test class: its `@BeforeAll`
   * methods, its test methods and its `@AfterAll` methods.
   */
  datatype ClassRun = ClassRun(beforeAll: seq<bool>, methods: seq<MethodRun>, afterAll: seq<bool>)

  /**
   * One test class on a fresh watcher: the `beforeAll` callback, the
   * `@BeforeAll` methods (stopping at the first failure, in which case no
   * test method runs), the test methods, the `@AfterAll` methods, then the
   * `afterAll` callback, which sees an execution exception exactly when a
   * class-level method failed.
   */
  function RunClass(cls: ClassRun): Run {
    var (r0, _) := Fire(Run(Initial, []), BeforeAllCallback);
    var beforeAllFailed := false in cls.beforeAll;
    var r1 := if beforeAllFailed then r0 else RunMethods(r0, cls.methods);
    var a := RunAfterAlls(r1, cls.afterAll);
    Fire(a.run, AfterAllCallback(beforeAllFailed || a.failed)).0
  }

  // ---------------------------------------------------------------- what a test method collects

  /** Whether a test method fails, from the outcomes of its user methods. */
  predicate MethodFails(m: MethodRun) {
    false in m.beforeEach || !m.body || false in m.afterEach
  }

  /**
   * The stages a test method should be reported under: `beforeEach` (once per
   * after-each method, since each `interceptAfterEachMethod` sees the flag)
   * when a before-each method failed, `test` when the body failed, `afterEach`
   * when only an after-each method failed, and nothing when all passed.
   */
  function MethodCollected(m: MethodRun): seq<Stage> {
    if false in m.beforeEach then Repeat([BeforeEach], |m.afterEach|)
    else if !m.body then [Test]
    else if false in m.afterEach then [AfterEach]
    else []
  }

  /** The flags once a test method has entered its before-each stage. */
  const Entered: Flags := Flags(Some(true), Some(MethodStore(Some(false), None)))

  lemma {:induction false} RunBeforesEnters(r: Run, bodies: seq<bool>, first: bool)
    requires first ==> |bodies| > 0 && r.flags.beforeAll.Some?
    requires !first ==> r.flags == Entered
    ensures RunBefores(r, bodies, first) == Phase(Run(Entered, r.collected), false in bodies)
    decreases |bodies|
  {
    if bodies != [] {
      var (r', o) := Fire(r, InterceptBeforeEach(first));
      assert r' == Run(Entered, r.collected) && o == Returned;
      RunBeforesEnters(r', bodies[1..], false);
      assert bodies == [bodies[0]] + bodies[1..];
    }
  }

  lemma FalseInCons(bs: seq<bool>)
    requires bs != []
    ensures (false in bs) <==> (!bs[0] || false in bs[1..])
  {
    assert bs == [bs[0]] + bs[1..];
  }

  lemma RepeatStep(c: seq<Stage>, s: Stage, n: nat)
    requires n > 0
    ensures c + Repeat([s], n) == c + [s] + Repeat([s], n - 1)
  {
    AppendAssoc(c, [s], Repeat([s], n - 1));
  }

  lemma {:induction false} RunAftersReadFlag(r: Run, bodies: seq<bool>)
    requires r.flags.store.Some? && r.flags.store.value.beforeEach.Some?
    ensures var b := r.flags.store.value.beforeEach.value;
      RunAfters(r, bodies) ==
        Phase(Run(r.flags, r.collected + (if b then [] else Repeat([BeforeEach], |bodies|))), false in bodies)
    decreases |bodies|
  {
    if bodies != [] {
      var b := r.flags.store.value.beforeEach.value;
      var here: seq<Stage> := if b then [] else [BeforeEach];
      var r' := Run(r.flags, r.collected + here);
      assert Fire(r, InterceptAfterEach) == (r', Returned);
      RunAftersReadFlag(r', bodies[1..]);
      FalseInCons(bodies);
      if b {
        assert r.collected + here == r.collected;
      } else {
        RepeatStep(r.collected, BeforeEach, |bodies|);
      }
    }
  }

  /**
   * Once the `beforeAll` callback has run, a test method with at least one
   * `@BeforeEach` method is reported under exactly the stages
   * `MethodCollected` names, fails exactly when one of its user methods
   * fails, and leaves `BEFOREALL` true.
   */
  lemma MethodAttribution(r: Run, m: MethodRun)
    requires r.flags.beforeAll.Some? && |m.beforeEach| > 0
    ensures RunMethod(r, m).run.collected == r.collected + MethodCollected(m)
    ensures RunMethod(r, m).failed <==> MethodFails(m)
    ensures RunMethod(r, m).run.flags.beforeAll == Some(true)
  {
    RunBeforesEnters(r, m.beforeEach, true);
    var b := RunBefores(r, m.beforeEach, true);
    var t := if b.failed then b else RunBody(b.run, m.body);
    assert t.run.flags.beforeAll == Some(true) && t.run.flags.store.Some?;
    RunAftersReadFlag(t.run, m.afterEach);
    if !b.failed && !m.body {
      assert t.run.collected == r.collected + [Test];
    }
  }

  /** The stages collected for one test method are all the same one. */
  lemma MethodCollectsOneStage(m: MethodRun)
    ensures forall i, j :: 0 <= i < j < |MethodCollected(m)| ==> MethodCollected(m)[i] == MethodCollected(m)[j]
    ensures forall s :: s in MethodCollected(m) ==> s in {BeforeEach, Test, AfterEach}
  {
    if false in m.beforeEach {
      RepeatOne(BeforeEach, |m.afterEach|);
    }
  }

  /** Something is collected for a test method, with at least one after-each method, exactly when it fails. */
  lemma MethodCollectsIffFails(m: MethodRun)
    requires |m.afterEach| > 0
    ensures MethodCollected(m) != [] <==> MethodFails(m)
  {
    if false in m.beforeEach {
      RepeatOne(BeforeEach, |m.afterEach|);
    }
  }

  /**
   * A test method of a class without `@BeforeEach` methods never gets a
   * per-method store: `interceptTestMethod` fails on the `null` store before
   * the body runs, so the method fails and nothing is collected for it.
   */
  lemma NoBeforeEachFailsSilently(r: Run, m: MethodRun)
    requires r.flags.store.None? && m.beforeEach == []
    ensures RunMethod(r, m) == Phase(r, true)
  {
    assert RunBefores(r, m.beforeEach, true) == Phase(r, false);
    assert r.collected + [] == r.collected;
    assert Fire(r, InterceptTest) == (r, NullPointer);
    assert Fire(r, HandleTestException) == (r, NullPointer);
    assert RunBody(r, m.body) == Phase(r, true);
    NullStoreAfters(r, m.afterEach);
    assert Fire(r, TestFailed) == (r, NullPointer);
  }

  lemma {:induction false} NullStoreAfters(r: Run, bodies: seq<bool>)
    requires r.flags.store.None?
    ensures RunAfters(r, bodies).run == r
    decreases |bodies|
  {
    if bodies != [] {
      var (r', o) := Fire(r, InterceptAfterEach);
      assert r' == r;
      NullStoreAfters(r', bodies[1..]);
    }
  }

  /**
   * A failing `@BeforeEach` method is reported once per `@AfterEach` method,
   * so in a method without `@AfterEach` methods it is not reported at all,
   * although the method fails.
   */
  lemma BeforeEachFailureUnreportedWithoutAfterEach(r: Run, m: MethodRun)
    requires r.flags.beforeAll.Some? && false in m.beforeEach && m.afterEach == []
    ensures RunMethod(r, m).run.collected == r.collected
    ensures RunMethod(r, m).failed
  {
    MethodAttribution(r, m);
    assert MethodCollected(m) == [];
  }

  /**
   * `interceptTestMethod` as evidently intended: when no `@BeforeEach`
   * method has created the per-method store, it creates the store itself;
   * and it records, as `interceptBeforeEachMethod` does, that the class got
   * past its `@BeforeAll` methods.
   */
  function ReactTestCorrected(f: Flags): Reaction {
    if f.beforeAll.None? then React(f, InterceptTest)
    else Reaction(Flags(Some(true), Some(MethodStore(Some(true), Some(true)))), None, Returned)
  }

  /** The test body through the corrected `interceptTestMethod`. */
  function RunBodyCorrected(r: Run, body: bool): Phase {
    var x := ReactTestCorrected(r.flags);
    var r' := Run(x.next, r.collected + Listed(x.collect));
    if x.outcome == Returned && body then Phase(r', false)
    else Phase(Fire(r', HandleTestException).0, true)
  }

  /** One test method with the corrected `interceptTestMethod`. */
  function RunMethodCorrected(r: Run, m: MethodRun): Phase {
    var b := RunBefores(r, m.beforeEach, true);
    var t := if b.failed then b else RunBodyCorrected(b.run, m.body);
    var a := RunAfters(t.run, m.afterEach);
    if t.failed || a.failed then Phase(Fire(a.run, TestFailed).0, true) else Phase(a.run, false)
  }

  /**
   * With the corrected `interceptTestMethod`, every test method, with or
   * without `@BeforeEach` methods, is reported under exactly the stages
   * `MethodCollected` names, fails exactly when one of its user methods
   * fails, and leaves `BEFOREALL` true.
   */
  lemma CorrectedMethodAttribution(r: Run, m: MethodRun)
    requires r.flags.beforeAll.Some?
    ensures RunMethodCorrected(r, m).run.collected == r.collected + MethodCollected(m)
    ensures RunMethodCorrected(r, m).failed <==> MethodFails(m)
    ensures RunMethodCorrected(r, m).run.flags.beforeAll == Some(true)
  {
    var b := RunBefores(r, m.beforeEach, true);
    if m.beforeEach == [] {
      assert b == Phase(r, false);
    } else {
      RunBeforesEnters(r, m.beforeEach, true);
    }
    var t := if b.failed then b else RunBodyCorrected(b.run, m.body);
    assert t.run.flags.beforeAll == Some(true) && t.run.flags.store.Some?;
    RunAftersReadFlag(t.run, m.afterEach);
    if !b.failed {
      assert t.run.collected == r.collected + (if m.body then [] else [Test]);
    }
  }

  // ---------------------------------------------------------------- what a test class collects

  /** Every test method of a class declares the same number `n` of `@BeforeEach` methods. */
  predicate SameBeforeEach(ms: seq<MethodRun>, n: nat) {
    forall i :: 0 <= i < |ms| ==> |ms[i].beforeEach| == n
  }

  lemma SameBeforeEachTail(ms: seq<MethodRun>, n: nat)
    requires ms != [] && SameBeforeEach(ms, n)
    ensures SameBeforeEach(ms[1..], n)
  {
    forall i | 0 <= i < |ms[1..]| ensures |ms[1..][i].beforeEach| == n {
      assert ms[1..][i] == ms[i + 1];
    }
  }

  /** The concatenated method-level reports of the methods of a class. */
  function MethodsCollected(ms: seq<MethodRun>): seq<Stage>
    decreases |ms|
  {
    if ms == [] then [] else MethodCollected(ms[0]) + MethodsCollected(ms[1..])
  }

  lemma {:induction false} RunMethodsEntering(r: Run, ms: seq<MethodRun>, n: nat)
    requires r.flags.beforeAll.Some? && n > 0 && SameBeforeEach(ms, n)
    ensures RunMethods(r, ms).collected == r.collected + MethodsCollected(ms)
    ensures RunMethods(r, ms).flags.beforeAll == (if ms == [] then r.flags.beforeAll else Some(true))
    decreases |ms|
  {
    if ms != [] {
      MethodAttribution(r, ms[0]);
      var r' := RunMethod(r, ms[0]).run;
      assert RunMethods(r, ms) == RunMethods(r', ms[1..]);
      SameBeforeEachTail(ms, n);
      RunMethodsEntering(r', ms[1..], n);
      AppendAssoc(r.collected, MethodCollected(ms[0]), MethodsCollected(ms[1..]));
    }
  }

  lemma {:induction false} RunMethodsWithoutBeforeEach(r: Run, ms: seq<MethodRun>)
    requires r.flags.store.None? && SameBeforeEach(ms, 0)
    ensures RunMethods(r, ms) == r
    decreases |ms|
  {
    if ms != [] {
      NoBeforeEachFailsSilently(r, ms[0]);
      SameBeforeEachTail(ms, 0);
      RunMethodsWithoutBeforeEach(r, ms[1..]);
    }
  }

  lemma {:induction false} RunAfterAllsReadFlag(r: Run, bodies: seq<bool>)
    requires r.flags.beforeAll.Some?
    ensures var b := r.flags.beforeAll.value;
      RunAfterAlls(r, bodies) ==
        Phase(Run(r.flags, r.collected + (if b then [] else Repeat([BeforeAll], |bodies|))), false in bodies)
    decreases |bodies|
  {
    if bodies != [] {
      var b := r.flags.beforeAll.value;
      var here: seq<Stage> := if b then [] else [BeforeAll];
      var r' := Run(r.flags, r.collected + here);
      assert Fire(r, InterceptAfterAll) == (r', Returned);
      RunAfterAllsReadFlag(r', bodies[1..]);
      FalseInCons(bodies);
      if b {
        assert r.collected + here == r.collected;
      } else {
        RepeatStep(r.collected, BeforeAll, |bodies|);
      }
    }
  }

  /** `BEFOREALL` is still false at the class's end: no test method ever entered a before-each stage. */
  predicate NoBeforeEachEntered(cls: ClassRun, n: nat) {
    false in cls.beforeAll || cls.methods == [] || n == 0
  }

  /** An execution exception reaches the class context. */
  predicate ClassFails(cls: ClassRun) {
    false in cls.beforeAll || false in cls.afterAll
  }

  /**
   * What a whole test class collects, when its methods declare `n`
   * `@BeforeEach` methods each (a class whose `@BeforeAll` fails runs none): the method-level reports (none when a
   * `@BeforeAll` method failed, since then no test method runs, and none
   * when `n` is zero); `beforeAll` once per `@AfterAll` method exactly when
   * no before-each stage was ever entered; and `afterAll` exactly when a
   * class-level method failed.
   */
  lemma ClassAttribution(cls: ClassRun, n: nat)
    requires false in cls.beforeAll || SameBeforeEach(cls.methods, n)
    ensures RunClass(cls).collected ==
      (if false in cls.beforeAll || n == 0 then [] else MethodsCollected(cls.methods))
      + (if NoBeforeEachEntered(cls, n) then Repeat([BeforeAll], |cls.afterAll|) else [])
      + (if ClassFails(cls) then [AfterAll] else [])
  {
    var (r0, _) := Fire(Run(Initial, []), BeforeAllCallback);
    assert r0 == Run(Flags(Some(false), None), []);
    var r1 := if false in cls.beforeAll then r0 else RunMethods(r0, cls.methods);
    if !(false in cls.beforeAll) {
      if n == 0 {
        RunMethodsWithoutBeforeEach(r0, cls.methods);
      } else {
        RunMethodsEntering(r0, cls.methods, n);
      }
    }
    assert r1.flags.beforeAll == Some(!NoBeforeEachEntered(cls, n));
    assert r1.collected == (if false in cls.beforeAll || n == 0 then [] else MethodsCollected(cls.methods));
    RunAfterAllsReadFlag(r1, cls.afterAll);
    var a := RunAfterAlls(r1, cls.afterAll);
    assert RunClass(cls) == Fire(a.run, AfterAllCallback(false in cls.beforeAll || a.failed)).0;
  }

  /**
   * A failing `@BeforeAll` method in a class with an `@AfterAll` method is
   * reported twice: under `beforeAll` by `interceptAfterAllMethod` and under
   * `afterAll` by the `afterAll` callback.
   */
  lemma BeforeAllFailureReportedTwice(cls: ClassRun)
    requires false in cls.beforeAll && |cls.afterAll| > 0
    ensures BeforeAll in RunClass(cls).collected && AfterAll in RunClass(cls).collected
  {
    ClassAttribution(cls, 0);
    RepeatOne(BeforeAll, |cls.afterAll|);
    assert Repeat([BeforeAll], |cls.afterAll|)[0] == BeforeAll;
  }

  /**
   * A class whose `@BeforeAll` and `@AfterAll` methods all pass but whose
   * methods declare no `@BeforeEach` method is reported under `beforeAll`,
   * once per `@AfterAll` method, because nothing sets `BEFOREALL` to true;
   * each of its test methods fails on the `null` store and is reported
   * under nothing (`NoBeforeEachFailsSilently`).
   */
  lemma NoBeforeEachReportsBeforeAll(cls: ClassRun)
    requires !(false in cls.beforeAll) && !(false in cls.afterAll) && SameBeforeEach(cls.methods, 0)
    ensures RunClass(cls).collected == Repeat([BeforeAll], |cls.afterAll|)
  {
    ClassAttribution(cls, 0);
    assert NoBeforeEachEntered(cls, 0) && !ClassFails(cls);
    var rule := Repeat([BeforeAll], |cls.afterAll|);
    assert [] + rule + [] == rule;
  }

  /**
   * A failing `@BeforeAll` method in a class without `@AfterAll` methods is
   * reported only under `afterAll`, by the `afterAll` callback.
   */
  lemma BeforeAllFailureWithoutAfterAll(cls: ClassRun)
    requires false in cls.beforeAll && cls.afterAll == []
    ensures RunClass(cls).collected == [AfterAll]
  {
    ClassAttribution(cls, 0);
    assert Repeat([BeforeAll], |cls.afterAll|) == [];
  }

  /** A class whose user methods all pass, with a before-each stage entered, collects nothing. */
  lemma PassingClassCollectsNothing(cls: ClassRun, n: nat)
    requires n > 0 && cls.methods != [] && SameBeforeEach(cls.methods, n)
    requires !(false in cls.beforeAll) && !(false in cls.afterAll)
    requires forall i :: 0 <= i < |cls.methods| ==> !MethodFails(cls.methods[i])
    ensures RunClass(cls).collected == []
  {
    ClassAttribution(cls, n);
    PassingMethodsCollectNothing(cls.methods);
  }

  lemma {:induction false} PassingMethodsCollectNothing(ms: seq<MethodRun>)
    requires forall i :: 0 <= i < |ms| ==> !MethodFails(ms[i])
    ensures MethodsCollected(ms) == []
    decreases |ms|
  {
    if ms != [] {
      assert forall i :: 0 <= i < |ms[1..]| ==> ms[1..][i] == ms[i + 1];
      PassingMethodsCollectNothing(ms[1..]);
    }
  }
}
