/**
 * The test watcher itself: an object whose fields hold the current class
 * and method names and the two stores, with one method per JUnit hook.
 * Each hook changes the fields as `React` says, and when `React` names a
 * stage it runs `collectLogs`, whose directory walk and per-namespace dump
 * are loops recording their file-system effects in a ghost log.
 */
module Watcher {
  import opened Wrappers
  import opened Text
  import opened Diagnostics
  import opened Attribution

  /**
   * What JUnit and the environment hand to a hook: the qualified and simple
   * names of the test class, the name of the current test method, the test
   * instance (as reflection sees its fields), the cluster and file system,
   * and the `java.io.tmpdir` property.
   */
  datatype Context = Context(
    testClass: string,
    simpleName: string,
    testMethod: string,
    instance: Instance,
    cluster: Cluster,
    tmpDir: string)

  /**
   * `getHeader(header, name, rc)`: the text line `header + "   " + name`
   * between two rules of `rc` repeated as many times as the line is long.
   */
  function Header(header: string, name: string, rc: string): string {
    var line := header + "   " + name;
    "\n" + Repeat(rc, |line|) + "\n" + line + "\n" + Repeat(rc, |line|) + "\n"
  }

  /**
   * With a one-character rule and no line breaks in the texts, a header is
   * an empty line, a rule exactly as long as the text line and made only of
   * the rule character, the text line, the same rule, and an empty tail.
   */
  lemma HeaderLines(header: string, name: string, c: char)
    requires '\n' !in header && '\n' !in name && c != '\n'
    ensures var line := header + "   " + name;
            var rule := Repeat([c], |line|);
      && Split(Header(header, name, [c]), '\n') == ["", rule, line, rule, ""]
      && |rule| == |line| == |header| + 3 + |name|
      && forall i :: 0 <= i < |rule| ==> rule[i] == c
  {
    var line := header + "   " + name;
    var rule := Repeat([c], |line|);
    RepeatOne(c, |line|);
    assert '\n' !in rule;
    assert '\n' !in line;
    var s := Header(header, name, [c]);
    assert s == [] + ['\n'] + (rule + ['\n'] + (line + ['\n'] + (rule + ['\n'] + [])));
    SplitAround([], '\n', rule + ['\n'] + (line + ['\n'] + (rule + ['\n'] + [])));
    SplitAround(rule, '\n', line + ['\n'] + (rule + ['\n'] + []));
    SplitAround(line, '\n', rule + ['\n'] + []);
    SplitAround(rule, '\n', []);
    SplitOfPiece(rule, '\n');
    SplitOfPiece(line, '\n');
  }

  class TestWatcher {
    /** The qualified name of the test class, set by the `beforeAll` callback. */
    var className: Option<string>
    /** The name of the current test method, set on entering its before-each stage. */
    var methodName: Option<string>
    /** `BEFOREALL` in the class-wide store; `None` while that store is `null`. */
    var globalFlag: Option<bool>
    /** The per-method store; `None` while it is `null`. */
    var testStore: Option<MethodStore>
    /** The stages `collectLogs` was called with, in order. */
    ghost var collected: seq<Stage>
    /** The directories created and files written by the collections, in order. */
    ghost var log: seq<Effect>

    /** The flags, as `React` sees them. */
    function State(): Flags
      reads this
    {
      Flags(globalFlag, testStore)
    }

    /** The method name as Java's string concatenation renders it (`null` before any method). */
    function TestName(): string
      reads this
    {
      if methodName.Some? then methodName.value else "null"
    }

    constructor ()
      ensures State() == Initial
      ensures className == None && methodName == None
      ensures collected == [] && log == []
    {
      className, methodName := None, None;
      globalFlag, testStore := None, None;
      collected, log := [], [];
    }

    /** Nothing but the log changes. */
    twostate predicate OnlyLogChanged()
      reads this
    {
      State() == old(State()) && className == old(className) && methodName == old(methodName)
      && collected == old(collected)
    }

    /**
     * The listing part of a pass after its first block: fetch each kind and
     * write its file in turn, every file receiving the service-account dump
     * `sa`; false as soon as a fetch or a write fails.
     */
    method WriteListings(ns: string, dir: Path, c: Cluster, kinds: seq<Kind>, sa: string) returns (completed: bool)
      modifies this
      ensures var p := ListingWrites(ns, dir, c, kinds, ServiceAccountDump(sa));
        log == old(log) + p.effects && completed == p.completed
      ensures OnlyLogChanged()
    {
      ghost var done: seq<Effect> := [];
      var i := 0;
      while i < |kinds|
        invariant i <= |kinds|
        invariant log == old(log) + done
        invariant OnlyLogChanged()
        invariant ListingWrites(ns, dir, c, kinds, ServiceAccountDump(sa)) ==
          var rest := ListingWrites(ns, dir, c, kinds[i..], ServiceAccountDump(sa));
          Progress(done + rest.effects, rest.completed)
      {
        var k := kinds[i];
        assert kinds[i..][0] == k;
        var listing := c.list(k, Scope(k, ns));
        if listing.None? {
          return false;
        }
        var file := dir + [KindFile(ns, k)];
        if !c.canWrite(file) {
          return false;
        }
        ghost var w := Wrote(file, Listing(ServiceAccounts, sa));
        ListingWritesStep(ns, dir, c, kinds, ServiceAccountDump(sa), i);
        AppendAssoc(done, [w], ListingWrites(ns, dir, c, kinds[i + 1..], ServiceAccountDump(sa)).effects);
        log := log + [w];
        done := done + [w];
        i := i + 1;
      }
      assert kinds[i..] == [];
      completed := true;
    }

    /** The pod part of a pass: each pod's log in turn, up to the first failure. */
    method WritePodLogs(ns: string, dir: Path, c: Cluster)
      modifies this
      ensures log == old(log) + PodPart(ns, dir, c)
      ensures OnlyLogChanged()
    {
      var pods := c.pods(ns);
      if pods.None? {
        return;
      }
      var names := pods.value;
      ghost var done: seq<Effect> := [];
      var j := 0;
      while j < |names|
        invariant j <= |names|
        invariant log == old(log) + done
        invariant OnlyLogChanged()
        invariant PodWrites(ns, dir, c, names) == done + PodWrites(ns, dir, c, names[j..])
      {
        var pod := names[j];
        assert names[j..][0] == pod && names[j..][1..] == names[j + 1..];
        var podLog := c.podLog(pod, ns);
        if podLog.None? {
          return;
        }
        var file := dir + [PodFile(ns, pod)];
        if !c.canWrite(file) {
          return;
        }
        ghost var w := Wrote(file, PodLog(pod, podLog.value));
        assert PodWrites(ns, dir, c, names[j..]) == [w] + PodWrites(ns, dir, c, names[j + 1..]);
        assert done + [w] + PodWrites(ns, dir, c, names[j + 1..]) == done + ([w] + PodWrites(ns, dir, c, names[j + 1..]));
        log := log + [w];
        done := done + [w];
        j := j + 1;
      }
      assert names[j..] == [];
    }

    /**
     * One `generateLog(ns, dir)` pass: the service accounts are fetched and
     * dumped first, then each later manifest kind is fetched and its file
     * written with that same dump, then each pod log; the first failure
     * leaves the pass.
     */
    method GenerateLog(ns: string, dir: Path, c: Cluster)
      modifies this
      ensures log == old(log) + GenerateLogAsWritten(ns, dir, c)
      ensures OnlyLogChanged()
    {
      var accounts := c.list(ServiceAccounts, Scope(ServiceAccounts, ns));
      if accounts.None? {
        return;
      }
      var sa := accounts.value;
      var file := dir + [KindFile(ns, ServiceAccounts)];
      if !c.canWrite(file) {
        assert !ListingSucceeds(ns, dir, c, Manifest[0]);
        return;
      }
      ghost var w := Wrote(file, Listing(ServiceAccounts, sa));
      ListingWritesStep(ns, dir, c, Manifest, ServiceAccountDump(sa), 0);
      assert Manifest[0..] == Manifest;
      log := log + [w];
      var completed := WriteListings(ns, dir, c, Manifest[1..], sa);
      ghost var rest := ListingWrites(ns, dir, c, Manifest[1..], ServiceAccountDump(sa));
      AppendAssoc(old(log), [w], rest.effects);
      if completed {
        WritePodLogs(ns, dir, c);
        AppendAssoc(old(log), [w] + rest.effects, PodPart(ns, dir, c));
      }
    }

    /** One field of `collectLogs`: create the directory, then dump the namespace the field holds. */
    method CollectField(dir: Path, inst: Instance, c: Cluster, field: string)
      modifies this
      ensures log == old(log) + FieldEffects(dir, inst, c, field)
      ensures OnlyLogChanged()
    {
      if c.canCreateDirs(dir) {
        log := log + [CreatedDirs(dir)];
        match inst(field)
        case Holds(ns) =>
          ghost var mid := log;
          GenerateLog(ns, dir, c);
          assert log == old(log) + ([CreatedDirs(dir)] + GenerateLogAsWritten(ns, dir, c));
        case _ =>
      }
    }

    /** The fields of `collectLogs` in turn, for one directory. */
    method CollectFields(dir: Path, inst: Instance, c: Cluster, fields: seq<string>)
      modifies this
      ensures log == old(log) + CollectEffects(dir, inst, c, fields)
      ensures OnlyLogChanged()
    {
      ghost var done: seq<Effect> := [];
      var i := 0;
      while i < |fields|
        invariant i <= |fields|
        invariant log == old(log) + done
        invariant OnlyLogChanged()
        invariant CollectEffects(dir, inst, c, fields) == done + CollectEffects(dir, inst, c, fields[i..])
      {
        ghost var here := FieldEffects(dir, inst, c, fields[i]);
        CollectEffectsStep(dir, inst, c, fields, i);
        CollectField(dir, inst, c, fields[i]);
        AppendAssoc(old(log), done, here);
        AppendAssoc(done, here, CollectEffects(dir, inst, c, fields[i + 1..]));
        done := done + here;
        i := i + 1;
      }
      assert fields[i..] == [];
    }

    /**
     * `collectLogs(context, stage)`: for each namespace field in order,
     * create the stage's directory and dump the namespace the field holds;
     * a failure of either step skips only that field.
     */
    method CollectLogs(ctx: Context, stage: Stage)
      modifies this
      ensures log == old(log) + CollectEffects(StageDir(ctx.tmpDir, ctx.simpleName, old(TestName()), stage),
                                               ctx.instance, ctx.cluster, NamespaceFields)
      ensures collected == old(collected) + [stage]
      ensures State() == old(State()) && className == old(className) && methodName == old(methodName)
    {
      var dir := StageDir(ctx.tmpDir, ctx.simpleName, TestName(), stage);
      CollectFields(dir, ctx.instance, ctx.cluster, NamespaceFields);
      collected := collected + [stage];
    }

    /** The `beforeAll` callback: records the class name and puts `BEFOREALL = false`. */
    method BeforeAll(ctx: Context)
      modifies this
      ensures State() == React(old(State()), BeforeAllCallback).next
      ensures className == Some(ctx.testClass) && methodName == old(methodName)
      ensures collected == old(collected) && log == old(log)
    {
      className := Some(ctx.testClass);
      globalFlag := Some(false);
    }

    /**
     * `interceptBeforeEachMethod`: names the method, takes its store, then
     * puts `BEFOREALL = true` and `BEFOREEACH = false` before letting the
     * `@BeforeEach` method run.
     */
    method InterceptBeforeEachMethod(ctx: Context, newContext: bool) returns (outcome: Outcome)
      modifies this
      ensures State() == React(old(State()), InterceptBeforeEach(newContext)).next
      ensures outcome == React(old(State()), InterceptBeforeEach(newContext)).outcome
      ensures methodName == Some(ctx.testMethod) && className == old(className)
      ensures collected == old(collected) && log == old(log)
    {
      methodName := Some(ctx.testMethod);
      var s := if newContext || testStore.None? then MethodStore(None, None) else testStore.value;
      testStore := Some(s);
      if globalFlag.None? {
        return NullPointer;
      }
      globalFlag := Some(true);
      testStore := Some(s.(beforeEach := Some(false)));
      outcome := Returned;
    }

    /** `interceptTestMethod`: puts `BEFOREEACH = true` and `TEST = true`, then lets the body run. */
    method InterceptTestMethod() returns (outcome: Outcome)
      modifies this
      ensures State() == React(old(State()), InterceptTest).next
      ensures outcome == React(old(State()), InterceptTest).outcome
      ensures className == old(className) && methodName == old(methodName)
      ensures collected == old(collected) && log == old(log)
    {
      if testStore.None? {
        return NullPointer;
      }
      testStore := Some(MethodStore(Some(true), Some(true)));
      outcome := Returned;
    }

    /** `handleTestExecutionException`: puts `TEST = false`, collects under `test`, rethrows. */
    method HandleTestExecutionException(ctx: Context) returns (outcome: Outcome)
      modifies this
      ensures var x := React(old(State()), HandleTestException);
        && State() == x.next && outcome == x.outcome
        && collected == old(collected) + Listed(x.collect)
        && log == old(log) + (if x.collect.Some? then CollectEffects(StageDir(ctx.tmpDir, ctx.simpleName, old(TestName()), Test),
                                                                     ctx.instance, ctx.cluster, NamespaceFields) else [])
      ensures className == old(className) && methodName == old(methodName)
    {
      if testStore.None? {
        return NullPointer;
      }
      testStore := Some(testStore.value.(test := Some(false)));
      CollectLogs(ctx, Test);
      outcome := Rethrew;
    }

    /**
     * `interceptAfterEachMethod`: collects under `beforeEach` when
     * `BEFOREEACH` is false, then lets the `@AfterEach` method run.
     */
    method InterceptAfterEachMethod(ctx: Context) returns (outcome: Outcome)
      modifies this
      ensures var x := React(old(State()), InterceptAfterEach);
        && State() == x.next && outcome == x.outcome
        && collected == old(collected) + Listed(x.collect)
        && log == old(log) + (if x.collect.Some? then CollectEffects(StageDir(ctx.tmpDir, ctx.simpleName, old(TestName()), BeforeEach),
                                                                     ctx.instance, ctx.cluster, NamespaceFields) else [])
      ensures className == old(className) && methodName == old(methodName)
    {
      if testStore.None? || testStore.value.beforeEach.None? {
        return NullPointer;
      }
      if !testStore.value.beforeEach.value {
        CollectLogs(ctx, BeforeEach);
      }
      outcome := Returned;
    }

    /** `testFailed`: collects under `afterEach` when both `BEFOREEACH` and `TEST` are true. */
    method TestFailed(ctx: Context) returns (outcome: Outcome)
      modifies this
      ensures var x := React(old(State()), Hook.TestFailed);
        && State() == x.next && outcome == x.outcome
        && collected == old(collected) + Listed(x.collect)
        && log == old(log) + (if x.collect.Some? then CollectEffects(StageDir(ctx.tmpDir, ctx.simpleName, old(TestName()), AfterEach),
                                                                     ctx.instance, ctx.cluster, NamespaceFields) else [])
      ensures className == old(className) && methodName == old(methodName)
    {
      if testStore.None? || testStore.value.beforeEach.None? {
        return NullPointer;
      }
      if !testStore.value.beforeEach.value {
        return Returned;
      }
      if testStore.value.test.None? {
        return NullPointer;
      }
      if testStore.value.test.value {
        CollectLogs(ctx, AfterEach);
      }
      outcome := Returned;
    }

    /**
     * `interceptAfterAllMethod`: collects under `beforeAll` when `BEFOREALL`
     * is still false, then lets the `@AfterAll` method run.
     */
    method InterceptAfterAllMethod(ctx: Context) returns (outcome: Outcome)
      modifies this
      ensures var x := React(old(State()), InterceptAfterAll);
        && State() == x.next && outcome == x.outcome
        && collected == old(collected) + Listed(x.collect)
        && log == old(log) + (if x.collect.Some? then CollectEffects(StageDir(ctx.tmpDir, ctx.simpleName, old(TestName()), Stage.BeforeAll),
                                                                     ctx.instance, ctx.cluster, NamespaceFields) else [])
      ensures className == old(className) && methodName == old(methodName)
    {
      if globalFlag.None? {
        return NullPointer;
      }
      if !globalFlag.value {
        CollectLogs(ctx, Stage.BeforeAll);
      }
      outcome := Returned;
    }

    /** The `afterAll` callback: collects under `afterAll` when the class context carries an exception. */
    method AfterAll(ctx: Context, executionException: bool)
      modifies this
      ensures var x := React(old(State()), AfterAllCallback(executionException));
        && State() == x.next
        && collected == old(collected) + Listed(x.collect)
        && log == old(log) + (if x.collect.Some? then CollectEffects(StageDir(ctx.tmpDir, ctx.simpleName, old(TestName()), Stage.AfterAll),
                                                                     ctx.instance, ctx.cluster, NamespaceFields) else [])
      ensures className == old(className) && methodName == old(methodName)
    {
      if executionException {
        CollectLogs(ctx, Stage.AfterAll);
      }
    }
  }
}
