# Integration-test helpers of the WebLogic Kubernetes Operator, in Dafny

This project models three helpers of the WebLogic Kubernetes Operator's integration tests and proves properties of them.

- **The test watcher** (`ITTestWatcher`) is a JUnit 5 extension. It keeps three flags in extension stores:
  - `BEFOREALL` in the class-wide store;
  - `BEFOREEACH` and `TEST` in the store of the current test method.

  From these flags it decides, at each lifecycle hook, whether a stage of the test failed. When one did, it collects diagnostics (`collectLogs`). For each recognised namespace field of the test instance (`domainns`, `opns`), the collection creates a directory named after the failed stage. It then dumps a fixed list of Kubernetes resource kinds and the pod logs of that namespace into files (`generateLog`).
  - Module `Attribution` models the flag logic as a pure state machine (`React`), together with the order in which JUnit calls the hooks around the user's lifecycle methods. It proves which stages get reported for a test method and for a whole class.
  - Module `Diagnostics` models the directory and file effects of a collection as values.
  - Module `Watcher` models the watcher as a class. It has one method per hook, and its collection steps are loops whose contracts tie each one to `Attribution` and `Diagnostics`.
- **The WebLogic Image Tool wrapper** (`WebLogicImageTool`) builds the `update`, `cache addInstaller` and `cache deleteEntry` command lines and runs them in order. Module `ImageTool` models:
  - the comma-list builder;
  - the command texts and the arguments they split into;
  - the tool object with its parameters;
  - the short-circuit order of `updateImage`.
- **The model-in-image base test** (`MiiBaseTest`) adds model-in-image inputs to a domain's input map. It also bumps the domain's `restartVersion` through two `kubectl` commands. Module `ModelInImage` models:
  - the image-name rule;
  - the restart-version rule, with Java `int` wrap-around and the error paths of `Integer.parseInt` and `getMessage()`;
  - the two `kubectl` commands.

Modules `Wrappers` (Option, Result) and `Text` (repetition, word and comma splitting, decimal integers, trimming, ASCII lower-casing) are shared helpers.

Running commands, the Kubernetes client, the YAML dump, reflection and the file system are inputs:
- `Cluster` says what each listing returns and which writes succeed.
- `Instance` says what each field holds.
- `exec` and `fileExists` say what a command gives and whether a file exists.

The outcome of a collection is the sequence of effects it performs (directories created, files written).

The model follows the Java code as written. Some of what that code does is easy to miss:
- `generateLog` has a single `try` around all ten kinds and the pod logs. It does not isolate the kinds from each other, so the first failing fetch or write ends the whole pass (`Diagnostics.GenerateLogFirstFailureEndsPass`, `Diagnostics.SecretsFailureSuppressesLaterKinds`).
- `generateLog` fetches every kind but writes the service-account dump into every kind's file (first row of "Findings"). The watcher's methods write exactly that; the pass in which each file gets its own kind's listing appears only as the corrected half of that finding.
- The version lookup of `getRestartVersion` glues the domain UID to the `-o` option (second row of "Findings"). `GetRestartVersion` and `ModifyDomainYamlWithRestartVersion` run that command. When it throws with a message, the next version is `1` (`ModelInImage.FailedLookupFallsBack`).
- A failure is not always reported once:
  - A failing `@BeforeAll` method is reported under both `beforeAll` and `afterAll` in a class with an `@AfterAll` method (`Attribution.BeforeAllFailureReportedTwice`). In a class without one it is reported only under `afterAll` (`Attribution.BeforeAllFailureWithoutAfterAll`).
  - A failing `@BeforeEach` method is reported once per `@AfterEach` method (`Attribution.MethodAttribution`). It is not reported at all when the test method has no `@AfterEach` method (`Attribution.BeforeEachFailureUnreportedWithoutAfterEach`).
  - In a class without `@BeforeEach` methods, the per-method store is never created. Every test method then fails with a `NullPointerException` in `interceptTestMethod` before its body runs, and nothing is collected for it (`Attribution.NoBeforeEachFailsSilently`, third row of "Findings"). `BEFOREALL` is never set to true, so the class is reported under `beforeAll` once per `@AfterAll` method, even when all of its `@BeforeAll` and `@AfterAll` methods pass (`Attribution.NoBeforeEachReportsBeforeAll`).

## Model

| member | source | states |
|---|---|---|
| Diagnostics.StageDirCollision | new-integration-tests/src/test/java/oracle/weblogic/kubernetes/extensions/ITTestWatcher.java:193-207 | two stages share a directory exactly when they are equal, or when the method is named `beforeAll`/`afterAll` and its `test` directory meets the class-level one |
| Diagnostics.ListingWrites | new-integration-tests/src/test/java/oracle/weblogic/kubernetes/extensions/ITTestWatcher.java:225-285 | the listing part of a pass only writes files |
| Diagnostics.PodWrites | new-integration-tests/src/test/java/oracle/weblogic/kubernetes/extensions/ITTestWatcher.java:287-296 | the pod-log part of a pass only writes files |
| Diagnostics.FirstFailure | new-integration-tests/src/test/java/oracle/weblogic/kubernetes/extensions/ITTestWatcher.java:225-285 | the index of the first kind whose fetch or write fails: every kind before it succeeds, the kind at it fails |
| Diagnostics.ListingWritesStopAtFirstFailure | new-integration-tests/src/test/java/oracle/weblogic/kubernetes/extensions/ITTestWatcher.java:224-300 | exactly the kinds before the first failure are written, each to `<ns>_<tag>.log` in order; the pass goes on only if no kind failed |
| Diagnostics.PodWritesStopAtFirstFailure | new-integration-tests/src/test/java/oracle/weblogic/kubernetes/extensions/ITTestWatcher.java:287-299 | the pod logs written are a prefix of the pod list, each to `<ns><pod>.log` with its own log; the pod after them failed its fetch or its write |
| Diagnostics.PassWritesInOrder | new-integration-tests/src/test/java/oracle/weblogic/kubernetes/extensions/ITTestWatcher.java:224-300 | for any kinds and content rule, a pass writes the kinds up to the first failure, then the pod logs only if none failed |
| Diagnostics.GenerateLogWritesInOrder | new-integration-tests/src/test/java/oracle/weblogic/kubernetes/extensions/ITTestWatcher.java:224-300 | the corrected pass, in which each file gets its own kind's listing, writes the ten kinds in manifest order up to the first failure, and the pod logs only after all ten; the Java code writes the service-account dump instead (first row of "Findings") |
| Diagnostics.GenerateLogFirstFailureEndsPass | new-integration-tests/src/test/java/oracle/weblogic/kubernetes/extensions/ITTestWatcher.java:225-299 | as written, when the i-th kind is the first to fail, exactly i files are written |
| Diagnostics.SecretsFailureSuppressesLaterKinds | new-integration-tests/src/test/java/oracle/weblogic/kubernetes/extensions/ITTestWatcher.java:250-299 | as written, a failing secrets listing leaves only the `_sa`, `_ns`, `_pv` and `_pvc` files written |
| Diagnostics.GenerateLogOnlyWrites | new-integration-tests/src/test/java/oracle/weblogic/kubernetes/extensions/ITTestWatcher.java:224-300 | `generateLog` as written creates no directory, it only writes files |
| Diagnostics.ListingFilesIndependentOfContent | new-integration-tests/src/test/java/oracle/weblogic/kubernetes/extensions/ITTestWatcher.java:225-285 | which files a listing pass writes, and whether it completes, does not depend on what is written into them |
| Diagnostics.AsWrittenWritesSameFiles | new-integration-tests/src/test/java/oracle/weblogic/kubernetes/extensions/ITTestWatcher.java:227-296 | the code as written writes the same files, in the same order, as the corrected pass |
| Diagnostics.AsWrittenDumpsServiceAccounts | new-integration-tests/src/test/java/oracle/weblogic/kubernetes/extensions/ITTestWatcher.java:227-285 | as written, every kind file holds the service-account listing |
| Diagnostics.AsWrittenNamespaceFileHoldsServiceAccounts | new-integration-tests/src/test/java/oracle/weblogic/kubernetes/extensions/ITTestWatcher.java:233-237 | on a concrete cluster, the `_ns.log` file holds the service accounts as written and the namespaces when corrected |
| Diagnostics.FieldWrites | new-integration-tests/src/test/java/oracle/weblogic/kubernetes/extensions/ITTestWatcher.java:211-220 | for one field, the files written are one `generateLog` pass for the namespace the field holds, and nothing for a missing or unreadable field |
| Diagnostics.CollectDumpsResolvedNamespaces | new-integration-tests/src/test/java/oracle/weblogic/kubernetes/extensions/ITTestWatcher.java:183-222 | the files written by `collectLogs` are one full pass per resolved namespace, in field order; if the directory cannot be created, nothing happens |
| Diagnostics.NoRecognisedFieldNoDump | new-integration-tests/src/test/java/oracle/weblogic/kubernetes/extensions/ITTestWatcher.java:184-220 | a test instance with neither `domainns` nor `opns` gets no file written |
| Attribution.TestFailedShortCircuits | new-integration-tests/src/test/java/oracle/weblogic/kubernetes/extensions/ITTestWatcher.java:175 | with `BEFOREEACH` false, `testFailed` neither collects nor fails, whether or not `TEST` was put |
| Attribution.CollectingHooks | new-integration-tests/src/test/java/oracle/weblogic/kubernetes/extensions/ITTestWatcher.java:61-181 | each stage is collected only by its own hook (`test` by the exception handler, `beforeEach` by the after-each interceptor, `afterEach` by `testFailed`, `beforeAll` by the after-all interceptor, `afterAll` by the callback), and a hook that collects has not failed |
| Attribution.ReadingHooksKeepFlags | new-integration-tests/src/test/java/oracle/weblogic/kubernetes/extensions/ITTestWatcher.java:118-181 | the reading hooks (`interceptAfterEachMethod`, `testFailed`, `interceptAfterAllMethod`, `afterAll`) leave the flags unchanged |
| Attribution.HandlerAlwaysThrows | new-integration-tests/src/test/java/oracle/weblogic/kubernetes/extensions/ITTestWatcher.java:103-111 | `handleTestExecutionException` always rethrows, or fails on a `null` store |
| Attribution.RunBeforesEnters | new-integration-tests/src/test/java/oracle/weblogic/kubernetes/extensions/ITTestWatcher.java:71-87 | after the before-each methods, `BEFOREALL` is true and `BEFOREEACH` false; the result fails exactly when one of the methods failed |
| Attribution.RunAftersReadFlag | new-integration-tests/src/test/java/oracle/weblogic/kubernetes/extensions/ITTestWatcher.java:118-133 | each after-each method collects under `beforeEach` exactly when `BEFOREEACH` is false; the flags are unchanged |
| Attribution.MethodAttribution | new-integration-tests/src/test/java/oracle/weblogic/kubernetes/extensions/ITTestWatcher.java:71-181 | a test method with a `@BeforeEach` is reported under exactly the stages of `MethodCollected`, fails exactly when a user method fails, and leaves `BEFOREALL` true |
| Attribution.MethodCollectsOneStage | new-integration-tests/src/test/java/oracle/weblogic/kubernetes/extensions/ITTestWatcher.java:118-181 | all the reports of one method name the same stage, one of `beforeEach`, `test`, `afterEach` |
| Attribution.MethodCollectsIffFails | new-integration-tests/src/test/java/oracle/weblogic/kubernetes/extensions/ITTestWatcher.java:103-181 | with an after-each method, something is collected exactly when the method fails |
| Attribution.NoBeforeEachFailsSilently | new-integration-tests/src/test/java/oracle/weblogic/kubernetes/extensions/ITTestWatcher.java:89-101 | without a `@BeforeEach`, the per-method store stays `null`, the method fails and nothing changes |
| Attribution.BeforeEachFailureUnreportedWithoutAfterEach | new-integration-tests/src/test/java/oracle/weblogic/kubernetes/extensions/ITTestWatcher.java:118-133 | a failing `@BeforeEach` in a test method without `@AfterEach` methods fails the method and is reported under nothing |
| Attribution.CorrectedMethodAttribution | new-integration-tests/src/test/java/oracle/weblogic/kubernetes/extensions/ITTestWatcher.java:89-101 | with `interceptTestMethod` creating the store when no `@BeforeEach` did, every test method is reported under exactly the stages of `MethodCollected`, fails exactly when a user method fails, and leaves `BEFOREALL` true |
| Attribution.NullStoreAfters | new-integration-tests/src/test/java/oracle/weblogic/kubernetes/extensions/ITTestWatcher.java:118-133 | with a `null` per-method store, the after-each interceptors change nothing |
| Attribution.RunMethodsEntering | new-integration-tests/src/test/java/oracle/weblogic/kubernetes/extensions/ITTestWatcher.java:71-181 | the test methods of a class are reported as their method-level reports in order, and any method sets `BEFOREALL` true |
| Attribution.RunMethodsWithoutBeforeEach | new-integration-tests/src/test/java/oracle/weblogic/kubernetes/extensions/ITTestWatcher.java:89-101 | test methods without a `@BeforeEach` change neither the flags nor the reports |
| Attribution.RunAfterAllsReadFlag | new-integration-tests/src/test/java/oracle/weblogic/kubernetes/extensions/ITTestWatcher.java:140-153 | each `@AfterAll` method collects under `beforeAll` exactly when `BEFOREALL` is false |
| Attribution.ClassAttribution | new-integration-tests/src/test/java/oracle/weblogic/kubernetes/extensions/ITTestWatcher.java:61-181 | a class reports its methods' reports (none if a `@BeforeAll` failed), then `beforeAll` once per `@AfterAll` method exactly when no before-each stage was entered, then `afterAll` exactly when a class-level method failed |
| Attribution.BeforeAllFailureReportedTwice | new-integration-tests/src/test/java/oracle/weblogic/kubernetes/extensions/ITTestWatcher.java:140-163 | a failing `@BeforeAll` in a class with an `@AfterAll` is reported under both `beforeAll` and `afterAll` |
| Attribution.NoBeforeEachReportsBeforeAll | new-integration-tests/src/test/java/oracle/weblogic/kubernetes/extensions/ITTestWatcher.java:140-153 | a passing class without `@BeforeEach` methods is reported under `beforeAll` once per `@AfterAll` method |
| Attribution.BeforeAllFailureWithoutAfterAll | new-integration-tests/src/test/java/oracle/weblogic/kubernetes/extensions/ITTestWatcher.java:140-163 | a failing `@BeforeAll` in a class without `@AfterAll` methods is reported only under `afterAll` |
| Attribution.PassingClassCollectsNothing | new-integration-tests/src/test/java/oracle/weblogic/kubernetes/extensions/ITTestWatcher.java:61-181 | a class with `@BeforeEach` methods, whose user methods all pass, reports nothing |
| Attribution.PassingMethodsCollectNothing | new-integration-tests/src/test/java/oracle/weblogic/kubernetes/extensions/ITTestWatcher.java:118-181 | passing methods have empty method-level reports |
| Watcher.HeaderLines | new-integration-tests/src/test/java/oracle/weblogic/kubernetes/extensions/ITTestWatcher.java:302-305 | the header is an empty line, a rule as long as the text line, the line itself, the same rule, then nothing; the rule is made of the rule character only |
| Watcher.TestWatcher.constructor | new-integration-tests/src/test/java/oracle/weblogic/kubernetes/extensions/ITTestWatcher.java:55-59 | a new watcher has `null` stores and names, and has collected nothing |
| Watcher.TestWatcher.WriteListings | new-integration-tests/src/test/java/oracle/weblogic/kubernetes/extensions/ITTestWatcher.java:232-285 | the loop over the kinds after the first appends exactly the writes of `ListingWrites`, every file getting the service-account dump, and reports whether the pass completed |
| Watcher.TestWatcher.WritePodLogs | new-integration-tests/src/test/java/oracle/weblogic/kubernetes/extensions/ITTestWatcher.java:287-296 | the loop over the pods appends exactly the pod writes up to the first failure |
| Watcher.TestWatcher.GenerateLog | new-integration-tests/src/test/java/oracle/weblogic/kubernetes/extensions/ITTestWatcher.java:224-300 | one pass appends exactly `GenerateLogAsWritten` to the log: the service accounts fetched and dumped to `<ns>_sa.log`, the same dump in each later kind's file, then the pod logs, up to the first failure; nothing else changes |
| Watcher.TestWatcher.CollectField | new-integration-tests/src/test/java/oracle/weblogic/kubernetes/extensions/ITTestWatcher.java:211-220 | creates the directory (or skips the field), then dumps the namespace the field holds |
| Watcher.TestWatcher.CollectFields | new-integration-tests/src/test/java/oracle/weblogic/kubernetes/extensions/ITTestWatcher.java:191-221 | the loop over the fields appends exactly `CollectEffects` |
| Watcher.TestWatcher.CollectLogs | new-integration-tests/src/test/java/oracle/weblogic/kubernetes/extensions/ITTestWatcher.java:183-222 | appends the effects of walking `domainns`, `opns` in the stage's directory, records the stage, and keeps the flags and names |
| Watcher.TestWatcher.BeforeAll | new-integration-tests/src/test/java/oracle/weblogic/kubernetes/extensions/ITTestWatcher.java:61-69 | records the class name and puts `BEFOREALL = false`, as `React` says |
| Watcher.TestWatcher.InterceptBeforeEachMethod | new-integration-tests/src/test/java/oracle/weblogic/kubernetes/extensions/ITTestWatcher.java:71-87 | names the method, takes its store, puts `BEFOREALL = true` and `BEFOREEACH = false`; a `null` class-wide store is a failure |
| Watcher.TestWatcher.InterceptTestMethod | new-integration-tests/src/test/java/oracle/weblogic/kubernetes/extensions/ITTestWatcher.java:89-101 | puts `BEFOREEACH = true` and `TEST = true`; a `null` store is a failure |
| Watcher.TestWatcher.HandleTestExecutionException | new-integration-tests/src/test/java/oracle/weblogic/kubernetes/extensions/ITTestWatcher.java:103-111 | puts `TEST = false`, collects under `test` and rethrows |
| Watcher.TestWatcher.InterceptAfterEachMethod | new-integration-tests/src/test/java/oracle/weblogic/kubernetes/extensions/ITTestWatcher.java:118-133 | collects under `beforeEach` exactly when `BEFOREEACH` is false |
| Watcher.TestWatcher.TestFailed | new-integration-tests/src/test/java/oracle/weblogic/kubernetes/extensions/ITTestWatcher.java:171-181 | collects under `afterEach` exactly when both `BEFOREEACH` and `TEST` are true, reading `TEST` only when `BEFOREEACH` is |
| Watcher.TestWatcher.InterceptAfterAllMethod | new-integration-tests/src/test/java/oracle/weblogic/kubernetes/extensions/ITTestWatcher.java:140-153 | collects under `beforeAll` exactly when `BEFOREALL` is false |
| Watcher.TestWatcher.AfterAll | new-integration-tests/src/test/java/oracle/weblogic/kubernetes/extensions/ITTestWatcher.java:155-163 | collects under `afterAll` exactly when the class context carries an execution exception |
| ImageTool.TerminatedIsJoinPlusComma | new-integration-tests/src/test/java/oracle/weblogic/kubernetes/actions/impl/primitive/WebLogicImageTool.java:86-95 | the buffer of a non-empty list is the comma-joined list plus one trailing comma |
| ImageTool.BuildList | new-integration-tests/src/test/java/oracle/weblogic/kubernetes/actions/impl/primitive/WebLogicImageTool.java:85-102 | the result is the items joined by single commas, and the empty string for an empty list |
| ImageTool.SplitJoin | new-integration-tests/src/test/java/oracle/weblogic/kubernetes/actions/impl/primitive/WebLogicImageTool.java:85-102 | a joined list of comma-free items splits back into the items |
| ImageTool.CommaCount | new-integration-tests/src/test/java/oracle/weblogic/kubernetes/actions/impl/primitive/WebLogicImageTool.java:85-102 | n comma-free items give n - 1 commas |
| ImageTool.DeleteEntryWords | new-integration-tests/src/test/java/oracle/weblogic/kubernetes/actions/impl/primitive/WebLogicImageTool.java:127-132 | the delete command's arguments are `cache deleteEntry --key wdt_<version>` |
| ImageTool.AddInstallerWords | new-integration-tests/src/test/java/oracle/weblogic/kubernetes/actions/impl/primitive/WebLogicImageTool.java:115-120 | the add command's arguments are `cache addInstaller --type wdt --version <v> --path <zip>` |
| ImageTool.OptionalFlagWords | new-integration-tests/src/test/java/oracle/weblogic/kubernetes/actions/impl/primitive/WebLogicImageTool.java:72-80 | an optional flag adds the flag and its comma list when the list is present, and nothing otherwise |
| ImageTool.FixedUpdateWords | new-integration-tests/src/test/java/oracle/weblogic/kubernetes/actions/impl/primitive/WebLogicImageTool.java:64-70 | the fixed part's arguments are `update --tag n:t --fromImage b:t --wdtDomainType d --wdtModelOnly`; the double blanks add no empty argument |
| ImageTool.UpdateCommandWords | new-integration-tests/src/test/java/oracle/weblogic/kubernetes/actions/impl/primitive/WebLogicImageTool.java:63-83 | the full argument list: the fixed part, then `--wdtModel`, `--wdtVariables`, `--wdtArchive` in that order, each with its list and only when that list is present |
| ImageTool.SourceFixedUpdate | new-integration-tests/src/test/java/oracle/weblogic/kubernetes/actions/impl/primitive/WebLogicImageTool.java:64-70 | the fixed part, built as the Java code appends its literals, is the fixed update command |
| ImageTool.BuildUpdateCommand | new-integration-tests/src/test/java/oracle/weblogic/kubernetes/actions/impl/primitive/WebLogicImageTool.java:63-83 | the command built by appending is `UpdateCommand`, whose arguments `UpdateCommandWords` gives |
| ImageTool.WebLogicImageTool.constructor | new-integration-tests/src/test/java/oracle/weblogic/kubernetes/actions/impl/primitive/WebLogicImageTool.java:15-17 | a new tool has no parameters |
| ImageTool.WebLogicImageTool.With | new-integration-tests/src/test/java/oracle/weblogic/kubernetes/actions/impl/primitive/WebLogicImageTool.java:31-34 | the parameters become the given ones |
| ImageTool.WebLogicImageTool.DeleteEntry | new-integration-tests/src/test/java/oracle/weblogic/kubernetes/actions/impl/primitive/WebLogicImageTool.java:127-132 | runs exactly the delete command, without a redirect flag, and returns its result |
| ImageTool.WebLogicImageTool.AddInstaller | new-integration-tests/src/test/java/oracle/weblogic/kubernetes/actions/impl/primitive/WebLogicImageTool.java:108-121 | a missing installer file is an error naming the path, and nothing runs; otherwise it runs the add command and returns its result |
| ImageTool.WebLogicImageTool.UpdateImage | new-integration-tests/src/test/java/oracle/weblogic/kubernetes/actions/impl/primitive/WebLogicImageTool.java:40-61 | runs delete, add (after the installer check), the tool check, then update with the redirect flag; it stops at the first failing step; it succeeds exactly when every step does |
| ModelInImage.ImageNameIsLowerCaseLatest | integration-tests/src/test/java/oracle/kubernetes/operator/MiiBaseTest.java:39-43 | the image is a repository with no upper-case ASCII letter, tagged `latest` |
| ModelInImage.ImageNameInjective | integration-tests/src/test/java/oracle/kubernetes/operator/MiiBaseTest.java:39-43 | different suffix counts give different image names |
| ModelInImage.ImageNamePrefixUsedIffNotBlank | integration-tests/src/test/java/oracle/kubernetes/operator/MiiBaseTest.java:39-43 | the prefix changes the image name exactly when it is not blank |
| ModelInImage.CreateModelInImageMap | integration-tests/src/test/java/oracle/kubernetes/operator/MiiBaseTest.java:30-45 | adds exactly the four keys with their values, the image by the image-name rule, and keeps every other input |
| ModelInImage.WrapInt | integration-tests/src/test/java/oracle/kubernetes/operator/MiiBaseTest.java:170 | the sum lies in the `int` range, differs from the true sum by a multiple of 2^32, and equals it when the true sum is in range |
| ModelInImage.NumericVersionIncremented | integration-tests/src/test/java/oracle/kubernetes/operator/MiiBaseTest.java:167-170 | a numeric version below the `int` maximum becomes the next integer |
| ModelInImage.WrapIncrementDiffers | integration-tests/src/test/java/oracle/kubernetes/operator/MiiBaseTest.java:170 | adding one in `int` arithmetic never gives the same number, and wraps the maximum to the minimum |
| ModelInImage.MaxVersionWraps | integration-tests/src/test/java/oracle/kubernetes/operator/MiiBaseTest.java:168-170 | the version `2147483647` becomes the `int` minimum |
| ModelInImage.TextVersionGetsOneAppended | integration-tests/src/test/java/oracle/kubernetes/operator/MiiBaseTest.java:171-174 | a version that is not an integer numeral gets `1` appended |
| ModelInImage.NextVersionDiffers | integration-tests/src/test/java/oracle/kubernetes/operator/MiiBaseTest.java:151-184 | whenever the lookup prints a version, the next version differs from it |
| ModelInImage.FailedLookupFallsBack | integration-tests/src/test/java/oracle/kubernetes/operator/MiiBaseTest.java:175-179 | a lookup that throws with a message gives `1`; one whose message is `null` escapes as a `NullPointerException` |
| ModelInImage.VersionQueryAsWrittenWords | integration-tests/src/test/java/oracle/kubernetes/operator/MiiBaseTest.java:153-158 | as written, the lookup's last argument is the UID with the `-o` option glued on |
| ModelInImage.VersionQueryAsWrittenNamesAnotherDomain | integration-tests/src/test/java/oracle/kubernetes/operator/MiiBaseTest.java:153-158 | as written, the domain the lookup names is never the UID |
| ModelInImage.VersionQueryWords | integration-tests/src/test/java/oracle/kubernetes/operator/MiiBaseTest.java:153-158 | with the blank of the corrected lookup, it is `kubectl -n <ns> get domain <uid> -o=jsonpath=...` |
| ModelInImage.SourceVersionQuery | integration-tests/src/test/java/oracle/kubernetes/operator/MiiBaseTest.java:152-157 | the pieces the Java code appends make the as-written lookup, with nothing between the UID and the `-o` option |
| ModelInImage.GetRestartVersion | integration-tests/src/test/java/oracle/kubernetes/operator/MiiBaseTest.java:151-184 | runs the as-written lookup and returns `NextRestartVersion` of what it gave |
| ModelInImage.PatchedVersionRoundTrip | integration-tests/src/test/java/oracle/kubernetes/operator/MiiBaseTest.java:131-139 | the version is recovered from the patch command |
| ModelInImage.PatchCommandInjective | integration-tests/src/test/java/oracle/kubernetes/operator/MiiBaseTest.java:131-139 | different versions give different patch commands |
| ModelInImage.PatchCommandWords | integration-tests/src/test/java/oracle/kubernetes/operator/MiiBaseTest.java:131-139 | the patch command starts `kubectl -n <ns> patch domain <uid> --type='json'` |
| ModelInImage.SourcePatchCommand | integration-tests/src/test/java/oracle/kubernetes/operator/MiiBaseTest.java:131-139 | the appended pieces make the patch command |
| ModelInImage.ModifyDomainYamlWithRestartVersion | integration-tests/src/test/java/oracle/kubernetes/operator/MiiBaseTest.java:128-149 | a failed version computation escapes after running only the as-written lookup; otherwise it runs that lookup and then the patch with the next version, and fails exactly when the patch throws |

## Left out

- Logging (`logger.info`, `getHeader` calls in the hooks, `afterTestExecution`, `afterEach`, `testSuccessful`): they only log and touch no flag. `getHeader` itself is modelled.
- The `default` branch of the stage switch in `collectLogs` (ITTestWatcher.java:208-209): every caller passes one of the five stage names, so `Stage` has five values.
- Reflection, the Kubernetes client, the YAML `dump` and `Files`: these are inputs (`Instance`, `Cluster`). `Kubernetes` and `dump` are not part of this model.
- A pod with `null` metadata: `pod.getMetadata().getName()` (ITTestWatcher.java:289) then throws a `NullPointerException`. Neither the catch of `generateLog` nor that of `collectLogs` handles it, so it escapes the hook. Pods are modelled by their names only, so this case is not represented.
- The `SecurityException` and `IllegalArgumentException` cases of field access are modelled as a field that cannot be read (`NotAccessible`). Like that case, they skip the field.
- A namespace field holding `null`: `FieldValue` has no case for it. The Java code then runs `generateLog` with a `null` namespace, naming its files `null_sa.log` and so on. What the Kubernetes client answers for a `null` namespace is outside this model.
- A namespace field holding a value that is not a `String`: `FieldValue` has no case for it. The `(String)` cast then throws a `ClassCastException`. The catch at ITTestWatcher.java:214-218 does not handle it, so it escapes `collectLogs`.
- Concurrency between test classes sharing one watcher: the model runs one class on a fresh watcher.
- `IMAGE_TOOL`, `WDT_ZIP` and `executeAndVerify` come from `InstallWITCommon`, which is not part of this model. The paths are the parameter `Installation`. Running a command is the parameter `exec`, and the one-argument form of `executeAndVerify` has no redirect flag (`None`).
- `withDefaults` and `WITParams` defaults: `WITParams` is not part of this model. The parameters are a datatype of the values `buildUpdateCommand` reads.
- `createDomainMap` is an input (the base map), and map values are modelled as strings. `getWeblogicImageName`/`getWeblogicImageTag` are parameters.
- `createMIIDomainWithConfigMap` and `modifyDomainYamlWithNewConfigMapAndDomainRestartVersion`: they only create domains through other helpers, or write and apply YAML. They have no rule of their own to prove.
- The restart checks `verifyAdminServerRestarted`/`verifyManagedServersRestarted` (MiiBaseTest.java:147-148): `Domain` is not part of this model.
- ModelInImage.ImageName: `toLowerCase` is modelled on ASCII letters only.
- ModelInImage.NextRestartVersion: a `null` standard output is not modelled; `exec` always gives a string or an exception.
- ImageTool.WebLogicImageTool.DeleteEntry: requires parameters set by `with(...)`. Without them the Java code throws a `NullPointerException` on `params`, which the model does not represent.
- ImageTool.WebLogicImageTool.AddInstaller: requires parameters set by `with(...)`, for the same reason.
- ImageTool.WebLogicImageTool.UpdateImage: requires parameters set by `with(...)`, for the same reason.
- Shell quoting of the patch JSON is not modelled: the command is a string, and only its blank-separated head is split into arguments.

## Findings

| source | as written | input that shows it | evidently intended | confidence | as-written member | corrected member |
|---|---|---|---|---|---|---|
| new-integration-tests/src/test/java/oracle/weblogic/kubernetes/extensions/ITTestWatcher.java:233-285 | every kind's file is written with `dump(listServiceAccounts)` | any cluster where every call succeeds and the namespace listing differs from the service-account listing: `<ns>_ns.log` holds the service accounts | each file holds its own kind's listing | not executed | Diagnostics.AsWrittenNamespaceFileHoldsServiceAccounts | Diagnostics.GenerateLogWritesInOrder |
| integration-tests/src/test/java/oracle/kubernetes/operator/MiiBaseTest.java:157-158 | the UID is appended directly before `-o=jsonpath=...`, with no blank | namespace `ns`, UID `d1`: the command asks for a domain named `d1-o=jsonpath='{.spec.restartVersion}'` with no output option | a blank separating the UID and the `-o` option | not executed | ModelInImage.VersionQueryAsWrittenNamesAnotherDomain | ModelInImage.VersionQueryWords |
| new-integration-tests/src/test/java/oracle/weblogic/kubernetes/extensions/ITTestWatcher.java:89-101 | `interceptTestMethod` writes to the per-method store, which only `interceptBeforeEachMethod` creates | a test class with one `@Test` method, no `@BeforeEach` method and an `@AfterAll` method: the test method fails with a `NullPointerException` at line 96 before its body runs, nothing is collected for it, and the class is reported under `beforeAll` | each test method is watched whether or not its class declares `@BeforeEach` methods | not executed | Attribution.NoBeforeEachFailsSilently | Attribution.CorrectedMethodAttribution |
