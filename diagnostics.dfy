/**
 * What the test watcher of the integration tests writes when it collects
 * diagnostics: the directory chosen for a failed stage, the fixed manifest of
 * resource kinds dumped for one namespace (`generateLog`), and the walk over
 * the recognised namespace fields of the test instance (`collectLogs`).
 *
 * The cluster client, the YAML dump, reflection on the test instance and the
 * file system are inputs: a `Cluster` says what each call returns and which
 * writes succeed, and the outcome of a collection is the sequence of effects
 * (directories created, files written) it performs.
 */
module Diagnostics {
  import opened Wrappers

  // ---------------------------------------------------------------- stages and paths

  /** The five literal stage names passed to `collectLogs`. */
  datatype Stage = BeforeAll | AfterAll | BeforeEach | AfterEach | Test

  function StageName(s: Stage): string {
    match s
    case BeforeAll => "beforeAll"
    case AfterAll => "afterAll"
    case BeforeEach => "beforeEach"
    case AfterEach => "afterEach"
    case Test => "test"
  }

  /** A path, as the list of segments handed to `Paths.get`. */
  type Path = seq<string>

  /** The last segment of a stage's directory: the stage, the method and the stage, or the method. */
  function StageSegment(methodName: string, stage: Stage): string {
    match stage
    case BeforeAll | AfterAll => StageName(stage)
    case BeforeEach | AfterEach => methodName + "_" + StageName(stage)
    case Test => methodName
  }

  /** The directory for the dumps of a failed stage, under the temporary directory. */
  function StageDir(tmpDir: string, simpleName: string, methodName: string, stage: Stage): Path {
    [tmpDir, simpleName, StageSegment(methodName, stage)]
  }

  /** The length of each stage's last segment. */
  lemma StageSegmentLength(methodName: string, stage: Stage)
    ensures |StageSegment(methodName, stage)| ==
      match stage
      case BeforeAll => 9
      case AfterAll => 8
      case BeforeEach => |methodName| + 11
      case AfterEach => |methodName| + 10
      case Test => |methodName|
  {
  }

  /**
   * Two stages of the same test method share a directory only when they are
   * the same stage, or when the method itself is called `beforeAll` or
   * `afterAll` and its body failure lands in the class-level directory of
   * that name.
   */
  lemma StageDirCollision(tmpDir: string, simpleName: string, methodName: string, s1: Stage, s2: Stage)
    ensures StageDir(tmpDir, simpleName, methodName, s1) == StageDir(tmpDir, simpleName, methodName, s2)
        <==> || s1 == s2
             || (methodName == "beforeAll" && {s1, s2} == {Test, BeforeAll})
             || (methodName == "afterAll" && {s1, s2} == {Test, AfterAll})
  {
    var g1 := StageSegment(methodName, s1);
    var g2 := StageSegment(methodName, s2);
    assert StageDir(tmpDir, simpleName, methodName, s1) == StageDir(tmpDir, simpleName, methodName, s2) <==> g1 == g2 by {
      assert StageDir(tmpDir, simpleName, methodName, s1)[2] == g1;
      assert StageDir(tmpDir, simpleName, methodName, s2)[2] == g2;
    }
    if g1 == g2 && s1 != s2 {
      StageSegmentLength(methodName, s1);
      StageSegmentLength(methodName, s2);
      assert "beforeAll"[0] != "afterAll"[0];
    }
  }

  // ---------------------------------------------------------------- the manifest of one namespace

  /** The resource kinds dumped for a namespace. */
  datatype Kind =
    | ServiceAccounts | Namespaces | PersistentVolumes | PersistentVolumeClaims | Secrets
    | ConfigMaps | Jobs | Deployments | ReplicaSets | Domains

  /** The `i`-th kind fetched and written by `generateLog`. */
  function KindAt(i: nat): Kind
    requires i < 10
  {
    if i == 0 then ServiceAccounts
    else if i == 1 then Namespaces
    else if i == 2 then PersistentVolumes
    else if i == 3 then PersistentVolumeClaims
    else if i == 4 then Secrets
    else if i == 5 then ConfigMaps
    else if i == 6 then Jobs
    else if i == 7 then Deployments
    else if i == 8 then ReplicaSets
    else Domains
  }

  /** The order in which `generateLog` fetches and writes the kinds. */
  const Manifest: seq<Kind> := seq(10, i requires 0 <= i < 10 => KindAt(i))

  function FileTag(k: Kind): string {
    match k
    case ServiceAccounts => "sa"
    case Namespaces => "ns"
    case PersistentVolumes => "pv"
    case PersistentVolumeClaims => "pvc"
    case Secrets => "secrets"
    case ConfigMaps => "cm"
    case Jobs => "jobs"
    case Deployments => "deploy"
    case ReplicaSets => "rs"
    case Domains => "domain"
  }

  /** `<ns>_<tag>.log` */
  function KindFile(ns: string, k: Kind): string {
    ns + "_" + FileTag(k) + ".log"
  }

  /** `<ns><pod>.log`: the pod name follows the namespace with no separator. */
  function PodFile(ns: string, pod: string): string {
    ns + pod + ".log"
  }

  /**
   * The namespace argument of the listing call for a kind: namespaces,
   * persistent volumes and persistent volume claims are listed cluster-wide.
   */
  function Scope(k: Kind, ns: string): Option<string> {
    if k in {Namespaces, PersistentVolumes, PersistentVolumeClaims} then None else Some(ns)
  }

  /**
   * What the cluster and the file system answer. `list(k, scope)` is the YAML
   * dump of the listing, or `None` for an `ApiException`; `pods(ns)` is the
   * names of the listed pods in list order; `podLog(pod, ns)` is the dump of a
   * pod's log; `canWrite` and `canCreateDirs` say which file writes and which
   * directory creations succeed (the others raise an `IOException`).
   */
  datatype Cluster = Cluster(
    list: (Kind, Option<string>) -> Option<string>,
    pods: string -> Option<seq<string>>,
    podLog: (string, string) -> Option<string>,
    canWrite: Path -> bool,
    canCreateDirs: Path -> bool)

  /** Where the text of a written file came from. */
  datatype Content = Listing(kind: Kind, text: string) | PodLog(pod: string, text: string)

  datatype Effect = CreatedDirs(dir: Path) | Wrote(file: Path, content: Content)

  /** The listing of kind `k` is fetched and its file written without an exception. */
  predicate ListingSucceeds(ns: string, dir: Path, c: Cluster, k: Kind) {
    c.list(k, Scope(k, ns)).Some? && c.canWrite(dir + [KindFile(ns, k)])
  }

  /** The writes done so far and whether no exception has been raised yet. */
  datatype Progress = Progress(effects: seq<Effect>, completed: bool)

  /**
   * Fetch and write each kind in turn; the first failing fetch or write ends
   * the sequence. `contentOf(k, text)` is what the file of kind `k` receives
   * when its own listing dumped to `text`.
   */
  function ListingWrites(ns: string, dir: Path, c: Cluster, kinds: seq<Kind>,
                         contentOf: (Kind, string) -> Content): (p: Progress)
    ensures forall e :: e in p.effects ==> e.Wrote?
    decreases |kinds|
  {
    if kinds == [] then Progress([], true)
    else
      var k := kinds[0];
      match c.list(k, Scope(k, ns))
      case None => Progress([], false)
      case Some(text) =>
        var file := dir + [KindFile(ns, k)];
        if !c.canWrite(file) then Progress([], false)
        else
          var rest := ListingWrites(ns, dir, c, kinds[1..], contentOf);
          Progress([Wrote(file, contentOf(k, text))] + rest.effects, rest.completed)
  }

  /** Fetch and write each pod's log in turn, stopping at the first failure. */
  function PodWrites(ns: string, dir: Path, c: Cluster, pods: seq<string>): (es: seq<Effect>)
    ensures forall e :: e in es ==> e.Wrote?
    decreases |pods|
  {
    if pods == [] then []
    else
      match c.podLog(pods[0], ns)
      case None => []
      case Some(log) =>
        var file := dir + [PodFile(ns, pods[0])];
        if !c.canWrite(file) then []
        else [Wrote(file, PodLog(pods[0], log))] + PodWrites(ns, dir, c, pods[1..])
  }

  /** The pod-log part of a pass: the listed pods in order, or nothing if the pod listing fails. */
  function PodPart(ns: string, dir: Path, c: Cluster): seq<Effect> {
    match c.pods(ns)
    case None => []
    case Some(names) => PodWrites(ns, dir, c, names)
  }

  /** One `generateLog` pass over `kinds` whose kind files receive what `contentOf` says. */
  function GenerateLogWith(ns: string, dir: Path, c: Cluster, kinds: seq<Kind>,
                           contentOf: (Kind, string) -> Content): seq<Effect> {
    var p := ListingWrites(ns, dir, c, kinds, contentOf);
    if p.completed then p.effects + PodPart(ns, dir, c) else p.effects
  }

  /** Each kind's file holds that kind's own listing. */
  function OwnListing(k: Kind, text: string): Content {
    Listing(k, text)
  }

  /**
   * `generateLog(ns, dir)` as evidently intended, with every kind's file
   * receiving its own listing. The watcher runs `GenerateLogAsWritten`; this
   * corrected pass is what that is measured against.
   */
  function GenerateLogEffects(ns: string, dir: Path, c: Cluster): seq<Effect> {
    GenerateLogWith(ns, dir, c, Manifest, OwnListing)
  }

  /** The content rule of the code as written: the service-account dump `sa`, whatever the kind. */
  function ServiceAccountDump(sa: string): (Kind, string) -> Content {
    (k: Kind, text: string) => Listing(ServiceAccounts, sa)
  }

  /**
   * `generateLog(ns, dir)` as written: every kind's listing is fetched (a
   * failure still ends the pass) but every kind's file receives the dump of
   * the service-account listing fetched first.
   */
  function GenerateLogAsWritten(ns: string, dir: Path, c: Cluster): seq<Effect> {
    match c.list(ServiceAccounts, Scope(ServiceAccounts, ns))
    case None => []
    case Some(sa) => GenerateLogWith(ns, dir, c, Manifest, ServiceAccountDump(sa))
  }

  // ---------------------------------------------------------------- properties of one pass

  /** The index of the first kind whose fetch or write fails, or `|kinds|` when none does. */
  function FirstFailure(ns: string, dir: Path, c: Cluster, kinds: seq<Kind>): (n: nat)
    ensures n <= |kinds|
    ensures forall i :: 0 <= i < n ==> ListingSucceeds(ns, dir, c, kinds[i])
    ensures n < |kinds| ==> !ListingSucceeds(ns, dir, c, kinds[n])
    decreases |kinds|
  {
    if kinds == [] || !ListingSucceeds(ns, dir, c, kinds[0]) then 0
    else 1 + FirstFailure(ns, dir, c, kinds[1..])
  }

  /**
   * The listing writes are exactly the kinds before the first failing one, in
   * manifest order, each written to its own file; the pass completes exactly
   * when no kind failed.
   */
  lemma {:induction false} ListingWritesStopAtFirstFailure(ns: string, dir: Path, c: Cluster, kinds: seq<Kind>,
                                                          contentOf: (Kind, string) -> Content)
    ensures var p := ListingWrites(ns, dir, c, kinds, contentOf);
      && |p.effects| == FirstFailure(ns, dir, c, kinds)
      && (forall i :: 0 <= i < |p.effects| ==>
            p.effects[i] == Wrote(dir + [KindFile(ns, kinds[i])],
                                  contentOf(kinds[i], c.list(kinds[i], Scope(kinds[i], ns)).value)))
      && (p.completed <==> |p.effects| == |kinds|)
    decreases |kinds|
  {
    if kinds != [] {
      ListingWritesStopAtFirstFailure(ns, dir, c, kinds[1..], contentOf);
      var p := ListingWrites(ns, dir, c, kinds, contentOf);
      var rest := ListingWrites(ns, dir, c, kinds[1..], contentOf);
      if ListingSucceeds(ns, dir, c, kinds[0]) {
        assert p.effects[1..] == rest.effects;
        forall i | 1 <= i < |p.effects|
          ensures p.effects[i] == rest.effects[i - 1] && kinds[i] == kinds[1..][i - 1]
        {
        }
      }
    }
  }

  /** The pod writes are exactly the pods before the first failing one, in list order. */
  lemma {:induction false} PodWritesStopAtFirstFailure(ns: string, dir: Path, c: Cluster, pods: seq<string>)
    ensures var es := PodWrites(ns, dir, c, pods);
      && |es| <= |pods|
      && (forall i :: 0 <= i < |es| ==>
            && c.podLog(pods[i], ns).Some?
            && c.canWrite(dir + [PodFile(ns, pods[i])])
            && es[i] == Wrote(dir + [PodFile(ns, pods[i])], PodLog(pods[i], c.podLog(pods[i], ns).value)))
      && (|es| < |pods| ==>
            c.podLog(pods[|es|], ns).None? || !c.canWrite(dir + [PodFile(ns, pods[|es|])]))
    decreases |pods|
  {
    if pods != [] {
      PodWritesStopAtFirstFailure(ns, dir, c, pods[1..]);
      var es := PodWrites(ns, dir, c, pods);
      var rest := PodWrites(ns, dir, c, pods[1..]);
      if c.podLog(pods[0], ns).Some? && c.canWrite(dir + [PodFile(ns, pods[0])]) {
        assert es[1..] == rest;
        forall i | 1 <= i < |es|
          ensures es[i] == rest[i - 1] && pods[i] == pods[1..][i - 1]
        {
        }
      }
    }
  }

  /**
   * The shape of a pass over any list of kinds and any content rule: the
   * kinds before the first failure, each in its own file; the pod logs only
   * when no kind failed.
   */
  lemma PassWritesInOrder(ns: string, dir: Path, c: Cluster, kinds: seq<Kind>, contentOf: (Kind, string) -> Content)
    ensures var es := GenerateLogWith(ns, dir, c, kinds, contentOf);
            var n := FirstFailure(ns, dir, c, kinds);
      && |es| >= n
      && (forall i :: 0 <= i < n ==>
            es[i] == Wrote(dir + [KindFile(ns, kinds[i])],
                           contentOf(kinds[i], c.list(kinds[i], Scope(kinds[i], ns)).value)))
      && es[n..] == (if n == |kinds| then PodPart(ns, dir, c) else [])
  {
    var p := ListingWrites(ns, dir, c, kinds, contentOf);
    ListingWritesStopAtFirstFailure(ns, dir, c, kinds, contentOf);
    var es := GenerateLogWith(ns, dir, c, kinds, contentOf);
    if p.completed {
      assert es == p.effects + PodPart(ns, dir, c);
    }
  }

  /**
   * The corrected pass writes the files of the manifest kinds in order, each
   * with its own listing, up to the first kind whose fetch or write fails; only when all ten
   * succeed does it go on to the pods' logs.
   */
  lemma GenerateLogWritesInOrder(ns: string, dir: Path, c: Cluster)
    ensures var es := GenerateLogEffects(ns, dir, c);
            var n := FirstFailure(ns, dir, c, Manifest);
      && |es| >= n
      && (forall i :: 0 <= i < n ==>
            es[i] == Wrote(dir + [KindFile(ns, Manifest[i])],
                           Listing(Manifest[i], c.list(Manifest[i], Scope(Manifest[i], ns)).value)))
      && es[n..] == (if n == |Manifest| then PodPart(ns, dir, c) else [])
  {
    PassWritesInOrder(ns, dir, c, Manifest, OwnListing);
  }

  /**
   * One `try` covers the whole pass: when the fetch or write of the `i`-th kind
   * is the first to fail, exactly the `i` kinds before it are written and no
   * later kind and no pod log is.
   */
  lemma GenerateLogFirstFailureEndsPass(ns: string, dir: Path, c: Cluster, i: nat)
    requires i < |Manifest| && !ListingSucceeds(ns, dir, c, Manifest[i])
    requires forall j :: 0 <= j < i ==> ListingSucceeds(ns, dir, c, Manifest[j])
    ensures |GenerateLogAsWritten(ns, dir, c)| == i
  {
    FirstFailureIsFirst(ns, dir, c, Manifest, i);
    GenerateLogWritesInOrder(ns, dir, c);
    AsWrittenWritesSameFiles(ns, dir, c);
    var own := GenerateLogEffects(ns, dir, c);
    assert |own| == i + |own[i..]|;
  }

  /** Any index meeting the two conditions of `FirstFailure` is it. */
  lemma {:induction false} FirstFailureIsFirst(ns: string, dir: Path, c: Cluster, kinds: seq<Kind>, i: nat)
    requires i <= |kinds|
    requires forall j :: 0 <= j < i ==> ListingSucceeds(ns, dir, c, kinds[j])
    requires i < |kinds| ==> !ListingSucceeds(ns, dir, c, kinds[i])
    ensures FirstFailure(ns, dir, c, kinds) == i
    decreases |kinds|
  {
    if i > 0 {
      assert ListingSucceeds(ns, dir, c, kinds[0]);
      FirstFailureIsFirst(ns, dir, c, kinds[1..], i - 1);
    }
  }

  /**
   * Kinds are not isolated from each other: a failing secrets listing leaves
   * only the service-account, namespace, persistent-volume and
   * persistent-volume-claim files written for that namespace.
   */
  lemma SecretsFailureSuppressesLaterKinds(ns: string, dir: Path, c: Cluster)
    requires c.list(Secrets, Some(ns)).None?
    ensures forall e :: e in GenerateLogAsWritten(ns, dir, c) ==>
      e.Wrote? &&
      e.file in {dir + [KindFile(ns, ServiceAccounts)], dir + [KindFile(ns, Namespaces)],
                 dir + [KindFile(ns, PersistentVolumes)], dir + [KindFile(ns, PersistentVolumeClaims)]}
  {
    var es := GenerateLogAsWritten(ns, dir, c);
    var own := GenerateLogEffects(ns, dir, c);
    GenerateLogWritesInOrder(ns, dir, c);
    AsWrittenWritesSameFiles(ns, dir, c);
    var n := FirstFailure(ns, dir, c, Manifest);
    assert Manifest[4] == Secrets && !ListingSucceeds(ns, dir, c, Manifest[4]);
    assert n <= 4;
    assert |own| == n by {
      assert own[n..] == [];
      assert |own| == n + |own[n..]|;
    }
    forall e | e in es
      ensures e.Wrote?
      ensures e.file in {dir + [KindFile(ns, ServiceAccounts)], dir + [KindFile(ns, Namespaces)],
                         dir + [KindFile(ns, PersistentVolumes)], dir + [KindFile(ns, PersistentVolumeClaims)]}
    {
      var i :| 0 <= i < |es| && es[i] == e;
      assert e.file == own[i].file == dir + [KindFile(ns, KindAt(i))];
    }
  }

  /** The files a listing pass writes, and whether it completes, do not depend on the content rule. */
  lemma {:induction false} ListingFilesIndependentOfContent(ns: string, dir: Path, c: Cluster, kinds: seq<Kind>,
                                                            f1: (Kind, string) -> Content, f2: (Kind, string) -> Content)
    ensures var p1 := ListingWrites(ns, dir, c, kinds, f1);
            var p2 := ListingWrites(ns, dir, c, kinds, f2);
      && p1.completed == p2.completed
      && |p1.effects| == |p2.effects|
      && forall i :: 0 <= i < |p1.effects| ==> p1.effects[i].file == p2.effects[i].file
    decreases |kinds|
  {
    if kinds != [] && ListingSucceeds(ns, dir, c, kinds[0]) {
      ListingFilesIndependentOfContent(ns, dir, c, kinds[1..], f1, f2);
      var p1 := ListingWrites(ns, dir, c, kinds, f1);
      var p2 := ListingWrites(ns, dir, c, kinds, f2);
      var r1 := ListingWrites(ns, dir, c, kinds[1..], f1);
      var r2 := ListingWrites(ns, dir, c, kinds[1..], f2);
      forall i | 1 <= i < |p1.effects|
        ensures p1.effects[i].file == p2.effects[i].file
      {
        assert p1.effects[i] == r1.effects[i - 1] && p2.effects[i] == r2.effects[i - 1];
      }
    }
  }

  /** The as-written pass writes the same files, in the same order, as the corrected one. */
  lemma AsWrittenWritesSameFiles(ns: string, dir: Path, c: Cluster)
    ensures var asWritten := GenerateLogAsWritten(ns, dir, c);
            var own := GenerateLogEffects(ns, dir, c);
      && |asWritten| == |own|
      && forall i :: 0 <= i < |own| ==> asWritten[i].Wrote? && own[i].Wrote? && asWritten[i].file == own[i].file
  {
    var own := GenerateLogEffects(ns, dir, c);
    var p2 := ListingWrites(ns, dir, c, Manifest, OwnListing);
    match c.list(ServiceAccounts, Scope(ServiceAccounts, ns))
    case None =>
      assert Manifest[0] == ServiceAccounts && Manifest[0..] == Manifest;
      assert p2 == Progress([], false);
    case Some(sa) =>
      var asWritten := GenerateLogAsWritten(ns, dir, c);
      var p1 := ListingWrites(ns, dir, c, Manifest, ServiceAccountDump(sa));
      ListingFilesIndependentOfContent(ns, dir, c, Manifest, ServiceAccountDump(sa), OwnListing);
      var tail := if p1.completed then PodPart(ns, dir, c) else [];
      assert asWritten == p1.effects + tail && own == p2.effects + tail;
      forall i | 0 <= i < |own|
        ensures asWritten[i].Wrote? && own[i].Wrote? && asWritten[i].file == own[i].file
      {
        if i >= |p1.effects| {
          assert own[i] == tail[i - |p1.effects|] == asWritten[i];
          assert tail[i - |p1.effects|] in tail;
        } else {
          assert asWritten[i] == p1.effects[i] && own[i] == p2.effects[i];
          assert p1.effects[i] in p1.effects && p2.effects[i] in p2.effects;
        }
      }
  }

  /**
   * As written, every kind's file of a pass holds the service-account
   * listing, whatever its own kind's listing was.
   */
  lemma AsWrittenDumpsServiceAccounts(ns: string, dir: Path, c: Cluster)
    ensures var n := FirstFailure(ns, dir, c, Manifest);
      && |GenerateLogAsWritten(ns, dir, c)| >= n
      && forall i :: 0 <= i < n ==>
           GenerateLogAsWritten(ns, dir, c)[i] ==
             Wrote(dir + [KindFile(ns, Manifest[i])],
                   Listing(ServiceAccounts, c.list(ServiceAccounts, Some(ns)).value))
  {
    match c.list(ServiceAccounts, Scope(ServiceAccounts, ns))
    case None =>
      assert Manifest[0] == ServiceAccounts && !ListingSucceeds(ns, dir, c, Manifest[0]);
    case Some(sa) =>
      PassWritesInOrder(ns, dir, c, Manifest, ServiceAccountDump(sa));
  }

  /**
   * The discrepancy on a concrete cluster: every call succeeds, the
   * namespace listing dumps to "namespaces" and the service-account listing
   * to "serviceaccounts"; the `_ns.log` file written as the code stands holds
   * "serviceaccounts", the corrected pass writes "namespaces" there.
   */
  lemma AsWrittenNamespaceFileHoldsServiceAccounts(ns: string, dir: Path)
    ensures var c := Cluster(
              (k: Kind, scope: Option<string>) =>
                if k == ServiceAccounts then Some("serviceaccounts")
                else if k == Namespaces then Some("namespaces") else Some(""),
              (n: string) => Some([]),
              (pod: string, n: string) => Some(""),
              (p: Path) => true,
              (p: Path) => true);
      && |GenerateLogAsWritten(ns, dir, c)| > 1
      && GenerateLogAsWritten(ns, dir, c)[1] == Wrote(dir + [KindFile(ns, Namespaces)], Listing(ServiceAccounts, "serviceaccounts"))
      && |GenerateLogEffects(ns, dir, c)| > 1
      && GenerateLogEffects(ns, dir, c)[1] == Wrote(dir + [KindFile(ns, Namespaces)], Listing(Namespaces, "namespaces"))
  {
    var c := Cluster(
      (k: Kind, scope: Option<string>) =>
        if k == ServiceAccounts then Some("serviceaccounts")
        else if k == Namespaces then Some("namespaces") else Some(""),
      (n: string) => Some([]),
      (pod: string, n: string) => Some(""),
      (p: Path) => true,
      (p: Path) => true);
    GenerateLogWritesInOrder(ns, dir, c);
    AsWrittenDumpsServiceAccounts(ns, dir, c);
    assert forall k :: ListingSucceeds(ns, dir, c, k);
    FirstFailureIsFirst(ns, dir, c, Manifest, |Manifest|);
    assert Manifest[1] == Namespaces;
  }

  // ---------------------------------------------------------------- the namespace walk

  /** The names of the test-instance fields that may hold a namespace, in walk order. */
  const NamespaceFields: seq<string> := ["domainns", "opns"]

  /**
   * What reflection finds for a field name: no public field of that name, a
   * field whose value cannot be read, or a field holding a namespace name.
   */
  datatype FieldValue = NoSuchField | NotAccessible | Holds(value: string)

  type Instance = string -> FieldValue

  /** The namespaces held by the recognised fields, in field order. */
  function ResolveNamespaces(inst: Instance, fields: seq<string>): (nss: seq<string>)
    ensures |nss| <= |fields|
    decreases |fields|
  {
    if fields == [] then []
    else (match inst(fields[0]) case Holds(ns) => [ns] case _ => []) + ResolveNamespaces(inst, fields[1..])
  }

  /**
   * What `collectLogs` does for one field: create the directory (a failure
   * skips the field) and, when the field holds a namespace, run one
   * `generateLog` pass for it. A missing or unreadable field skips only the dump.
   */
  function FieldEffects(dir: Path, inst: Instance, c: Cluster, field: string): seq<Effect> {
    if !c.canCreateDirs(dir) then []
    else [CreatedDirs(dir)] + (match inst(field) case Holds(ns) => GenerateLogAsWritten(ns, dir, c) case _ => [])
  }

  /** `collectLogs` for one directory: each field in turn. */
  function CollectEffects(dir: Path, inst: Instance, c: Cluster, fields: seq<string>): seq<Effect>
    decreases |fields|
  {
    if fields == [] then [] else FieldEffects(dir, inst, c, fields[0]) + CollectEffects(dir, inst, c, fields[1..])
  }

  /** One step of a listing pass: the kind at `i` succeeds and the pass goes on with the kinds after it. */
  lemma ListingWritesStep(ns: string, dir: Path, c: Cluster, kinds: seq<Kind>, contentOf: (Kind, string) -> Content, i: nat)
    requires i < |kinds| && ListingSucceeds(ns, dir, c, kinds[i])
    ensures var rest := ListingWrites(ns, dir, c, kinds[i + 1..], contentOf);
      ListingWrites(ns, dir, c, kinds[i..], contentOf) ==
        Progress([Wrote(dir + [KindFile(ns, kinds[i])], contentOf(kinds[i], c.list(kinds[i], Scope(kinds[i], ns)).value))]
                 + rest.effects, rest.completed)
  {
    assert kinds[i..][0] == kinds[i] && kinds[i..][1..] == kinds[i + 1..];
  }

  /** One step of the walk: the field at `i`, then the fields after it. */
  lemma CollectEffectsStep(dir: Path, inst: Instance, c: Cluster, fields: seq<string>, i: nat)
    requires i < |fields|
    ensures CollectEffects(dir, inst, c, fields[i..]) ==
            FieldEffects(dir, inst, c, fields[i]) + CollectEffects(dir, inst, c, fields[i + 1..])
  {
    assert fields[i..][0] == fields[i] && fields[i..][1..] == fields[i + 1..];
  }

  /** The file writes among some effects, in order. */
  function Writes(es: seq<Effect>): (ws: seq<Effect>)
    ensures forall e :: e in ws ==> e.Wrote?
    decreases |es|
  {
    if es == [] then [] else (if es[0].Wrote? then [es[0]] else []) + Writes(es[1..])
  }

  /** One `generateLog` pass per namespace, in order. */
  function DumpAll(nss: seq<string>, dir: Path, c: Cluster): seq<Effect>
    decreases |nss|
  {
    if nss == [] then [] else GenerateLogAsWritten(nss[0], dir, c) + DumpAll(nss[1..], dir, c)
  }

  lemma {:induction false} WritesAppend(a: seq<Effect>, b: seq<Effect>)
    ensures Writes(a + b) == Writes(a) + Writes(b)
    decreases |a|
  {
    if a != [] {
      assert (a + b)[0] == a[0] && (a + b)[1..] == a[1..] + b;
      WritesAppend(a[1..], b);
      var h := if a[0].Wrote? then [a[0]] else [];
      assert Writes(a + b) == h + Writes(a[1..] + b);
      assert Writes(a) == h + Writes(a[1..]);
      assert h + Writes(a[1..]) + Writes(b) == h + (Writes(a[1..]) + Writes(b));
    } else {
      assert a + b == b;
    }
  }

  lemma {:induction false} WritesOfWrites(es: seq<Effect>)
    requires forall e :: e in es ==> e.Wrote?
    ensures Writes(es) == es
    decreases |es|
  {
    if es != [] {
      WritesOfWrites(es[1..]);
    }
  }

  lemma GenerateLogOnlyWrites(ns: string, dir: Path, c: Cluster)
    ensures forall e :: e in GenerateLogAsWritten(ns, dir, c) ==> e.Wrote?
  {
  }

  /**
   * When the directory can be created, the files written by the walk are
   * one full `generateLog` pass for each resolved namespace, in field order;
   * when it cannot, nothing is written at all.
   */
  lemma {:induction false} CollectDumpsResolvedNamespaces(dir: Path, inst: Instance, c: Cluster, fields: seq<string>)
    ensures c.canCreateDirs(dir) ==> Writes(CollectEffects(dir, inst, c, fields)) == DumpAll(ResolveNamespaces(inst, fields), dir, c)
    ensures !c.canCreateDirs(dir) ==> CollectEffects(dir, inst, c, fields) == []
    decreases |fields|
  {
    if fields != [] {
      CollectDumpsResolvedNamespaces(dir, inst, c, fields[1..]);
      var here := FieldEffects(dir, inst, c, fields[0]);
      var rest := CollectEffects(dir, inst, c, fields[1..]);
      assert CollectEffects(dir, inst, c, fields) == here + rest;
      var nss := ResolveNamespaces(inst, fields);
      var own := Listed(if inst(fields[0]).Holds? then Some(inst(fields[0]).value) else None);
      assert nss == own + ResolveNamespaces(inst, fields[1..]);
      if c.canCreateDirs(dir) {
        WritesAppend(here, rest);
        FieldWrites(dir, inst, c, fields[0]);
        DumpAllAppend(own, ResolveNamespaces(inst, fields[1..]), dir, c);
        if inst(fields[0]).Holds? {
          assert DumpAll(own, dir, c) == GenerateLogAsWritten(inst(fields[0]).value, dir, c) + DumpAll([], dir, c);
        }
      } else {
        assert here == [];
      }
    }
  }

  /** The writes of one field are the pass for the namespace it holds, if any. */
  lemma FieldWrites(dir: Path, inst: Instance, c: Cluster, field: string)
    requires c.canCreateDirs(dir)
    ensures Writes(FieldEffects(dir, inst, c, field)) ==
      (match inst(field) case Holds(ns) => GenerateLogAsWritten(ns, dir, c) case _ => [])
  {
    var dumps := match inst(field) case Holds(ns) => GenerateLogAsWritten(ns, dir, c) case _ => [];
    assert FieldEffects(dir, inst, c, field) == [CreatedDirs(dir)] + dumps;
    WritesAppend([CreatedDirs(dir)], dumps);
    assert Writes([CreatedDirs(dir)]) == [] by {
      assert [CreatedDirs(dir)][1..] == [];
    }
    if inst(field).Holds? {
      GenerateLogOnlyWrites(inst(field).value, dir, c);
    }
    WritesOfWrites(dumps);
  }

  lemma {:induction false} DumpAllAppend(a: seq<string>, b: seq<string>, dir: Path, c: Cluster)
    ensures DumpAll(a + b, dir, c) == DumpAll(a, dir, c) + DumpAll(b, dir, c)
    decreases |a|
  {
    if a == [] {
      assert a + b == b;
    } else {
      assert (a + b)[0] == a[0] && (a + b)[1..] == a[1..] + b;
      DumpAllAppend(a[1..], b, dir, c);
    }
  }

  /**
   * A test instance with none of the recognised fields (such as one whose only
   * namespace field is `itTestns`) gets its directory created and no file written.
   */
  lemma NoRecognisedFieldNoDump(dir: Path, inst: Instance, c: Cluster)
    requires forall f :: f in NamespaceFields ==> !inst(f).Holds?
    ensures Writes(CollectEffects(dir, inst, c, NamespaceFields)) == []
  {
    CollectDumpsResolvedNamespaces(dir, inst, c, NamespaceFields);
    assert NamespaceFields[1..] == ["opns"] && ["opns"][1..] == [];
    assert ResolveNamespaces(inst, NamespaceFields) == [];
  }
}
