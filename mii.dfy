/**
 * The model-in-image helpers of the older integration tests: the image
 * name and the extra domain inputs `createModelInImageMap` adds, the rule
 * `getRestartVersion` uses to pick the next domain restart version, and
 * the `kubectl` commands that read and patch that version. Running a
 * command is an input: `exec` gives its standard output or the exception
 * it threw.
 */
module ModelInImage {
  import opened Wrappers
  import opened Text

  // ---------------------------------------------------------------- image name

  /**
   * The `image` input: the lower-cased prefix, `-modelinimage-`, the suffix
   * and the `latest` tag; without the prefix when it is `null` or blank.
   */
  function ImageName(prefix: Option<string>, suffixCount: int): string {
    if prefix.Some? && Trim(prefix.value) != "" then
      ToLowerAscii(prefix.value) + "-modelinimage-" + IntToString(suffixCount) + ":latest"
    else
      "modelinimage-" + IntToString(suffixCount) + ":latest"
  }

  /** The repository part of the image name, before `:latest`. */
  function Repository(prefix: Option<string>, suffixCount: int): string {
    if prefix.Some? && Trim(prefix.value) != "" then
      ToLowerAscii(prefix.value) + "-modelinimage-" + IntToString(suffixCount)
    else
      "modelinimage-" + IntToString(suffixCount)
  }

  /**
   * The image name is a repository with the `latest` tag, and the
   * repository holds no upper-case ASCII letter, whatever the prefix.
   */
  lemma ImageNameIsLowerCaseLatest(prefix: Option<string>, suffixCount: int)
    ensures ImageName(prefix, suffixCount) == Repository(prefix, suffixCount) + ":latest"
    ensures forall i :: 0 <= i < |Repository(prefix, suffixCount)| ==> !IsUpperAscii(Repository(prefix, suffixCount)[i])
  {
    var digits := IntToString(suffixCount);
    var infix := "-modelinimage-";
    assert forall i :: 0 <= i < |infix| ==> !IsUpperAscii(infix[i]);
    assert forall i :: 1 <= i < |infix| ==> infix[i] == infix[1..][i - 1];
    assert forall i :: 0 <= i < |digits| ==> !IsUpperAscii(digits[i]);
    if prefix.Some? && Trim(prefix.value) != "" {
      var lower := ToLowerAscii(prefix.value);
      var r := lower + infix + digits;
      assert forall i :: 0 <= i < |r| ==>
        r[i] == (if i < |lower| then lower[i] else if i < |lower| + |infix| then infix[i - |lower|] else digits[i - |lower| - |infix|]);
    } else {
      var r := infix[1..] + digits;
      assert forall i :: 0 <= i < |r| ==> r[i] == (if i < |infix| - 1 then infix[1..][i] else digits[i - |infix| + 1]);
    }
  }

  /** Distinct suffixes give distinct image names for the same prefix. */
  lemma ImageNameInjective(prefix: Option<string>, m: int, n: int)
    requires ImageName(prefix, m) == ImageName(prefix, n)
    ensures m == n
  {
    var head := if prefix.Some? && Trim(prefix.value) != "" then ToLowerAscii(prefix.value) + "-modelinimage-" else "modelinimage-";
    var s := ImageName(prefix, m);
    assert s == head + IntToString(m) + ":latest";
    assert s == head + IntToString(n) + ":latest";
    assert IntToString(m) == s[|head|..|s| - 7];
    assert IntToString(n) == s[|head|..|s| - 7];
    IntToStringInjective(m, n);
  }

  /** A blank or `null` prefix is left out, and a prefix that is not blank always shows. */
  lemma ImageNamePrefixUsedIffNotBlank(prefix: string, suffixCount: int)
    ensures ImageName(Some(prefix), suffixCount) == ImageName(None, suffixCount) <==> IsBlank(prefix)
  {
    TrimEmptyIffBlank(prefix);
    if !IsBlank(prefix) {
      assert prefix != [];
      assert |ImageName(Some(prefix), suffixCount)| > |ImageName(None, suffixCount)|;
    }
  }

  // ---------------------------------------------------------------- domain inputs

  /** The keys `createModelInImageMap` sets on top of the base domain inputs. */
  const ModelInImageKeys: set<string> := {"domainHomeSourceType", "domainHomeImageBase", "logHomeOnPV", "image"}

  /**
   * `createModelInImageMap(suffixCount, prefix)`: the base domain inputs
   * (from `createDomainMap`, an input here) with the source type, the base
   * image, the log-home flag and the image name put in.
   */
  method CreateModelInImageMap(base: map<string, string>, suffixCount: int, prefix: Option<string>,
                               weblogicImageName: string, weblogicImageTag: string)
    returns (domainMap: map<string, string>)
    ensures domainMap.Keys == base.Keys + ModelInImageKeys
    ensures domainMap["domainHomeSourceType"] == "FromModel"
    ensures domainMap["domainHomeImageBase"] == weblogicImageName + ":" + weblogicImageTag
    ensures domainMap["logHomeOnPV"] == "true"
    ensures domainMap["image"] == ImageName(prefix, suffixCount)
    ensures forall k :: k in base && k !in ModelInImageKeys ==> domainMap[k] == base[k]
  {
    domainMap := base;
    domainMap := domainMap["domainHomeSourceType" := "FromModel"];
    domainMap := domainMap["domainHomeImageBase" := weblogicImageName + ":" + weblogicImageTag];
    domainMap := domainMap["logHomeOnPV" := "true"];
    if prefix.Some? && Trim(prefix.value) != "" {
      domainMap := domainMap["image" := ToLowerAscii(prefix.value) + "-modelinimage-" + IntToString(suffixCount) + ":latest"];
    } else {
      domainMap := domainMap["image" := "modelinimage-" + IntToString(suffixCount) + ":latest"];
    }
  }

  // ---------------------------------------------------------------- Java int

  const MinInt: int := -0x8000_0000
  const MaxInt: int := 0x7fff_ffff

  predicate InInt(n: int) {
    MinInt <= n <= MaxInt
  }

  /** Java `int` arithmetic: the value taken modulo 2^32 into the `int` range. */
  function WrapInt(n: int): (r: int)
    ensures InInt(r)
    ensures (r - n) % 0x1_0000_0000 == 0
    ensures InInt(n) ==> r == n
  {
    (n - MinInt) % 0x1_0000_0000 + MinInt
  }

  // ---------------------------------------------------------------- restart version

  /** What running a command gave: its standard output, or an exception with its message (`None` for `null`). */
  datatype ExecOutcome = Stdout(out: string) | Threw(message: Option<string>)

  /** A failure that escapes `getRestartVersion`. */
  datatype Failure = NullPointer | Raised(message: Option<string>)

  /**
   * The next restart version for what the version lookup gave:
   * - an `int` numeral: that number plus one, in `int` arithmetic;
   * - a numeral outside the `int` range: `Integer.parseInt` throws, the
   *   exception is caught, and the version stays `"1"`;
   * - any other text: that text followed by `"1"`;
   * - a lookup that threw: `"1"`, unless the exception has no message,
   *   in which case reading its message throws `NullPointerException`.
   */
  function NextRestartVersion(lookup: ExecOutcome): Result<string, Failure> {
    match lookup
    case Threw(message) => if message.None? then Err(NullPointer) else Ok("1")
    case Stdout(existing) =>
      if !IsIntPattern(existing) then Ok(existing + "1")
      else if InInt(ParseInt(existing)) then Ok(IntToString(WrapInt(1 + ParseInt(existing))))
      else Ok("1")
  }

  /** A numeric version below the `int` maximum is incremented. */
  lemma NumericVersionIncremented(existing: string)
    requires IsIntPattern(existing) && MinInt <= ParseInt(existing) < MaxInt
    ensures NextRestartVersion(Stdout(existing)).Ok?
    ensures IsIntPattern(NextRestartVersion(Stdout(existing)).value)
    ensures ParseInt(NextRestartVersion(Stdout(existing)).value) == ParseInt(existing) + 1
  {
    ParseIntToString(ParseInt(existing) + 1);
  }

  /** Adding one to an `int` in `int` arithmetic never gives the same `int`. */
  lemma WrapIncrementDiffers(n: int)
    requires InInt(n)
    ensures WrapInt(1 + n) != n
    ensures n < MaxInt ==> WrapInt(1 + n) == n + 1
    ensures n == MaxInt ==> WrapInt(1 + n) == MinInt
  {
  }

  /** The `int` maximum wraps around to the `int` minimum. */
  lemma MaxVersionWraps(existing: string)
    requires IsIntPattern(existing) && ParseInt(existing) == MaxInt
    ensures NextRestartVersion(Stdout(existing)).Ok?
    ensures ParseInt(NextRestartVersion(Stdout(existing)).value) == MinInt
  {
    var m := WrapInt(1 + ParseInt(existing));
    WrapIncrementDiffers(ParseInt(existing));
    ParseIntToString(m);
  }

  /** Any other text gets `"1"` appended. */
  lemma TextVersionGetsOneAppended(existing: string)
    requires !IsIntPattern(existing)
    ensures NextRestartVersion(Stdout(existing)) == Ok(existing + "1")
  {
  }

  /**
   * Whenever the lookup prints a version, the next version computed from it
   * differs from it.
   */
  lemma NextVersionDiffers(existing: string)
    ensures NextRestartVersion(Stdout(existing)).Ok?
    ensures NextRestartVersion(Stdout(existing)).value != existing
  {
    var next := NextRestartVersion(Stdout(existing)).value;
    if !IsIntPattern(existing) {
      assert |next| == |existing| + 1;
    } else if InInt(ParseInt(existing)) {
      var n := ParseInt(existing);
      var m := WrapInt(1 + n);
      WrapIncrementDiffers(n);
      ParseIntToString(m);
      assert ParseInt(next) == m;
    } else {
      OneIsAnInt();
    }
  }

  lemma OneIsAnInt()
    ensures IsIntPattern("1") && ParseInt("1") == 1
  {
    assert Unsigned("1") == "1";
  }

  /** A lookup that throws an exception with a message falls back to `"1"`; one without a message escapes. */
  lemma FailedLookupFallsBack(message: Option<string>)
    ensures message.Some? ==> NextRestartVersion(Threw(message)) == Ok("1")
    ensures message.None? ==> NextRestartVersion(Threw(message)) == Err(NullPointer)
  {
  }

  // ---------------------------------------------------------------- version lookup command

  /*
   * Command texts below are the Java code's string literals cut at their
   * blanks, so that each word stands on its own; the characters are the
   * same.
   */

  /** The `-o` option that prints only the restart version. */
  const JsonPathOption := "-o=jsonpath='{.spec.restartVersion}'"

  /**
   * The lookup command as the Java code builds it: nothing separates the
   * domain UID from the `-o` option.
   */
  function VersionQueryAsWritten(domainNS: string, domainUid: string): string {
    "kubectl" + " " + "-n" + " " + domainNS + " " + "get" + " " + "domain" + " " + (domainUid + JsonPathOption)
  }

  /** The lookup command as evidently intended, with a blank before the `-o` option. */
  function VersionQuery(domainNS: string, domainUid: string): string {
    "kubectl" + " " + "-n" + " " + domainNS + " " + "get" + " " + "domain" + " " + domainUid + " " + JsonPathOption
  }

  lemma KubectlWords(domainNS: string, verb: string, kind: string, name: string)
    requires IsWord(domainNS) && IsWord(verb) && IsWord(kind) && IsWord(name)
    ensures Words("kubectl" + " " + "-n" + " " + domainNS + " " + verb + " " + kind + " " + name)
      == ["kubectl", "-n"] + [domainNS, verb, kind, name]
  {
    SixWords("kubectl", "-n", domainNS, verb, kind, name);
  }

  /**
   * As written, `kubectl` is asked for a domain whose name is the UID with
   * the `-o` option glued to it, and no output option is passed.
   */
  lemma VersionQueryAsWrittenWords(domainNS: string, domainUid: string)
    requires IsWord(domainNS) && IsWord(domainUid)
    ensures Words(VersionQueryAsWritten(domainNS, domainUid))
      == ["kubectl", "-n"] + [domainNS, "get", "domain", domainUid + JsonPathOption]
  {
    KubectlWords(domainNS, "get", "domain", domainUid + JsonPathOption);
  }

  /** The domain named in the as-written lookup is never the domain whose version is wanted. */
  lemma VersionQueryAsWrittenNamesAnotherDomain(domainNS: string, domainUid: string)
    requires IsWord(domainNS) && IsWord(domainUid)
    ensures |Words(VersionQueryAsWritten(domainNS, domainUid))| == 6
    ensures Words(VersionQueryAsWritten(domainNS, domainUid))[5] != domainUid
  {
    VersionQueryAsWrittenWords(domainNS, domainUid);
    assert |domainUid + JsonPathOption| > |domainUid|;
  }

  /** With the blank, the UID and the `-o` option are separate arguments. */
  lemma VersionQueryWords(domainNS: string, domainUid: string)
    requires IsWord(domainNS) && IsWord(domainUid)
    ensures Words(VersionQuery(domainNS, domainUid))
      == ["kubectl", "-n"] + [domainNS, "get", "domain", domainUid] + [JsonPathOption]
  {
    KubectlWords(domainNS, "get", "domain", domainUid);
    ThenWord("kubectl" + " " + "-n" + " " + domainNS + " " + "get" + " " + "domain" + " " + domainUid, JsonPathOption);
  }

  /** `"kubectl -n "` is the first two words and a blank. */
  lemma KubectlPiece()
    ensures "kubectl -n " == "kubectl" + " " + "-n" + " "
  {
  }

  lemma KubectlHead(x: string)
    ensures "kubectl -n " + x == "kubectl" + " " + "-n" + " " + x
  {
    KubectlPiece();
    AppendAssoc("kubectl" + " " + "-n", " ", x);
  }

  /** The verb and kind of the lookup, between blanks. */
  lemma GetDomainPiece()
    ensures " get domain " == " " + "get" + " " + "domain" + " "
  {
  }

  /** The lookup command as the Java code appends it, literal pieces whole, is the as-written lookup above. */
  lemma SourceVersionQuery(domainNS: string, domainUid: string)
    ensures "kubectl -n " + domainNS + " get domain " + domainUid + JsonPathOption
      == VersionQueryAsWritten(domainNS, domainUid)
  {
    KubectlHead(domainNS);
    GetDomainPiece();
    var x := "kubectl" + " " + "-n" + " " + domainNS;
    AppendPiece2(x, " get domain ", "get", "domain");
    AppendAssoc(x + " " + "get" + " " + "domain" + " ", domainUid, JsonPathOption);
  }

  /**
   * `getRestartVersion(domainNS, domainUid)`: look the version up, then
   * derive the next one from what the lookup gave.
   */
  method GetRestartVersion(domainNS: string, domainUid: string, exec: string -> ExecOutcome)
    returns (versionNo: Result<string, Failure>, query: string)
    ensures query == VersionQueryAsWritten(domainNS, domainUid)
    ensures versionNo == NextRestartVersion(exec(query))
  {
    var version := "1";
    var getVersionCmd := "kubectl -n ";
    getVersionCmd := getVersionCmd + domainNS;
    getVersionCmd := getVersionCmd + " get domain ";
    getVersionCmd := getVersionCmd + domainUid;
    getVersionCmd := getVersionCmd + JsonPathOption;
    SourceVersionQuery(domainNS, domainUid);
    query := getVersionCmd;
    match exec(query) {
      case Stdout(existing) =>
        if IsIntPattern(existing) {
          var number := ParseInt(existing);
          if InInt(number) {
            OneIsAnInt();
            version := IntToString(WrapInt(ParseInt(version) + number));
          }
          // otherwise Integer.parseInt throws, the exception is caught and the version stays "1"
        } else {
          version := existing + version;
        }
      case Threw(message) =>
        // getMessage() is null: calling contains on it throws
        if message.None? {
          return Err(NullPointer), query;
        }
    }
    versionNo := Ok(version);
  }

  // ---------------------------------------------------------------- patch command

  /** The part of the JSON patch argument before the version. */
  const PatchOpen := " -p='[{\"op\": \"replace\", \"path\": \"/spec/restartVersion\", \"value\": \"'"

  /** The part of the JSON patch argument after the version. */
  const PatchClose := "'\" }]'"

  /** The command head up to the version. */
  function PatchHead(domainNS: string, domainUid: string): string {
    "kubectl" + " " + "-n" + " " + domainNS + " " + "patch" + " " + "domain" + " " + domainUid
    + " " + "--type='json'" + " " + PatchOpen
  }

  /**
   * The patch command: a JSON patch replacing `/spec/restartVersion` with
   * the version, which sits between the two single-quoted halves.
   */
  function PatchCommand(domainNS: string, domainUid: string, versionNo: string): string {
    PatchHead(domainNS, domainUid) + versionNo + PatchClose
  }

  /** The version is recovered from the patch command by dropping the fixed head and tail. */
  function PatchedVersion(domainNS: string, domainUid: string, command: string): string
    requires |command| >= |PatchHead(domainNS, domainUid)| + |PatchClose|
  {
    command[|PatchHead(domainNS, domainUid)|..|command| - |PatchClose|]
  }

  lemma PatchedVersionRoundTrip(domainNS: string, domainUid: string, versionNo: string)
    ensures |PatchCommand(domainNS, domainUid, versionNo)| >= |PatchHead(domainNS, domainUid)| + |PatchClose|
    ensures PatchedVersion(domainNS, domainUid, PatchCommand(domainNS, domainUid, versionNo)) == versionNo
  {
    var c := PatchCommand(domainNS, domainUid, versionNo);
    assert c[|PatchHead(domainNS, domainUid)|..|c| - |PatchClose|] == versionNo;
  }

  /** Different versions give different patch commands. */
  lemma PatchCommandInjective(domainNS: string, domainUid: string, v1: string, v2: string)
    requires PatchCommand(domainNS, domainUid, v1) == PatchCommand(domainNS, domainUid, v2)
    ensures v1 == v2
  {
    PatchedVersionRoundTrip(domainNS, domainUid, v1);
    PatchedVersionRoundTrip(domainNS, domainUid, v2);
  }

  /**
   * The command patches the named domain in the named namespace with a
   * JSON patch: its first seven arguments are fixed, the patch follows.
   */
  lemma PatchCommandWords(domainNS: string, domainUid: string, versionNo: string)
    requires IsWord(domainNS) && IsWord(domainUid)
    ensures |Words(PatchCommand(domainNS, domainUid, versionNo))| >= 7
    ensures Words(PatchCommand(domainNS, domainUid, versionNo))[..7]
      == ["kubectl", "-n"] + [domainNS, "patch", "domain", domainUid] + ["--type='json'"]
  {
    var named := "kubectl" + " " + "-n" + " " + domainNS + " " + "patch" + " " + "domain" + " " + domainUid;
    var typed := named + " " + "--type='json'";
    KubectlWords(domainNS, "patch", "domain", domainUid);
    ThenWord(named, "--type='json'");
    var rest := PatchOpen + versionNo + PatchClose;
    assert PatchCommand(domainNS, domainUid, versionNo) == typed + " " + rest by {
      AppendAssoc(typed + " " + PatchOpen, versionNo, PatchClose);
      AppendAssoc(typed + " ", PatchOpen, versionNo + PatchClose);
    }
    WordsAround(typed, rest);
  }

  /** The verb and kind of the patch, between blanks. */
  lemma PatchDomainPiece()
    ensures " patch domain " == " " + "patch" + " " + "domain" + " "
  {
  }

  /** The patch type option, between blanks. */
  lemma PatchTypePiece()
    ensures " --type='json' " == " " + "--type='json'" + " "
  {
  }

  /** The patch command as the Java code appends it, literal pieces whole, is the patch command above. */
  lemma SourcePatchCommand(domainNS: string, domainUid: string, versionNo: string)
    ensures "kubectl -n " + domainNS + " patch domain " + domainUid + " --type='json' "
            + PatchOpen + versionNo + PatchClose
      == PatchCommand(domainNS, domainUid, versionNo)
  {
    KubectlHead(domainNS);
    var s1 := "kubectl" + " " + "-n" + " " + domainNS;
    PatchDomainPiece();
    AppendPiece2(s1, " patch domain ", "patch", "domain");
    var s2 := s1 + " " + "patch" + " " + "domain" + " " + domainUid;
    PatchTypePiece();
    AppendPiece(s2, " --type='json' ", "--type='json'");
  }

  /**
   * `modifyDomainYamlWithRestartVersion(domain, domainNS)`: compute the next
   * version, then run the patch command with it. A failure of the version
   * lookup or of the patch command escapes; the restart checks that follow
   * are not modelled.
   */
  method ModifyDomainYamlWithRestartVersion(domainNS: string, domainUid: string, exec: string -> ExecOutcome)
    returns (result: Result<string, Failure>, ran: seq<string>)
    ensures var next := NextRestartVersion(exec(VersionQueryAsWritten(domainNS, domainUid)));
      && (next.Err? ==> result == next && ran == [VersionQueryAsWritten(domainNS, domainUid)])
      && (next.Ok? ==>
            && ran == [VersionQueryAsWritten(domainNS, domainUid), PatchCommand(domainNS, domainUid, next.value)]
            && result == (if exec(ran[1]).Threw? then Err(Raised(exec(ran[1]).message)) else Ok(next.value)))
  {
    var versionNo, query := GetRestartVersion(domainNS, domainUid, exec);
    ran := [query];
    if versionNo.Err? {
      return versionNo, ran;
    }
    var patchDomainCmd := "kubectl -n ";
    patchDomainCmd := patchDomainCmd + domainNS;
    patchDomainCmd := patchDomainCmd + " patch domain ";
    patchDomainCmd := patchDomainCmd + domainUid;
    patchDomainCmd := patchDomainCmd + " --type='json' ";
    patchDomainCmd := patchDomainCmd + PatchOpen;
    patchDomainCmd := patchDomainCmd + versionNo.value;
    patchDomainCmd := patchDomainCmd + PatchClose;
    SourcePatchCommand(domainNS, domainUid, versionNo.value);
    ran := ran + [patchDomainCmd];
    match exec(patchDomainCmd) {
      case Threw(message) =>
        result := Err(Raised(message));
      case Stdout(_) =>
        result := Ok(versionNo.value);
    }
  }
}
