/**
 * The WebLogic Image Tool (WIT) wrapper of the integration tests: the
 * command lines it builds for the `update`, `cache addInstaller` and
 * `cache deleteEntry` subcommands, the comma list it passes for model,
 * variable and archive files, and the order in which `updateImage`
 * runs its three steps. Running a command and checking that a file exists
 * are inputs: `exec` says whether a command succeeds, `fileExists` whether
 * a path exists.
 */
module ImageTool {
  import opened Wrappers
  import opened Text

  // ---------------------------------------------------------------- comma lists

  /** The items separated by single commas. */
  function Join(xs: seq<string>): string
    decreases |xs|
  {
    if xs == [] then "" else if |xs| == 1 then xs[0] else xs[0] + "," + Join(xs[1..])
  }

  /** What `buildList`'s buffer holds before the trim: each item followed by a comma. */
  function Terminated(xs: seq<string>): string
    decreases |xs|
  {
    if xs == [] then "" else Terminated(xs[..|xs| - 1]) + xs[|xs| - 1] + ","
  }

  lemma {:induction false} JoinSnoc(xs: seq<string>, x: string)
    requires xs != []
    ensures Join(xs + [x]) == Join(xs) + "," + x
    decreases |xs|
  {
    if |xs| == 1 {
      assert xs + [x] == [xs[0], x];
      assert [xs[0], x][1..] == [x];
    } else {
      assert (xs + [x])[1..] == xs[1..] + [x];
      JoinSnoc(xs[1..], x);
    }
  }

  /** With at least one item, the buffer is the joined list plus one trailing comma. */
  lemma {:induction false} TerminatedIsJoinPlusComma(xs: seq<string>)
    requires xs != []
    ensures Terminated(xs) == Join(xs) + ","
    decreases |xs|
  {
    var init := xs[..|xs| - 1];
    if init == [] {
      assert xs == [xs[0]];
    } else {
      TerminatedIsJoinPlusComma(init);
      JoinSnoc(init, xs[|xs| - 1]);
      assert init + [xs[|xs| - 1]] == xs;
    }
  }

  /**
   * `buildList(list)`: append each item and a comma, then drop the last
   * character if there is one.
   */
  method BuildList(list: seq<string>) returns (s: string)
    ensures s == Join(list)
  {
    var sb := "";
    var i := 0;
    while i < |list|
      invariant i <= |list|
      invariant sb == Terminated(list[..i])
    {
      assert list[..i + 1][..i] == list[..i];
      sb := sb + list[i] + ",";
      i := i + 1;
    }
    assert list[..i] == list;
    s := sb;
    if |s| > 0 {
      s := s[..|s| - 1];
    }
    if list != [] {
      TerminatedIsJoinPlusComma(list);
    }
  }

  /** A joined list of comma-free items splits back into the items. */
  lemma {:induction false} SplitJoin(xs: seq<string>)
    requires xs != []
    requires forall i :: 0 <= i < |xs| ==> ',' !in xs[i]
    ensures Split(Join(xs), ',') == xs
    decreases |xs|
  {
    if |xs| == 1 {
      SplitOfPiece(xs[0], ',');
    } else {
      SplitJoin(xs[1..]);
      SplitAround(xs[0], ',', Join(xs[1..]));
      SplitOfPiece(xs[0], ',');
      assert [xs[0]] + xs[1..] == xs;
    }
  }

  /** A joined list of `n` comma-free items holds `n - 1` commas. */
  lemma CommaCount(xs: seq<string>)
    requires xs != []
    requires forall i :: 0 <= i < |xs| ==> ',' !in xs[i]
    ensures Count(Join(xs), ',') == |xs| - 1
  {
    SplitJoin(xs);
    SplitLength(Join(xs), ',');
  }

  /** Joining one-word items gives one word. */
  lemma {:induction false} JoinIsWord(xs: seq<string>)
    requires xs != [] && forall i :: 0 <= i < |xs| ==> IsWord(xs[i])
    ensures IsWord(Join(xs))
    decreases |xs|
  {
    if |xs| > 1 {
      JoinIsWord(xs[1..]);
      assert forall c :: c in Join(xs) ==> c in xs[0] || c == ',' || c in Join(xs[1..]);
    }
  }

  // ---------------------------------------------------------------- command words

  /*
   * The command texts below are the Java code's string literals cut at their
   * blanks (`" cache deleteEntry "` is written `" " + "cache" + " " +
   * "deleteEntry" + " "`): the same characters, grouped so that each word
   * stands on its own.
   */

  /** The `cache deleteEntry` command for a WDT version. */
  function DeleteEntryCommand(tool: string, wdtVersion: string): string {
    tool + " " + "cache" + " " + "deleteEntry" + " " + "--key" + " " + ("wdt_" + wdtVersion)
  }

  /** Its arguments: the cache key is `wdt_` followed by the version. */
  lemma DeleteEntryWords(tool: string, wdtVersion: string)
    requires IsWord(tool) && ' ' !in wdtVersion
    ensures Words(DeleteEntryCommand(tool, wdtVersion)) == [tool, "cache", "deleteEntry", "--key", "wdt_" + wdtVersion]
  {
    WordsOfWord(tool);
    ThenWords4(tool, "cache", "deleteEntry", "--key", "wdt_" + wdtVersion);
  }

  /** The `cache addInstaller` command for a WDT version and installer path. */
  function AddInstallerCommand(tool: string, wdtVersion: string, wdtZip: string): string {
    tool + " " + "cache" + " " + "addInstaller" + " " + " " + "--type" + " " + "wdt"
    + " " + "--version" + " " + wdtVersion + " " + "--path" + " " + wdtZip
  }

  /** Its arguments: the installer type, the version and the installer path. */
  lemma AddInstallerWords(tool: string, wdtVersion: string, wdtZip: string)
    requires IsWord(tool) && IsWord(wdtVersion) && IsWord(wdtZip)
    ensures Words(AddInstallerCommand(tool, wdtVersion, wdtZip)) ==
      [tool, "cache", "addInstaller", "--type", "wdt", "--version", wdtVersion, "--path", wdtZip]
  {
    var c2 := tool + " " + "cache" + " " + "addInstaller";
    var c3 := c2 + " ";
    WordsOfWord(tool);
    ThenWords2(tool, "cache", "addInstaller");
    ThenBlank(c2);
    ThenWords4(c3, "--type", "wdt", "--version", wdtVersion);
    ThenWords2(c3 + " " + "--type" + " " + "wdt" + " " + "--version" + " " + wdtVersion, "--path", wdtZip);
  }

  // ---------------------------------------------------------------- the update command

  /**
   * The parameters the update command reads; a list is `None` when the
   * parameter is `null`.
   */
  datatype WitParams = WitParams(
    modelImageName: string,
    modelImageTag: string,
    baseImageName: string,
    baseImageTag: string,
    domainType: string,
    modelFiles: Option<seq<string>>,
    modelVariableFiles: Option<seq<string>>,
    modelArchiveFiles: Option<seq<string>>,
    wdtVersion: string,
    redirect: bool)

  /** The list is non-null and non-empty. */
  predicate Present(files: Option<seq<string>>) {
    files.Some? && |files.value| != 0
  }

  /** ` <flag> <joined list>` when the list is present, nothing otherwise. */
  function OptionalFlag(flag: string, files: Option<seq<string>>): string {
    if Present(files) then " " + flag + " " + Join(files.value) else ""
  }

  /** The `update` command up to the optional flags. */
  function FixedUpdateCommand(tool: string, p: WitParams): string {
    tool + " " + "update" + " "
    + " " + "--tag" + " " + (p.modelImageName + ":" + p.modelImageTag)
    + " " + "--fromImage" + " " + (p.baseImageName + ":" + p.baseImageTag)
    + " " + "--wdtDomainType" + " " + p.domainType
    + " " + "--wdtModelOnly" + " "
  }

  /**
   * `buildUpdateCommand()`: the fixed part, then `--wdtModel`,
   * `--wdtVariables` and `--wdtArchive`, each with its comma list and only
   * when that list is present.
   */
  function UpdateCommand(tool: string, p: WitParams): string {
    FixedUpdateCommand(tool, p)
    + OptionalFlag("--wdtModel", p.modelFiles)
    + OptionalFlag("--wdtVariables", p.modelVariableFiles)
    + OptionalFlag("--wdtArchive", p.modelArchiveFiles)
  }

  /** `[flag, joined list]` when the list is present. */
  function FlagWords(flag: string, files: Option<seq<string>>): seq<string> {
    if Present(files) then [flag, Join(files.value)] else []
  }

  /** Every item of a present list is one word. */
  predicate WordItems(files: Option<seq<string>>) {
    files.Some? ==> forall i :: 0 <= i < |files.value| ==> IsWord(files.value[i])
  }

  lemma OptionalFlagWords(flag: string, files: Option<seq<string>>)
    requires IsWord(flag) && WordItems(files)
    ensures Words(OptionalFlag(flag, files)) == FlagWords(flag, files)
  {
    if Present(files) {
      JoinIsWord(files.value);
      ThenWord("", flag);
      assert "" + " " + flag == " " + flag;
      ThenWord(" " + flag, Join(files.value));
    }
  }

  /** The shape of the fixed part of the update command: nine words, one double blank, a trailing blank. */
  lemma FixedUpdateShapeWords(t0: string, t1: string, t2: string, t3: string, t4: string,
                              t5: string, t6: string, t7: string, t8: string)
    requires IsWord(t0) && IsWord(t1) && IsWord(t2) && IsWord(t3) && IsWord(t4)
    requires IsWord(t5) && IsWord(t6) && IsWord(t7) && IsWord(t8)
    ensures Words(t0 + " " + t1 + " " + " " + t2 + " " + t3 + " " + t4 + " " + t5
                  + " " + t6 + " " + t7 + " " + t8 + " ")
      == [t0, t1] + [t2, t3, t4, t5] + [t6, t7, t8]
  {
    var c2 := t0 + " " + t1 + " ";
    var c6 := c2 + " " + t2 + " " + t3 + " " + t4 + " " + t5;
    TwoWordsBlank(t0, t1);
    ThenWords4(c2, t2, t3, t4, t5);
    ThenWords3(c6, t6, t7, t8);
    ThenBlank(c6 + " " + t6 + " " + t7 + " " + t8);
  }

  lemma FixedUpdateWords(tool: string, p: WitParams)
    requires IsWord(tool) && IsWord(p.modelImageName + ":" + p.modelImageTag)
    requires IsWord(p.baseImageName + ":" + p.baseImageTag) && IsWord(p.domainType)
    ensures Words(FixedUpdateCommand(tool, p)) ==
      [tool, "update"]
      + ["--tag", p.modelImageName + ":" + p.modelImageTag, "--fromImage", p.baseImageName + ":" + p.baseImageTag]
      + ["--wdtDomainType", p.domainType, "--wdtModelOnly"]
  {
    FixedUpdateShapeWords(tool, "update", "--tag", p.modelImageName + ":" + p.modelImageTag,
                          "--fromImage", p.baseImageName + ":" + p.baseImageTag,
                          "--wdtDomainType", p.domainType, "--wdtModelOnly");
  }

  /**
   * The arguments of the update command, for parameters that are single
   * words: the subcommand, `--tag name:tag`, `--fromImage base:tag`,
   * `--wdtDomainType type`, `--wdtModelOnly`, then `--wdtModel`,
   * `--wdtVariables` and `--wdtArchive` each with its comma list, in that
   * order, each only when its list is present.
   */
  lemma UpdateCommandWords(tool: string, p: WitParams)
    requires IsWord(tool) && IsWord(p.modelImageName + ":" + p.modelImageTag)
    requires IsWord(p.baseImageName + ":" + p.baseImageTag) && IsWord(p.domainType)
    requires WordItems(p.modelFiles) && WordItems(p.modelVariableFiles) && WordItems(p.modelArchiveFiles)
    ensures Words(UpdateCommand(tool, p)) ==
      [tool, "update"]
      + ["--tag", p.modelImageName + ":" + p.modelImageTag, "--fromImage", p.baseImageName + ":" + p.baseImageTag]
      + ["--wdtDomainType", p.domainType, "--wdtModelOnly"]
      + FlagWords("--wdtModel", p.modelFiles)
      + FlagWords("--wdtVariables", p.modelVariableFiles)
      + FlagWords("--wdtArchive", p.modelArchiveFiles)
  {
    var fixed := FixedUpdateCommand(tool, p);
    var f1 := OptionalFlag("--wdtModel", p.modelFiles);
    var f2 := OptionalFlag("--wdtVariables", p.modelVariableFiles);
    var f3 := OptionalFlag("--wdtArchive", p.modelArchiveFiles);
    assert fixed[|fixed| - 1] == ' ';
    FixedUpdateWords(tool, p);
    OptionalFlagWords("--wdtModel", p.modelFiles);
    OptionalFlagWords("--wdtVariables", p.modelVariableFiles);
    OptionalFlagWords("--wdtArchive", p.modelArchiveFiles);
    WordsConcat(fixed, f1);
    WordsConcat(fixed + f1, f2);
    WordsConcat(fixed + f1 + f2, f3);
  }

  /** The literal pieces of the fixed part, each a word between two blanks. */
  lemma FixedPieces()
    ensures " update " == " " + "update" + " "
    ensures " --tag " == " " + "--tag" + " "
    ensures " --fromImage " == " " + "--fromImage" + " "
    ensures " --wdtDomainType " == " " + "--wdtDomainType" + " "
    ensures " --wdtModelOnly " == " " + "--wdtModelOnly" + " "
  {
  }

  /** The literal pieces of the optional flags, each a word between two blanks. */
  lemma FlagPieces()
    ensures " --wdtModel " == " " + "--wdtModel" + " "
    ensures " --wdtVariables " == " " + "--wdtVariables" + " "
    ensures " --wdtArchive " == " " + "--wdtArchive" + " "
  {
  }

  /** The fixed part as the Java code writes it, literal pieces whole, is the fixed part above. */
  lemma SourceFixedUpdate(tool: string, p: WitParams)
    ensures tool
      + " update "
      + " --tag " + p.modelImageName + ":" + p.modelImageTag
      + " --fromImage " + p.baseImageName + ":" + p.baseImageTag
      + " --wdtDomainType " + p.domainType
      + " --wdtModelOnly "
      == FixedUpdateCommand(tool, p)
  {
    FixedPieces();
    var s1 := tool + " update ";
    AppendPiece(tool, " update ", "update");
    var s2 := s1 + " --tag ";
    AppendPiece(s1, " --tag ", "--tag");
    var s3 := s2 + p.modelImageName + ":" + p.modelImageTag;
    AppendValue(s2, p.modelImageName, p.modelImageTag);
    var s4 := s3 + " --fromImage ";
    AppendPiece(s3, " --fromImage ", "--fromImage");
    var s5 := s4 + p.baseImageName + ":" + p.baseImageTag;
    AppendValue(s4, p.baseImageName, p.baseImageTag);
    var s6 := s5 + " --wdtDomainType ";
    AppendPiece(s5, " --wdtDomainType ", "--wdtDomainType");
    var s7 := s6 + p.domainType;
    AppendPiece(s7, " --wdtModelOnly ", "--wdtModelOnly");
  }

  /** Appending ` <flag> ` and the joined list of a present list is appending its optional flag. */
  lemma AppendFlag(x: string, text: string, flag: string, files: Option<seq<string>>, list: string)
    requires text == " " + flag + " "
    requires Present(files) && list == Join(files.value)
    ensures x + text + list == x + OptionalFlag(flag, files)
  {
    AppendAssoc(x, text, list);
  }

  /**
   * `buildUpdateCommand()`: the fixed part, then each optional flag with
   * its comma list appended when that list is present.
   */
  method BuildUpdateCommand(tool: string, p: WitParams) returns (command: string)
    ensures command == UpdateCommand(tool, p)
  {
    command :=
      tool
      + " update "
      + " --tag " + p.modelImageName + ":" + p.modelImageTag
      + " --fromImage " + p.baseImageName + ":" + p.baseImageTag
      + " --wdtDomainType " + p.domainType
      + " --wdtModelOnly ";
    SourceFixedUpdate(tool, p);
    FlagPieces();
    ghost var fixed := command;
    if p.modelFiles.Some? && |p.modelFiles.value| != 0 {
      var list := BuildList(p.modelFiles.value);
      AppendFlag(command, " --wdtModel ", "--wdtModel", p.modelFiles, list);
      command := command + " --wdtModel " + list;
    }
    ghost var withModel := command;
    assert withModel == fixed + OptionalFlag("--wdtModel", p.modelFiles);
    if p.modelVariableFiles.Some? && |p.modelVariableFiles.value| != 0 {
      var list := BuildList(p.modelVariableFiles.value);
      AppendFlag(command, " --wdtVariables ", "--wdtVariables", p.modelVariableFiles, list);
      command := command + " --wdtVariables " + list;
    }
    ghost var withVariables := command;
    assert withVariables == withModel + OptionalFlag("--wdtVariables", p.modelVariableFiles);
    if p.modelArchiveFiles.Some? && |p.modelArchiveFiles.value| != 0 {
      var list := BuildList(p.modelArchiveFiles.value);
      AppendFlag(command, " --wdtArchive ", "--wdtArchive", p.modelArchiveFiles, list);
      command := command + " --wdtArchive " + list;
    }
    assert command == withVariables + OptionalFlag("--wdtArchive", p.modelArchiveFiles);
  }

  // ---------------------------------------------------------------- the tool object

  /** One call of `executeAndVerify`: the command and, for the two-argument form, the redirect flag. */
  datatype Invocation = Invocation(command: string, redirect: Option<bool>)

  /** Where the tool and the WDT installer live (the `IMAGE_TOOL` and `WDT_ZIP` paths). */
  datatype Installation = Installation(imageTool: string, wdtZip: string)

  class WebLogicImageTool {
    /** The parameters given by `with`; `None` until then. */
    var params: Option<WitParams>

    constructor ()
      ensures params == None
    {
      params := None;
    }

    /** `with(params)`. */
    method With(p: WitParams)
      modifies this
      ensures params == Some(p)
    {
      params := Some(p);
    }

    /** `deleteEntry()`: run the delete command; its result is the command's. */
    method DeleteEntry(inst: Installation, exec: Invocation -> bool) returns (ok: bool, ran: seq<Invocation>)
      requires params.Some?
      ensures ran == [Invocation(DeleteEntryCommand(inst.imageTool, params.value.wdtVersion), None)]
      ensures ok == exec(ran[0])
    {
      var call := Invocation(DeleteEntryCommand(inst.imageTool, params.value.wdtVersion), None);
      ok := exec(call);
      ran := [call];
    }

    /**
     * `addInstaller()`: `Err` with the installer path, running nothing, when
     * the installer file is missing; otherwise the result of the
     * `addInstaller` command.
     */
    method AddInstaller(inst: Installation, exec: Invocation -> bool, fileExists: string -> bool)
      returns (result: Result<bool, string>, ran: seq<Invocation>)
      requires params.Some?
      ensures !fileExists(inst.wdtZip) ==> result == Err(inst.wdtZip) && ran == []
      ensures fileExists(inst.wdtZip) ==>
        && ran == [Invocation(AddInstallerCommand(inst.imageTool, params.value.wdtVersion, inst.wdtZip), None)]
        && result == Ok(exec(ran[0]))
    {
      if !fileExists(inst.wdtZip) {
        return Err(inst.wdtZip), [];
      }
      var call := Invocation(AddInstallerCommand(inst.imageTool, params.value.wdtVersion, inst.wdtZip), None);
      result := Ok(exec(call));
      ran := [call];
    }

    /**
     * `updateImage()`: delete the cache entry, add the installer, check the
     * tool exists, then run the update command; the first step that fails
     * ends it with `false` and nothing after it runs.
     */
    method UpdateImage(inst: Installation, exec: Invocation -> bool, fileExists: string -> bool)
      returns (ok: bool, ran: seq<Invocation>)
      requires params.Some?
      ensures var p := params.value;
              var del := Invocation(DeleteEntryCommand(inst.imageTool, p.wdtVersion), None);
              var add := Invocation(AddInstallerCommand(inst.imageTool, p.wdtVersion, inst.wdtZip), None);
              var upd := Invocation(UpdateCommand(inst.imageTool, p), Some(p.redirect));
        && (!exec(del) ==> ran == [del])
        && (exec(del) && !fileExists(inst.wdtZip) ==> ran == [del])
        && (exec(del) && fileExists(inst.wdtZip) && !exec(add) ==> ran == [del, add])
        && (exec(del) && fileExists(inst.wdtZip) && exec(add) && !fileExists(inst.imageTool) ==> ran == [del, add])
        && (exec(del) && fileExists(inst.wdtZip) && exec(add) && fileExists(inst.imageTool) ==> ran == [del, add, upd])
        && (ok <==> exec(del) && fileExists(inst.wdtZip) && exec(add) && fileExists(inst.imageTool) && exec(upd))
    {
      var deleted, r1 := DeleteEntry(inst, exec);
      ran := r1;
      if !deleted {
        return false, ran;
      }
      var added, r2 := AddInstaller(inst, exec, fileExists);
      ran := ran + r2;
      if added.Err? || !added.value {
        return false, ran;
      }
      if !fileExists(inst.imageTool) {
        return false, ran;
      }
      var command := BuildUpdateCommand(inst.imageTool, params.value);
      var call := Invocation(command, Some(params.value.redirect));
      ok := exec(call);
      ran := ran + [call];
    }
  }
}
