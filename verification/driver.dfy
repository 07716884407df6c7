/** The driver `checkERC20`: traverse the tree, check that some ERC-20
    token list exists, then validate every selected file in traversal order,
    stopping at the first failure. The process exit becomes the returned
    verdict. */
module Driver {
  import opened Walker
  import opened Selection
  import opened Schema

  datatype Option<T> = None | Some(value: T)

  /** How a run ends. Every verdict but Passed exits with status 1. */
  datatype Verdict =
    | Passed
    | InvalidFolderStructure                              // 'Invalid folder structure'
    | ReadFailed(file: string)                            // readFileSync or JSON.parse threw
    | ValidationError(file: string, issues: seq<Issue>)   // safeParse reported issues

  /** The process exit status a verdict stands for. */
  function ExitCode(v: Verdict): int
  {
    if v.Passed? then 0 else 1
  }

  /** `ERC20Schema.safeParse` as the driver calls it: the issues of a parsed file. */
  function SchemaCheck(o: Oracles): Json -> seq<Issue>
  {
    (document: Json) => SafeParse(o, document)
  }

  /** A selected file that reads, parses and passes the schema check. */
  predicate FilePasses(file: string, load: string -> Option<Json>, check: Json -> seq<Issue>)
  {
    load(file).Some? && check(load(file).value) == []
  }

  /** The `forEach` over the selected files: the verdict, and the files
      whose schema check ran (the 'Now running schema check' lines). */
  function RunChecks(files: seq<string>, load: string -> Option<Json>, check: Json -> seq<Issue>): (Verdict, seq<string>)
  {
    if files == [] then (Passed, [])
    else
      match load(files[0])
      case None => (ReadFailed(files[0]), [])
      case Some(document) =>
        var issues := check(document);
        if issues != [] then (ValidationError(files[0], issues), [files[0]])
        else
          var rest := RunChecks(files[1..], load, check);
          (rest.0, [files[0]] + rest.1)
  }

  /** The whole check on a traversal result. */
  function Check(paths: seq<string>, load: string -> Option<Json>, o: Oracles): (Verdict, seq<string>)
  {
    if !IsValidFS(paths) then (InvalidFolderStructure, [])
    else RunChecks(SelectErc20Files(paths), load, SchemaCheck(o))
  }

  /** `checkERC20()` on the tree under `root`. `load` reads and parses one
      file; None stands for the exception either step throws. */
  method CheckErc20(root: string, listing: seq<Entry>, load: string -> Option<Json>, o: Oracles)
    returns (verdict: Verdict, checked: seq<string>)
    ensures (verdict, checked) == Check(Walk(root, listing), load, o)
  {
    var traversalResult := TraverseRoot(root, listing);
    if !IsValidFS(traversalResult) {
      return InvalidFolderStructure, [];
    }
    verdict, checked := ValidateFiles(SelectErc20Files(traversalResult), load, SchemaCheck(o));
  }

  /** The `forEach` loop: validate each file in order; the first failure
      ends the run, as `process.exit` does. */
  method ValidateFiles(files: seq<string>, load: string -> Option<Json>, check: Json -> seq<Issue>)
    returns (verdict: Verdict, checked: seq<string>)
    ensures (verdict, checked) == RunChecks(files, load, check)
  {
    checked := [];
    var i := 0;
    while i < |files|
      invariant 0 <= i <= |files|
      invariant checked == files[..i]
      invariant forall j :: 0 <= j < i ==> FilePasses(files[j], load, check)
    {
      var file := files[i];
      var content := load(file);
      if content.None? {
        RunChecksStopsAtFirstFailure(files, load, check);
        return ReadFailed(file), checked;
      }
      checked := checked + [file];
      var issues := check(content.value);
      assert checked == files[..i + 1];
      if issues != [] {
        RunChecksStopsAtFirstFailure(files, load, check);
        return ValidationError(file, issues), checked;
      }
      i := i + 1;
    }
    RunChecksStopsAtFirstFailure(files, load, check);
    assert checked == files;
    verdict := Passed;
  }

  /** The position of the first selected file that does not pass, or the
      number of files when all pass. */
  function FirstFailure(files: seq<string>, load: string -> Option<Json>, check: Json -> seq<Issue>): (k: nat)
    ensures k <= |files|
    ensures forall j :: 0 <= j < k ==> FilePasses(files[j], load, check)
    ensures k < |files| ==> !FilePasses(files[k], load, check)
  {
    if files == [] || !FilePasses(files[0], load, check) then 0
    else
      var k := FirstFailure(files[1..], load, check);
      assert forall j :: 0 < j <= k ==> files[j] == files[1..][j - 1];
      1 + k
  }

  /** The run stops at the first file that does not pass: the files before
      it all passed and were checked, and no later file is read. A file
      that fails to read or parse is not checked; a file that fails the
      schema is, and its issues are reported. With no failure the run
      checks every file and passes. */
  lemma {:induction false} RunChecksStopsAtFirstFailure(files: seq<string>, load: string -> Option<Json>, check: Json -> seq<Issue>)
    ensures var k := FirstFailure(files, load, check);
            RunChecks(files, load, check)
            == if k == |files| then (Passed, files)
               else if load(files[k]).None? then (ReadFailed(files[k]), files[..k])
               else (ValidationError(files[k], check(load(files[k]).value)), files[..k + 1])
    decreases |files|
  {
    if files != [] {
      if FilePasses(files[0], load, check) {
        RunChecksStopsAtFirstFailure(files[1..], load, check);
        var k := FirstFailure(files[1..], load, check);
        assert FirstFailure(files, load, check) == k + 1;
        assert k < |files| - 1 ==> files[1..][k] == files[k + 1];
        assert [files[0]] + files[1..] == files;
        assert [files[0]] + files[1..][..k] == files[..k + 1];
        assert k < |files| - 1 ==> [files[0]] + files[1..][..k + 1] == files[..k + 2];
      } else {
        assert files[..1] == [files[0]];
      }
    }
  }

  /** The structural check fails exactly when no path is selected, and then
      no file is read. */
  lemma StructuralErrorIffNothingSelected(paths: seq<string>, load: string -> Option<Json>, o: Oracles)
    ensures Check(paths, load, o).0 == InvalidFolderStructure <==> SelectErc20Files(paths) == []
    ensures Check(paths, load, o).0 == InvalidFolderStructure ==> Check(paths, load, o).1 == []
  {
    ValidFSIffSelectionNonEmpty(paths);
    RunChecksStopsAtFirstFailure(SelectErc20Files(paths), load, SchemaCheck(o));
  }

  /** A run passes exactly when something is selected and every selected
      file reads, parses and is a token list; it then checks every selected file. */
  lemma PassesIffAllSelectedValid(paths: seq<string>, load: string -> Option<Json>, o: Oracles)
    ensures Check(paths, load, o).0 == Passed <==>
              SelectErc20Files(paths) != []
              && forall f :: f in SelectErc20Files(paths) ==>
                   load(f).Some? && IsTokenList(o, load(f).value)
    ensures Check(paths, load, o).0 == Passed ==> Check(paths, load, o).1 == SelectErc20Files(paths)
  {
    var files := SelectErc20Files(paths);
    ValidFSIffSelectionNonEmpty(paths);
    RunChecksStopsAtFirstFailure(files, load, SchemaCheck(o));
    forall f | f in files && load(f).Some?
      ensures FilePasses(f, load, SchemaCheck(o)) <==> IsTokenList(o, load(f).value)
    {
      SafeParseSucceedsIff(o, load(f).value);
    }
    var k := FirstFailure(files, load, SchemaCheck(o));
    if k < |files| {
      assert files[k] in files;
    }
  }

  /** The process exits with status 0 exactly when something is selected
      and every selected file reads and is a token list; otherwise with 1. */
  lemma ExitStatusZeroIffAllSelectedValid(paths: seq<string>, load: string -> Option<Json>, o: Oracles)
    ensures ExitCode(Check(paths, load, o).0) == 0 <==>
              SelectErc20Files(paths) != []
              && forall f :: f in SelectErc20Files(paths) ==>
                   load(f).Some? && IsTokenList(o, load(f).value)
    ensures ExitCode(Check(paths, load, o).0) in {0, 1}
  {
    PassesIffAllSelectedValid(paths, load, o);
  }

  /** A schema failure names the first selected file that does not pass,
      with that file's issues; every file checked before it passed, and no
      later file is checked. */
  lemma ValidationErrorIsFirstFailure(paths: seq<string>, load: string -> Option<Json>, o: Oracles)
    requires Check(paths, load, o).0.ValidationError?
    ensures var (verdict, checked) := Check(paths, load, o);
            var files := SelectErc20Files(paths);
            && 0 < |checked| <= |files| && checked == files[..|checked|]
            && verdict.file == checked[|checked| - 1]
            && load(verdict.file).Some? && verdict.issues == SafeParse(o, load(verdict.file).value)
            && verdict.issues != [] && !IsTokenList(o, load(verdict.file).value)
            && forall j :: 0 <= j < |checked| - 1 ==> load(checked[j]).Some? && IsTokenList(o, load(checked[j]).value)
  {
    var files := SelectErc20Files(paths);
    RunChecksStopsAtFirstFailure(files, load, SchemaCheck(o));
    var k := FirstFailure(files, load, SchemaCheck(o));
    SafeParseSucceedsIff(o, load(files[k]).value);
    forall j | 0 <= j < k
      ensures load(files[j]).Some? && IsTokenList(o, load(files[j]).value)
    {
      SafeParseSucceedsIff(o, load(files[j]).value);
    }
  }

  /** The files checked are selected files, taken in traversal order. */
  lemma CheckedFilesFollowTraversal(paths: seq<string>, load: string -> Option<Json>, o: Oracles)
    ensures var checked := Check(paths, load, o).1;
            && |checked| <= |SelectErc20Files(paths)|
            && checked == SelectErc20Files(paths)[..|checked|]
            && IsSubsequence(SelectErc20Files(paths), paths)
  {
    SelectionIsSubsequence(paths);
    RunChecksStopsAtFirstFailure(SelectErc20Files(paths), load, SchemaCheck(o));
  }
}
