# ERC-20 token-list checker, modelled in Dafny

The checker walks the directory that holds the script (`__dirname`) and
collects every path beneath it. It then keeps the paths that look like ERC-20 token
lists: the lower-cased path contains `erc20` and the path as written
contains `index.json`. If there are none, it fails with "Invalid folder
structure". Otherwise it reads and parses each selected file in traversal
order and validates it against a strict token-list schema. The first file
that does not pass ends the run with exit status 1.

The model has four modules, one file each:

- `walker.dfy` (`Walker`): the directory tree as a datatype and the
  pre-order flattening that specifies `recursivePathTraversal`. The
  traversal itself is a recursive method over a shared, mutable path array
  (`PathArray`). Because of the `indexOf`/`concat` test, a recursive call
  appends to its caller's array and its return value can be discarded;
  the method's contract states this aliasing outright.
- `selection.dfy` (`Selection`): `toLowerCase`, `includes`, the
  selection predicate, the `some` structural check and the `filter`.
- `schema.dfy` (`Schema`): JSON values, the rules of `ERC20Schema`, and
  `safeParse` as a list of located issues. Success is the empty list. A
  declarative definition of a token entry and a token list is proved
  equivalent to it.
- `driver.dfy` (`Driver`): `checkERC20`. The process exit becomes a
  returned verdict: passed, invalid folder structure, a file that could not
  be read or parsed, or a schema error with its issues. The
  `Now running schema check` log becomes the returned list of files whose
  schema check ran.

The file system is an explicit finite tree. Reading plus `JSON.parse` of
a file is a parameter `load` (None when either throws). The library
checks `isAddress`, `.url()` and `.base64()` are function-valued fields
of an `Oracles` value. The first-failure loop takes the schema check as a
function parameter, and `checkERC20` passes `safeParse`.

The code accepts any string for `name` and `symbol`, even an empty one,
and sets no lower bound on `decimals`; `Schema.SampleListIsValid` states
this for a one-entry list, and `Schema.EntryIssuesEmptyIff` for any entry.

## Model

| member | source | states |
|---|---|---|
| Walker.Join | src/check.js:34 | `path.join(parent, name)`, as concatenation with one separator; Walker.SegmentOfPathBelow states what it yields. |
| Walker.Flatten | src/check.js:32-41 | The paths pushed for a listing, in depth-first pre-order; Walker.FlattenLength, FlattenAppend and DirectoryPrecedesContents characterise it. |
| Walker.Walk | src/check.js:25-44 | The traversal of a directory lists the root first and then one path for each of the Size(listing) entries beneath it. |
| Walker.FlattenLength | src/check.js:32-41 | The pre-order flattening has exactly one path per entry of the tree, counting everything beneath each directory. |
| Walker.FlattenAppend | src/check.js:32-41 | Siblings are listed in listing order: flattening two consecutive parts of a listing is the first part's paths followed by the second's. |
| Walker.SubtreeInPlace | src/check.js:32-41 | The paths of the k-th entry form one contiguous block, between those of the earlier siblings and those of the later ones. |
| Walker.DirectoryPrecedesContents | src/check.js:37-39 | A directory's path is pushed before its contents, and its whole flattened contents follow it immediately, at the position given by the sizes of its earlier siblings. |
| Walker.FlattenUnder | src/check.js:34 | Every path produced under a parent starts with the parent followed by a separator. |
| Walker.SegmentOfPathBelow | src/check.js:34 | A joined path, and anything below it, has the joined name as its first segment below the parent. |
| Walker.SubtreeSegment | src/check.js:34-40 | Every path an entry contributes starts below the parent with that entry's name. |
| Walker.FlattenSegments | src/check.js:32-41 | Every path in a listing's flattening starts below the parent with the name of one of the listing's entries. |
| Walker.FlattenNoDuplicates | src/check.js:32-41 | In a tree where names hold no separator and sibling names differ, no path is listed twice. |
| Walker.WalkNoDuplicates | src/check.js:25-44 | The traversal of such a tree lists every entry exactly once, so its length is 1 + Size(listing). |
| Walker.IndexOf | src/check.js:28 | `indexOf` is -1 exactly when the path is absent; otherwise it is the first position holding the path. |
| Walker.PathArray.constructor | src/check.js:25 | A new array holds the given paths (the default argument is the empty array). |
| Walker.PathArray.Push | src/check.js:38-40 | `push` appends one path to the array in place. |
| Walker.PathArray.Concat | src/check.js:30 | `concat` returns a new array with the path appended and leaves the original unchanged. |
| Walker.RecursivePathTraversal | src/check.js:25-44 | If `pth` is already recorded, the method returns the caller's own array. Otherwise it returns a fresh array and leaves the caller's unchanged. Either way the result holds the earlier paths, then `pth` when new, then the pre-order flattening of the listing. A recursive call therefore extends the caller's array, and discarding its result loses nothing. |
| Walker.ExtendByEntry | src/check.js:32-41 | One loop turn extends the paths of the first i entries to those of the first i + 1: the entry's own path, then (for a directory) its contents. |
| Walker.FlattenSnoc | src/check.js:32-41 | Flattening one more entry appends exactly that entry's paths. |
| Walker.TraverseRoot | src/check.js:52 | The top-level call with an empty array returns exactly the specified traversal. |
| Selection.Lower | src/check.js:56 | Lower-casing keeps the length and maps each character by ASCII lower-casing. |
| Selection.Includes | src/check.js:56-57 | `includes` holds exactly when the pattern occurs at some position of the text. |
| Selection.IsErc20IndexFile | src/check.js:55-57 | The predicate of both the `some` and the `filter`. Selection.Erc20MatchIgnoresCase characterises its first half, Selection.Includes its second, and the example lemmas below pin down concrete paths. |
| Selection.IsValidFS | src/check.js:54-58 | The structural check holds exactly when some traversed path satisfies the selection predicate. |
| Selection.SelectErc20Files | src/check.js:64-69 | The selection holds exactly the traversed paths that satisfy the predicate, and is no longer than the traversal. |
| Selection.SelectionMultiplicity | src/check.js:66-69 | Each path satisfying the predicate occurs in the selection exactly as often as in the traversal, and no other path occurs; with Selection.SelectionIsSubsequence this fixes the selection as the filter of the traversal. |
| Selection.SelectionIsSubsequence | src/check.js:64-69 | The selected files keep their traversal order (an order-preserving subsequence). |
| Selection.SelectionAppend | src/check.js:64-69 | Filtering distributes over concatenation: files selected from an earlier part of the traversal precede those from a later part. |
| Selection.ValidFSIffSelectionNonEmpty | src/check.js:54-69 | The `some` check fails exactly when the `filter` selects nothing. |
| Selection.Erc20MatchIgnoresCase | src/check.js:56 | The lower-cased path contains `erc20` exactly when the path spells it at some position with each letter in either case. |
| Selection.Erc20IndexFileSelected | src/check.js:56-57 | Any path that spells `erc20` in any case somewhere before `index.json` is selected. |
| Selection.WithoutZeroNotSelected | src/check.js:56-57 | A path without the digit 0 is never selected. |
| Selection.UpperCaseDirectorySelected | src/check.js:56-57 | `/assets/ERC20/1/index.json` is selected: the directory test ignores case. |
| Selection.UpperCaseFileNameNotSelected | src/check.js:57 | `/assets/erc20/1/INDEX.JSON` is not selected: the file-name test is case-sensitive. |
| Selection.OtherStandardNotSelected | src/check.js:6-7 | `/assets/erc721/1/index.json` is not selected. |
| Selection.SubstringMatchIsLenient | src/check.js:56-57 | `/assets/myerc2000/index.json.bak` is selected: both tests are substring matches. |
| Schema.EntryIssues | src/check.js:10-22 | The strict object check of one element. Schema.EntryIssuesEmptyIff characterises it against the declarative token entry, and Schema.EntryIssuesAt locates its issues. |
| Schema.ElementIssues | src/check.js:9-23 | The array check over the elements in order. Schema.ElementIssuesLocate and Schema.ElementIssuesEmptyIff characterise it. |
| Schema.SafeParse | src/check.js:9-23 | `safeParse`: a non-array gives one issue; an array gives its elements' issues. Schema.SafeParseSucceedsIff characterises it. |
| Schema.EntryIssuesEmptyIff | src/check.js:10-22 | The strict object check reports nothing exactly on a token entry. A token entry has exactly the six keys, string name and symbol, an address passing `isAddress`, a non-empty URL-or-base64 logo, integer decimals at most 256 and an integer chain id. |
| Schema.EntryIssuesAt | src/check.js:10-22 | Every issue of an element carries that element's index. |
| Schema.ElementIssuesLocate | src/check.js:9-23 | The array's issues are exactly the union of its elements' own issues, each at its element's index. |
| Schema.InvalidEntriesReported | src/check.js:9-23 | Every issue names an element that is not a token entry, and every element that is not a token entry is named by some issue. |
| Schema.ElementIssuesEmptyIff | src/check.js:9-23 | The elements report nothing exactly when every element is a token entry. |
| Schema.SafeParseSucceedsIff | src/check.js:9-23 | `safeParse` succeeds exactly on a JSON array all of whose elements are token entries. |
| Schema.EmptyListIsValid | src/check.js:9 | The empty array is a valid token list. |
| Schema.ExtraKeyRejected | src/check.js:22 | An object with a key outside the six is not a token entry, and an unrecognised-keys issue names that key. |
| Schema.AddedKeyReported | src/check.js:22 | Adding an undeclared key to an object with exactly the declared keys adds exactly one issue, naming that key. |
| Schema.SampleIssues | src/check.js:12-20 | For a one-entry sample list, whatever the library checks answer: exactly one issue for each of address, logo and decimals that fails its check, in declaration order, and none for the other fields. |
| Schema.SampleFieldIssues | src/check.js:12-20 | The same, field by field: the sample's name, symbol and chain id always pass. |
| Schema.SampleListIsValid | src/check.js:12-20 | The sample list passes exactly when the address passes `isAddress`, the logo is non-empty and a URL or base64, and decimals are an integer at most 256. Any name and symbol pass, even empty ones, and so do negative decimals. |
| Schema.DecimalsReported | src/check.js:16-19 | Decimals are reported exactly when they are not an integer at most 256; with an accepted address and a non-empty URL or base64 logo that is the only issue. |
| Schema.BadAddressReported | src/check.js:14 | An address refused by `isAddress` is always reported against `address`, and alone when the logo passes. |
| Schema.DecimalsAboveBoundReported | src/check.js:16-19 | Decimals of 300 and of 18.5 are always reported and 256 never is. With an accepted address and logo, 300 and 18.5 each give exactly that one issue and 256 passes. |
| Schema.BadLogoReported | src/check.js:15 | An empty logo, or one that is neither URL nor base64, is always reported against `logoURI`, and alone when the address passes. |
| Schema.ExtraFieldReported | src/check.js:22 | An extra key `foo` on a sample entry adds exactly one issue naming `foo`, after the entry's own issues; with an accepted address and logo it is the only issue. |
| Driver.CheckErc20 | src/check.js:51-82 | The driver's verdict and checked-file log are those of the whole check applied to the traversal of the tree. |
| Driver.Check | src/check.js:51-82 | The whole check on a traversal: the structural check, then the loop over the selection. Driver.StructuralErrorIffNothingSelected, Driver.PassesIffAllSelectedValid and Driver.ValidationErrorIsFirstFailure characterise it. |
| Driver.RunChecks | src/check.js:70-80 | The `forEach` over the selected files with its early exit. Driver.RunChecksStopsAtFirstFailure characterises it. |
| Driver.ExitCode | src/check.js:46-49 | The exit status of a verdict: 1 for every failure, as `throwError` exits. Driver.ExitStatusZeroIffAllSelectedValid characterises it on a whole run. |
| Driver.ExitStatusZeroIffAllSelectedValid | src/check.js:46-80 | The process exits with 0 exactly when something is selected and every selected file reads and is a token list, and otherwise with 1. |
| Driver.ValidateFiles | src/check.js:70-80 | The loop validates the files in order and stops at the first one that fails to read or fails the schema, with the verdict and log the specification gives. |
| Driver.FirstFailure | src/check.js:70-80 | The first failure position: every earlier file reads and passes, and the file there (if any) does not. |
| Driver.RunChecksStopsAtFirstFailure | src/check.js:70-80 | With no failure, the run passes and checks every file. At a read failure, the files before it were checked. At a schema failure, the run reports that file's issues and it is the last file checked. No later file is read. |
| Driver.StructuralErrorIffNothingSelected | src/check.js:54-60 | The run reports invalid folder structure exactly when nothing is selected, and then no file is checked. |
| Driver.PassesIffAllSelectedValid | src/check.js:60-80 | The run passes exactly when something is selected and every selected file reads and is a token list; it then checks every selected file. |
| Driver.ValidationErrorIsFirstFailure | src/check.js:77-79 | A schema error names the last file checked, which is not a token list. The checked files are a prefix of the selection, and every earlier one is a token list. |
| Driver.CheckedFilesFollowTraversal | src/check.js:64-80 | The checked files are a prefix of the selection, which is an order-preserving subsequence of the traversal. |

## Left out

- File system calls (`readdirSync`, `statSync`, `readFileSync`) become an explicit tree of entries and the `load` parameter. `path.join` becomes `parent + "/" + name`, without normalisation of `.`, `..` or repeated separators.
- Symbolic-link cycles are left out: the tree is finite and acyclic. The code has no cycle guard; on a cycle the path gains one symbolic link per level until `statSync` or `readdirSync` throws ELOOP, so the run ends as a traversal failure, which is not modelled (next line).
- Failures of the traversal are not modelled. The tree cannot express them and no verdict stands for them. In the code, `readdirSync` or `statSync` throwing (permission denied, or a dangling symbolic link that `statSync` cannot follow) crashes the run with status 1 before the structural check.
- `fs.readdirSync`'s ordering is taken as given by the listing order of the tree.
- `JSON.parse` and the file read are folded into `load`; a throw from either is the ReadFailed verdict, with no parser model.
- JSON numbers are exact reals: double-precision rounding and overflow (for example `1e400` becoming Infinity) are not modelled.
- Selection.Lower: lower-cases ASCII letters only. This is exact for the `erc20` test, since only `E`, `R` and `C` lower-case to `e`, `r` and `c`. Other non-ASCII case mappings are not modelled.
- `isAddress` (with its checksum), zod's `.url()` and `.base64()` are uninterpreted predicates of `Oracles`.
- Schema.SafeParse: reports at most one issue per declared field plus one for unknown keys. zod's issue objects, their messages, and a field failing several checks at once are not modelled.
- `console.info`, `console.error` and `process.exit` become the returned verdict, the checked-file log and Driver.ExitCode.
- `runCheck` and the `__dirname` default are not modelled separately. The root is a parameter of Walker.TraverseRoot.
