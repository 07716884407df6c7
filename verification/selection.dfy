/** Which traversed paths the checker treats as ERC-20 token lists: those
    whose lower-cased path contains `erc20` and whose path, as it is,
    contains `index.json`. The same predicate drives the structural check
    (`some`) and the selection of files to validate (`filter`). */
module Selection {

  const Erc20DirectoryName: string := "erc20"
  const IndexFileName: string := "index.json"

  /** `String.prototype.toLowerCase` on one character, for ASCII letters. */
  function LowerChar(c: char): char
  {
    if 'A' <= c <= 'Z' then (c as int + 32) as char else c
  }

  function Lower(s: string): (r: string)
    ensures |r| == |s|
    ensures forall i :: 0 <= i < |s| ==> r[i] == LowerChar(s[i])
  {
    if s == [] then [] else [LowerChar(s[0])] + Lower(s[1..])
  }

  /** `pat` occurs in `s` starting at position i. */
  predicate OccursAt(s: string, pat: string, i: int)
  {
    0 <= i <= |s| - |pat| && s[i..i + |pat|] == pat
  }

  /** `String.prototype.includes`: `pat` occurs in `s` at some position. */
  function Includes(s: string, pat: string): (r: bool)
    ensures r <==> exists i :: OccursAt(s, pat, i)
    decreases |s|
  {
    if |pat| > |s| then false
    else if s[..|pat|] == pat then assert OccursAt(s, pat, 0); true
    else
      var r := Includes(s[1..], pat);
      assert forall i :: OccursAt(s[1..], pat, i) <==> OccursAt(s, pat, i + 1) by {
        forall i ensures OccursAt(s[1..], pat, i) <==> OccursAt(s, pat, i + 1) {
          if 0 <= i <= |s| - 1 - |pat| {
            assert s[1..][i..i + |pat|] == s[i + 1..i + 1 + |pat|];
          }
        }
      }
      assert (exists i :: OccursAt(s, pat, i)) ==> r by {
        if exists i :: OccursAt(s, pat, i) {
          var i :| OccursAt(s, pat, i);
          assert i != 0;
          assert OccursAt(s[1..], pat, i - 1);
        }
      }
      r
  }

  /** The predicate of both the `some` and the `filter` over the traversal. */
  predicate IsErc20IndexFile(path: string)
  {
    Includes(Lower(path), Erc20DirectoryName) && Includes(path, IndexFileName)
  }

  /** `traversalResult.some(IsErc20IndexFile)`: the folder-structure check. */
  function IsValidFS(paths: seq<string>): (r: bool)
    ensures r <==> exists i :: 0 <= i < |paths| && IsErc20IndexFile(paths[i])
  {
    if paths == [] then false
    else if IsErc20IndexFile(paths[0]) then true
    else
      var r := IsValidFS(paths[1..]);
      assert forall i :: 0 < i < |paths| ==> paths[i] == paths[1..][i - 1];
      r
  }

  /** `traversalResult.filter(IsErc20IndexFile)`: the files to validate. */
  function SelectErc20Files(paths: seq<string>): (r: seq<string>)
    ensures forall x :: x in r <==> x in paths && IsErc20IndexFile(x)
    ensures |r| <= |paths|
  {
    if paths == [] then []
    else
      var rest := SelectErc20Files(paths[1..]);
      assert forall x :: x in paths <==> x == paths[0] || x in paths[1..];
      if IsErc20IndexFile(paths[0]) then [paths[0]] + rest else rest
  }

  /** `sub` is `s` with some elements left out and the rest kept in order. */
  predicate IsSubsequence(sub: seq<string>, s: seq<string>)
    decreases |s|
  {
    if sub == [] then true
    else if s == [] then false
    else if sub[0] == s[0] then IsSubsequence(sub[1..], s[1..])
    else IsSubsequence(sub, s[1..])
  }

  /** The selected files keep their traversal order. */
  lemma {:induction false} SelectionIsSubsequence(paths: seq<string>)
    ensures IsSubsequence(SelectErc20Files(paths), paths)
    decreases |paths|
  {
    if paths != [] {
      SelectionIsSubsequence(paths[1..]);
      var rest := SelectErc20Files(paths[1..]);
      if IsErc20IndexFile(paths[0]) {
        assert ([paths[0]] + rest)[1..] == rest;
      } else if rest != [] {
        // rest[0] differs from paths[0], or it would have been selected
        assert rest[0] in rest;
      }
    }
  }

  /** The selection keeps every matching path as often as the traversal
      lists it, and no other path: with the order kept as well, it is
      exactly the filter of the traversal. */
  lemma {:induction false} SelectionMultiplicity(paths: seq<string>)
    ensures forall x :: multiset(SelectErc20Files(paths))[x] ==
                          if IsErc20IndexFile(x) then multiset(paths)[x] else 0
    decreases |paths|
  {
    if paths != [] {
      SelectionMultiplicity(paths[1..]);
      assert paths == [paths[0]] + paths[1..];
      assert multiset(paths) == multiset{paths[0]} + multiset(paths[1..]);
    }
  }

  /** Filtering distributes over concatenation: files selected from an
      earlier part of the traversal come before those from a later part. */
  lemma {:induction false} SelectionAppend(a: seq<string>, b: seq<string>)
    ensures SelectErc20Files(a + b) == SelectErc20Files(a) + SelectErc20Files(b)
    decreases |a|
  {
    if a == [] {
      assert a + b == b;
    } else {
      assert (a + b)[0] == a[0];
      assert (a + b)[1..] == a[1..] + b;
      SelectionAppend(a[1..], b);
    }
  }

  /** The structural check fails exactly when nothing is selected. */
  lemma ValidFSIffSelectionNonEmpty(paths: seq<string>)
    ensures IsValidFS(paths) <==> SelectErc20Files(paths) != []
  {
    var r := SelectErc20Files(paths);
    if r != [] {
      assert r[0] in r;
    }
  }

  /** `s` spells `erc20` from position i, each letter in either case. */
  predicate Erc20AnyCaseAt(s: string, i: int)
  {
    0 <= i <= |s| - 5
    && forall k :: 0 <= k < 5 ==> s[i + k] == "erc20"[k] || s[i + k] == "ERC20"[k]
  }

  lemma LowerCharMatches(c: char, k: nat)
    requires k < 5
    ensures LowerChar(c) == "erc20"[k] <==> c == "erc20"[k] || c == "ERC20"[k]
  {
  }

  /** The directory-name test ignores letter case: the lower-cased path
      contains `erc20` exactly when the path spells it, letter by letter,
      in either case. */
  lemma Erc20MatchIgnoresCase(s: string)
    ensures Includes(Lower(s), Erc20DirectoryName) <==> exists i :: Erc20AnyCaseAt(s, i)
  {
    var low := Lower(s);
    forall i
      ensures OccursAt(low, Erc20DirectoryName, i) <==> Erc20AnyCaseAt(s, i)
    {
      if 0 <= i <= |s| - 5 {
        forall k | 0 <= k < 5
          ensures low[i + k] == Erc20DirectoryName[k] <==> s[i + k] == "erc20"[k] || s[i + k] == "ERC20"[k]
        {
          LowerCharMatches(s[i + k], k);
        }
        assert low[i..i + 5] == Erc20DirectoryName
           <==> forall k :: 0 <= k < 5 ==> low[i + k] == Erc20DirectoryName[k];
      }
    }
  }

  /** A five-letter word spelling `erc20` in either case, placed in any text. */
  lemma Erc20WordAt(a: string, w: string, b: string)
    requires |w| == 5 && forall k :: 0 <= k < 5 ==> w[k] == "erc20"[k] || w[k] == "ERC20"[k]
    ensures Erc20AnyCaseAt(a + w + b, |a|)
  {
    forall k | 0 <= k < 5
      ensures (a + w + b)[|a| + k] == w[k]
    {
    }
  }

  /** A pattern occurs in any text built around it. */
  lemma OccursInConcat(a: string, pat: string, b: string)
    ensures OccursAt(a + pat + b, pat, |a|)
  {
    assert (a + pat + b)[|a|..|a| + |pat|] == pat;
  }

  /** A path cannot include a pattern holding a character the path lacks. */
  lemma MissingCharacterExcludes(s: string, pat: string, k: nat)
    requires k < |pat| && pat[k] !in s
    ensures !Includes(s, pat)
  {
  }

  /** Lower-casing does not create a digit. */
  lemma LowerKeepsAbsentDigit(s: string, d: char)
    requires '0' <= d <= '9' && d !in s
    ensures d !in Lower(s)
  {
    forall i | 0 <= i < |s|
      ensures Lower(s)[i] != d
    {
      assert s[i] in s;
    }
  }

  /** A path is selected when it spells `erc20`, in any case, somewhere
      before the file name `index.json`, whatever surrounds them. */
  lemma Erc20IndexFileSelected(a: string, w: string, b: string, c: string)
    requires |w| == 5 && forall k :: 0 <= k < 5 ==> w[k] == "erc20"[k] || w[k] == "ERC20"[k]
    ensures IsErc20IndexFile(a + w + b + IndexFileName + c)
  {
    var path := a + w + b + IndexFileName + c;
    assert path == a + w + (b + IndexFileName + c);
    Erc20WordAt(a, w, b + IndexFileName + c);
    Erc20MatchIgnoresCase(path);
    OccursInConcat(a + w + b, IndexFileName, c);
  }

  /** An upper-case directory name is selected. */
  lemma UpperCaseDirectorySelected(path: string)
    requires path == "/assets/ERC20/1/index.json"
    ensures IsErc20IndexFile(path)
  {
    assert path == "/assets/" + "ERC20" + "/1/" + IndexFileName + "";
    Erc20IndexFileSelected("/assets/", "ERC20", "/1/", "");
  }

  /** An upper-case file name is not selected: `index.json` is matched as written. */
  lemma UpperCaseFileNameNotSelected(path: string)
    requires path == "/assets/erc20/1/INDEX.JSON"
    ensures !IsErc20IndexFile(path)
  {
    assert 'x' !in path;
    MissingCharacterExcludes(path, IndexFileName, 4);
  }

  /** A path without the digit 0 is never selected: `erc20` needs it. */
  lemma WithoutZeroNotSelected(path: string)
    requires '0' !in path
    ensures !IsErc20IndexFile(path)
  {
    LowerKeepsAbsentDigit(path, '0');
    MissingCharacterExcludes(Lower(path), Erc20DirectoryName, 4);
  }

  /** Another token standard's directory is not selected. */
  lemma OtherStandardNotSelected(path: string)
    requires path == "/assets/erc721/1/index.json"
    ensures !IsErc20IndexFile(path)
  {
    assert path == "/assets/erc721/1/" + IndexFileName;
    assert '0' !in path;
    WithoutZeroNotSelected(path);
  }

  /** The matching is by substring, so near-miss names are selected too. */
  lemma SubstringMatchIsLenient(path: string)
    requires path == "/assets/myerc2000/index.json.bak"
    ensures IsErc20IndexFile(path)
  {
    assert path == "/assets/my" + "erc20" + "00/" + IndexFileName + ".bak";
    Erc20IndexFileSelected("/assets/my", "erc20", "00/", ".bak");
  }
}
