/** The tree walker of the token-metadata checker: `recursivePathTraversal`
    lists a directory tree as one flat sequence of paths, the root first and
    then every entry beneath it in depth-first pre-order. The file system is
    an explicit, finite, acyclic tree of entries. */
module Walker {

  /** One entry of a directory listing, as `fs.readdirSync` names it and
      `fs.statSync(..).isDirectory()` classifies it. A directory carries its
      own listing, in listing order. */
  datatype Entry = File(name: string) | Dir(name: string, children: seq<Entry>)

  /** `path.join(parent, name)`, without normalisation. */
  function Join(parent: string, name: string): string
  {
    parent + "/" + name
  }

  /** Number of entries in a listing, counting everything beneath each directory. */
  function Size(entries: seq<Entry>): nat
    decreases entries
  {
    if entries == [] then 0
    else
      1 + (if entries[0].Dir? then Size(entries[0].children) else 0) + Size(entries[1..])
  }

  /** The paths of a listing under `parent` in depth-first pre-order: each
      entry's own path, then (for a directory) the paths of its contents,
      then the following siblings. */
  function Flatten(parent: string, entries: seq<Entry>): seq<string>
    decreases entries
  {
    if entries == [] then []
    else
      Subtree(parent, entries[0]) + Flatten(parent, entries[1..])
  }

  /** The paths one entry contributes: its own path, then its contents. */
  function Subtree(parent: string, e: Entry): seq<string>
    decreases e, 0
  {
    var path := Join(parent, e.name);
    [path] + (if e.Dir? then Flatten(path, e.children) else [])
  }

  /** What the top-level traversal of the directory `root` returns. */
  function Walk(root: string, listing: seq<Entry>): (r: seq<string>)
    ensures |r| == 1 + Size(listing)
    ensures r[0] == root
  {
    FlattenLength(root, listing);
    [root] + Flatten(root, listing)
  }

  /** The flattening lists every entry exactly as often as Size counts it. */
  lemma {:induction false} FlattenLength(parent: string, entries: seq<Entry>)
    ensures |Flatten(parent, entries)| == Size(entries)
    decreases entries
  {
    if entries != [] {
      var e := entries[0];
      if e.Dir? {
        FlattenLength(Join(parent, e.name), e.children);
      }
      FlattenLength(parent, entries[1..]);
    }
  }

  /** Flattening distributes over concatenation of sibling listings. */
  lemma {:induction false} FlattenAppend(parent: string, a: seq<Entry>, b: seq<Entry>)
    ensures Flatten(parent, a + b) == Flatten(parent, a) + Flatten(parent, b)
    decreases a
  {
    if a == [] {
      assert a + b == b;
    } else {
      assert (a + b)[0] == a[0];
      assert (a + b)[1..] == a[1..] + b;
      FlattenAppend(parent, a[1..], b);
    }
  }

  /** The k-th entry of a listing contributes one contiguous block, after the
      blocks of the entries before it and before those of the entries after it. */
  lemma SubtreeInPlace(parent: string, entries: seq<Entry>, k: nat)
    requires k < |entries|
    ensures Flatten(parent, entries)
         == Flatten(parent, entries[..k]) + Subtree(parent, entries[k]) + Flatten(parent, entries[k + 1..])
  {
    assert entries == entries[..k] + entries[k..];
    FlattenAppend(parent, entries[..k], entries[k..]);
    assert entries[k..][0] == entries[k];
    assert entries[k..][1..] == entries[k + 1..];
  }

  /** Every directory's path is listed before its contents, and its contents
      follow it immediately as one block: its path stands at the position
      given by the sizes of its earlier siblings, and the next
      Size(children) positions hold the flattening of its own listing. */
  lemma DirectoryPrecedesContents(parent: string, entries: seq<Entry>, k: nat)
    requires k < |entries| && entries[k].Dir?
    ensures var i := Size(entries[..k]);
            var dir := Join(parent, entries[k].name);
            var out := Flatten(parent, entries);
            i + 1 + Size(entries[k].children) <= |out|
            && out[i] == dir
            && out[i + 1..i + 1 + Size(entries[k].children)] == Flatten(dir, entries[k].children)
  {
    var dir := Join(parent, entries[k].name);
    SubtreeInPlace(parent, entries, k);
    FlattenLength(parent, entries[..k]);
    FlattenLength(dir, entries[k].children);
    var before := Flatten(parent, entries[..k]);
    var inner := Flatten(dir, entries[k].children);
    var after := Flatten(parent, entries[k + 1..]);
    assert Flatten(parent, entries) == before + [dir] + inner + after;
  }

  predicate StartsWith(s: string, prefix: string)
  {
    |prefix| <= |s| && s[..|prefix|] == prefix
  }

  /** Every path in the flattening of a listing lies under its parent. */
  lemma {:induction false} FlattenUnder(parent: string, entries: seq<Entry>)
    ensures forall x :: x in Flatten(parent, entries) ==> StartsWith(x, parent + "/")
    decreases entries
  {
    if entries != [] {
      var e := entries[0];
      var path := Join(parent, e.name);
      FlattenUnder(parent, entries[1..]);
      if e.Dir? {
        FlattenUnder(path, e.children);
        forall x | x in Flatten(path, e.children)
          ensures StartsWith(x, parent + "/")
        {
          assert x[..|parent| + 1] == x[..|path| + 1][..|parent| + 1];
        }
      }
    }
  }

  /** The first segment of a relative path: everything before the first '/'. */
  function FirstSegment(u: string): (r: string)
    ensures StartsWith(u, r) && '/' !in r
    ensures |r| < |u| ==> u[|r|] == '/'
  {
    if u == [] || u[0] == '/' then [] else [u[0]] + FirstSegment(u[1..])
  }

  lemma {:induction false} FirstSegmentOfName(name: string, tail: string)
    requires '/' !in name
    requires tail == [] || tail[0] == '/'
    ensures FirstSegment(name + tail) == name
    decreases |name|
  {
    if name != [] {
      assert (name + tail)[1..] == name[1..] + tail;
      FirstSegmentOfName(name[1..], tail);
    }
  }

  /** A path below `parent + "/" + name`, or that path itself, has `name`
      as its first segment below `parent`. */
  lemma SegmentOfPathBelow(parent: string, name: string, x: string)
    requires '/' !in name
    requires x == Join(parent, name) || StartsWith(x, Join(parent, name) + "/")
    ensures StartsWith(x, parent + "/") && FirstSegment(x[|parent| + 1..]) == name
  {
    var path := Join(parent, name);
    var tail := x[|path|..];
    assert x[..|parent| + 1] == path[..|parent| + 1];
    assert x[|parent| + 1..] == name + tail;
    assert tail == [] || tail[0] == '/';
    FirstSegmentOfName(name, tail);
  }

  /** Every path an entry contributes under `parent` has that entry's name as
      its first segment below `parent`. */
  lemma SubtreeSegment(parent: string, e: Entry)
    requires '/' !in e.name
    ensures forall x :: x in Subtree(parent, e) ==>
              StartsWith(x, parent + "/") && FirstSegment(x[|parent| + 1..]) == e.name
  {
    var path := Join(parent, e.name);
    SegmentOfPathBelow(parent, e.name, path);
    if e.Dir? {
      FlattenUnder(path, e.children);
      forall x | x in Flatten(path, e.children)
        ensures StartsWith(x, parent + "/") && FirstSegment(x[|parent| + 1..]) == e.name
      {
        SegmentOfPathBelow(parent, e.name, x);
      }
    }
  }

  /** The names of a listing, in listing order. */
  function Names(entries: seq<Entry>): (r: seq<string>)
    ensures |r| == |entries|
    ensures forall j :: 0 <= j < |entries| ==> r[j] == entries[j].name
  {
    if entries == [] then [] else [entries[0].name] + Names(entries[1..])
  }

  /** What a real directory tree guarantees: no name holds a '/', and the
      names of siblings are distinct. */
  predicate WellFormed(entries: seq<Entry>)
    decreases entries
  {
    && (forall j :: 0 <= j < |entries| ==> '/' !in entries[j].name)
    && (forall i, j :: 0 <= i < j < |entries| ==> entries[i].name != entries[j].name)
    && (forall j :: 0 <= j < |entries| && entries[j].Dir? ==> WellFormed(entries[j].children))
  }

  predicate NoDuplicates(s: seq<string>)
  {
    forall i, j :: 0 <= i < j < |s| ==> s[i] != s[j]
  }

  lemma NoDuplicatesAppend(a: seq<string>, b: seq<string>)
    requires NoDuplicates(a) && NoDuplicates(b)
    requires forall x :: x in a ==> x !in b
    ensures NoDuplicates(a + b)
  {
    forall i, j | 0 <= i < j < |a + b|
      ensures (a + b)[i] != (a + b)[j]
    {
      if i < |a| && |a| <= j {
        assert (a + b)[i] in a && (a + b)[j] in b;
      }
    }
  }

  /** In a well-formed tree the flattening lists no path twice. */
  lemma {:induction false} FlattenNoDuplicates(parent: string, entries: seq<Entry>)
    requires WellFormed(entries)
    ensures NoDuplicates(Flatten(parent, entries))
    decreases entries
  {
    if entries != [] {
      var e := entries[0];
      var path := Join(parent, e.name);
      var rest := entries[1..];
      assert WellFormed(rest);
      FlattenNoDuplicates(parent, rest);
      var inner := if e.Dir? then Flatten(path, e.children) else [];
      if e.Dir? {
        FlattenNoDuplicates(path, e.children);
        FlattenUnder(path, e.children);
      }
      assert forall x :: x in inner ==> |x| > |path|;
      NoDuplicatesAppend([path], inner);
      SubtreeSegment(parent, e);
      FlattenSegments(parent, rest);
      assert e.name !in Names(rest) by {
        forall j | 0 <= j < |rest|
          ensures Names(rest)[j] != e.name
        {
          assert rest[j] == entries[j + 1];
        }
      }
      assert forall x :: x in Subtree(parent, e) ==> x !in Flatten(parent, rest);
      NoDuplicatesAppend(Subtree(parent, e), Flatten(parent, rest));
    }
  }

  /** Every path of a listing's flattening starts below `parent` with the
      name of one of the listing's entries. */
  lemma {:induction false} FlattenSegments(parent: string, entries: seq<Entry>)
    requires forall j :: 0 <= j < |entries| ==> '/' !in entries[j].name
    ensures forall x :: x in Flatten(parent, entries) ==>
              StartsWith(x, parent + "/") && FirstSegment(x[|parent| + 1..]) in Names(entries)
    decreases entries
  {
    if entries != [] {
      SubtreeSegment(parent, entries[0]);
      FlattenSegments(parent, entries[1..]);
      assert Names(entries) == [entries[0].name] + Names(entries[1..]);
    }
  }

  /** The traversal of a well-formed tree lists each path exactly once: the
      root, and each of the Size(listing) entries beneath it. */
  lemma WalkNoDuplicates(root: string, listing: seq<Entry>)
    requires WellFormed(listing)
    ensures NoDuplicates(Walk(root, listing))
    ensures |Walk(root, listing)| == 1 + Size(listing)
  {
    FlattenNoDuplicates(root, listing);
    FlattenUnder(root, listing);
    assert forall x :: x in Flatten(root, listing) ==> |x| > |root|;
    NoDuplicatesAppend([root], Flatten(root, listing));
  }

  /** `Array.prototype.indexOf`: the first position of `x` in `s`, or -1. */
  function IndexOf(s: seq<string>, x: string): (r: int)
    ensures r == -1 <==> x !in s
    ensures r != -1 ==> 0 <= r < |s| && s[r] == x && x !in s[..r]
  {
    if s == [] then -1
    else if s[0] == x then 0
    else
      var k := IndexOf(s[1..], x);
      if k == -1 then -1 else k + 1
  }

  /** The JavaScript array of paths that `recursivePathTraversal` threads,
      by reference, through its recursive calls. */
  class PathArray {
    var items: seq<string>

    constructor (init: seq<string>)
      ensures items == init
    {
      items := init;
    }

    /** `Array.prototype.push`. */
    method Push(path: string)
      modifies this
      ensures items == old(items) + [path]
    {
      items := items + [path];
    }

    /** `Array.prototype.concat`: a new array; this one is left as it is. */
    method Concat(path: string) returns (r: PathArray)
      ensures fresh(r)
      ensures r.items == items + [path]
    {
      r := new PathArray(items + [path]);
    }
  }

  /** `recursivePathTraversal(pth, previousPaths)` over the listing of `pth`.
      When `pth` is already recorded the caller's array itself is extended;
      otherwise a fresh copy with `pth` appended is, and the caller's array
      is left untouched. Each subdirectory is pushed before the recursive
      call, so the callee always extends the shared array and the result it
      returns may be discarded. */
  method RecursivePathTraversal(pth: string, listing: seq<Entry>, previousPaths: PathArray)
    returns (pathsToTraverse: PathArray)
    modifies previousPaths
    decreases listing
    ensures pth in old(previousPaths.items) ==> pathsToTraverse == previousPaths
    ensures pth !in old(previousPaths.items) ==>
              fresh(pathsToTraverse) && previousPaths.items == old(previousPaths.items)
    ensures pathsToTraverse.items == Recorded(old(previousPaths.items), pth) + Flatten(pth, listing)
  {
    ghost var shared := pth in previousPaths.items;
    if IndexOf(previousPaths.items, pth) != -1 {
      pathsToTraverse := previousPaths;
    } else {
      pathsToTraverse := previousPaths.Concat(pth);
    }
    ghost var start := pathsToTraverse.items;
    assert start == Recorded(old(previousPaths.items), pth);
    for i := 0 to |listing|
      invariant shared ==> pathsToTraverse == previousPaths
      invariant !shared ==> fresh(pathsToTraverse) && previousPaths.items == old(previousPaths.items)
      invariant pathsToTraverse.items == start + Flatten(pth, listing[..i])
    {
      var entry := listing[i];
      var fullPath := Join(pth, entry.name);
      ghost var before := pathsToTraverse.items;
      pathsToTraverse.Push(fullPath);
      if entry.Dir? {
        ghost var pushed := pathsToTraverse.items;
        assert fullPath in pushed by { assert pushed[|pushed| - 1] == fullPath; }
        // The callee finds fullPath recorded and extends this same array.
        var discarded := RecursivePathTraversal(fullPath, entry.children, pathsToTraverse);
      }
      ExtendByEntry(start, before, pathsToTraverse.items, pth, listing, i);
    }
    assert listing[..|listing|] == listing;
  }

  /** One turn of the traversal loop: pushing the i-th entry's path, and then
      for a directory its contents, extends the paths of the first i entries
      to those of the first i + 1. */
  lemma ExtendByEntry(start: seq<string>, before: seq<string>, after: seq<string>,
                      parent: string, entries: seq<Entry>, i: nat)
    requires i < |entries|
    requires before == start + Flatten(parent, entries[..i])
    requires var path := Join(parent, entries[i].name);
             after == before + [path] + (if entries[i].Dir? then Flatten(path, entries[i].children) else [])
    ensures after == start + Flatten(parent, entries[..i + 1])
  {
    var e := entries[i];
    var path := Join(parent, e.name);
    var contents := if e.Dir? then Flatten(path, e.children) else [];
    assert Subtree(parent, e) == [path] + contents;
    ConcatAssociative(before, [path], contents);
    FlattenSnoc(parent, entries, i);
    ConcatAssociative(start, Flatten(parent, entries[..i]), Subtree(parent, e));
  }

  /** Regrouping a concatenation, stated once so that the solver uses it
      as given instead of rediscovering it element by element. */
  lemma ConcatAssociative(a: seq<string>, b: seq<string>, c: seq<string>)
    ensures (a + b) + c == a + (b + c)
  {
  }

  /** Flattening one more entry of a listing appends that entry's paths. */
  lemma FlattenSnoc(parent: string, entries: seq<Entry>, i: nat)
    requires i < |entries|
    ensures Flatten(parent, entries[..i + 1]) == Flatten(parent, entries[..i]) + Subtree(parent, entries[i])
  {
    var e := entries[i];
    assert Flatten(parent, [e]) == Subtree(parent, e) by {
      assert [e][1..] == [];
    }
    assert entries[..i + 1] == entries[..i] + [e];
    FlattenAppend(parent, entries[..i], [e]);
  }

  function Recorded(previous: seq<string>, pth: string): seq<string>
  {
    if pth in previous then previous else previous + [pth]
  }

  /** The top-level call `recursivePathTraversal()`: the default arguments
      are the root directory and a fresh empty array. */
  method TraverseRoot(root: string, listing: seq<Entry>) returns (paths: seq<string>)
    ensures paths == Walk(root, listing)
  {
    var empty := new PathArray([]);
    var result := RecursivePathTraversal(root, listing, empty);
    paths := result.items;
  }
}
