/**
 * The parts of Node's `path.posix` the upload service relies on: splitting on '/', segment
 * resolution (`.` dropped, `..` popping), `normalize`, `join`, `resolve` and `extname`.
 */
module PosixPath {
  import opened Wrappers
  import opened Text

  /** `s.split('/')`. */
  function Split(s: string): (r: seq<string>)
    ensures |r| >= 1
    ensures forall i :: 0 <= i < |r| ==> '/' !in r[i]
    decreases |s|
  {
    match IndexOf(s, '/')
    case None => [s]
    case Some(k) => [s[..k]] + Split(s[k + 1..])
  }

  /** `segs.join('/')`. */
  function Join(segs: seq<string>): string
  {
    if segs == [] then "" else if |segs| == 1 then segs[0] else segs[0] + "/" + Join(segs[1..])
  }

  /** Splitting and joining again gives the path back. */
  lemma {:induction false} JoinSplit(s: string)
    ensures Join(Split(s)) == s
    decreases |s|
  {
    match IndexOf(s, '/')
    case None =>
    case Some(k) =>
      var rest := Split(s[k + 1..]);
      var r := [s[..k]] + rest;
      assert Split(s) == r;
      assert |r| >= 2 && r[0] == s[..k] && r[1..] == rest;
      assert Join(r) == s[..k] + "/" + Join(rest);
      JoinSplit(s[k + 1..]);
      assert s == s[..k] + "/" + s[k + 1..];
  }

  /** Joining segments without a '/' and splitting again gives the segments back. */
  lemma {:induction false} SplitJoin(segs: seq<string>)
    requires |segs| >= 1 && forall i :: 0 <= i < |segs| ==> '/' !in segs[i]
    ensures Split(Join(segs)) == segs
  {
    if |segs| > 1 {
      var rest := segs[1..];
      assert forall i :: 0 <= i < |rest| ==> rest[i] == segs[i + 1];
      SplitJoin(rest);
      assert Join(segs) == segs[0] + "/" + Join(rest);
      SplitCons(segs[0], Join(rest));
      assert segs == [segs[0]] + rest;
    } else {
      assert Join(segs) == segs[0];
    }
  }

  /** `indexOf` finds the first occurrence. */
  lemma IndexOfAt(s: string, c: char, k: nat)
    requires k < |s| && s[k] == c && c !in s[..k]
    ensures IndexOf(s, c) == Some(k)
  {
    assert s[k] in s;
  }

  lemma JoinAppend(a: seq<string>, b: seq<string>)
    requires a != [] && b != []
    ensures Join(a + b) == Join(a) + "/" + Join(b)
    decreases |a|
  {
    if |a| > 1 {
      assert (a + b)[1..] == a[1..] + b;
      JoinAppend(a[1..], b);
    } else {
      assert (a + b) == [a[0]] + b;
    }
  }

  /** A path split at a '/': its segments are those of either side. */
  lemma SplitConcat(a: string, b: string)
    ensures Split(a + "/" + b) == Split(a) + Split(b)
  {
    JoinSplit(a);
    JoinSplit(b);
    JoinAppend(Split(a), Split(b));
    SplitJoin(Split(a) + Split(b));
  }

  /** A segment `resolve` and `normalize` keep as it is. */
  predicate Plain(seg: string)
  {
    seg != "" && seg != "." && seg != ".."
  }

  /**
   * Node's `normalizeString` on segments: empty and `.` segments go, `..` drops the last kept
   * segment, and with nothing to drop is kept on a relative path and ignored on an absolute one.
   */
  function Resolve(absolute: bool, stack: seq<string>, segs: seq<string>): seq<string>
    decreases |segs|
  {
    if segs == [] then stack
    else
      var s := segs[0];
      if s == "" || s == "." then Resolve(absolute, stack, segs[1..])
      else if s == ".." then
        if stack != [] && stack[|stack| - 1] != ".." then Resolve(absolute, stack[..|stack| - 1], segs[1..])
        else if absolute then Resolve(absolute, stack, segs[1..])
        else Resolve(absolute, stack + [".."], segs[1..])
      else Resolve(absolute, stack + [s], segs[1..])
  }

  /** The segments other than the empty ones and `.`. */
  function Kept(segs: seq<string>): seq<string>
  {
    if segs == [] then []
    else if segs[0] == "" || segs[0] == "." then Kept(segs[1..])
    else [segs[0]] + Kept(segs[1..])
  }

  /** Without `..` segments, resolution only drops the empty and `.` segments. */
  lemma {:induction false} ResolveWithoutParent(absolute: bool, stack: seq<string>, segs: seq<string>)
    requires ".." !in segs
    ensures Resolve(absolute, stack, segs) == stack + Kept(segs)
    decreases |segs|
  {
    if segs != [] {
      assert segs == [segs[0]] + segs[1..];
      if segs[0] == "" || segs[0] == "." {
        ResolveWithoutParent(absolute, stack, segs[1..]);
      } else {
        ResolveWithoutParent(absolute, stack + [segs[0]], segs[1..]);
      }
    }
  }

  /** `path.posix.normalize(p)`. */
  function Normalize(p: string): string
  {
    if p == [] then "."
    else
      var absolute := p[0] == '/';
      var trailing := p[|p| - 1] == '/';
      var body := Join(Resolve(absolute, [], Split(p)));
      if body == [] then (if absolute then "/" else if trailing then "./" else ".")
      else (if absolute then "/" else "") + body + (if trailing then "/" else "")
  }

  /** The non-empty arguments of `join`. */
  function NonEmpty(parts: seq<string>): seq<string>
  {
    if parts == [] then [] else if parts[0] == [] then NonEmpty(parts[1..]) else [parts[0]] + NonEmpty(parts[1..])
  }

  /** `path.posix.join(...parts)`. */
  function PathJoin(parts: seq<string>): string
  {
    var ne := NonEmpty(parts);
    if ne == [] then "." else Normalize(Join(ne))
  }

  /** `path.posix.resolve(base, p)` for an absolute base: an absolute `p` replaces it. */
  function PathResolve(base: string, p: string): string
    requires base != [] && base[0] == '/'
  {
    var full := if p == [] then base else if p[0] == '/' then p else base + "/" + p;
    "/" + Join(Resolve(true, [], Split(full)))
  }

  /** An absolute, normalised directory: '/' and then plain segments. */
  predicate Directory(dir: string)
  {
    |dir| >= 2 && dir[0] == '/' && forall i :: 0 <= i < |Split(dir[1..])| ==> Plain(Split(dir[1..])[i])
  }

  /**
   * Resolving a relative path without `..` segments against a directory stays inside it: the
   * result is the directory, or the directory, a '/' and more.
   */
  lemma ResolveInside(dir: string, p: string)
    requires Directory(dir)
    requires p == [] || p[0] != '/'
    requires ".." !in Split(p)
    ensures PathResolve(dir, p) == dir || StartsWith(PathResolve(dir, p), dir + "/")
  {
    var rest := ResolvedPath(dir, p);
    DirectorySegments(dir);
    JoinBelow(dir, Split(dir[1..]), rest);
  }

  /** What `resolve` gives for a relative path without `..` below a directory. */
  lemma ResolvedPath(dir: string, p: string) returns (rest: seq<string>)
    requires Directory(dir)
    requires p == [] || p[0] != '/'
    requires ".." !in Split(p)
    ensures PathResolve(dir, p) == "/" + Join(Split(dir[1..]) + rest)
  {
    rest := ResolvedBelow(dir, p);
  }

  /** A directory's segments followed by more segments: the directory, or below it. */
  lemma JoinBelow(dir: string, segs: seq<string>, rest: seq<string>)
    requires segs != [] && "/" + Join(segs) == dir
    ensures "/" + Join(segs + rest) == dir || StartsWith("/" + Join(segs + rest), dir + "/")
  {
    if rest == [] {
      assert segs + rest == segs;
    } else {
      JoinAppend(segs, rest);
      var r := "/" + Join(segs + rest);
      assert r == dir + "/" + Join(rest);
      assert r[..|dir + "/"|] == dir + "/";
    }
  }

  /**
   * The segments `resolve` keeps for a relative path below a directory: the directory's own,
   * then the path's non-empty ones other than `.`.
   */
  lemma ResolvedBelow(dir: string, p: string) returns (rest: seq<string>)
    requires Directory(dir)
    requires p == [] || p[0] != '/'
    requires ".." !in Split(p)
    ensures Resolve(true, [], Split(if p == [] then dir else dir + "/" + p)) == Split(dir[1..]) + rest
  {
    var segs := Split(dir[1..]);
    DirectorySegments(dir);
    if p == [] {
      ResolveBelow(segs, []);
      assert [""] + segs + [] == Split(dir);
      rest := [];
    } else {
      SplitConcat(dir, p);
      ResolveBelow(segs, Split(p));
      assert Split(dir + "/" + p) == [""] + segs + Split(p);
      rest := Kept(Split(p));
    }
  }

  /** A directory's segments: an empty one for the leading '/', then its plain ones. */
  lemma DirectorySegments(dir: string)
    requires Directory(dir)
    ensures Split(dir) == [""] + Split(dir[1..])
    ensures "/" + Join(Split(dir[1..])) == dir
    ensures Kept(Split(dir[1..])) == Split(dir[1..])
  {
    assert dir == "" + "/" + dir[1..];
    SplitConcat("", dir[1..]);
    assert Split("") == [""];
    JoinSplit(dir[1..]);
    KeptPlain(Split(dir[1..]));
  }

  /** Resolving an absolute path's segments when none of them is `..`. */
  lemma ResolveBelow(segs: seq<string>, more: seq<string>)
    requires ".." !in segs && ".." !in more
    ensures Resolve(true, [], [""] + segs + more) == Kept(segs) + Kept(more)
  {
    var all := [""] + (segs + more);
    assert [""] + segs + more == all;
    ResolveWithoutParent(true, [], all);
    KeptAppend([""], segs + more);
    assert Kept([""]) == [];
    KeptAppend(segs, more);
  }

  lemma {:induction false} KeptPlain(segs: seq<string>)
    requires forall i :: 0 <= i < |segs| ==> Plain(segs[i])
    ensures Kept(segs) == segs
  {
    if segs != [] {
      assert forall i :: 0 <= i < |segs[1..]| ==> segs[1..][i] == segs[i + 1];
      KeptPlain(segs[1..]);
    }
  }

  lemma {:induction false} KeptAppend(a: seq<string>, b: seq<string>)
    ensures Kept(a + b) == Kept(a) + Kept(b)
  {
    if a != [] {
      assert (a + b)[1..] == a[1..] + b;
      KeptAppend(a[1..], b);
    } else {
      assert a + b == b;
    }
  }

  /**
   * Normalising a relative path that neither ends in '/' nor has a `..` segment only drops its
   * empty and `.` segments.
   */
  lemma NormalizeRelative(p: string)
    requires p != [] && p[0] != '/' && p[|p| - 1] != '/'
    requires ".." !in Split(p)
    ensures Normalize(p) == (if Join(Kept(Split(p))) == [] then "." else Join(Kept(Split(p))))
  {
    ResolveWithoutParent(false, [], Split(p));
    assert Resolve(false, [], Split(p)) == Kept(Split(p));
  }

  /**
   * `path.posix.join(head, x, file)` for a plain head and file name without '/' and a folder
   * without `..` segments: the head, then the folder's kept segments, then the file.
   */
  lemma JoinRelative(head: string, x: string, file: string)
    requires Plain(head) && '/' !in head
    requires x != [] && ".." !in Split(x)
    requires Plain(file) && '/' !in file
    ensures PathJoin([head, x, file]) == head + "/" + Join(Kept(Split(x)) + [file])
  {
    var joined := JoinThree(head, x, file);
    var kept := Kept(Split(x)) + [file];
    KeptThree(head, x, file);
    assert Split(joined) == [head] + Split(x) + [file];
    NormalizeRelative(joined);
    JoinAppend([head], kept);
    assert Join([head] + kept) == head + "/" + Join(kept);
  }

  /** The three non-empty arguments of `join`, joined by '/' before normalising. */
  lemma JoinThree(head: string, x: string, file: string) returns (joined: string)
    requires head != [] && x != [] && file != [] && '/' !in head && '/' !in file
    ensures joined == head + "/" + (x + "/" + file)
    ensures PathJoin([head, x, file]) == Normalize(joined)
    ensures Split(joined) == [head] + Split(x) + [file]
  {
    joined := head + "/" + (x + "/" + file);
    var parts := [head, x, file];
    assert NonEmpty(parts) == parts by {
      assert NonEmpty([file]) == [file] + NonEmpty([]);
      assert NonEmpty([x, file]) == [x] + NonEmpty([x, file][1..]);
      assert NonEmpty(parts) == [head] + NonEmpty(parts[1..]);
      assert parts[1..] == [x, file] && [x, file][1..] == [file];
    }
    assert Join(parts) == joined by {
      assert Join([file]) == file;
      assert Join([x, file]) == x + "/" + Join([file]);
      assert Join(parts) == head + "/" + Join(parts[1..]);
      assert parts[1..] == [x, file] && [x, file][1..] == [file];
    }
    SplitThree(head, x, file);
  }

  /** Splitting head/x/file: the head, the folder's segments, the file. */
  lemma SplitThree(head: string, x: string, file: string)
    requires '/' !in head && '/' !in file
    ensures Split(head + "/" + (x + "/" + file)) == [head] + Split(x) + [file]
  {
    SplitCons(head, x + "/" + file);
    SplitConcat(x, file);
    SplitPlain(file);
    ConsSnoc(head, Split(x), file);
  }

  lemma ConsSnoc(a: string, b: seq<string>, c: string)
    ensures [a] + (b + [c]) == [a] + b + [c]
  {
  }

  /** A segment without '/' in front of a '/': it is the first of the split. */
  lemma SplitCons(a: string, b: string)
    requires '/' !in a
    ensures Split(a + "/" + b) == [a] + Split(b)
  {
    var s := a + "/" + b;
    assert s[..|a|] == a && s[|a| + 1..] == b;
    IndexOfAt(s, '/', |a|);
  }

  /** A path without '/' is one segment. */
  lemma SplitPlain(s: string)
    requires '/' !in s
    ensures Split(s) == [s]
  {
  }

  /** The kept segments of a plain head, a folder without `..` and a plain file name. */
  lemma KeptThree(head: string, x: string, file: string)
    requires Plain(head) && Plain(file)
    ensures Kept([head] + Split(x) + [file]) == [head] + (Kept(Split(x)) + [file])
    ensures ".." !in Split(x) ==> ".." !in [head] + Split(x) + [file]
  {
    assert [head] + Split(x) + [file] == [head] + (Split(x) + [file]);
    KeptAppend([head], Split(x) + [file]);
    KeptAppend(Split(x), [file]);
    assert Kept([head]) == [head] && Kept([file]) == [file];
  }

  /** `s.lastIndexOf(c)`, with None for -1. */
  function LastIndexOf(s: string, c: char): (r: Option<nat>)
    ensures r.None? <==> c !in s
    ensures r.Some? ==> r.value < |s| && s[r.value] == c && c !in s[r.value + 1..]
  {
    if s == [] then None
    else if s[|s| - 1] == c then Some(|s| - 1)
    else
      var init := s[..|s| - 1];
      assert s == init + [s[|s| - 1]];
      match LastIndexOf(init, c)
      case None => None
      case Some(k) => assert s[k + 1..] == init[k + 1..] + [s[|s| - 1]]; Some(k)
  }

  /** The path without its trailing slashes. */
  function DropTrailingSlashes(p: string): (r: string)
    ensures |r| <= |p| && r == p[..|r|] && (r == [] || r[|r| - 1] != '/')
  {
    if p != [] && p[|p| - 1] == '/' then DropTrailingSlashes(p[..|p| - 1]) else p
  }

  /** The last segment of the path, trailing slashes ignored. */
  function BaseName(p: string): (r: string)
    ensures '/' !in r
  {
    var t := DropTrailingSlashes(p);
    match LastIndexOf(t, '/')
    case None => t
    case Some(k) => t[k + 1..]
  }

  /**
   * `path.posix.extname(p)`: the last segment's text from its last '.', or nothing when it has
   * no '.', when its only leading '.' is the last one (a dot file), or when it is `..`.
   */
  function ExtName(p: string): (r: string)
    ensures r == [] || (r[0] == '.' && '/' !in r && '.' !in r[1..])
  {
    var b := BaseName(p);
    match LastIndexOf(b, '.')
    case None => ""
    case Some(k) => if k == 0 || b == ".." then "" else b[k..]
  }
}
