/**
 * The string logic of the image upload service: the file extension chosen for an upload, the
 * folder sanitising and the local publicId and URL built when images are kept on local disk,
 * the local publicId normalisation shared by deletion and URL building, and the choice between
 * local disk and Cloudinary. The disk and network calls themselves are parameters.
 */
module Cloudinary {
  import opened Wrappers
  import opened Text
  import opened PosixPath
  import Records

  const LocalPrefix: string := "local"
  /** `${LOCAL_PREFIX}/`, the start of every local asset's id. */
  const LocalSlash: string := "local/"
  const DefaultFolder: string := "posts"
  const DefaultExtension: string := "jpg"
  const LocalDeleteFailed: string := "Failed to delete local image"
  const RemoteDeleteFailed: string := "Failed to delete image"

  // ---------------------------------------------------------------- resolveExtension

  /** The second '/'-separated field of a mime type: `mimeType.split('/')[1]`. */
  function Subtype(mimeType: string): (r: string)
    ensures '/' !in r
  {
    BeforeFirst(AfterFirst(mimeType, '/'), '/')
  }

  /** The subtype is the second field of the split mime type. */
  lemma SubtypeIsSecondField(mimeType: string)
    requires '/' in mimeType
    ensures |Split(mimeType)| >= 2 && Subtype(mimeType) == Split(mimeType)[1]
  {
    var k := IndexOf(mimeType, '/').value;
    var rest := mimeType[k + 1..];
    assert Split(mimeType) == [mimeType[..k]] + Split(rest);
    assert AfterFirst(mimeType, '/') == rest;
    match IndexOf(rest, '/')
    case None =>
    case Some(j) =>
  }

  /** `path.extname(name).replace('.', '')`: the extension without its leading dot. */
  function NameExtension(name: string): (r: string)
    ensures '.' !in r && '/' !in r
  {
    var e := ExtName(name);
    if e == [] then [] else e[1..]
  }

  /**
   * `resolveExtension(mimeType, originalName)`: a mime type with a '/' and a non-empty subtype
   * gives that subtype, 'jpeg' written 'jpg'; then the name's extension if it has one; else 'jpg'.
   */
  function ResolveExtension(mimeType: Option<string>, originalName: Option<string>): (r: string)
    ensures r != [] && '/' !in r
  {
    if mimeType.Some? && '/' in mimeType.value && Subtype(mimeType.value) != [] then
      (if Subtype(mimeType.value) == "jpeg" then "jpg" else Subtype(mimeType.value))
    else if originalName.Some? && originalName.value != [] && NameExtension(originalName.value) != [] then
      NameExtension(originalName.value)
    else DefaultExtension
  }

  /**
   * The mime type decides whenever its second field is non-empty; otherwise an extension in the
   * file name does; 'jpg' is the last resort. A name's extension never contains a '.'.
   */
  lemma ResolveExtensionFacts(mimeType: Option<string>, originalName: Option<string>)
    ensures mimeType.Some? && |Split(mimeType.value)| >= 2 && Split(mimeType.value)[1] != [] ==>
      ResolveExtension(mimeType, originalName) ==
        (if Split(mimeType.value)[1] == "jpeg" then "jpg" else Split(mimeType.value)[1])
    ensures (mimeType.None? || |Split(mimeType.value)| == 1 || Split(mimeType.value)[1] == []) ==>
      ResolveExtension(mimeType, originalName) ==
        (if originalName.Some? && NameExtension(originalName.value) != [] then NameExtension(originalName.value)
         else DefaultExtension)
  {
    if mimeType.Some? {
      var m := mimeType.value;
      if '/' in m {
        SubtypeIsSecondField(m);
      } else {
        assert Split(m) == [m];
      }
    }
    if originalName.Some? && originalName.value == [] {
      assert ExtName([]) == [];
    }
  }

  // ---------------------------------------------------------------- safeFolder

  /** `s.replace(/^\/+/, '')`. */
  function StripSlashes(s: string): (r: string)
    ensures |r| <= |s| && r == s[|s| - |r|..] && (r == [] || r[0] != '/')
    ensures (s == [] || s[0] != '/') ==> r == s
  {
    if s != [] && s[0] == '/' then StripSlashes(s[1..]) else s
  }

  /** No '.' is directly followed by another. */
  predicate NoDotDot(s: string)
  {
    forall i :: 0 <= i < |s| - 1 ==> s[i] != '.' || s[i + 1] != '.'
  }

  /** A string without ".." keeps that on every suffix. */
  lemma NoDotDotSuffix(s: string, k: nat)
    requires NoDotDot(s) && k <= |s|
    ensures NoDotDot(s[k..])
  {
    assert forall i :: 0 <= i < |s[k..]| ==> s[k..][i] == s[k + i];
  }

  /**
   * `s.replace(/\.\./g, '')`: scanning left to right, every ".." that starts where the scan
   * stands is dropped. What is left has no "..": a kept '.' is followed by a character that is
   * not a '.', and that character is kept too.
   */
  function RemoveDotDot(s: string): (r: string)
    ensures NoDotDot(r) && |r| <= |s|
    ensures s != [] && s[0] != '.' ==> r != [] && r[0] == s[0]
  {
    if s == [] then []
    else if |s| >= 2 && s[0] == '.' && s[1] == '.' then RemoveDotDot(s[2..])
    else
      var rest := RemoveDotDot(s[1..]);
      assert s[0] == '.' ==> rest == [] || rest[0] != '.';
      assert forall i :: 1 <= i < |[s[0]] + rest| ==> ([s[0]] + rest)[i] == rest[i - 1];
      [s[0]] + rest
  }

  /** On a string without "..", the removal changes nothing. */
  lemma {:induction false} RemoveDotDotNoop(s: string)
    requires NoDotDot(s)
    ensures RemoveDotDot(s) == s
    decreases |s|
  {
    if s != [] {
      NoDotDotSuffix(s, 1);
      RemoveDotDotNoop(s[1..]);
    }
  }

  /** Removal is idempotent. */
  lemma RemoveDotDotIdempotent(s: string)
    ensures RemoveDotDot(RemoveDotDot(s)) == RemoveDotDot(s)
  {
    RemoveDotDotNoop(RemoveDotDot(s));
  }

  /** A string without ".." keeps that on every prefix. */
  lemma NoDotDotPrefix(s: string, k: nat)
    requires NoDotDot(s) && k <= |s|
    ensures NoDotDot(s[..k])
  {
    assert forall i :: 0 <= i < k ==> s[..k][i] == s[i];
  }

  /** A string without ".." is not the segment `..`. */
  lemma NotParent(s: string)
    requires NoDotDot(s)
    ensures s != ".."
  {
    assert |s| == 2 ==> s[0] != '.' || s[1] != '.';
  }

  /** A string without ".." has no `..` segment. */
  lemma {:induction false} NoParentSegment(s: string)
    requires NoDotDot(s)
    ensures ".." !in Split(s)
    decreases |s|
  {
    match IndexOf(s, '/')
    case None =>
      NotParent(s);
    case Some(k) =>
      NoDotDotPrefix(s, k);
      NotParent(s[..k]);
      NoDotDotSuffix(s, k + 1);
      NoParentSegment(s[k + 1..]);
      assert Split(s) == [s[..k]] + Split(s[k + 1..]);
  }

  /**
   * `folder.replace(/^\/+/, '').replace(/\.\./g, '') || 'posts'`, as the service computes it:
   * leading slashes go first, then every "..".
   */
  function SafeFolder(folder: string): (r: string)
    ensures r != [] && NoDotDot(r)
  {
    var cleaned := RemoveDotDot(StripSlashes(folder));
    if cleaned == [] then DefaultFolder else cleaned
  }

  /** The folder never holds "..", not even as a segment, and an empty result becomes 'posts'. */
  lemma SafeFolderFacts(folder: string)
    ensures NoDotDot(SafeFolder(folder)) && ".." !in Split(SafeFolder(folder))
    ensures RemoveDotDot(StripSlashes(folder)) == [] ==> SafeFolder(folder) == DefaultFolder
  {
    NoParentSegment(SafeFolder(folder));
  }

  /**
   * The folder can still start with '/': the slashes in front of a ".." survive it, so `../x`
   * becomes `/x`, which is not what the sanitising gives `/x` itself.
   */
  lemma SafeFolderSlash()
    ensures SafeFolder("../x") == "/x" && SafeFolder("/x") == "x"
  {
    assert StripSlashes("../x") == "../x";
    assert RemoveDotDot("x") == "x" by {
      assert RemoveDotDot("x") == ['x'] + RemoveDotDot("x"[1..]);
      assert "x"[1..] == [];
    }
    assert RemoveDotDot("/x") == "/x" by {
      assert RemoveDotDot("/x") == ['/'] + RemoveDotDot("/x"[1..]);
      assert "/x"[1..] == "x";
    }
    assert RemoveDotDot("../x") == "/x" by {
      assert "../x"[2..] == "/x";
    }
    assert StripSlashes("/x") == "x" by {
      assert "/x"[1..] == "x";
    }
  }

  /**
   * The sanitising the folder evidently needs: "..", then the leading slashes that this can
   * expose, so that the folder is always relative.
   */
  function SafeFolderFixed(folder: string): (r: string)
    ensures r != [] && NoDotDot(r) && r[0] != '/'
  {
    var removed := RemoveDotDot(folder);
    var cleaned := StripSlashes(removed);
    NoDotDotSuffix(removed, |removed| - |cleaned|);
    if cleaned == [] then DefaultFolder else cleaned
  }

  /** `safeFolder.replace(/\\/g, '/')`. */
  function Backslashes(s: string): (r: string)
  {
    seq(|s|, i requires 0 <= i < |s| => if s[i] == '\\' then '/' else s[i])
  }

  /** Turning backslashes into slashes keeps the length and every '.', and leaves no backslash. */
  lemma BackslashesFacts(s: string)
    ensures |Backslashes(s)| == |s| && '\\' !in Backslashes(s)
    ensures forall i :: 0 <= i < |s| ==> (Backslashes(s)[i] == '.' <==> s[i] == '.')
    ensures NoDotDot(s) ==> NoDotDot(Backslashes(s))
  {
  }

  // ---------------------------------------------------------------- the local upload directory

  /**
   * `path.resolve(LOCAL_UPLOAD_ROOT, safeFolder)`, the directory an image is written to, with
   * `root` the absolute `<cwd>/uploads/local`.
   */
  function TargetDir(root: string, folder: string): string
    requires Directory(root)
  {
    PathResolve(root, SafeFolder(folder))
  }

  /**
   * As written, the folder `../x` is written to `/x`, whatever the upload root: an absolute
   * folder replaces the root in `path.resolve`.
   */
  lemma TargetDirEscapes(root: string)
    requires Directory(root)
    ensures TargetDir(root, "../x") == "/x"
    ensures root != "/x" ==> !StartsWith(TargetDir(root, "../x"), root + "/") && TargetDir(root, "../x") != root
  {
    SafeFolderSlash();
    assert PathResolve(root, "/x") == "/" + Join(Resolve(true, [], Split("/x")));
    ResolveSlashX();
  }

  /** `/x` resolves to itself. */
  lemma ResolveSlashX()
    ensures "/" + Join(Resolve(true, [], Split("/x"))) == "/x"
  {
    SplitCons("", "x");
    assert "" + "/" + "x" == "/x";
    SplitPlain("x");
    assert Resolve(true, [], ["", "x"]) == ["x"] by {
      assert ["", "x"][1..] == ["x"] && ["x"][1..] == [];
    }
    assert Join(["x"]) == "x";
  }

  /** The target directory with the corrected sanitising. */
  function TargetDirFixed(root: string, folder: string): string
    requires Directory(root)
  {
    PathResolve(root, SafeFolderFixed(folder))
  }

  /** With the corrected sanitising, every folder is the upload root or a directory under it. */
  lemma TargetDirFixedInside(root: string, folder: string)
    requires Directory(root)
    ensures TargetDirFixed(root, folder) == root || StartsWith(TargetDirFixed(root, folder), root + "/")
  {
    NoParentSegment(SafeFolderFixed(folder));
    ResolveInside(root, SafeFolderFixed(folder));
  }

  // ---------------------------------------------------------------- saveToLocal

  /** A value `randomUUID()` returns: 36 hexadecimal digits and dashes. */
  predicate IsUuid(u: string)
  {
    |u| == 36 && forall i :: 0 <= i < |u| ==> Records.IsHexDigit(u[i]) || u[i] == '-'
  }

  datatype UploadResult = UploadResult(url: string, publicId: string, width: int, height: int, format: string, bytes: nat)

  /** What `saveToLocal` writes (the file path) and returns. */
  datatype LocalSave = LocalSave(filePath: string, result: UploadResult)

  /** The file name `${uuid}.${extension}`. */
  function FileName(uuid: string, extension: string): string
  {
    uuid + "." + extension
  }

  /**
   * The file and the result of a save into `dir` under the sanitised folder `safe`, with `bytes`
   * the buffer's length and `uuid` what `randomUUID()` returned.
   */
  function SaveInto(dir: string, safe: string, bytes: nat, mimeType: Option<string>, originalName: Option<string>,
                    uuid: string): LocalSave
  {
    var extension := ResolveExtension(mimeType, originalName);
    var fileName := FileName(uuid, extension);
    var publicId := PathJoin([LocalPrefix, Backslashes(safe), fileName]);
    LocalSave(PathJoin([dir, fileName]), UploadResult(PathJoin(["/uploads", publicId]), publicId, 0, 0, extension, bytes))
  }

  /** `saveToLocal(buffer, folder, metadata)` as written: the folder of line 68, resolved against the root. */
  function SaveToLocal(root: string, bytes: nat, folder: string, mimeType: Option<string>, originalName: Option<string>,
                       uuid: string): LocalSave
    requires Directory(root)
  {
    SaveInto(TargetDir(root, folder), SafeFolder(folder), bytes, mimeType, originalName, uuid)
  }

  /** `saveToLocal` with the corrected folder sanitising. */
  function SaveToLocalFixed(root: string, bytes: nat, folder: string, mimeType: Option<string>,
                            originalName: Option<string>, uuid: string): LocalSave
    requires Directory(root)
  {
    SaveInto(TargetDirFixed(root, folder), SafeFolderFixed(folder), bytes, mimeType, originalName, uuid)
  }

  /** The file name of an upload: no '/', and no segment `resolve` would drop or pop. */
  lemma FileNamePlain(uuid: string, extension: string)
    requires IsUuid(uuid) && '/' !in extension
    ensures Plain(FileName(uuid, extension)) && '/' !in FileName(uuid, extension)
  {
    assert '/' !in uuid by {
      assert forall i :: 0 <= i < |uuid| ==> uuid[i] != '/';
    }
    assert FileName(uuid, extension) == uuid + ("." + extension);
    assert |FileName(uuid, extension)| > 2;
  }

  /** The local publicId: 'local/', the folder's non-empty segments other than `.`, the file. */
  lemma LocalPublicId(safe: string, fileName: string)
    requires safe != [] && NoDotDot(safe)
    requires Plain(fileName) && '/' !in fileName
    ensures PathJoin([LocalPrefix, Backslashes(safe), fileName]) ==
      LocalSlash + Join(Kept(Split(Backslashes(safe))) + [fileName])
  {
    BackslashesFacts(safe);
    NoParentSegment(Backslashes(safe));
    JoinRelative(LocalPrefix, Backslashes(safe), fileName);
  }

  /**
   * A save under any sanitised folder: the publicId starts with 'local/' and is already in the
   * normalised form that deletion and URL building give it, so the URL returned is the one
   * `getOptimizedUrl` builds for it; the file is the file name joined to the directory, and the
   * format is the extension.
   */
  lemma SaveIntoFacts(dir: string, safe: string, bytes: nat, mimeType: Option<string>,
                      originalName: Option<string>, uuid: string)
    requires safe != [] && NoDotDot(safe) && IsUuid(uuid)
    ensures var l := SaveInto(dir, safe, bytes, mimeType, originalName, uuid);
      var s := l.result;
      StartsWith(s.publicId, LocalSlash) && NormalizeLocal(s.publicId) == s.publicId &&
      OptimizedUrl(false, s.publicId, None, None) == LocalUrl(s.url) &&
      OptimizedUrl(true, s.publicId, None, None) == LocalUrl(s.url) &&
      s.width == 0 && s.height == 0 && s.bytes == bytes &&
      s.format == ResolveExtension(mimeType, originalName) &&
      l.filePath == PathJoin([dir, FileName(uuid, s.format)])
  {
    var extension := ResolveExtension(mimeType, originalName);
    var fileName := FileName(uuid, extension);
    FileNamePlain(uuid, extension);
    LocalPublicId(safe, fileName);
    var publicId := PathJoin([LocalPrefix, Backslashes(safe), fileName]);
    var tail := Join(Kept(Split(Backslashes(safe))) + [fileName]);
    assert publicId == LocalSlash + tail;
    assert publicId[..|LocalSlash|] == LocalSlash;
    NormalizeLocalFacts(publicId);
  }

  /**
   * As written, a local upload's publicId and URL have the properties above, the file is
   * written to `TargetDir`, and it lies under the upload root whenever the sanitised folder is
   * relative.
   */
  lemma SaveToLocalFacts(root: string, bytes: nat, folder: string, mimeType: Option<string>,
                         originalName: Option<string>, uuid: string)
    requires Directory(root) && IsUuid(uuid)
    ensures var l := SaveToLocal(root, bytes, folder, mimeType, originalName, uuid);
      var s := l.result;
      StartsWith(s.publicId, LocalSlash) && NormalizeLocal(s.publicId) == s.publicId &&
      OptimizedUrl(false, s.publicId, None, None) == LocalUrl(s.url) &&
      OptimizedUrl(true, s.publicId, None, None) == LocalUrl(s.url) &&
      s.width == 0 && s.height == 0 && s.bytes == bytes &&
      s.format == ResolveExtension(mimeType, originalName) &&
      l.filePath == PathJoin([TargetDir(root, folder), FileName(uuid, s.format)])
    ensures SafeFolder(folder)[0] != '/' ==>
      TargetDir(root, folder) == root || StartsWith(TargetDir(root, folder), root + "/")
  {
    SafeFolderFacts(folder);
    SaveIntoFacts(TargetDir(root, folder), SafeFolder(folder), bytes, mimeType, originalName, uuid);
    if SafeFolder(folder)[0] != '/' {
      ResolveInside(root, SafeFolder(folder));
    }
  }

  /** As written, the folder `../x` puts the file at `/x/<uuid>.<ext>`, outside the upload root. */
  lemma SaveToLocalEscapes(root: string, bytes: nat, mimeType: Option<string>, originalName: Option<string>,
                           uuid: string)
    requires Directory(root) && IsUuid(uuid)
    ensures var l := SaveToLocal(root, bytes, "../x", mimeType, originalName, uuid);
      l.filePath == "/x/" + FileName(uuid, ResolveExtension(mimeType, originalName)) &&
      (root != "/x" ==> !StartsWith(l.filePath, root + "/"))
  {
    var extension := ResolveExtension(mimeType, originalName);
    var fileName := FileName(uuid, extension);
    FileNamePlain(uuid, extension);
    TargetDirEscapes(root);
    SaveIntoFacts(TargetDir(root, "../x"), SafeFolder("../x"), bytes, mimeType, originalName, uuid);
    JoinSlashX(fileName);
    var f := "/x/" + fileName;
    if root != "/x" && StartsWith(f, root + "/") {
      SlashXPrefix(root, fileName);
    }
  }

  /** `path.join("/x", file)` for a plain file name is `/x/file`. */
  lemma JoinSlashX(file: string)
    requires Plain(file) && '/' !in file
    ensures PathJoin(["/x", file]) == "/x/" + file
  {
    var p := "/x/" + file;
    JoinTwo(file);
    SplitSlashX(file);
    ResolveSlashXFile(file);
    assert Join(["x", file]) == "x/" + file by {
      assert Join([file]) == file;
      assert ["x", file][1..] == [file];
    }
    assert p[|p| - 1] == file[|file| - 1] && p[0] == '/';
  }

  /** The two non-empty arguments of `join("/x", file)`, joined by '/'. */
  lemma JoinTwo(file: string)
    requires file != []
    ensures PathJoin(["/x", file]) == Normalize("/x/" + file)
  {
    assert NonEmpty(["/x", file]) == ["/x", file] by {
      assert NonEmpty([file]) == [file] + NonEmpty([]);
      assert ["/x", file][1..] == [file];
    }
    assert Join(["/x", file]) == "/x" + "/" + file by {
      assert Join([file]) == file;
      assert ["/x", file][1..] == [file];
    }
    assert "/x" + "/" + file == "/x/" + file;
  }

  lemma SplitSlashX(file: string)
    requires '/' !in file
    ensures Split("/x/" + file) == ["", "x", file]
  {
    assert "/x/" + file == "" + "/" + ("x" + "/" + file);
    SplitCons("", "x" + "/" + file);
    SplitCons("x", file);
    SplitPlain(file);
  }

  lemma ResolveSlashXFile(file: string)
    requires Plain(file)
    ensures Resolve(true, [], ["", "x", file]) == ["x", file]
  {
    assert ["", "x", file][1..] == ["x", file] && ["x", file][1..] == [file] && [file][1..] == [];
    assert Resolve(true, ["x", file], []) == ["x", file];
    assert Resolve(true, ["x"], [file]) == Resolve(true, ["x"] + [file], []);
    assert Resolve(true, [], ["x", file]) == Resolve(true, [] + ["x"], [file]);
    assert [] + ["x"] == ["x"] && ["x"] + [file] == ["x", file];
  }

  /** A directory whose '/'-extension starts `/x/file` is `/x` itself. */
  lemma SlashXPrefix(root: string, file: string)
    requires Directory(root) && '/' !in file && StartsWith("/x/" + file, root + "/")
    ensures root == "/x"
  {
    var f := "/x/" + file;
    var n := |root|;
    assert f[n] == '/';
    assert n == 2;
    assert root == f[..2];
    assert f[..2] == "/x";
  }

  /**
   * With the corrected sanitising, a local upload has the same publicId and URL properties, and
   * its file always lies under the upload root.
   */
  lemma SaveToLocalFixedFacts(root: string, bytes: nat, folder: string, mimeType: Option<string>,
                              originalName: Option<string>, uuid: string)
    requires Directory(root) && IsUuid(uuid)
    ensures var l := SaveToLocalFixed(root, bytes, folder, mimeType, originalName, uuid);
      StartsWith(l.result.publicId, LocalSlash) && NormalizeLocal(l.result.publicId) == l.result.publicId &&
      l.filePath == PathJoin([TargetDirFixed(root, folder), FileName(uuid, l.result.format)])
    ensures TargetDirFixed(root, folder) == root || StartsWith(TargetDirFixed(root, folder), root + "/")
  {
    SaveIntoFacts(TargetDirFixed(root, folder), SafeFolderFixed(folder), bytes, mimeType, originalName, uuid);
    TargetDirFixedInside(root, folder);
  }

  // ---------------------------------------------------------------- local publicIds

  /**
   * The relative path of a local asset: leading slashes stripped, then 'local/' put in front
   * unless it is already there.
   */
  function NormalizeLocal(publicId: string): string
  {
    var relative := StripSlashes(publicId);
    if StartsWith(relative, LocalSlash) then relative else LocalSlash + relative
  }

  /**
   * The result always starts with 'local/'; an id that already does is kept as it is, so the
   * normalisation is idempotent; any other id keeps its text after the slashes, behind 'local/'.
   */
  lemma NormalizeLocalFacts(publicId: string)
    ensures StartsWith(NormalizeLocal(publicId), LocalSlash)
    ensures StartsWith(publicId, LocalSlash) ==> NormalizeLocal(publicId) == publicId
    ensures NormalizeLocal(NormalizeLocal(publicId)) == NormalizeLocal(publicId)
    ensures !StartsWith(StripSlashes(publicId), LocalSlash) ==>
      NormalizeLocal(publicId) == LocalSlash + StripSlashes(publicId)
  {
    var n := NormalizeLocal(publicId);
    NormalizedStart(publicId);
    KeepsLocal(n);
    if StartsWith(publicId, LocalSlash) {
      KeepsLocal(publicId);
    }
  }

  /** The normalised id starts with 'local/'. */
  lemma NormalizedStart(publicId: string)
    ensures StartsWith(NormalizeLocal(publicId), LocalSlash)
  {
    var relative := StripSlashes(publicId);
    if !StartsWith(relative, LocalSlash) {
      assert (LocalSlash + relative)[..|LocalSlash|] == LocalSlash;
    }
  }

  /** An id that starts with 'local/' is its own normalisation. */
  lemma KeepsLocal(publicId: string)
    requires StartsWith(publicId, LocalSlash)
    ensures NormalizeLocal(publicId) == publicId
  {
    assert publicId[0] == LocalSlash[0] == 'l';
    assert StripSlashes(publicId) == publicId;
  }

  /** Whether an id is treated as a local asset: always when Cloudinary is not configured. */
  predicate IsLocalAsset(configured: bool, publicId: string)
  {
    !configured || StartsWith(publicId, LocalSlash)
  }

  // ---------------------------------------------------------------- getOptimizedUrl

  /** A local path under /uploads, or a Cloudinary URL for the id and the requested size. */
  datatype ImageUrl = LocalUrl(path: string) | CloudinaryUrl(publicId: string, width: Option<int>, height: Option<int>)

  /** `getOptimizedUrl(publicId, width, height)`. */
  function OptimizedUrl(configured: bool, publicId: string, width: Option<int>, height: Option<int>): ImageUrl
  {
    if IsLocalAsset(configured, publicId) then LocalUrl(PathJoin(["/uploads", NormalizeLocal(publicId)]))
    else CloudinaryUrl(publicId, width, height)
  }

  // ---------------------------------------------------------------- deleteImage

  /** What unlinking the local file reported. */
  datatype UnlinkOutcome = Unlinked | NoEntry | UnlinkFailed

  /** The local file removed, or the Cloudinary asset destroyed. */
  datatype DeleteTarget = LocalFile(diskPath: string) | RemoteAsset(publicId: string)

  /** Where the deletion went, and the message of the error it threw, if any. */
  datatype Deletion = Deletion(target: DeleteTarget, error: Option<string>)

  /**
   * `deleteImage(publicId)` with `cwd` the working directory, `unlink` what removing the local
   * file reported and `destroyed` whether Cloudinary's `destroy` succeeded.
   */
  function DeleteImage(configured: bool, cwd: string, publicId: string, unlink: UnlinkOutcome, destroyed: bool): Deletion
    requires Directory(cwd)
  {
    if IsLocalAsset(configured, publicId) then
      Deletion(LocalFile(PathResolve(cwd, "uploads/" + NormalizeLocal(publicId))),
               if unlink == UnlinkFailed then Some(LocalDeleteFailed) else None)
    else Deletion(RemoteAsset(publicId), if destroyed then None else Some(RemoteDeleteFailed))
  }

  /**
   * An id goes to local disk exactly when Cloudinary is not configured or it starts with
   * 'local/', the same test the URL building makes. Locally, a missing file is not an error and
   * any other unlink failure is; the disk path is the normalised id under `<cwd>/uploads`.
   * Remotely, only a failed destroy is an error.
   */
  lemma DeleteImageFacts(configured: bool, cwd: string, publicId: string, unlink: UnlinkOutcome, destroyed: bool)
    requires Directory(cwd)
    ensures var d := DeleteImage(configured, cwd, publicId, unlink, destroyed);
      (d.target.LocalFile? <==> !configured || StartsWith(publicId, LocalSlash)) &&
      (d.target.LocalFile? <==> OptimizedUrl(configured, publicId, None, None).LocalUrl?)
    ensures var d := DeleteImage(configured, cwd, publicId, unlink, destroyed);
      d.target.LocalFile? ==>
        d.target.diskPath == PathResolve(cwd, "uploads/" + NormalizeLocal(publicId)) &&
        StartsWith(NormalizeLocal(publicId), LocalSlash) &&
        (d.error.None? <==> unlink != UnlinkFailed) && (d.error.Some? ==> d.error.value == LocalDeleteFailed)
    ensures var d := DeleteImage(configured, cwd, publicId, unlink, destroyed);
      d.target.RemoteAsset? ==>
        d.target.publicId == publicId && (d.error.None? <==> destroyed) &&
        (d.error.Some? ==> d.error.value == RemoteDeleteFailed)
  {
    NormalizeLocalFacts(publicId);
  }

  // ---------------------------------------------------------------- uploadImage

  datatype UploadError = DiskError | UploadFailed

  /**
   * `uploadImage(buffer, folder, publicId, metadata)`: `remote` is Cloudinary's result (`None`
   * when the upload was rejected) and `written` whether the local directory and file writes
   * succeeded. Without Cloudinary the disk is used and a disk error propagates; with it, a
   * rejected upload falls back to the disk, and a failing fallback throws 'Failed to upload image'.
   */
  function UploadImage(configured: bool, remote: Option<UploadResult>, written: bool, root: string, bytes: nat,
                       folder: string, mimeType: Option<string>, originalName: Option<string>, uuid: string)
    : (r: Result<UploadResult, UploadError>)
    requires Directory(root)
  {
    var local := SaveToLocal(root, bytes, folder, mimeType, originalName, uuid).result;
    if !configured then (if written then Ok(local) else Err(DiskError))
    else if remote.Some? then Ok(remote.value)
    else if written then Ok(local)
    else Err(UploadFailed)
  }

  /**
   * Cloudinary's result is returned exactly when it is configured and accepted the upload; any
   * other success is a local upload, whose publicId starts with 'local/'. The error is the raw
   * disk error only when Cloudinary is not configured.
   */
  lemma UploadImageFacts(configured: bool, remote: Option<UploadResult>, written: bool, root: string, bytes: nat,
                         folder: string, mimeType: Option<string>, originalName: Option<string>, uuid: string)
    requires Directory(root) && IsUuid(uuid)
    ensures var r := UploadImage(configured, remote, written, root, bytes, folder, mimeType, originalName, uuid);
      (configured && remote.Some? ==> r == Ok(remote.value)) &&
      (r.Err? <==> !written && (!configured || remote.None?)) &&
      (r.Err? ==> (r.error == DiskError <==> !configured))
    ensures var r := UploadImage(configured, remote, written, root, bytes, folder, mimeType, originalName, uuid);
      r.Ok? && !(configured && remote.Some?) ==>
        r.value == SaveToLocal(root, bytes, folder, mimeType, originalName, uuid).result &&
        StartsWith(r.value.publicId, LocalSlash)
  {
    SaveToLocalFacts(root, bytes, folder, mimeType, originalName, uuid);
  }
}
