/** api.go: opening a connection to the reMarkable cloud, and creating a
    directory or uploading a document in its file tree. The file tree is a map
    from a node's path (its names from the root) to the node; the cloud's
    CreateApiCtx, CreateDir and UploadDocument calls are oracles, and the new
    user-token request is represented by its reply. */
module RemoteStore {
  import opened Wrappers
  import opened GoLib

  datatype Kind = Dir | File

  /** A node of the cloud's file tree: its id, kind and the id of its parent. */
  datatype Node = Node(id: string, kind: Kind, parentId: string)

  /** The file tree, keyed by path; the root is the empty path. */
  type Tree = map<seq<string>, Node>

  /** The root is a directory. */
  predicate RootIsDir(t: Tree)
  {
    [] in t && t[[]].kind == Dir
  }

  /** The root is a directory and every other node sits in a directory. */
  ghost predicate WellFormed(t: Tree)
  {
    && RootIsDir(t)
    && forall p, name :: p + [name] in t ==> p in t && t[p].kind == Dir
  }

  datatype Error =
    | EmptyDeviceToken
    | EmptyUserToken
    | ApiCtxFailed(cause: string)
    | UserTokenFailed(cause: string)
    | FileAtPath
    | ParentMissing
    | CreateDirFailed(cause: string)
    | DirMissing(dir: string)
    | FileExists
    | UploadFailed(src: string, cause: string)

  /** The text of each error as the source formats it. */
  function Message(e: Error): string
  {
    match e
    case EmptyDeviceToken => "empty reMarkable device token"
    case EmptyUserToken => "empty reMarkable user token"
    case ApiCtxFailed(c) => c
    case UserTokenFailed(c) => "failed to create a new reMarkable user token: " + c
    case FileAtPath => "a file with at same path already exists"
    case ParentMissing => "parent directory doesn't exist"
    case CreateDirFailed(c) => "failed to create directory: " + c
    case DirMissing(d) => "directory doesn't exist: " + d
    case FileExists => "file already exists"
    case UploadFailed(s, c) => "failed to upload file " + s + ": " + c
  }

  /** An error that wraps a cause (`%w`, or the API context's error as is)
      ends with the cause's text. */
  lemma MessageEndsWithCause(e: Error)
    requires e.ApiCtxFailed? || e.UserTokenFailed? || e.CreateDirFailed? || e.UploadFailed?
    ensures |e.cause| <= |Message(e)| && Message(e)[|Message(e)| - |e.cause|..] == e.cause
  {
  }

  // ---------------------------------------------------------------------------
  // Connecting

  /** NewConnection: both tokens must be non-empty, the device token checked
      first; then the API context is created (`createApiCtx` is its outcome:
      the file tree it loads, or its error). */
  function NewConnection(deviceToken: string, userToken: string,
                         createApiCtx: Result<Tree, string>): (r: Result<Tree, Error>)
    ensures deviceToken == "" ==> r == Failure(EmptyDeviceToken)
    ensures deviceToken != "" && userToken == "" ==> r == Failure(EmptyUserToken)
    ensures r.Success? <==> deviceToken != "" && userToken != "" && createApiCtx.Success?
    ensures r.Success? ==> r.value == createApiCtx.value
    ensures r.Failure? && deviceToken != "" && userToken != "" ==>
              r.error == ApiCtxFailed(createApiCtx.error)
  {
    if |deviceToken| <= 0 then Failure(EmptyDeviceToken)
    else if |userToken| <= 0 then Failure(EmptyUserToken)
    else match createApiCtx
      case Success(t) => Success(t)
      case Failure(e) => Failure(ApiCtxFailed(e))
  }

  /** NewUserToken, given the reply of the token endpoint: the new token, or
      the empty token and a wrapped error. */
  function NewUserToken(reply: Result<string, string>): (r: (string, Option<Error>))
    ensures reply.Success? <==> r.1.None?
    ensures reply.Success? ==> r.0 == reply.value
    ensures reply.Failure? ==> r == ("", Some(UserTokenFailed(reply.error)))
  {
    match reply
    case Success(content) => (content, None)
    case Failure(e) => ("", Some(UserTokenFailed(e)))
  }

  // ---------------------------------------------------------------------------
  // Paths

  /** strings.Trim(strings.TrimSpace(p), "/"). */
  function Normalize(p: string): (r: string)
    ensures r != "" ==> r[0] != '/' && r[|r| - 1] != '/'
    ensures |r| <= |p|
  {
    TrimSlashes(TrimSpace(p))
  }

  predicate NoSurroundingSpace(s: string)
  {
    s == "" || (!IsSpace(s[0]) && !IsSpace(s[|s| - 1]))
  }

  /** Normalising a normalised path changes nothing exactly when it does not
      start or end with white space (the first pass may uncover some). */
  lemma NormalizeIdempotentIff(p: string)
    ensures Normalize(Normalize(p)) == Normalize(p) <==> NoSurroundingSpace(Normalize(p))
  {
    var r := Normalize(p);
    if NoSurroundingSpace(r) {
      assert TrimLeft(r, IsSpace) == r;
      assert TrimRight(r, IsSpace) == r;
      assert TrimLeft(r, IsSlash) == r;
      assert TrimRight(r, IsSlash) == r;
    } else if IsSpace(r[0]) {
      assert |TrimLeft(r, IsSpace)| < |r|;
    } else {
      assert |TrimRight(TrimLeft(r, IsSpace), IsSpace)| < |r|;
    }
  }

  /** The first pass over "/ a": no white space to trim, then the slash goes. */
  lemma NormalizeSlashSpace(a: char)
    requires !IsSpace(a) && a != '/'
    ensures Normalize(['/', ' ', a]) == [' ', a]
  {
    TrimUnchanged(['/', ' ', a], IsSpace);
    assert ['/', ' ', a] == ['/'] + [' ', a];
    TrimLeftOne('/', [' ', a], IsSlash);
    TrimUnchanged([' ', a], IsSlash);
  }

  /** The second pass over " a": the space goes, and no slash is left to trim. */
  lemma NormalizeSpace(a: char)
    requires !IsSpace(a) && a != '/'
    ensures Normalize([' ', a]) == [a]
  {
    assert [' ', a] == [' '] + [a];
    TrimLeftOne(' ', [a], IsSpace);
    TrimUnchanged([a], IsSpace);
    TrimUnchanged([a], IsSlash);
  }

  /** Normalisation is not idempotent: "/ a" becomes " a", which becomes "a"
      (for any name character in place of 'a'). */
  lemma NormalizeNotIdempotent(a: char)
    requires !IsSpace(a) && a != '/'
    ensures Normalize(Normalize(['/', ' ', a])) == [a] != Normalize(['/', ' ', a])
  {
    NormalizeSlashSpace(a);
    NormalizeSpace(a);
  }

  /** The path the file tree's NodeByPath walks to from the node at `from`: a
      leading '/' starts over at the root, empty names are skipped. */
  function NodeByPath(from: seq<string>, p: string): (k: seq<string>)
    ensures p == "" ==> k == from
    ensures p != "" && p[0] == '/' ==> k == Segments(p)
    ensures from == [] ==> k == Segments(p)
  {
    if p != "" && p[0] == '/' then Segments(p)
    else
      assert from == [] ==> from + Segments(p) == Segments(p);
      from + Segments(p)
  }

  /** The number of trailing characters of b that path.Ext returns: from its
      last '.', as long as no '/' follows it; 0 when there is none. */
  function ExtLength(b: string): (n: nat)
    ensures n <= |b|
    ensures n > 0 ==> b[|b| - n] == '.'
  {
    if b == "" || b[|b| - 1] == '/' then 0
    else if b[|b| - 1] == '.' then 1
    else
      var k := ExtLength(b[..|b| - 1]);
      if k == 0 then 0 else k + 1
  }

  /** rmapi's DocPathToName: path.Base of the file path without its extension.
      path.Base gives "." for "" and "/" for a path of slashes only. */
  function DocPathToName(src: string): (name: string)
    ensures name == "/" || '/' !in name
  {
    var segs := Segments(src);
    var base := if segs != [] then segs[|segs| - 1] else if src == "" then "." else "/";
    base[..|base| - ExtLength(base)]
  }

  // ---------------------------------------------------------------------------
  // MkDir and Put over the file tree

  /** Connection.MkDir on the file tree `t`: the new error and tree. */
  function MkDirSpec(t: Tree, target: string, createDir: (string, string) -> Result<string, string>)
    : (r: (Option<Error>, Tree))
    requires RootIsDir(t)
    ensures RootIsDir(r.1)
    ensures var key := Segments(Normalize(target));
            && (key in t && t[key].kind == Dir ==> r == (None, t))
            && (key in t && t[key].kind == File ==> r == (Some(FileAtPath), t))
            && (key !in t ==> r == MkDirBelow(t, key, createDir))
            && (r.0.Some? ==> r.1 == t)
            && (r.0.None? ==> key in r.1 && r.1[key].kind == Dir)
  {
    var target := Normalize(target);
    var key := NodeByPath([], target);
    assert key == Segments(target);
    if key in t then
      if t[key].kind != Dir then (Some(FileAtPath), t) else (None, t)
    else
      MkDirBelow(t, key, createDir)
  }

  /** The part of MkDir after the target was not found: the parent must be a
      directory (the root's id is ""), and the new directory is created in it. */
  function MkDirBelow(t: Tree, key: seq<string>, createDir: (string, string) -> Result<string, string>)
    : (r: (Option<Error>, Tree))
    requires RootIsDir(t) && key !in t
    ensures RootIsDir(r.1)
    ensures var parent := key[..|key| - 1];
            && (parent !in t || t[parent].kind == File ==> r == (Some(ParentMissing), t))
            && (parent in t && t[parent].kind == Dir ==>
                  var parentId := if parent == [] then "" else t[parent].id;
                  match createDir(parentId, key[|key| - 1])
                  case Failure(e) => r == (Some(CreateDirFailed(e)), t)
                  case Success(id) => r == (None, t[key := Node(id, Dir, parentId)]))
    ensures r.0.Some? ==> r.1 == t
    ensures r.0.None? ==> key in r.1 && r.1[key].kind == Dir
  {
    var parent, newDir := key[..|key| - 1], key[|key| - 1];
    if parent !in t || t[parent].kind == File then (Some(ParentMissing), t)
    else
      var parentId := if parent == [] then "" else t[parent].id;
      match createDir(parentId, newDir)
      case Failure(e) => (Some(CreateDirFailed(e)), t)
      case Success(id) => (None, t[key := Node(id, Dir, parentId)])
  }

  /** Connection.Put on the file tree `t`: the destination directory must exist. */
  function PutSpec(t: Tree, srcName: string, destDir: string,
                   upload: (string, string) -> Result<string, string>): (r: (Option<Error>, Tree))
    requires RootIsDir(t)
    ensures RootIsDir(r.1)
    ensures var dest := Normalize(destDir);
            var dkey := Segments(dest);
            && (dkey !in t || t[dkey].kind == File ==> r == (Some(DirMissing(dest)), t))
            && (dkey in t && t[dkey].kind == Dir ==> r == PutInDir(t, dkey, srcName, upload))
            && (r.0.Some? ==> r.1 == t)
  {
    var dest := Normalize(destDir);
    var dkey := NodeByPath([], dest);
    assert dkey == Segments(dest);
    if dkey !in t || t[dkey].kind == File then (Some(DirMissing(dest)), t)
    else PutInDir(t, dkey, srcName, upload)
  }

  /** The part of Put inside the destination directory `dkey`: a document of
      the same name (DocPathToName) is an error; otherwise the upload adds
      exactly one file node to the directory. */
  function PutInDir(t: Tree, dkey: seq<string>, srcName: string,
                    upload: (string, string) -> Result<string, string>): (r: (Option<Error>, Tree))
    requires RootIsDir(t) && dkey in t && t[dkey].kind == Dir
    ensures RootIsDir(r.1)
    ensures NodeByPath(dkey, DocPathToName(srcName)) in t ==> r == (Some(FileExists), t)
    ensures upload(t[dkey].id, srcName).Failure? && NodeByPath(dkey, DocPathToName(srcName)) !in t ==>
              r == (Some(UploadFailed(srcName, upload(t[dkey].id, srcName).error)), t)
    ensures r.0.Some? ==> r.1 == t
    ensures r.0.None? ==>
              var key := dkey + [DocPathToName(srcName)];
              && key !in t
              && upload(t[dkey].id, srcName).Success?
              && r.1 == t[key := Node(upload(t[dkey].id, srcName).value, File, t[dkey].id)]
  {
    var docName := DocPathToName(srcName);
    if NodeByPath(dkey, docName) in t then (Some(FileExists), t)
    else
      match upload(t[dkey].id, srcName)
      case Failure(e) => (Some(UploadFailed(srcName, e)), t)
      case Success(id) =>
        NameKey(dkey, docName, t);
        (None, t[dkey + [docName] := Node(id, File, t[dkey].id)])
  }

  /** A name that NodeByPath does not find under an existing directory is a
      single new name below it. */
  lemma NameKey(dkey: seq<string>, docName: string, t: Tree)
    requires RootIsDir(t) && dkey in t
    requires docName == "/" || '/' !in docName
    requires NodeByPath(dkey, docName) !in t
    ensures docName != "" && '/' !in docName
    ensures NodeByPath(dkey, docName) == dkey + [docName]
  {
    assert Segments("/") == [] by {
      assert "/"[1..] == [];
    }
    SegmentsOfName(docName);
  }

  /** A new node under an existing directory keeps the tree well formed. */
  lemma AddNodeWellFormed(t: Tree, dir: seq<string>, name: string, n: Node)
    requires WellFormed(t) && dir + [name] !in t
    requires dir in t && t[dir].kind == Dir
    ensures WellFormed(t[dir + [name] := n])
  {
    var t' := t[dir + [name] := n];
    forall p, m | p + [m] in t'
      ensures p in t' && t'[p].kind == Dir
    {
      if p + [m] == dir + [name] {
        assert p == (p + [m])[..|p|] == (dir + [name])[..|dir|] == dir;
      } else {
        assert p in t && t[p].kind == Dir;
        assert p != dir + [name];
      }
    }
  }

  /** MkDir keeps the file tree well formed. */
  lemma MkDirKeepsWellFormed(t: Tree, target: string, createDir: (string, string) -> Result<string, string>)
    requires WellFormed(t)
    ensures WellFormed(MkDirSpec(t, target, createDir).1)
  {
    var key := Segments(Normalize(target));
    var r := MkDirSpec(t, target, createDir);
    if r.1 != t {
      var parent := key[..|key| - 1];
      assert key == parent + [key[|key| - 1]];
      AddNodeWellFormed(t, parent, key[|key| - 1], r.1[key]);
      assert r.1 == t[key := r.1[key]];
    }
  }

  /** Put keeps the file tree well formed. */
  lemma PutKeepsWellFormed(t: Tree, srcName: string, destDir: string,
                           upload: (string, string) -> Result<string, string>)
    requires WellFormed(t)
    ensures WellFormed(PutSpec(t, srcName, destDir, upload).1)
  {
    var dkey := Segments(Normalize(destDir));
    var docName := DocPathToName(srcName);
    var r := PutSpec(t, srcName, destDir, upload);
    if r.0.None? {
      AddNodeWellFormed(t, dkey, docName, r.1[dkey + [docName]]);
      assert r.1 == t[dkey + [docName] := r.1[dkey + [docName]]];
    }
  }

  /** Making a directory that MkDir has just made (or found) does nothing. */
  lemma MkDirTwice(t: Tree, target: string, createDir: (string, string) -> Result<string, string>)
    requires RootIsDir(t)
    requires MkDirSpec(t, target, createDir).0.None?
    ensures var t' := MkDirSpec(t, target, createDir).1;
            MkDirSpec(t', target, createDir) == (None, t')
  {
  }

  /** Uploading the same file to the same directory a second time reports that
      it already exists and changes nothing. */
  lemma PutTwice(t: Tree, srcName: string, destDir: string,
                 upload: (string, string) -> Result<string, string>)
    requires RootIsDir(t)
    requires PutSpec(t, srcName, destDir, upload).0.None?
    ensures var t' := PutSpec(t, srcName, destDir, upload).1;
            PutSpec(t', srcName, destDir, upload) == (Some(FileExists), t')
  {
    var dkey := Segments(Normalize(destDir));
    assert dkey in t && t[dkey].kind == Dir;
    PutInDirTwice(t, dkey, srcName, upload);
  }

  /** PutTwice inside the destination directory. */
  lemma PutInDirTwice(t: Tree, dkey: seq<string>, srcName: string,
                      upload: (string, string) -> Result<string, string>)
    requires RootIsDir(t) && dkey in t && t[dkey].kind == Dir
    requires PutInDir(t, dkey, srcName, upload).0.None?
    ensures var t' := PutInDir(t, dkey, srcName, upload).1;
            && dkey in t' && t'[dkey].kind == Dir
            && PutInDir(t', dkey, srcName, upload) == (Some(FileExists), t')
  {
    NameKey(dkey, DocPathToName(srcName), t);
  }

  /** A connection: the file tree of its API context, changed in place by
      MkDir and Put. */
  class Connection {
    var tree: Tree

    ghost predicate Valid()
      reads this
    {
      WellFormed(tree)
    }

    constructor (t: Tree)
      requires WellFormed(t)
      ensures tree == t && Valid()
    {
      tree := t;
    }

    /** Connection.MkDir: nothing to do if the directory exists, an error if a
        file is in its place, otherwise create it below its parent. */
    method MkDir(target: string, createDir: (string, string) -> Result<string, string>)
      returns (err: Option<Error>)
      requires Valid()
      modifies this
      ensures Valid()
      ensures (err, tree) == MkDirSpec(old(tree), target, createDir)
    {
      var path := Normalize(target);
      var key := NodeByPath([], path);
      assert key == Segments(path);
      if key in tree {
        if tree[key].kind != Dir {
          return Some(FileAtPath);
        }
        return None;
      }
      err := MkDirIn(key, createDir);
    }

    /** The rest of Connection.MkDir, once the path `key` is known to be free. */
    method MkDirIn(key: seq<string>, createDir: (string, string) -> Result<string, string>)
      returns (err: Option<Error>)
      requires Valid() && key !in tree
      modifies this
      ensures Valid()
      ensures (err, tree) == MkDirBelow(old(tree), key, createDir)
    {
      var t := tree;
      var parent, newDir := key[..|key| - 1], key[|key| - 1];
      if parent !in t || t[parent].kind == File {
        return Some(ParentMissing);
      }
      var parentId := t[parent].id;
      if parent == [] {
        parentId := "";
      }
      var document := createDir(parentId, newDir);
      if document.Failure? {
        return Some(CreateDirFailed(document.error));
      }
      assert key == parent + [newDir];
      AddNodeWellFormed(t, parent, newDir, Node(document.value, Dir, parentId));
      tree := t[key := Node(document.value, Dir, parentId)];
      return None;
    }

    /** Connection.Put: find the destination directory, then put the file in it. */
    method Put(srcName: string, destDir: string, upload: (string, string) -> Result<string, string>)
      returns (err: Option<Error>)
      requires Valid()
      modifies this
      ensures Valid()
      ensures (err, tree) == PutSpec(old(tree), srcName, destDir, upload)
    {
      ghost var spec := PutSpec(tree, srcName, destDir, upload);
      var dest := Normalize(destDir);
      var dkey := NodeByPath([], dest);
      assert dkey == Segments(dest);
      if dkey !in tree || tree[dkey].kind == File {
        assert spec == (Some(DirMissing(dest)), tree);
        return Some(DirMissing(dest));
      }
      assert spec == PutInDir(tree, dkey, srcName, upload);
      err := PutIn(dkey, srcName, upload);
    }

    /** The rest of Connection.Put, once the destination directory `dkey` is found. */
    method PutIn(dkey: seq<string>, srcName: string, upload: (string, string) -> Result<string, string>)
      returns (err: Option<Error>)
      requires Valid() && dkey in tree && tree[dkey].kind == Dir
      modifies this
      ensures Valid()
      ensures (err, tree) == PutInDir(old(tree), dkey, srcName, upload)
    {
      var t := tree;
      var docName := DocPathToName(srcName);
      if NodeByPath(dkey, docName) in t {
        return Some(FileExists);
      }
      var document := upload(t[dkey].id, srcName);
      if document.Failure? {
        return Some(UploadFailed(srcName, document.error));
      }
      NameKey(dkey, docName, t);
      AddNodeWellFormed(t, dkey, docName, Node(document.value, File, t[dkey].id));
      tree := t[dkey + [docName] := Node(document.value, File, t[dkey].id)];
      return None;
    }
  }
}
